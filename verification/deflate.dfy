/**
 * `DeflateCodec`: a streaming codec over raw DEFLATE (RFC 1951) framing, with
 * the zlib (RFC 1950) header, trailer and checksum switched off. It keeps the
 * requested level as given and creates each engine handle on first use,
 * resetting it on every use.
 */
module Deflate {
  import opened JavaLang
  import Engines
  import DataFileConstants

  /** `toString` of a codec holding `level`: the name, a dash and the level. */
  function Describe(level: int32): string {
    DataFileConstants.DEFLATE_CODEC + "-" + IntToString(level as int)
  }

  /** The description shows the level: different levels give different texts. */
  lemma DescribeInjective(a: int32, b: int32)
    ensures Describe(a) == Describe(b) <==> a == b
  {
    if Describe(a) == Describe(b) {
      FramedEqual(DataFileConstants.DEFLATE_CODEC + "-", IntToString(a as int), IntToString(b as int), "");
      IntToStringInjective(a as int, b as int);
    }
  }

  class DeflateCodec {
    var deflater: Engines.Deflater?
    var inflater: Engines.Inflater?
    /** Only raw DEFLATE is supported, so this never changes. */
    const nowrap: bool := true
    const compressionLevel: int32

    /**
     * Both engines, once created, use raw framing; the deflater uses this
     * codec's level, which the engine accepted.
     */
    predicate Valid()
      reads this, deflater, inflater
    {
      && (deflater != null ==>
            deflater.nowrap && deflater.level == compressionLevel
            && Engines.DeflaterAcceptsLevel(compressionLevel))
      && (inflater != null ==> inflater.nowrap)
    }

    /** The level is stored as requested, with no clamping; no engine exists yet. */
    constructor (compressionLevel: int32)
      ensures Valid() && this.compressionLevel == compressionLevel
      ensures deflater == null && inflater == null
      ensures DeflaterState() == Engines.Uninitialized && InflaterState() == Engines.Uninitialized
    {
      this.compressionLevel := compressionLevel;
      deflater := null;
      inflater := null;
    }

    function DeflaterState(): Engines.HandleState
      reads this
    {
      if deflater == null then Engines.Uninitialized else Engines.Ready
    }

    function InflaterState(): Engines.HandleState
      reads this
    {
      if inflater == null then Engines.Uninitialized else Engines.Ready
    }

    /** `getName`: the name the codec is registered under, whatever the level. */
    function GetName(): (name: string)
      ensures name == DataFileConstants.DEFLATE_CODEC
    {
      DataFileConstants.DEFLATE_CODEC
    }

    /**
     * Creates the raw-framing inflater on the first call only; every call
     * resets it and hands back the same object. The deflater is not touched.
     */
    method GetInflater() returns (inf: Engines.Inflater)
      requires Valid()
      modifies this`inflater, inflater
      ensures Valid() && inf == inflater && InflaterState() == Engines.Ready
      ensures old(inflater) != null ==> inf == old(inflater)
      ensures old(inflater) == null ==> fresh(inf)
      ensures inf.nowrap && inf.IsReset()
    {
      if inflater == null {
        inflater := new Engines.Inflater(nowrap);
      }
      inflater.Reset();
      inf := inflater;
    }

    /**
     * Creates the raw-framing deflater at this codec's level on the first call
     * only; every call resets it and hands back the same object. A level the
     * engine rejects makes every call throw IllegalArgumentException and leaves
     * the codec without a deflater. The inflater is not touched.
     */
    method GetDeflater() returns (r: Result<Engines.Deflater>)
      requires Valid()
      modifies this`deflater, deflater
      ensures Valid()
      ensures r.Ok? <==> Engines.DeflaterAcceptsLevel(compressionLevel)
      ensures r.Thrown? ==> r.error == IllegalArgumentException && deflater == null
      ensures r.Ok? ==> r.value == deflater && DeflaterState() == Engines.Ready
      ensures r.Ok? && old(deflater) != null ==> r.value == old(deflater)
      ensures r.Ok? && old(deflater) == null ==> fresh(r.value)
      ensures r.Ok? ==> r.value.nowrap && r.value.level == compressionLevel && r.value.IsReset()
    {
      if deflater == null {
        var created := Engines.NewDeflater(compressionLevel, nowrap);
        if created.Thrown? {
          return Thrown(created.error);
        }
        deflater := created.value;
      }
      deflater.Reset();
      r := Ok(deflater);
    }

    /** `hashCode`: 0 because `nowrap` is always set, whatever the level. */
    function HashCode(): (h: int32)
      ensures h == 0
    {
      (if nowrap then 0 else 1) as int32
    }

    /**
     * `equals`: true for this object and for any other `DeflateCodec` (both
     * have `nowrap` set), false for another class; a null argument throws,
     * because the class of the argument is read before any null test.
     */
    function Equals(obj: object?): (r: Result<bool>)
      ensures obj == null <==> r == Thrown(NullPointerException)
      ensures obj != null ==> r == Ok(obj is DeflateCodec)
    {
      if this == obj then Ok(true)
      else if obj == null then Thrown(NullPointerException)
      else if !(obj is DeflateCodec) then Ok(false)
      else Ok(nowrap == (obj as DeflateCodec).nowrap)
    }

    /**
     * `equals` as the general contract of `Object.equals` asks for it: false
     * for null instead of throwing, and otherwise the same as `Equals`.
     */
    predicate IntendedEquals(obj: object?)
      ensures !IntendedEquals(null)
      ensures IntendedEquals(obj) <==> obj is DeflateCodec
      ensures Equals(obj).Ok? ==> (IntendedEquals(obj) <==> Equals(obj) == Ok(true))
    {
      obj != null && (this == obj || (obj is DeflateCodec && nowrap == (obj as DeflateCodec).nowrap))
    }

    /**
     * `toString`: the name, a dash, and the decimal text of the level as
     * requested, from which the level reads back.
     */
    function ToString(): (s: string)
      ensures |s| > |GetName()| + 1 && s[..|GetName()| + 1] == GetName() + "-"
      ensures IsIntText(s[|GetName()| + 1..]) && ParseInt(s[|GetName()| + 1..]) == compressionLevel as int
    {
      var text := IntToString(compressionLevel as int);
      IntToStringRoundTrip(compressionLevel as int);
      assert Describe(compressionLevel)[|GetName()| + 1..] == text;
      Describe(compressionLevel)
    }
  }

  /** Any two codecs compare equal, in both directions, whatever their levels. */
  lemma EqualsIgnoresLevel(a: DeflateCodec, b: DeflateCodec)
    ensures a.Equals(b) == Ok(true) && b.Equals(a) == Ok(true)
    ensures a.IntendedEquals(b) && b.IntendedEquals(a)
  {
  }

  /** Comparing a codec with null throws instead of answering false. */
  lemma EqualsNullThrows(a: DeflateCodec)
    ensures a.Equals(null) == Thrown(NullPointerException)
    ensures !a.IntendedEquals(null)
  {
  }

  /** Equal codecs hash equally, under `equals` as the code has it. */
  lemma HashCodeConsistentWithEquals(a: DeflateCodec, obj: object?)
    requires a.Equals(obj) == Ok(true)
    ensures obj is DeflateCodec && (obj as DeflateCodec).HashCode() == a.HashCode()
  {
  }

  /** Equal codecs hash equally, under the null-safe `IntendedEquals`. */
  lemma HashCodeConsistentWithIntendedEquals(a: DeflateCodec, obj: object?)
    requires a.IntendedEquals(obj)
    ensures obj is DeflateCodec && (obj as DeflateCodec).HashCode() == a.HashCode()
  {
  }

  /** Codecs that compare equal still show their own levels. */
  lemma ToStringShowsLevel(a: DeflateCodec, b: DeflateCodec)
    ensures a.ToString() == b.ToString() <==> a.compressionLevel == b.compressionLevel
  {
    DescribeInjective(a.compressionLevel, b.compressionLevel);
  }
}

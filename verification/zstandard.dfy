/**
 * `ZstandardCodec`: a whole-buffer codec whose level is saturated into the
 * engine's supported range at construction, and which allocates its output
 * buffer on first use and resets it on every later use.
 */
module Zstandard {
  import opened JavaLang
  import Engines
  import DataFileConstants

  /**
   * The level a codec keeps for a requested level:
   * `Math.max(Math.min(requested, max), min)` over the engine's limits.
   * Out-of-range requests saturate silently instead of failing.
   */
  function ClampLevel(requested: int32): (level: int32)
    ensures requested < Engines.ZSTD_MIN_LEVEL ==> level == Engines.ZSTD_MIN_LEVEL
    ensures Engines.ZSTD_MIN_LEVEL <= Engines.ZSTD_MAX_LEVEL < requested ==> level == Engines.ZSTD_MAX_LEVEL
    ensures Engines.ZSTD_MIN_LEVEL <= requested <= Engines.ZSTD_MAX_LEVEL ==> level == requested
    ensures Engines.ZSTD_MIN_LEVEL <= Engines.ZSTD_MAX_LEVEL ==>
      Engines.ZSTD_MIN_LEVEL <= level <= Engines.ZSTD_MAX_LEVEL
    ensures Engines.ZSTD_MAX_LEVEL < Engines.ZSTD_MIN_LEVEL ==> level == Engines.ZSTD_MIN_LEVEL
  {
    Max(Min(requested, Engines.ZSTD_MAX_LEVEL), Engines.ZSTD_MIN_LEVEL)
  }

  /** `toString` of a codec holding `level`: the name and the level in brackets. */
  function Describe(level: int32): string {
    DataFileConstants.ZSTANDARD_CODEC + "[" + IntToString(level as int) + "]"
  }

  /** The description shows the level: different levels give different texts. */
  lemma DescribeInjective(a: int32, b: int32)
    ensures Describe(a) == Describe(b) <==> a == b
  {
    if Describe(a) == Describe(b) {
      FramedEqual(DataFileConstants.ZSTANDARD_CODEC + "[", IntToString(a as int), IntToString(b as int), "]");
      IntToStringInjective(a as int, b as int);
    }
  }

  class ZstandardCodec {
    const compressionLevel: int32
    var outputBuffer: Engines.ByteArrayOutputStream?

    /** Construction is cheap: the level is clamped, no buffer is allocated yet. */
    constructor (compressionLevel: int32)
      ensures this.compressionLevel == ClampLevel(compressionLevel)
      ensures outputBuffer == null && BufferStatus() == Engines.Uninitialized
    {
      this.compressionLevel := ClampLevel(compressionLevel);
      outputBuffer := null;
    }

    function BufferStatus(): Engines.HandleState
      reads this
    {
      if outputBuffer == null then Engines.Uninitialized else Engines.Ready
    }

    /** `getName`: the name the codec is registered under, whatever the level. */
    function GetName(): (name: string)
      ensures name == DataFileConstants.ZSTANDARD_CODEC
    {
      DataFileConstants.ZSTANDARD_CODEC
    }

    /**
     * Allocates the buffer on the first call only; every call empties it and
     * hands back the same object.
     */
    method GetOutputBuffer(suggestedLength: int32) returns (buffer: Engines.ByteArrayOutputStream)
      requires suggestedLength >= 0
      modifies this, outputBuffer
      ensures buffer == outputBuffer && BufferStatus() == Engines.Ready
      ensures old(outputBuffer) != null ==> buffer == old(outputBuffer)
      ensures old(outputBuffer) == null ==> fresh(buffer)
      ensures buffer.bytes == []
    {
      if outputBuffer == null {
        outputBuffer := new Engines.ByteArrayOutputStream(suggestedLength);
      }
      outputBuffer.Reset();
      buffer := outputBuffer;
    }

    /**
     * Compresses `data` by running the engine `zstd` at this codec's level into
     * the reused buffer. Whatever earlier calls left in the buffer, the result
     * is exactly the engine's output.
     */
    method Compress(data: seq<bv8>, zstd: (int32, seq<bv8>) -> seq<bv8>) returns (compressed: seq<bv8>)
      requires |data| < 0x8000_0000
      modifies this, outputBuffer
      ensures compressed == zstd(compressionLevel, data)
      ensures outputBuffer != null && outputBuffer.bytes == compressed
      ensures old(outputBuffer) != null ==> outputBuffer == old(outputBuffer)
      ensures old(outputBuffer) == null ==> fresh(outputBuffer)
    {
      var baos := GetOutputBuffer(|data| as int32);
      baos.Write(zstd(compressionLevel, data));
      compressed := baos.bytes;
    }

    /**
     * Decompresses `compressedData` with the engine `unzstd`, which throws an
     * `IOException` on a malformed or truncated payload. The result is exactly
     * the engine's, whatever earlier calls left in the buffer.
     */
    method Decompress(compressedData: seq<bv8>, unzstd: seq<bv8> -> Result<seq<bv8>>)
      returns (r: Result<seq<bv8>>)
      requires |compressedData| < 0x8000_0000
      modifies this, outputBuffer
      ensures r == unzstd(compressedData)
      ensures outputBuffer != null && (r.Ok? ==> outputBuffer.bytes == r.value)
      ensures old(outputBuffer) != null ==> outputBuffer == old(outputBuffer)
      ensures old(outputBuffer) == null ==> fresh(outputBuffer)
    {
      var baos := GetOutputBuffer(|compressedData| as int32);
      var plain := unzstd(compressedData);
      match plain {
        case Ok(bytes) =>
          baos.Write(bytes);
          assert baos.bytes == bytes;
          r := Ok(baos.bytes);
        case Thrown(e) =>
          r := Thrown(e);
      }
    }

    /** `hashCode`: the hash of the constant name, whatever the level. */
    function HashCode(): (h: int32)
      ensures h == StringHash(DataFileConstants.ZSTANDARD_CODEC)
    {
      StringHash(GetName())
    }

    /** `equals`: the same object, or any other object of this class. */
    predicate Equals(obj: object?)
      ensures Equals(obj) <==> obj is ZstandardCodec
    {
      this == obj || (obj != null && obj is ZstandardCodec)
    }

    /**
     * `toString`: the name, then the decimal text of the clamped level in
     * square brackets, from which the level reads back.
     */
    function ToString(): (s: string)
      ensures |s| > |GetName()| + 2 && s[..|GetName()| + 1] == GetName() + "[" && s[|s| - 1] == ']'
      ensures IsIntText(s[|GetName()| + 1..|s| - 1])
      ensures ParseInt(s[|GetName()| + 1..|s| - 1]) == compressionLevel as int
    {
      var text := IntToString(compressionLevel as int);
      IntToStringRoundTrip(compressionLevel as int);
      assert Describe(compressionLevel)[|GetName()| + 1..|Describe(compressionLevel)| - 1] == text;
      Describe(compressionLevel)
    }
  }

  /**
   * A codec used for two blocks in a row, starting with no buffer: the second
   * result is the engine's output for the second block alone, and both calls
   * share the one buffer allocated by the first.
   */
  method CompressTwice(codec: ZstandardCodec, first: seq<bv8>, second: seq<bv8>,
                       zstd: (int32, seq<bv8>) -> seq<bv8>)
    returns (a: seq<bv8>, b: seq<bv8>)
    requires codec.outputBuffer == null
    requires |first| < 0x8000_0000 && |second| < 0x8000_0000
    modifies codec
    ensures a == zstd(codec.compressionLevel, first) && b == zstd(codec.compressionLevel, second)
    ensures fresh(codec.outputBuffer) && codec.outputBuffer.bytes == b
  {
    a := codec.Compress(first, zstd);
    var buffer := codec.outputBuffer;
    b := codec.Compress(second, zstd);
    assert codec.outputBuffer == buffer;
  }

  /** `equals` is true exactly for codecs of this class: reflexive, level-blind, false for null. */
  lemma EqualsIsClassIdentity(a: ZstandardCodec, obj: object?)
    ensures a.Equals(a)
    ensures !a.Equals(null)
    ensures a.Equals(obj) <==> obj is ZstandardCodec
  {
  }

  /** Any two codecs compare equal, in both directions, whatever their levels. */
  lemma EqualsIgnoresLevel(a: ZstandardCodec, b: ZstandardCodec)
    ensures a.Equals(b) && b.Equals(a)
  {
  }

  /** Equal codecs hash equally. */
  lemma HashCodeConsistentWithEquals(a: ZstandardCodec, obj: object?)
    requires a.Equals(obj)
    ensures obj is ZstandardCodec && (obj as ZstandardCodec).HashCode() == a.HashCode()
  {
  }

  /** Codecs that compare equal still show their own levels. */
  lemma ToStringShowsLevel(a: ZstandardCodec, b: ZstandardCodec)
    ensures a.ToString() == b.ToString() <==> a.compressionLevel == b.compressionLevel
  {
    DescribeInjective(a.compressionLevel, b.compressionLevel);
  }
}

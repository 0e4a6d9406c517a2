/**
 * `CodecFactory`: the configuration-holding builders that create codec
 * instances, and the process-wide registry from codec names to builders.
 */
module CodecFactory {
  import opened JavaLang
  import Engines
  import DataFileConstants
  import Zstandard
  import Deflate

  /**
   * A codec factory. Each constructor is one `Option` class; the static
   * methods `nullCodec()`, `deflateCodec(level)`, `snappyCodec()`,
   * `bzip2Codec()`, `xzCodec(level)` and `zstdCodec(level)` build them, and a
   * level is kept here exactly as requested. `CustomOption` stands for a
   * factory added by a caller, whose code is not part of this model.
   */
  datatype Factory =
    | NullOption
    | DeflateOption(compressionLevel: int32)
    | SnappyOption
    | BZip2Option
    | XZOption(compressionLevel: int32)
    | ZstdOption(compressionLevel: int32)
    | CustomOption(name: string)

  const DEFAULT_DEFLATE_LEVEL: int32 := Engines.DEFAULT_COMPRESSION
  const DEFAULT_XZ_LEVEL: int32 := Engines.PRESET_DEFAULT
  const DEFAULT_ZSTD_LEVEL: int32 := 1

  /**
   * A codec instance: one of the two codec classes modelled here, or an
   * instance of a class that is not part of this model, known only by the
   * factory that created it.
   */
  datatype Codec =
    | DeflateInstance(deflate: Deflate.DeflateCodec)
    | ZstdInstance(zstd: Zstandard.ZstandardCodec)
    | Opaque(factory: Factory)

  /** `createInstance()`: a new codec bound to the factory's configuration, with no engine set up yet. */
  method CreateInstance(f: Factory) returns (c: Codec)
    ensures f.DeflateOption? ==>
      && c.DeflateInstance? && fresh(c.deflate) && c.deflate.Valid()
      && c.deflate.compressionLevel == f.compressionLevel
      && c.deflate.DeflaterState() == Engines.Uninitialized
      && c.deflate.InflaterState() == Engines.Uninitialized
    ensures f.ZstdOption? ==>
      && c.ZstdInstance? && fresh(c.zstd)
      && c.zstd.compressionLevel == Zstandard.ClampLevel(f.compressionLevel)
      && c.zstd.BufferStatus() == Engines.Uninitialized
    ensures !f.DeflateOption? && !f.ZstdOption? ==> c == Opaque(f)
  {
    match f {
      case DeflateOption(level) =>
        var d := new Deflate.DeflateCodec(level);
        c := DeflateInstance(d);
      case ZstdOption(level) =>
        var z := new Zstandard.ZstandardCodec(level);
        c := ZstdInstance(z);
      case _ =>
        c := Opaque(f);
    }
  }

  /** The `toString` of an instance, for the classes modelled here. */
  function InstanceToString(c: Codec): Option<string> {
    match c
    case DeflateInstance(d) => Some(d.ToString())
    case ZstdInstance(z) => Some(z.ToString())
    case Opaque(_) => None
  }

  /**
   * What a factory's `toString` shows, computed from its configuration alone:
   * deflate shows the level as requested, Zstandard the level it saturates to.
   */
  function Description(f: Factory): Option<string> {
    match f
    case DeflateOption(level) => Some(Deflate.Describe(level))
    case ZstdOption(level) => Some(Zstandard.Describe(Zstandard.ClampLevel(level)))
    case _ => None
  }

  /** A factory's `toString` is that of a freshly created instance. */
  method FactoryToString(f: Factory) returns (s: Option<string>)
    ensures s == Description(f)
  {
    var instance := CreateInstance(f);
    s := InstanceToString(instance);
  }

  /** Two Zstandard factories print alike exactly when their levels saturate to the same level. */
  lemma ZstdDescriptionShowsEffectiveLevel(a: int32, b: int32)
    ensures Description(ZstdOption(a)) == Description(ZstdOption(b))
        <==> Zstandard.ClampLevel(a) == Zstandard.ClampLevel(b)
  {
    Zstandard.DescribeInjective(Zstandard.ClampLevel(a), Zstandard.ClampLevel(b));
  }

  /** Two deflate factories print alike exactly when they hold the same level. */
  lemma DeflateDescriptionShowsLevel(a: int32, b: int32)
    ensures Description(DeflateOption(a)) == Description(DeflateOption(b)) <==> a == b
  {
    Deflate.DescribeInjective(a, b);
  }

  /** Codecs of different algorithms never compare equal, in either direction. */
  lemma DifferentAlgorithmsUnequal(z: Zstandard.ZstandardCodec, d: Deflate.DeflateCodec)
    ensures !z.Equals(d)
    ensures d.Equals(z) == Ok(false) && !d.IntendedEquals(z)
  {
  }

  // ---------------------------------------------------------------------
  // The registry
  // ---------------------------------------------------------------------

  /**
   * `HashMap.get`: the factory stored under `name`, or null when there is
   * none. A caller may also have stored null itself.
   */
  function Get(m: map<string, Option<Factory>>, name: string): Option<Factory> {
    if name in m then m[name] else None
  }

  /** The registry after the registrations `regs`, made in order, starting from `m`. */
  function RegisterAll(m: map<string, Option<Factory>>, regs: seq<(string, Option<Factory>)>)
    : map<string, Option<Factory>>
    decreases |regs|
  {
    if |regs| == 0 then m else RegisterAll(m[regs[0].0 := regs[0].1], regs[1..])
  }

  /** The registrations of the static initialiser, in order. */
  function Seeds(): seq<(string, Option<Factory>)> {
    [ (DataFileConstants.NULL_CODEC, Some(NullOption)),
      (DataFileConstants.DEFLATE_CODEC, Some(DeflateOption(DEFAULT_DEFLATE_LEVEL))),
      (DataFileConstants.SNAPPY_CODEC, Some(SnappyOption)),
      (DataFileConstants.BZIP2_CODEC, Some(BZip2Option)),
      (DataFileConstants.XZ_CODEC, Some(XZOption(DEFAULT_XZ_LEVEL))),
      (DataFileConstants.ZSTD_CODEC, Some(ZstdOption(DEFAULT_ZSTD_LEVEL))) ]
  }

  /** Registration only ever adds names: the names afterwards are the old ones plus those registered. */
  lemma {:induction false} RegisterAllKeys(m: map<string, Option<Factory>>, regs: seq<(string, Option<Factory>)>)
    ensures RegisterAll(m, regs).Keys == m.Keys + set k | 0 <= k < |regs| :: regs[k].0
    decreases |regs|
  {
    if |regs| > 0 {
      RegisterAllKeys(m[regs[0].0 := regs[0].1], regs[1..]);
      var rest := set k | 0 <= k < |regs| - 1 :: regs[1..][k].0;
      var all := set k | 0 <= k < |regs| :: regs[k].0;
      assert all == {regs[0].0} + rest by {
        forall name | name in all ensures name in {regs[0].0} + rest {
          var k :| 0 <= k < |regs| && regs[k].0 == name;
          if k > 0 {
            assert regs[1..][k - 1].0 == name;
          }
        }
        forall name | name in rest ensures name in all {
          var k :| 0 <= k < |regs| - 1 && regs[1..][k].0 == name;
          assert regs[k + 1].0 == name;
        }
      }
    }
  }

  /** Registering `a` and then `b` is registering `a + b`. */
  lemma {:induction false} RegisterAllAppend(m: map<string, Option<Factory>>, a: seq<(string, Option<Factory>)>, b: seq<(string, Option<Factory>)>)
    ensures RegisterAll(m, a + b) == RegisterAll(RegisterAll(m, a), b)
    decreases |a|
  {
    if |a| > 0 {
      assert (a + b)[0] == a[0];
      assert (a + b)[1..] == a[1..] + b;
      RegisterAllAppend(m[a[0].0 := a[0].1], a[1..], b);
    } else {
      assert a + b == b;
    }
  }

  /** The last registration of a name decides what is stored under it. */
  lemma {:induction false} LastRegistrationWins(m: map<string, Option<Factory>>, regs: seq<(string, Option<Factory>)>, i: nat)
    requires i < |regs|
    requires forall j :: i < j < |regs| ==> regs[j].0 != regs[i].0
    ensures Get(RegisterAll(m, regs), regs[i].0) == regs[i].1
    decreases |regs|
  {
    if i > 0 {
      LastRegistrationWins(m[regs[0].0 := regs[0].1], regs[1..], i - 1);
    } else {
      UnregisteredNameUnchanged(m[regs[0].0 := regs[0].1], regs[1..], regs[0].0);
    }
  }

  /** A name no registration mentions keeps what it had. */
  lemma {:induction false} UnregisteredNameUnchanged(m: map<string, Option<Factory>>, regs: seq<(string, Option<Factory>)>, name: string)
    requires forall j :: 0 <= j < |regs| ==> regs[j].0 != name
    ensures Get(RegisterAll(m, regs), name) == Get(m, name)
    decreases |regs|
  {
    if |regs| > 0 {
      UnregisteredNameUnchanged(m[regs[0].0 := regs[0].1], regs[1..], name);
    }
  }

  /**
   * With no removal operation, a name that resolves keeps resolving through
   * any registrations that do not store null under that name.
   */
  lemma {:induction false} ResolvedNameStaysResolved(m: map<string, Option<Factory>>, regs: seq<(string, Option<Factory>)>, name: string)
    requires Get(m, name).Some?
    requires forall j :: 0 <= j < |regs| && regs[j].0 == name ==> regs[j].1.Some?
    ensures Get(RegisterAll(m, regs), name).Some?
    decreases |regs|
  {
    if |regs| > 0 {
      ResolvedNameStaysResolved(m[regs[0].0 := regs[0].1], regs[1..], name);
    }
  }

  /** The registry as the static initialiser leaves it. */
  function BuiltIns(): map<string, Option<Factory>> {
    map[
      DataFileConstants.NULL_CODEC := Some(NullOption),
      DataFileConstants.DEFLATE_CODEC := Some(DeflateOption(DEFAULT_DEFLATE_LEVEL)),
      DataFileConstants.SNAPPY_CODEC := Some(SnappyOption),
      DataFileConstants.BZIP2_CODEC := Some(BZip2Option),
      DataFileConstants.XZ_CODEC := Some(XZOption(DEFAULT_XZ_LEVEL)),
      DataFileConstants.ZSTD_CODEC := Some(ZstdOption(DEFAULT_ZSTD_LEVEL))
    ]
  }

  /** Making the six seed registrations in order yields `BuiltIns()`. */
  lemma SeedsRegisterBuiltIns()
    ensures RegisterAll(map[], Seeds()) == BuiltIns()
  {
  }

  /**
   * Any run of registrations made after static initialisation acts on the
   * six built-ins, as if they had been the starting map.
   */
  lemma RegistrationsAfterSeeding(added: seq<(string, Option<Factory>)>)
    ensures RegisterAll(map[], Seeds() + added) == RegisterAll(BuiltIns(), added)
  {
    RegisterAllAppend(map[], Seeds(), added);
    SeedsRegisterBuiltIns();
  }

  /**
   * After static initialisation exactly the six built-in names resolve, each
   * to its documented default configuration.
   */
  lemma BuiltInsRegistered()
    ensures BuiltIns().Keys == {"null", "deflate", "snappy", "bzip2", "xz", "zstd"}
    ensures |BuiltIns()| == 6
    ensures Get(BuiltIns(), "null") == Some(NullOption)
    ensures Get(BuiltIns(), "deflate") == Some(DeflateOption(Engines.DEFAULT_COMPRESSION))
    ensures Get(BuiltIns(), "snappy") == Some(SnappyOption)
    ensures Get(BuiltIns(), "bzip2") == Some(BZip2Option)
    ensures Get(BuiltIns(), "xz") == Some(XZOption(Engines.PRESET_DEFAULT))
    ensures Get(BuiltIns(), "zstd") == Some(ZstdOption(1))
  {
  }

  /**
   * The process-wide registry of codec factories by name. It is filled by the
   * static initialiser and changed only by `AddCodec`; nothing removes a name.
   * `history` records every registration made so far, in order.
   */
  class Registry {
    var registered: map<string, Option<Factory>>
    ghost var history: seq<(string, Option<Factory>)>

    /** The map is the result of making the recorded registrations in order. */
    ghost predicate Valid()
      reads this
    {
      registered == RegisterAll(map[], history)
    }

    /** The static initialiser: the six built-ins, registered one after the other. */
    constructor ()
      ensures Valid() && history == Seeds()
      ensures registered == RegisterAll(map[], Seeds()) == BuiltIns()
    {
      registered := map[];
      history := [];
      new;
      var previous := AddCodec(DataFileConstants.NULL_CODEC, Some(NullOption));
      previous := AddCodec(DataFileConstants.DEFLATE_CODEC, Some(DeflateOption(DEFAULT_DEFLATE_LEVEL)));
      previous := AddCodec(DataFileConstants.SNAPPY_CODEC, Some(SnappyOption));
      previous := AddCodec(DataFileConstants.BZIP2_CODEC, Some(BZip2Option));
      previous := AddCodec(DataFileConstants.XZ_CODEC, Some(XZOption(DEFAULT_XZ_LEVEL)));
      previous := AddCodec(DataFileConstants.ZSTD_CODEC, Some(ZstdOption(DEFAULT_ZSTD_LEVEL)));
      SeedsRegisterBuiltIns();
    }

    /**
     * `fromString`: the factory registered under `s`, or an "Unrecognized
     * codec" error when there is none (or null was registered).
     */
    function FromString(s: string): (r: Result<Factory>)
      reads this
      ensures r.Ok? <==> Get(registered, s).Some?
      ensures r.Ok? ==> Get(registered, s) == Some(r.value)
      ensures r.Thrown? ==> r.error == AvroRuntimeException("Unrecognized codec: " + s)
    {
      match Get(registered, s)
      case Some(o) => Ok(o)
      case None => Thrown(AvroRuntimeException("Unrecognized codec: " + s))
    }

    /**
     * `addCodec`: stores `c` under `name`, replacing any earlier factory, and
     * returns what was stored there before (null if nothing was).
     */
    method AddCodec(name: string, c: Option<Factory>) returns (previous: Option<Factory>)
      requires Valid()
      modifies this
      ensures Valid() && history == old(history) + [(name, c)]
      ensures registered == old(registered)[name := c]
      ensures previous == Get(old(registered), name)
      ensures c.Some? ==> FromString(name) == Ok(c.value)
      ensures c.None? ==> FromString(name).Thrown?
      ensures forall s :: s != name ==> FromString(s) == old(FromString(s))
    {
      RegisterAllAppend(map[], history, [(name, c)]);
      previous := Get(registered, name);
      registered := registered[name := c];
      history := history + [(name, c)];
    }
  }
}

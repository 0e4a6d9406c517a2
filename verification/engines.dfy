/**
 * The external engines the codecs wrap, reduced to what the codec layer
 * observes of them: their configuration constants and the state that
 * `reset()` clears. The compression algorithms themselves are not modelled.
 */
module Engines {
  import opened JavaLang

  /**
   * Whether a handle that a codec creates on first use (an output buffer, a
   * deflater, an inflater) exists yet.
   */
  datatype HandleState = Uninitialized | Ready

  /** `Deflater.DEFAULT_COMPRESSION`; its value belongs to java.util.zip. */
  const DEFAULT_COMPRESSION: int32
  /** `Deflater.NO_COMPRESSION` and `Deflater.BEST_COMPRESSION`, the ends of the level range. */
  const NO_COMPRESSION: int32 := 0
  const BEST_COMPRESSION: int32 := 9

  /** The levels `new Deflater(level, nowrap)` accepts; any other level is an IllegalArgumentException. */
  predicate DeflaterAcceptsLevel(level: int32) {
    level == DEFAULT_COMPRESSION || NO_COMPRESSION <= level <= BEST_COMPRESSION
  }

  /** `LZMA2Options.PRESET_DEFAULT`; its value belongs to the xz library. */
  const PRESET_DEFAULT: int32
  /** `Zstd.minCompressionLevel()`; its value belongs to the zstd library. */
  const ZSTD_MIN_LEVEL: int32
  /** `Zstd.maxCompressionLevel()`; its value belongs to the zstd library. */
  const ZSTD_MAX_LEVEL: int32

  /** `java.io.ByteArrayOutputStream`: a growable byte accumulator. */
  class ByteArrayOutputStream {
    var bytes: seq<bv8>

    /** `new ByteArrayOutputStream(size)`; a negative size is refused by the JDK. */
    constructor (size: int32)
      requires size >= 0
      ensures bytes == []
    {
      bytes := [];
    }

    /** Discards everything written so far, keeping the storage. */
    method Reset()
      modifies this
      ensures bytes == []
    {
      bytes := [];
    }

    method Write(data: seq<bv8>)
      modifies this
      ensures bytes == old(bytes) + data
    {
      bytes := bytes + data;
    }
  }

  /**
   * `java.util.zip.Deflater`: a compression level and a framing mode fixed at
   * construction, and per-stream state (input not yet consumed, whether the
   * stream was finished) that `reset()` clears.
   */
  class Deflater {
    const level: int32
    /** True: raw DEFLATE (RFC 1951) without the zlib (RFC 1950) header and checksum. */
    const nowrap: bool
    var pending: seq<bv8>
    var finished: bool

    predicate IsReset()
      reads this
    {
      pending == [] && !finished
    }

    constructor (level: int32, nowrap: bool)
      requires DeflaterAcceptsLevel(level)
      ensures this.level == level && this.nowrap == nowrap && IsReset()
    {
      this.level := level;
      this.nowrap := nowrap;
      pending := [];
      finished := false;
    }

    method Reset()
      modifies this
      ensures IsReset()
    {
      pending := [];
      finished := false;
    }
  }

  /**
   * `new Deflater(level, nowrap)`, which throws IllegalArgumentException for a
   * level the engine does not accept.
   */
  method NewDeflater(level: int32, nowrap: bool) returns (r: Result<Deflater>)
    ensures r.Ok? <==> DeflaterAcceptsLevel(level)
    ensures r.Ok? ==> fresh(r.value) && r.value.level == level && r.value.nowrap == nowrap && r.value.IsReset()
    ensures r.Thrown? ==> r.error == IllegalArgumentException
  {
    if DeflaterAcceptsLevel(level) {
      var d := new Deflater(level, nowrap);
      r := Ok(d);
    } else {
      r := Thrown(IllegalArgumentException);
    }
  }

  /** `java.util.zip.Inflater`: the decompressing counterpart of `Deflater`. */
  class Inflater {
    /** True: expects raw DEFLATE (RFC 1951) input with no zlib wrapper. */
    const nowrap: bool
    var pending: seq<bv8>
    var finished: bool

    predicate IsReset()
      reads this
    {
      pending == [] && !finished
    }

    constructor (nowrap: bool)
      ensures this.nowrap == nowrap && IsReset()
    {
      this.nowrap := nowrap;
      pending := [];
      finished := false;
    }

    method Reset()
      modifies this
      ensures IsReset()
    {
      pending := [];
      finished := false;
    }
  }
}

# Avro block-compression codecs: the integration layer

This project models, in Dafny, the layer of Apache Avro's Java library that
sits between the container file format and the external compression engines:

- the process-wide **codec registry** of `CodecFactory`, a mutable map from a
  codec name (the only codec attribute a file records) to a factory, seeded with
  six built-ins and extended by `addCodec`;
- the **factories** (`DeflateCodec.Option`, `ZstandardCodec.Option`, ...) that
  hold a requested level and create codec instances;
- the **Zstandard codec**, which saturates its level into the engine's range,
  and the **deflate codec**, which keeps its level as given and always uses raw
  DEFLATE framing (RFC 1951, no RFC 1950 zlib header or checksum);
- the **equality rules**: two codecs of one algorithm are equal whatever their
  levels, and hash codes agree with equality, while `toString` still shows the
  level in effect;
- the **allocate once, reset on every use** discipline of the Zstandard output
  buffer and the deflate `Inflater`/`Deflater` handles: a two-state machine,
  Uninitialized then Ready, where every use hands back the same object, reset.

Files, one module each: `java_lang.dfy` (Java's `int`, null, exceptions,
`Integer.toString` with a proved parse-back, `String.hashCode`),
`engines.dfy` (the engines' constants and the state their `reset()` clears),
`data_file_constants.dfy` (codec names), `zstandard.dfy`, `deflate.dfy`,
`codec_factory.dfy` (factories, `createInstance`, the registry).

The registry is a class `Registry` whose field `registered` is the map; its
constructor performs the static initialiser's six `addCodec` calls. A value may
be null (`None`), because `addCodec` accepts a null factory and `fromString`
then fails for that name exactly as for an unknown one. The pure function
`RegisterAll` describes any sequence of `addCodec` calls, and the lemmas about
it state what the registry promises over many calls. The static factory methods
`deflateCodec(level)`, `zstdCodec(level)`, ... are the constructors of the
`Factory` datatype.

The external engines enter as parameters, abstract constants and one
assumption. `Zstd.minCompressionLevel()`/`maxCompressionLevel()`,
`Deflater.DEFAULT_COMPRESSION` and `LZMA2Options.PRESET_DEFAULT` are constants
without a value (nothing assumes the minimum is at most the maximum), and the
Zstandard compressor and decompressor are function arguments of `Compress` and
`Decompress`. The `java.util.zip` classes are modelled only as far as the codecs
observe them: the state `reset()` clears and, for `new Deflater(level, nowrap)`,
which levels it accepts. That it accepts exactly `DEFAULT_COMPRESSION` or a
level from 0 (`NO_COMPRESSION`) to 9 (`BEST_COMPRESSION`), and throws
IllegalArgumentException for any other, is taken from the documented behaviour
of `java.util.zip.Deflater` and is an assumption of this model. Because
`DEFAULT_COMPRESSION` has no value here, the model cannot show that any single
level outside 0 to 9 is rejected: each such level might be the default.

Codec names: the declarations of `DataFileConstants` are not part of this
model. The six registry keys are given the values `null`, `deflate`, `snappy`,
`bzip2`, `xz` and `zstd`, taken from the lists of default registrations in the
`CodecFactory` documentation (CodecFactory.java:29-37 and 100-111); that these
documented names are the constants' values is an assumption. The name a
`ZstandardCodec` reports for itself (`DataFileConstants.ZSTANDARD_CODEC`) is a
different constant in the code from the key it is registered under
(`DataFileConstants.ZSTD_CODEC`); no list gives its value, so it is left without
one and is not assumed to equal `zstd`.

The registry also records, as ghost state, the sequence of registrations made
so far; the map is always `RegisterAll` of that history from the empty map, so
every lemma about `RegisterAll` applies to a run of `addCodec` calls.

## Model

| member | source | states |
|---|---|---|
| `Zstandard.ClampLevel` | lang/java/avro/src/main/java/org/apache/avro/file/ZstandardCodec.java:51-55 | a request below the engine minimum becomes the minimum; above the maximum becomes the maximum; in range is kept; the result lies in [min, max] when min <= max, and is min when max < min |
| `Zstandard.ZstandardCodec.constructor` | lang/java/avro/src/main/java/org/apache/avro/file/ZstandardCodec.java:51-55 | the codec keeps the clamped level and starts Uninitialized, with no output buffer |
| `Zstandard.ZstandardCodec.GetOutputBuffer` | lang/java/avro/src/main/java/org/apache/avro/file/ZstandardCodec.java:85-91 | allocates a buffer only when there is none; otherwise returns the same buffer object; in both cases the buffer is empty afterwards and the state is Ready |
| `Zstandard.ZstandardCodec.Compress` | lang/java/avro/src/main/java/org/apache/avro/file/ZstandardCodec.java:63-69 | the result is exactly the engine's output at the codec's clamped level, whatever earlier calls left in the reused buffer, which stays the same object |
| `Zstandard.ZstandardCodec.Decompress` | lang/java/avro/src/main/java/org/apache/avro/file/ZstandardCodec.java:71-82 | the result is exactly the engine's output or its exception, whatever earlier calls left in the reused buffer, which on success holds exactly the result and stays the same object |
| `Zstandard.CompressTwice` | lang/java/avro/src/main/java/org/apache/avro/file/ZstandardCodec.java:62-91 | a codec reused for two blocks, starting without a buffer, returns for the second block exactly the engine's output for that block alone; both calls share the one buffer the first allocated |
| `Zstandard.ZstandardCodec.GetName` | lang/java/avro/src/main/java/org/apache/avro/file/ZstandardCodec.java:57-60 | the name is `DataFileConstants.ZSTANDARD_CODEC`, whatever the level |
| `Zstandard.ZstandardCodec.Equals` | lang/java/avro/src/main/java/org/apache/avro/file/ZstandardCodec.java:98-102 | true exactly for objects of the class (so false for null), whatever their levels |
| `Zstandard.ZstandardCodec.HashCode` | lang/java/avro/src/main/java/org/apache/avro/file/ZstandardCodec.java:93-96 | the hash of the constant name `ZSTANDARD_CODEC`, independent of the level |
| `Zstandard.ZstandardCodec.ToString` | lang/java/avro/src/main/java/org/apache/avro/file/ZstandardCodec.java:104-107 | the text starts with the name and "[", ends with "]", and what lies between is a decimal integer that reads back as the clamped level |
| `Zstandard.EqualsIsClassIdentity` | lang/java/avro/src/main/java/org/apache/avro/file/ZstandardCodec.java:98-102 | `equals` is reflexive, false for null, and true exactly for objects of the class |
| `Zstandard.EqualsIgnoresLevel` | lang/java/avro/src/main/java/org/apache/avro/file/ZstandardCodec.java:98-102 | any two Zstandard codecs are equal in both directions, whatever their levels |
| `Zstandard.HashCodeConsistentWithEquals` | lang/java/avro/src/main/java/org/apache/avro/file/ZstandardCodec.java:93-96 | an object equal to a codec is a Zstandard codec with the same hash code |
| `Zstandard.DescribeInjective` | lang/java/avro/src/main/java/org/apache/avro/file/ZstandardCodec.java:104-107 | the text name + "[" + level + "]" determines the level |
| `Zstandard.ToStringShowsLevel` | lang/java/avro/src/main/java/org/apache/avro/file/ZstandardCodec.java:104-107 | two Zstandard codecs have the same `toString` exactly when they hold the same (clamped) level |
| `Deflate.DeflateCodec.constructor` | lang/java/avro/src/main/java/org/apache/avro/file/DeflateCodec.java:60-62 | the level is stored unchanged, with no clamping; neither engine exists yet |
| `Deflate.DeflateCodec.GetInflater` | lang/java/avro/src/main/java/org/apache/avro/file/DeflateCodec.java:84-90 | creates the inflater only on the first call, with raw framing; later calls return the same handle; every call leaves it reset; the deflater is untouched |
| `Engines.NewDeflater` | lang/java/avro/src/main/java/org/apache/avro/file/DeflateCodec.java:95 | creating a deflater succeeds exactly for the levels the engine accepts (`Deflater.DEFAULT_COMPRESSION`, or 0 to 9), giving a fresh reset engine with that level and framing; any other level throws IllegalArgumentException |
| `Deflate.DeflateCodec.GetDeflater` | lang/java/avro/src/main/java/org/apache/avro/file/DeflateCodec.java:93-99 | succeeds exactly when the engine accepts the codec's level; then it creates the deflater only on the first call, at the codec's level with raw framing, later calls return the same handle, and every call leaves it reset; otherwise it throws IllegalArgumentException and leaves the codec without a deflater; the inflater is untouched |
| `Deflate.DeflateCodec.HashCode` | lang/java/avro/src/main/java/org/apache/avro/file/DeflateCodec.java:101-104 | the hash code is always 0, since `nowrap` is fixed true |
| `Deflate.DeflateCodec.Equals` | lang/java/avro/src/main/java/org/apache/avro/file/DeflateCodec.java:106-114 | a null argument throws NullPointerException; otherwise the answer is true exactly for deflate codecs, whatever their levels |
| `Deflate.EqualsNullThrows` | lang/java/avro/src/main/java/org/apache/avro/file/DeflateCodec.java:106-114 | `equals(null)` throws instead of returning false |
| `Deflate.DeflateCodec.IntendedEquals` | lang/java/avro/src/main/java/org/apache/avro/file/DeflateCodec.java:106-114 | false for null, true exactly for deflate codecs, and agreeing with `equals` wherever that returns |
| `Deflate.EqualsIgnoresLevel` | lang/java/avro/src/main/java/org/apache/avro/file/DeflateCodec.java:106-114 | any two deflate codecs are equal in both directions, whatever their levels |
| `Deflate.DeflateCodec.GetName` | lang/java/avro/src/main/java/org/apache/avro/file/DeflateCodec.java:64-67 | the name is `DataFileConstants.DEFLATE_CODEC`, whatever the level |
| `Deflate.HashCodeConsistentWithEquals` | lang/java/avro/src/main/java/org/apache/avro/file/DeflateCodec.java:101-114 | an object for which `equals` as written returns true is a deflate codec with the same hash code |
| `Deflate.HashCodeConsistentWithIntendedEquals` | lang/java/avro/src/main/java/org/apache/avro/file/DeflateCodec.java:101-114 | an object equal under the null-safe `IntendedEquals` is a deflate codec with the same hash code |
| `Deflate.DescribeInjective` | lang/java/avro/src/main/java/org/apache/avro/file/DeflateCodec.java:116-119 | the text name + "-" + level determines the level |
| `Deflate.DeflateCodec.ToString` | lang/java/avro/src/main/java/org/apache/avro/file/DeflateCodec.java:116-119 | the text starts with the name and "-", and the rest is a decimal integer that reads back as the level as requested |
| `Deflate.ToStringShowsLevel` | lang/java/avro/src/main/java/org/apache/avro/file/DeflateCodec.java:116-119 | two deflate codecs have the same `toString` exactly when they hold the same (unclamped) level |
| `CodecFactory.CreateInstance` | lang/java/avro/src/main/java/org/apache/avro/file/ZstandardCodec.java:35-45 | a Zstandard option creates a fresh codec at the clamped level of the option's unclamped level; a deflate option (DeflateCodec.java:41-51) a fresh codec at exactly its level; neither has engines set up yet |
| `CodecFactory.FactoryToString` | lang/java/avro/src/main/java/org/apache/avro/file/CodecFactory.java:126-130 | a factory's `toString` equals that of a freshly created instance, which shows the effective level |
| `CodecFactory.ZstdDescriptionShowsEffectiveLevel` | lang/java/avro/src/main/java/org/apache/avro/file/CodecFactory.java:126-130 | two Zstandard factories print alike exactly when their levels clamp to the same level |
| `CodecFactory.DeflateDescriptionShowsLevel` | lang/java/avro/src/main/java/org/apache/avro/file/CodecFactory.java:126-130 | two deflate factories print alike exactly when their levels are equal |
| `CodecFactory.DifferentAlgorithmsUnequal` | lang/java/avro/src/main/java/org/apache/avro/file/ZstandardCodec.java:98-102 | a Zstandard codec and a deflate codec are unequal in both directions |
| `CodecFactory.Registry.constructor` | lang/java/avro/src/main/java/org/apache/avro/file/CodecFactory.java:91-98 | the static initialiser's six registrations, recorded in order as the history, leave the registry equal to `RegisterAll` of the seeds, which is `BuiltIns()` |
| `CodecFactory.SeedsRegisterBuiltIns` | lang/java/avro/src/main/java/org/apache/avro/file/CodecFactory.java:91-98 | making the six seed registrations in order yields `BuiltIns()` |
| `CodecFactory.BuiltInsRegistered` | lang/java/avro/src/main/java/org/apache/avro/file/CodecFactory.java:87-98 | after seeding exactly the six names null, deflate, snappy, bzip2, xz, zstd are registered, deflate at DEFAULT_DEFLATE_LEVEL, xz at DEFAULT_XZ_LEVEL, zstd at level 1 |
| `CodecFactory.Registry.FromString` | lang/java/avro/src/main/java/org/apache/avro/file/CodecFactory.java:112-118 | returns the registered factory, or fails with "Unrecognized codec: " + name exactly when no non-null factory is registered |
| `CodecFactory.Registry.AddCodec` | lang/java/avro/src/main/java/org/apache/avro/file/CodecFactory.java:120-124 | stores the factory under the name, returns the previous entry or null, makes `fromString(name)` return the new factory, leaves every other name's lookup unchanged, and appends the registration to the history, so the map stays `RegisterAll` of the history |
| `CodecFactory.RegisterAllAppend` | lang/java/avro/src/main/java/org/apache/avro/file/CodecFactory.java:120-124 | registering one sequence and then another is registering their concatenation |
| `CodecFactory.RegistrationsAfterSeeding` | lang/java/avro/src/main/java/org/apache/avro/file/CodecFactory.java:91-98 | any run of registrations after static initialisation acts on `BuiltIns()` as its starting map |
| `CodecFactory.RegisterAllKeys` | lang/java/avro/src/main/java/org/apache/avro/file/CodecFactory.java:120-124 | after any registrations the names are the old ones plus the registered ones: nothing is removed |
| `CodecFactory.LastRegistrationWins` | lang/java/avro/src/main/java/org/apache/avro/file/CodecFactory.java:120-124 | the last registration of a name decides what it resolves to |
| `CodecFactory.UnregisteredNameUnchanged` | lang/java/avro/src/main/java/org/apache/avro/file/CodecFactory.java:122-124 | a name no registration mentions resolves as before |
| `CodecFactory.ResolvedNameStaysResolved` | lang/java/avro/src/main/java/org/apache/avro/file/CodecFactory.java:84-124 | once a name resolves, it keeps resolving through any registrations that do not store null under that name |

## Left out

- Compression itself: the zstd streams, `Deflater`/`Inflater` internals, `DeflaterOutputStream`/`InflaterOutputStream` and `IOUtils.copy` belong to external engines. The Zstandard engine is a function argument; a `decompress(compress(b)) == b` round trip is a property of the engine and is not stated.
- Deflate `compressedStream` and `decompress`: their plumbing (`getOutputBuffer`, `writeAndClose`) is inherited from `OutputStreamCodec`, which is not part of this model; only the engine handles they obtain (`GetDeflater`, `GetInflater`) are modelled.
- `computeOffset` and `ByteBuffer` array/offset aliasing: the input is the sequence of remaining bytes, and the result is a copy of the buffer's contents.
- The null, Snappy, BZip2 and XZ codecs and caller-registered codecs: their classes are not part of this model, so they appear only as factory tags, their instances as `Opaque`, and their `toString` as unknown (`None`).
- The values of `DataFileConstants.ZSTANDARD_CODEC`, `Deflater.DEFAULT_COMPRESSION`, `LZMA2Options.PRESET_DEFAULT` and the Zstandard level limits: they belong to other code and are constants without a value.
- `Zstandard.ZstandardCodec.GetOutputBuffer`: requires a non-negative suggested length, since its callers pass `remaining()`; the JDK's exception for a negative size is not modelled.
- `Zstandard.ZstandardCodec.Compress`: requires fewer than 2^31 input bytes, the most a Java buffer holds; likewise `Zstandard.ZstandardCodec.Decompress`.
- `CodecFactory.Registry.AddCodec`: names are non-null strings; the code's `HashMap` also accepts a null name, which `addCodec(null, c)` registers and `fromString(null)` then looks up, and that key is not modelled. Likewise `CodecFactory.Registry.FromString` is not modelled for a null argument.
- `Engines.DeflaterAcceptsLevel`: `Deflater.DEFAULT_COMPRESSION` has no value, so the rejection of a particular level outside 0 to 9 (say 42) holds only for levels other than that constant and is not proved for any concrete level.
- The registry is an explicit `Registry` object rather than a static global; static-initialiser ordering and thread safety (there is no locking in the code) are not modelled.
- `String.hashCode` is computed over Dafny characters (Unicode scalar values); Java hashes UTF-16 code units, which differ only for characters outside the Basic Multilingual Plane.

## Findings

| source | as written | input that shows it | evidently intended | confidence | as-written member | corrected member |
|---|---|---|---|---|---|---|
| lang/java/avro/src/main/java/org/apache/avro/file/DeflateCodec.java:106-114 | `equals` calls `obj.getClass()` before testing `obj` for null | `new DeflateCodec(6).equals(null)` throws NullPointerException | return false for null, as `Object.equals` requires and as `ZstandardCodec.equals` does | high (follows from the code; not executed) | `Deflate.EqualsNullThrows` | `Deflate.DeflateCodec.IntendedEquals` |

/**
 * The codec names of the container file format. A file records only the
 * name of the codec that compressed its blocks; these are the names the
 * built-in codecs are registered under. The constants' own declarations are
 * not part of this model: the six registry keys take the values that the
 * `CodecFactory` documentation lists as the default registrations, which is
 * an assumption of this model.
 */
module DataFileConstants {

  const NULL_CODEC: string := "null"
  const DEFLATE_CODEC: string := "deflate"
  const SNAPPY_CODEC: string := "snappy"
  const BZIP2_CODEC: string := "bzip2"
  const XZ_CODEC: string := "xz"
  /** The registry key of the Zstandard factory. */
  const ZSTD_CODEC: string := "zstd"

  /**
   * The name a `ZstandardCodec` reports for itself. Its value is not part of
   * this model, and nothing here assumes it equals `ZSTD_CODEC`.
   */
  const ZSTANDARD_CODEC: string
}

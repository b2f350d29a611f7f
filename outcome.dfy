/**
 * Option and Result, and the errors the bank codec reports. The source
 * reports every failure as an `io::Error`; the model names each cause.
 */
module Outcome {
  import opened Bytes

  datatype Option<+T> = None | Some(value: T) {
    /** `unwrap_or_default` / `unwrap_or`. */
    function GetOr(default: T): T {
      match this
      case Some(v) => v
      case None => default
    }
  }

  datatype BankError =
    | UnexpectedEof                                // a read ran out of bytes
    | NotABank                                     // wrong file identifier
    | UnexpectedCheckBytes(found: seq<byte>)       // wrong corruption-check bytes
    | UnexpectedFormatVersion(found: seq<byte>)    // wrong format version
    | ZeroLengthName(position: nat)                // nothing to read where a name starts
    | NameOutOfBounds                              // a name runs past the name block
    | Overflow                                     // a u64 sum does not fit (a debug-build panic; a release build wraps)
    | Overlap(first: seq<byte>, second: seq<byte>) // two file payloads share bytes
    | NotMetadataFile                              // read_metadata on another item
    | InvalidMetadata                              // the metadata JSON does not parse
    | AddAfterWrite                                // add on a written bank
    | WriteAfterWrite                              // write on a written bank

  datatype Result<+T> = Ok(value: T) | Err(error: BankError)
}

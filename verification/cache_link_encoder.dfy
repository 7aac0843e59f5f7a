/** The encoder interface (CacheLinkEncoderInterface): turns PHP values into
    transport strings and back. The standard encoder (PHP `serialize` /
    `unserialize`) is one such codec, supplied from outside the model. */
module CacheLinkEncoder {
  import opened Results
  import opened PhpValues

  /** An encoder; each direction either returns its result or fails with
      an error message (a thrown CacheLinkEncoderException). */
  datatype Codec = Codec(encode: Value -> Result<string, string>, decode: string -> Result<Value, string>)

  /** Decoding gives back every value that encoded successfully. */
  ghost predicate RoundTrips(c: Codec) {
    forall v :: c.encode(v).Ok? ==> c.decode(c.encode(v).value) == Ok(v)
  }
}

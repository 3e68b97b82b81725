/** Small value wrappers shared by the whole model. */
module Common {

  /** A value that may be absent (a Go nil pointer, a missing map entry). */
  datatype Option<+T> = None | Some(value: T)

  /** Errors raised anywhere in the protocol engine. A Go run-time panic
      (index out of range, nil dereference) is an error value here too, so
      that no operation has to exclude the inputs that trigger one. */
  datatype Error =
    | NumberSyntax(text: string)        // strconv: not a decimal number
    | NumberRange(text: string)         // strconv: does not fit the bit size
    | BadCSeq(text: string)             // CSeq is not "<seq> <method>"
    | CSeqTooLarge(seqNo: nat)          // CSeq above 2**31 - 1
    | WildcardNotPermitted(text: string) // '*' in a To or From header
    | MissingHeader(name: string)       // mandatory header absent
    | SessionNotFound(id: string)       // registry has no such device
    | SessionCreateFailed               // no connection for a new session
    | Wrapped(context: string, inner: Error) // fmt.Errorf("...%v", err)
    | Panic(reason: string)             // Go run-time panic

  datatype Result<+T> = Ok(value: T) | Err(error: Error)
}

/** Failure-compatible wrappers shared by the model. */
module Wrappers {

  datatype Option<+T> = None | Some(value: T) {
    function GetOr(default: T): T {
      match this
      case Some(v) => v
      case None => default
    }
  }

  /** What Ruby raises in the code paths the model follows. */
  datatype RubyError =
    | ParseError     // Hash.from_xml refuses the text
    | TypeError      // Array#[] given a String, OpenSSL given a nil key
    | NoMethodError  // a method called on nil

  /** A Ruby expression either yields a value or raises. */
  datatype Result<+T> = Ok(value: T) | Raise(error: RubyError)
}

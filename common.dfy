/** Value types shared by every part of the model. */
module Common {

  /** An unsigned 8-bit byte (`unsigned char`). */
  type byte = x: int | 0 <= x < 256

  /** The contents of a `StreamBuffer` or of a binary `std::string`. */
  type Bytes = seq<byte>

  datatype Option<T> = None | Some(value: T) {
    function GetOr(default: T): T {
      match this
      case Some(v) => v
      case None => default
    }
  }

  function Min(a: nat, b: nat): nat { if a <= b then a else b }
}

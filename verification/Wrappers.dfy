/** Result types and small functions shared by every layer. */
module Wrappers {
  datatype Option<+T> = None | Some(value: T)

  datatype Status = Ok | Timeout | CrcMismatch | Overflow | InvalidArgument | NotReady | HardwareFault | ProtocolError

  function Min(a: nat, b: nat): nat {
    if a < b then a else b
  }
}

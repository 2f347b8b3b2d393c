/** Types shared by every module. */
module Prelude {
  datatype Option<+T> = None | Some(value: T)

  type Byte = bv8
  type Bytes = seq<Byte>
}

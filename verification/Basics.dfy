/** Small definitions shared by the models. */
module Basics {

  datatype Option<T> = None | Some(value: T)

  type Bytes = seq<bv8>

  const U64_MAX: nat := 0xFFFF_FFFF_FFFF_FFFF

  function DivCeil(a: nat, b: nat): nat
    requires b > 0
  {
    if a % b == 0 then a / b else a / b + 1
  }
}

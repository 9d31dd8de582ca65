/** The optional value used for oracles that may fail and for absent dictionary keys. */
module Wrappers {

  datatype Option<+T> = None | Some(value: T)

  function Min(a: nat, b: nat): (m: nat)
  {
    if a <= b then a else b
  }
}

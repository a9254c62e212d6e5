/** What every module shares. */
module Prelude {
  datatype Option<+T> = None | Some(value: T)

  function Bit(b: bool): nat { if b then 1 else 0 }
}

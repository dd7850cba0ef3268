/** What the colour conversions and the retry delays share. */
module Reals {

  function Min(a: real, b: real): real {
    if a <= b then a else b
  }
}

/** An optional value: `None` stands for what the program leaves `undefined`
    or turns into NaN. */
module Options {

  datatype Option<+T> = None | Some(value: T)

  function Max(a: real, b: real): real {
    if a >= b then a else b
  }

  function Min(a: real, b: real): real {
    if a <= b then a else b
  }
}

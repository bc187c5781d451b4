/** arg_format_options: every option may be unset. */
module FormatOptions {
  import opened Wrappers

  datatype Align = Left | Right | Center

  datatype Sign = AlwaysPlus | Minus | Space

  datatype Options = Options(
    width: Option<nat>,
    precision: Option<nat>,
    fill: Option<char>,
    alignment: Option<Align>,
    alt: Option<bool>,
    sign: Option<Sign>,
    zeroFill: Option<bool>,
    typeSpecifier: Option<char>,
    integerBase: Option<nat>)
  {
    predicate IsAlt() {
      alt == Some(true)
    }

    predicate IsZeroFill() {
      zeroFill == Some(true)
    }
  }

  const CLEARED := Options(None, None, None, None, None, None, None, None, None)
}

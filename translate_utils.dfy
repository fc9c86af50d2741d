/** The interface of the register and number parsers the translator calls
    (`translate_reg`, `translate_num`). Their implementation is not part of
    this model, so they are parameters: a `Utils` value supplies them, and
    everything proved holds for every choice of parsers. */
module TranslateUtils {
  import opened Wrappers

  /** What `translate_reg` returns: -1 for an invalid register name,
      otherwise the register number 0..31. */
  type RegCode = r: int | -1 <= r < 32

  datatype Utils = Utils(
    /** register name to register number, or -1 */
    reg: string -> RegCode,
    /** numeric literal to its value, before any bound check */
    num: string -> Option<int>)

  function TranslateReg(u: Utils, s: string): RegCode
  {
    u.reg(s)
  }

  /** `translate_num(&out, s, lower, upper)`: succeeds only with a parsed
      value within the inclusive bounds. */
  function TranslateNum(u: Utils, s: string, lower: int, upper: int): (r: Option<int>)
    ensures r.Some? ==> lower <= r.value <= upper && u.num(s) == r
    ensures r.None? ==> u.num(s).None? || u.num(s).value < lower || upper < u.num(s).value
  {
    match u.num(s)
    case Some(v) => if lower <= v <= upper then Some(v) else None
    case None => None
  }
}

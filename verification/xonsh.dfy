/** The xonsh dialect: the overrides of `XonshShell` (src/shells/xonsh.rs). */
module XonshDialect {
  import opened Parts
  import Backslash

  /** Backslash escaping with no surrounding quotes: the value is later placed inside an f-string. */
  function SingleQuote(s: string): (r: string)
    ensures Backslash.Unescape(r) == s
  {
    Backslash.ChainIsSinglePass(s);
    Backslash.UnescapeEscape(s);
    Backslash.ReplaceChain(s)
  }

  /** References are written bare; the command is emitted verbatim, without escaping. */
  function ShellFormat(kind: ValuePartKind, value: string): string
  {
    match kind
    case Literal => SingleQuote(value)
    case ShellVariable => "$" + value
    case ShellCommand => "$(" + value + ")"
    case Home => "$(~" + value + ")"
  }

  /**
    A typed assignment: the value text "1" becomes Python's `True`, anything
    else an f-string. The path flag plays no part.
   */
  function SetVariable(name: string, value: string, isPath: bool): string
  {
    if value == "1" then "$" + name + " = True"
    else "$" + name + " = f\"" + value + "\""
  }

  function UnsetVariable(name: string): string
  {
    "del $" + name
  }
}

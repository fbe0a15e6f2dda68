/** The elvish dialect: the overrides of `ElvishShell` (src/shells/elvish.rs). */
module ElvishDialect {
  import opened Parts

  /** `'…'` around the text as it is: no character is escaped, `'` included. */
  function SingleQuote(s: string): (r: string)
    ensures |r| == |s| + 2
    ensures r[0] == '\'' && r[|r| - 1] == '\''
    ensures r[1..|r| - 1] == s
  {
    "'" + s + "'"
  }

  /** References are written bare, and every home lookup is the current user's `$home`. */
  function ShellFormat(kind: ValuePartKind, value: string): string
  {
    match kind
    case Literal => SingleQuote(value)
    case ShellVariable => "$" + value
    case ShellCommand => "(eval " + SingleQuote(value) + ")"
    case Home => "$home"
  }

  /** `set-env`, quoting the already rendered value once more; the path flag plays no part. */
  function SetVariable(name: string, value: string, isPath: bool): string
  {
    "set-env " + name + " " + SingleQuote(value)
  }

  function UnsetVariable(name: string): string
  {
    "del-env " + name
  }
}

/** The fish dialect: the overrides of `FishShell` (src/shells/fish.rs). */
module FishDialect {
  import opened Parts
  import Text
  import Backslash

  /** `'…'` around the backslash-escaped text. */
  function SingleQuote(s: string): (r: string)
    ensures |r| == |s| + 2 + Text.Count(s, '\\') + Text.Count(s, '\'')
    ensures r == "'" + Backslash.Escape(s) + "'"
  {
    Backslash.ChainIsSinglePass(s);
    "'" + Backslash.ReplaceChain(s) + "'"
  }

  /** fish's command substitution is `(…)` rather than `$(…)`. */
  function ShellFormat(kind: ValuePartKind, value: string): string
  {
    match kind
    case Literal => SingleQuote(value)
    case ShellVariable => "\"$" + value + "\""
    case ShellCommand => "(eval " + SingleQuote(value) + ")"
    case Home => "(eval echo \"~" + value + "\")"
  }

  /** `set -gx`, with `--path` for colon-joined path data; the value is emitted as given. */
  function SetVariable(name: string, value: string, isPath: bool): string
  {
    var pathOption := if isPath then " --path" else "";
    "set -gx" + pathOption + " " + name + " " + value
  }

  function UnsetVariable(name: string): string
  {
    "set -ge " + name
  }
}

/**
  The command line's shell choice: the three shells the conversion driver
  knows, and the lower-case names clap derives for them.
 */
module Cli {
  import opened Wrappers

  datatype Shell = Bash | Zsh | Fish

  /** The possible-value name of a shell; every variant has one. */
  function Name(s: Shell): (n: string)
    ensures |n| > 0
    ensures forall i :: 0 <= i < |n| ==> 'a' <= n[i] <= 'z'
    ensures n != "_"
  {
    match s
    case Bash => "bash"
    case Zsh => "zsh"
    case Fish => "fish"
  }

  /** The shell a possible-value name stands for, as the argument parser reads it back. */
  function FromName(n: string): (r: Option<Shell>)
    ensures r.Some? <==> n in {"bash", "zsh", "fish"}
  {
    if n == "bash" then Some(Bash)
    else if n == "zsh" then Some(Zsh)
    else if n == "fish" then Some(Fish)
    else None
  }

  /** Reading a shell's name gives the shell back. */
  lemma FromNameName(s: Shell)
    ensures FromName(Name(s)) == Some(s)
  {
  }

  /** Every name that reads as a shell is that shell's name. */
  lemma NameFromName(n: string)
    requires FromName(n).Some?
    ensures Name(FromName(n).value) == n
  {
  }

  /** Distinct shells have distinct names, so a per-shell table picks one entry per shell. */
  lemma NamesDistinct(s: Shell, t: Shell)
    ensures Name(s) == Name(t) <==> s == t
  {
    FromNameName(s);
    FromNameName(t);
  }
}

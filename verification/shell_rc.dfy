/**
 * `getShellRc`: the start-up file of the user's shell, `$HOME/.<shell>rc`,
 * where `<shell>` is the last `/`-separated piece of `$SHELL`.
 */
module ShellRc {
  import opened Common
  import opened PosixPath

  /** `String(v)` of a variable of the environment: its text, or "undefined" when it is not set. */
  function Stringify(v: Option<string>): string
  {
    if v.Some? then v.value else "undefined"
  }

  /** `.${split?.[split.length - 1]}rc`: the last piece of `SHELL`, or "undefined" when `SHELL` is not set. */
  function RcFileName(shell: Option<string>): (name: string)
    ensures Plain(name)
  {
    var last := if shell.Some? then var split := Split(shell.value, '/'); split[|split| - 1] else "undefined";
    var name := "." + last + "rc";
    assert name[|name| - 1] == 'c';
    name
  }

  function GetShellRc(shell: Option<string>, home: Option<string>): string
  {
    Join(Stringify(home), RcFileName(shell))
  }

  /** Whatever `SHELL` and `HOME` hold, the path names the file `.<shell>rc`. */
  lemma ShellRcBase(shell: Option<string>, home: Option<string>)
    ensures Basename(GetShellRc(shell, home)) == RcFileName(shell)
  {
    JoinBasename(Stringify(home), RcFileName(shell));
  }

  /** A `SHELL` path names its program last: `/bin/zsh` gives `.zshrc`. */
  lemma RcFileNameOfPath(dir: string, program: string)
    requires '/' !in program
    ensures RcFileName(Some(dir + "/" + program)) == "." + program + "rc"
  {
    LastSegment(dir, program);
  }

  /** With a canonical absolute `HOME` the path is just `HOME/.<shell>rc`. */
  lemma ShellRcUnderHome(shell: Option<string>, home: string)
    requires CanonicalAbsolute(home)
    ensures GetShellRc(shell, Some(home)) == home + "/" + RcFileName(shell)
  {
    JoinCanonical(home, RcFileName(shell));
  }

  /** Without `HOME` the path is relative, under a directory named "undefined". */
  lemma ShellRcWithoutHome(shell: Option<string>)
    ensures GetShellRc(shell, None) == "undefined/" + RcFileName(shell)
  {
    assert Plain("undefined");
    JoinPlain("undefined", RcFileName(shell));
  }
}

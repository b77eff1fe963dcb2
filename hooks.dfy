/** What the two pre-commit hooks share: an issue is a line number and a message, parsing a
    file gives either a tree or a syntax error, and `main` prints every issue of every checked
    file and exits with 1 when it printed anything. Reading a file and parsing it are the
    function `issuesOf` that `main` is given. */
module Hooks {
  import opened Wrappers
  import opened Strings

  /** `(line, message)` */
  type Issue = (nat, string)

  /** The outcome of `ast.parse`: a tree, or a `SyntaxError` with its line number (possibly
      `None`) and its text `str(e)`. */
  datatype Parsed<T> = Tree(root: T) | SyntaxError(lineno: Option<nat>, text: string)

  /** The single issue `check_file` returns for a syntax error: `e.lineno or 0`. */
  function SyntaxIssue(lineno: Option<nat>, text: string): Issue {
    (lineno.GetOr(0), "SyntaxError: " + text)
  }

  /** `main` checks only the names ending in ".py". */
  predicate Checked(filename: string) {
    EndsWith(filename, ".py")
  }

  /** `f"{filename}:{line}: {message}"` */
  function Render(filename: string, issue: Issue): string {
    filename + ":" + NatToString(issue.0) + ": " + issue.1
  }

  /** The lines printed for one file, one per issue, in the issues' order. */
  function Lines(filename: string, issues: seq<Issue>): (out: seq<string>)
    ensures |out| == |issues|
    ensures forall k | 0 <= k < |issues| :: out[k] == Render(filename, issues[k])
  {
    seq(|issues|, k requires 0 <= k < |issues| => Render(filename, issues[k]))
  }

  /** Everything `main` prints for the given file names, in order. */
  function Output(filenames: seq<string>, issuesOf: string -> seq<Issue>): seq<string>
    decreases |filenames|
  {
    if |filenames| == 0 then []
    else
      var last := filenames[|filenames| - 1];
      Output(filenames[..|filenames| - 1], issuesOf) +
      (if Checked(last) then Lines(last, issuesOf(last)) else [])
  }

  /** Nothing is printed exactly when no checked file has an issue. */
  lemma {:induction false} OutputEmpty(filenames: seq<string>, issuesOf: string -> seq<Issue>)
    ensures Output(filenames, issuesOf) == [] <==>
      forall i | 0 <= i < |filenames| :: !Checked(filenames[i]) || issuesOf(filenames[i]) == []
    decreases |filenames|
  {
    if |filenames| > 0 {
      var init := filenames[..|filenames| - 1];
      OutputEmpty(init, issuesOf);
      assert forall i | 0 <= i < |init| :: init[i] == filenames[i];
    }
  }

  /** The output does not depend on what the files that are not checked contain. */
  lemma {:induction false} OutputIgnoresUnchecked(filenames: seq<string>, issuesOf: string -> seq<Issue>, other: string -> seq<Issue>)
    requires forall i | 0 <= i < |filenames| :: Checked(filenames[i]) ==> issuesOf(filenames[i]) == other(filenames[i])
    ensures Output(filenames, issuesOf) == Output(filenames, other)
    decreases |filenames|
  {
    if |filenames| > 0 {
      var init := filenames[..|filenames| - 1];
      assert forall i | 0 <= i < |init| :: init[i] == filenames[i];
      OutputIgnoresUnchecked(init, issuesOf, other);
    }
  }

  /** `main`: every issue of every checked file is printed, and the exit code is 1 exactly
      when some checked file has an issue. */
  method RunHook(filenames: seq<string>, issuesOf: string -> seq<Issue>) returns (exitCode: int, printed: seq<string>)
    ensures printed == Output(filenames, issuesOf)
    ensures exitCode == (if printed == [] then 0 else 1)
    ensures exitCode == 1 <==> exists i | 0 <= i < |filenames| :: Checked(filenames[i]) && issuesOf(filenames[i]) != []
  {
    exitCode := 0;
    printed := [];
    for i := 0 to |filenames|
      invariant printed == Output(filenames[..i], issuesOf)
      invariant exitCode == (if printed == [] then 0 else 1)
    {
      var filename := filenames[i];
      assert filenames[..i + 1][..i] == filenames[..i];
      if !EndsWith(filename, ".py") {
        continue;
      }
      var issues := issuesOf(filename);
      for j := 0 to |issues|
        invariant printed == Output(filenames[..i], issuesOf) + Lines(filename, issues[..j])
        invariant exitCode == (if printed == [] then 0 else 1)
      {
        var (line, message) := issues[j];
        printed := printed + [filename + ":" + NatToString(line) + ": " + message];
        exitCode := 1;
      }
      assert issues[..|issues|] == issues;
    }
    assert filenames[..|filenames|] == filenames;
    OutputEmpty(filenames, issuesOf);
  }
}

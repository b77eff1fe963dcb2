/** The pre-commit hook that reports possible leaks of semantic field names. Two sources of
    issues are gathered per file: calls found in the syntax tree, then per-line pattern
    matches; the result keeps the first issue of each line.

    The tree keeps the node kinds the call check looks at, with every other node reduced to
    its children in visiting order. The three database patterns and the log pattern are
    regular expressions evaluated by `re`; they are the functions of a `Matchers` value, each
    returning the first capture group of a match on a line, or `None`. */
module SemanticLeakage {
  import opened Wrappers
  import opened Strings
  import opened Dicts
  import opened Hooks

  /** The part of a Python syntax tree the leakage visitor looks at. `Call` carries no
      `keywords` and `FormattedValue` no `format_spec`, although the visitor's
      `generic_visit` descends into both; a keyword argument or format spec that holds a
      leak is written as an `Other` sibling placed after the call, which reproduces the
      order in which the visitor reaches it. */
  datatype Expr =
    | Name(id: string)
    | Attribute(value: Expr, attr: string)
    | Str(s: string)
    | JoinedStr(values: seq<Expr>)
    | FormattedValue(value: Expr)
    | Call(lineno: nat, func: Expr, args: seq<Expr>)
    | Other(children: seq<Expr>)

  const AqlMessage := "Potential semantic leakage: direct field access in AQL query"
  const LogAttributeMessage := "Potential semantic leakage: direct attribute access in logs"
  const LogMethods := {"debug", "info", "warning", "error", "critical"}

  /** `r'\bdoc\.([a-zA-Z0-9_]+)\b'` matches at `p`. */
  predicate IsWordChar(c: char) {
    ('a' <= c <= 'z') || ('A' <= c <= 'Z') || ('0' <= c <= '9') || c == '_'
  }

  predicate DocFieldAt(q: string, p: nat) {
    p + 5 <= |q| && q[p..p + 4] == "doc." && (p == 0 || !IsWordChar(q[p - 1])) && IsWordChar(q[p + 4])
  }

  /** `re.search(r'\bdoc\.([a-zA-Z0-9_]+)\b', query)` succeeds. */
  predicate MentionsDocField(q: string) {
    exists p: nat | p <= |q| :: DocFieldAt(q, p)
  }

  /** An `execute` call on an `aql` or `db` attribute whose first argument is a string
      literal naming a `doc.` field. */
  predicate IsLeakyExecute(func: Expr, args: seq<Expr>) {
    func.Attribute? && func.attr == "execute" &&
    func.value.Attribute? && func.value.attr in {"aql", "db"} &&
    |args| > 0 && args[0].Str? && MentionsDocField(args[0].s)
  }

  /** A `logger.<level>` or `logging.<level>` call whose first argument is an f-string. */
  predicate IsFStringLog(func: Expr, args: seq<Expr>) {
    func.Attribute? && func.attr in LogMethods &&
    func.value.Name? && func.value.id in {"logger", "logging"} &&
    |args| > 0 && args[0].JoinedStr?
  }

  /** One issue per formatted value of the f-string that is an attribute access. */
  function AttributeLogIssues(line: nat, values: seq<Expr>): (issues: seq<Issue>)
    ensures |issues| <= |values|
    ensures forall k | 0 <= k < |issues| :: issues[k] == (line, LogAttributeMessage)
    ensures issues != [] <==> exists k | 0 <= k < |values| :: values[k].FormattedValue? && values[k].value.Attribute?
    decreases |values|
  {
    if |values| == 0 then []
    else
      var last := values[|values| - 1];
      AttributeLogIssues(line, values[..|values| - 1]) +
      (if last.FormattedValue? && last.value.Attribute? then [(line, LogAttributeMessage)] else [])
  }

  /** What `visit_Call` itself reports for a call, before visiting the call's children. */
  function CallIssues(line: nat, func: Expr, args: seq<Expr>): seq<Issue> {
    (if IsLeakyExecute(func, args) then [(line, AqlMessage)] else []) +
    (if IsFStringLog(func, args) then AttributeLogIssues(line, args[0].values) else [])
  }

  /** Every issue the visitor collects from a tree, in visiting order: a call's own issues,
      then those of its function expression, then those of its arguments. */
  function Leaks(e: Expr): seq<Issue>
    decreases e
  {
    match e
    case Name(_) => []
    case Str(_) => []
    case Attribute(v, _) => Leaks(v)
    case JoinedStr(vs) => LeaksAll(vs)
    case FormattedValue(v) => Leaks(v)
    case Call(line, f, args) => CallIssues(line, f, args) + Leaks(f) + LeaksAll(args)
    case Other(cs) => LeaksAll(cs)
  }

  function LeaksAll(es: seq<Expr>): seq<Issue>
    decreases es
  {
    if |es| == 0 then [] else LeaksAll(es[..|es| - 1]) + Leaks(es[|es| - 1])
  }

  /** A leaky `execute` call is reported first among the issues of its own subtree, at the
      call's line. */
  lemma ExecuteCallReported(line: nat, func: Expr, args: seq<Expr>)
    requires IsLeakyExecute(func, args)
    ensures Leaks(Call(line, func, args))[0] == (line, AqlMessage)
  {
  }

  /** A call that is neither a leaky `execute` nor an f-string log contributes only what
      its children contribute. */
  lemma OtherCallsAddNothing(line: nat, func: Expr, args: seq<Expr>)
    requires !IsLeakyExecute(func, args) && !IsFStringLog(func, args)
    ensures Leaks(Call(line, func, args)) == Leaks(func) + LeaksAll(args)
  {
  }

  class SemanticLeakageVisitor {
    var leakageIssues: seq<Issue>

    constructor ()
      ensures leakageIssues == []
    {
      leakageIssues := [];
    }

    /** `visit`: a call goes to `visit_Call`; every other node has its children visited. */
    method Visit(e: Expr)
      modifies this
      ensures leakageIssues == old(leakageIssues) + Leaks(e)
      decreases e, 2
    {
      match e
      case Name(_) =>
      case Str(_) =>
      case Attribute(v, _) =>
        Visit(v);
      case JoinedStr(vs) =>
        GenericVisit(vs);
      case FormattedValue(v) =>
        Visit(v);
      case Call(line, f, args) =>
        VisitCall(line, f, args);
      case Other(cs) =>
        GenericVisit(cs);
    }

    /** `visit_Call`: the two checks, then the function expression and the arguments. */
    method VisitCall(line: nat, func: Expr, args: seq<Expr>)
      modifies this
      ensures leakageIssues == old(leakageIssues) + Leaks(Call(line, func, args))
      decreases Call(line, func, args), 1
    {
      if func.Attribute? && func.attr == "execute" {
        if func.value.Attribute? && func.value.attr in {"aql", "db"} {
          if |args| > 0 && args[0].Str? {
            var query := args[0].s;
            if MentionsDocField(query) {
              leakageIssues := leakageIssues + [(line, AqlMessage)];
            }
          }
        }
      }
      ghost var afterExecute := leakageIssues;
      if func.Attribute? && func.attr in LogMethods {
        if func.value.Name? && func.value.id in {"logger", "logging"} {
          if |args| > 0 && args[0].JoinedStr? {
            var values := args[0].values;
            for k := 0 to |values|
              invariant leakageIssues == afterExecute + AttributeLogIssues(line, values[..k])
            {
              assert values[..k + 1][..k] == values[..k];
              if values[k].FormattedValue? && values[k].value.Attribute? {
                leakageIssues := leakageIssues + [(line, LogAttributeMessage)];
              }
            }
            assert values[..|values|] == values;
          }
        }
      }
      assert leakageIssues == old(leakageIssues) + CallIssues(line, func, args);
      Visit(func);
      GenericVisit(args);
    }

    /** `generic_visit`: the children, in order. */
    method GenericVisit(children: seq<Expr>)
      modifies this
      ensures leakageIssues == old(leakageIssues) + LeaksAll(children)
      decreases children, 0
    {
      for i := 0 to |children|
        invariant leakageIssues == old(leakageIssues) + LeaksAll(children[..i])
      {
        assert children[..i + 1][..i] == children[..i];
        Visit(children[i]);
      }
      assert children[..|children|] == children;
    }
  }

  /** The first capture group of a pattern's match on a line, or `None` when the pattern does
      not match: `db(k, line)` for the `k`-th database pattern, `log(line)` for the log
      pattern. */
  datatype Matchers = Matchers(db: (nat, string) -> Option<string>, log: string -> Option<string>)

  /** The number of database patterns (direct FILTER, direct SORT, interpolation). */
  const DbPatternCount := 3

  function DbMessage(field: string): string {
    "Potential semantic leakage: direct field name '" + field + "' in database operation"
  }

  function LogMessage(name: string): string {
    "Potential semantic leakage: direct object attribute from '" + name + "' in log message"
  }

  lemma DbMessageInjective(f: string, g: string)
    requires DbMessage(f) == DbMessage(g)
    ensures f == g
  {
    var m := DbMessage(f);
    assert m[47..|m| - 23] == f;
    assert m[47..|m| - 23] == g;
  }

  lemma DbMessageNotLogMessage(f: string, v: string)
    ensures DbMessage(f) != LogMessage(v)
  {
    assert DbMessage(f)[35] == 'f';
    assert LogMessage(v)[35] == 'o';
  }

  /** The issues of the first `k` database patterns on line number `i`; a match whose field
      starts with "_" is skipped. */
  function DbIssues(i: nat, line: string, m: Matchers, k: nat): (issues: seq<Issue>)
    ensures forall x | x in issues :: x.0 == i
    decreases k
  {
    if k == 0 then []
    else
      var found := m.db(k - 1, line);
      DbIssues(i, line, m, k - 1) +
      (if found.Some? && !IsPrivate(found.value) then [(i, DbMessage(found.value))] else [])
  }

  /** The issues of line number `i`: the database patterns in order, then the log pattern. */
  function LineIssues(i: nat, line: string, m: Matchers): (issues: seq<Issue>)
    ensures forall x | x in issues :: x.0 == i
  {
    DbIssues(i, line, m, DbPatternCount) +
    (if m.log(line).Some? then [(i, LogMessage(m.log(line).value))] else [])
  }

  /** The pattern issues of a file's lines, numbered from 1, line by line. */
  function RegexIssues(lines: seq<string>, m: Matchers): (issues: seq<Issue>)
    ensures forall x | x in issues :: 1 <= x.0 <= |lines|
    decreases |lines|
  {
    if |lines| == 0 then []
    else RegexIssues(lines[..|lines| - 1], m) + LineIssues(|lines|, lines[|lines| - 1], m)
  }

  lemma {:induction false} PrivateFieldSkippedInLine(i: nat, line: string, m: Matchers, k: nat, n: nat, f: string)
    requires (n, DbMessage(f)) in DbIssues(i, line, m, k)
    ensures !IsPrivate(f)
    decreases k
  {
    var found := m.db(k - 1, line);
    if (n, DbMessage(f)) in DbIssues(i, line, m, k - 1) {
      PrivateFieldSkippedInLine(i, line, m, k - 1, n, f);
    } else {
      DbMessageInjective(f, found.value);
    }
  }

  /** No database-pattern issue names a field starting with "_". */
  lemma {:induction false} PrivateFieldsSkipped(lines: seq<string>, m: Matchers, n: nat, f: string)
    requires (n, DbMessage(f)) in RegexIssues(lines, m)
    ensures !IsPrivate(f)
    decreases |lines|
  {
    var init := lines[..|lines| - 1];
    var last := lines[|lines| - 1];
    if (n, DbMessage(f)) in RegexIssues(init, m) {
      PrivateFieldsSkipped(init, m, n, f);
    } else if (n, DbMessage(f)) in DbIssues(|lines|, last, m, DbPatternCount) {
      PrivateFieldSkippedInLine(|lines|, last, m, DbPatternCount, n, f);
    } else {
      DbMessageNotLogMessage(f, m.log(last).value);
    }
  }

  /** The issues of `xs` whose line is not `line`, in order. */
  function Without(xs: seq<Issue>, line: nat): (ys: seq<Issue>)
    ensures |ys| <= |xs|
    ensures !HasKey(ys, line)
    decreases |xs|
  {
    if |xs| == 0 then []
    else if xs[0].0 == line then Without(xs[1..], line)
    else [xs[0]] + Without(xs[1..], line)
  }

  lemma {:induction false} WithoutAppend(xs: seq<Issue>, x: Issue, line: nat)
    ensures Without(xs + [x], line) == Without(xs, line) + (if x.0 == line then [] else [x])
    decreases |xs|
  {
    if |xs| == 0 {
      assert Without([x], line) == (if x.0 == line then Without([], line) else [x] + Without([], line));
    } else {
      assert (xs + [x])[0] == xs[0];
      assert (xs + [x])[1..] == xs[1..] + [x];
      WithoutAppend(xs[1..], x, line);
    }
  }

  lemma {:induction false} WithoutGet(xs: seq<Issue>, line: nat, other: nat)
    requires other != line
    ensures Get(Without(xs, line), other) == Get(xs, other)
    decreases |xs|
  {
    if |xs| > 0 {
      WithoutGet(xs[1..], line, other);
      if xs[0].0 != line {
        assert ([xs[0]] + Without(xs[1..], line))[1..] == Without(xs[1..], line);
      }
    }
  }

  /** `check_file`'s de-duplication, stated without a loop: the first issue is kept, and the
      rest are de-duplicated once the other issues of its line are dropped. */
  function Dedup(xs: seq<Issue>): seq<Issue>
    decreases |xs|
  {
    if |xs| == 0 then [] else [xs[0]] + Dedup(Without(xs[1..], xs[0].0))
  }

  /** Adding an issue at the end adds it to the result exactly when its line is new: lines
      come out in the order of their first occurrence. */
  lemma {:induction false} DedupAppend(xs: seq<Issue>, x: Issue)
    ensures Dedup(xs + [x]) == if HasKey(xs, x.0) then Dedup(xs) else Dedup(xs) + [x]
    decreases |xs|
  {
    if |xs| == 0 {
      assert Dedup([x]) == [x] + Dedup(Without([], x.0));
    } else {
      var x0 := xs[0];
      var w := Without(xs[1..], x0.0);
      assert (xs + [x])[0] == x0;
      assert (xs + [x])[1..] == xs[1..] + [x];
      WithoutAppend(xs[1..], x, x0.0);
      if x.0 != x0.0 {
        DedupAppend(w, x);
        WithoutGet(xs[1..], x0.0, x.0);
        assert HasKey(w, x.0) <==> HasKey(xs[1..], x.0);
        assert Keys(xs) == [x0.0] + Keys(xs[1..]);
      } else {
        assert w + [] == w;
        assert Keys(xs)[0] == x.0;
      }
    }
  }

  /** The message kept for a line is the first one collected for it. */
  lemma {:induction false} DedupGet(xs: seq<Issue>, line: nat)
    ensures Get(Dedup(xs), line) == Get(xs, line)
    decreases |xs|
  {
    if |xs| > 0 && xs[0].0 != line {
      var w := Without(xs[1..], xs[0].0);
      assert ([xs[0]] + Dedup(w))[1..] == Dedup(w);
      DedupGet(w, line);
      WithoutGet(xs[1..], xs[0].0, line);
    }
  }

  /** At most one issue per line. */
  lemma {:induction false} DedupDistinct(xs: seq<Issue>)
    ensures DistinctKeys(Dedup(xs))
    decreases |xs|
  {
    if |xs| > 0 {
      var w := Without(xs[1..], xs[0].0);
      var d := Dedup(w);
      DedupDistinct(w);
      DedupGet(w, xs[0].0);
      assert !HasKey(d, xs[0].0);
      forall j | 0 <= j < |d| ensures d[j].0 != xs[0].0 {
        assert Keys(d)[j] == d[j].0;
      }
      assert Dedup(xs) == [xs[0]] + d;
    }
  }

  /** The issues found in the tree, or the syntax error's single issue. */
  function AstIssues(parsed: Parsed<Expr>): seq<Issue> {
    match parsed
    case Tree(root) => Leaks(root)
    case SyntaxError(lineno, text) => [SyntaxIssue(lineno, text)]
  }

  /** Tree issues are collected before pattern issues, so on a line both report the tree's
      message is the one kept. */
  lemma AstIssueWins(ast: seq<Issue>, rx: seq<Issue>, line: nat)
    requires HasKey(ast, line)
    ensures Get(Dedup(ast + rx), line) == Get(ast, line)
  {
    DedupGet(ast + rx, line);
    GetConcatFirst(ast, rx, line);
  }

  /** The pattern checks of `check_file` on line number `i`. */
  method CollectLineIssues(i: nat, line: string, m: Matchers) returns (issues: seq<Issue>)
    ensures issues == LineIssues(i, line, m)
  {
    issues := [];
    for k := 0 to DbPatternCount
      invariant issues == DbIssues(i, line, m, k)
    {
      var matches := m.db(k, line);
      if matches.Some? {
        var field := matches.value;
        if !IsPrivate(field) {
          issues := issues + [(i, DbMessage(field))];
        }
      }
    }
    var matches := m.log(line);
    if matches.Some? {
      issues := issues + [(i, LogMessage(matches.value))];
    }
  }

  /** The pattern checks of `check_file` over every line, numbered from 1. */
  method CollectRegexIssues(lines: seq<string>, m: Matchers) returns (issues: seq<Issue>)
    ensures issues == RegexIssues(lines, m)
  {
    issues := [];
    for i := 0 to |lines|
      invariant issues == RegexIssues(lines[..i], m)
    {
      var found := CollectLineIssues(i + 1, lines[i], m);
      issues := issues + found;
      assert lines[..i + 1][..i] == lines[..i];
    }
    assert lines[..|lines|] == lines;
  }

  /** The de-duplication of `check_file`: an issue whose line is already in `unique_issues`
      is dropped. */
  method Deduplicate(issues: seq<Issue>) returns (unique: Dict<nat, string>)
    ensures unique == Dedup(issues)
  {
    unique := [];
    for j := 0 to |issues|
      invariant unique == Dedup(issues[..j])
    {
      var (line, message) := issues[j];
      assert issues[..j + 1] == issues[..j] + [issues[j]];
      DedupAppend(issues[..j], issues[j]);
      DedupGet(issues[..j], line);
      if line !in Keys(unique) {
        KeysPutAbsent(unique, line, message);
        unique := Put(unique, line, message);
      }
    }
    assert issues[..|issues|] == issues;
  }

  /** The tree part of `check_file`: the visitor's issues, or the syntax error's issue. */
  method CollectAstIssues(parsed: Parsed<Expr>) returns (issues: seq<Issue>)
    ensures issues == AstIssues(parsed)
  {
    match parsed {
      case Tree(root) =>
        var visitor := new SemanticLeakageVisitor();
        visitor.Visit(root);
        issues := visitor.leakageIssues;
      case SyntaxError(lineno, text) =>
        issues := [SyntaxIssue(lineno, text)];
    }
  }

  /** `check_file` on a file's text, its parse and the pattern matchers. */
  method CheckFile(content: string, parsed: Parsed<Expr>, m: Matchers) returns (result: seq<Issue>)
    ensures result == Dedup(AstIssues(parsed) + RegexIssues(Split(content, '\n'), m))
    // at most one issue per line, and for each line the first issue collected
    ensures DistinctKeys(result)
    ensures forall line: nat :: Get(result, line) == Get(AstIssues(parsed) + RegexIssues(Split(content, '\n'), m), line)
  {
    var issues := CollectAstIssues(parsed);
    var lines := Split(content, '\n');
    var lineIssues := CollectRegexIssues(lines, m);
    issues := issues + lineIssues;
    result := Deduplicate(issues);
    DedupDistinct(issues);
    forall line: nat ensures Get(result, line) == Get(issues, line) {
      DedupGet(issues, line);
    }
  }
}

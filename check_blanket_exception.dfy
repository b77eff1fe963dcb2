/** The pre-commit hook that reports blanket exception handlers. The parsed file is an
    abstract syntax tree that keeps only what the hook looks at: each `except` handler with its
    line, its type expression and its body, and every other node with its children in the
    order `generic_visit` visits them. */
module BlanketException {
  import opened Wrappers
  import opened Strings
  import opened Hooks

  /** The type expression of a handler: a plain name, a tuple, or anything else (an
      attribute such as `errors.Timeout`, a call, ...). */
  datatype TypeExpr = Name(id: string) | Tuple(elts: seq<TypeExpr>) | OtherType

  datatype Node =
    | ExceptHandler(lineno: nat, handlerType: Option<TypeExpr>, body: seq<Node>)
    | Other(children: seq<Node>)

  const BareMessage := "Bare except clause found. Use specific exceptions instead."
  const BlanketMessage := "Blanket 'except Exception:' found. Use specific exceptions instead."
  const TupleMessagePrefix := "Exception tuple contains too-generic exceptions: "

  /** The names of the plain-name elements of a tuple, in order; other elements are dropped. */
  function PlainNames(elts: seq<TypeExpr>): (names: seq<string>)
    ensures |names| <= |elts|
    ensures forall n :: n in names <==> Name(n) in elts
    decreases |elts|
  {
    if |elts| == 0 then []
    else
      var last := elts[|elts| - 1];
      assert elts == elts[..|elts| - 1] + [last];
      PlainNames(elts[..|elts| - 1]) + (if last.Name? then [last.id] else [])
  }

  /** The message `visit_ExceptHandler` reports for a handler of type `t`, if any. */
  function Verdict(t: Option<TypeExpr>): (msg: Option<string>)
    // a bare `except:` is always reported
    ensures t.None? ==> msg == Some(BareMessage)
    // `except Exception:` is reported, any other single name (`BaseException` included) is not
    ensures t.Some? && t.value.Name? ==> (msg.Some? <==> t.value.id == "Exception")
    ensures t == Some(Name("Exception")) ==> msg == Some(BlanketMessage)
    // a tuple is reported exactly when one of its elements is the name `Exception` or
    // `BaseException`, and the message lists only the plain-name elements
    ensures t.Some? && t.value.Tuple? ==>
      (msg.Some? <==> Name("Exception") in t.value.elts || Name("BaseException") in t.value.elts)
    ensures t.Some? && t.value.Tuple? && msg.Some? ==>
      msg.value == TupleMessagePrefix + Join(", ", PlainNames(t.value.elts))
    ensures t.Some? && t.value.OtherType? ==> msg.None?
  {
    match t
    case None => Some(BareMessage)
    case Some(Name(id)) => if id == "Exception" then Some(BlanketMessage) else None
    case Some(Tuple(elts)) =>
      var names := PlainNames(elts);
      if "Exception" in names || "BaseException" in names then Some(TupleMessagePrefix + Join(", ", names))
      else None
    case Some(OtherType) => None
  }

  /** Every handler of the tree as `(line, type)`, in the order the visitor reaches them: a
      handler before the handlers nested in its body, siblings in source order. */
  function Handlers(n: Node): seq<(nat, Option<TypeExpr>)>
    decreases n
  {
    match n
    case ExceptHandler(line, t, body) => [(line, t)] + HandlersAll(body)
    case Other(children) => HandlersAll(children)
  }

  function HandlersAll(ns: seq<Node>): seq<(nat, Option<TypeExpr>)>
    decreases ns
  {
    if |ns| == 0 then [] else HandlersAll(ns[..|ns| - 1]) + Handlers(ns[|ns| - 1])
  }

  /** One issue per offending handler, in the handlers' order. */
  function Reported(hs: seq<(nat, Option<TypeExpr>)>): (issues: seq<Issue>)
    ensures |issues| <= |hs|
    ensures (forall k | 0 <= k < |hs| :: Verdict(hs[k].1).None?) ==> issues == []
  {
    if |hs| == 0 then []
    else
      (if Verdict(hs[0].1).Some? then [(hs[0].0, Verdict(hs[0].1).value)] else []) + Reported(hs[1..])
  }

  lemma {:induction false} ReportedAppend(a: seq<(nat, Option<TypeExpr>)>, b: seq<(nat, Option<TypeExpr>)>)
    ensures Reported(a + b) == Reported(a) + Reported(b)
  {
    if |a| > 0 {
      assert (a + b)[0] == a[0];
      assert (a + b)[1..] == a[1..] + b;
      ReportedAppend(a[1..], b);
    } else {
      assert a + b == b;
    }
  }

  /** Every offending handler of the tree is reported with its own line, however deeply it is
      nested. */
  lemma {:induction false} EveryOffendingHandlerReported(hs: seq<(nat, Option<TypeExpr>)>, k: nat)
    requires k < |hs| && Verdict(hs[k].1).Some?
    ensures (hs[k].0, Verdict(hs[k].1).value) in Reported(hs)
  {
    if k > 0 {
      assert hs[1..][k - 1] == hs[k];
      EveryOffendingHandlerReported(hs[1..], k - 1);
    }
  }

  /** The case split of `visit_ExceptHandler` on the handler's type, collecting the tuple's
      plain names in a loop. */
  method HandlerMessage(t: Option<TypeExpr>) returns (msg: Option<string>)
    ensures msg == Verdict(t)
  {
    if t.None? {
      msg := Some(BareMessage);
    } else if t.value.Name? && t.value.id == "Exception" {
      msg := Some(BlanketMessage);
    } else if t.value.Tuple? {
      var elts := t.value.elts;
      var names: seq<string> := [];
      for i := 0 to |elts|
        invariant names == PlainNames(elts[..i])
      {
        assert elts[..i + 1][..i] == elts[..i];
        if elts[i].Name? {
          names := names + [elts[i].id];
        }
      }
      assert elts[..|elts|] == elts;
      if "Exception" in names || "BaseException" in names {
        msg := Some(TupleMessagePrefix + Join(", ", names));
      } else {
        msg := None;
      }
    } else {
      msg := None;
    }
  }

  class BlanketExceptionVisitor {
    var blanketExceptions: seq<Issue>

    constructor ()
      ensures blanketExceptions == []
    {
      blanketExceptions := [];
    }

    /** `visit`: dispatches to `visit_ExceptHandler` for a handler, else visits the children. */
    method Visit(n: Node)
      modifies this
      ensures blanketExceptions == old(blanketExceptions) + Reported(Handlers(n))
      decreases n, 2
    {
      match n
      case ExceptHandler(line, t, body) =>
        VisitExceptHandler(line, t, body);
      case Other(children) =>
        GenericVisit(children);
    }

    /** `visit_ExceptHandler`: the handler's own issue first, then its body. */
    method VisitExceptHandler(line: nat, t: Option<TypeExpr>, body: seq<Node>)
      modifies this
      ensures blanketExceptions == old(blanketExceptions) + Reported(Handlers(ExceptHandler(line, t, body)))
      decreases body, 1
    {
      var msg := HandlerMessage(t);
      if msg.Some? {
        blanketExceptions := blanketExceptions + [(line, msg.value)];
      }
      assert Reported([(line, t)]) == if msg.Some? then [(line, msg.value)] else [];
      ReportedAppend([(line, t)], HandlersAll(body));
      GenericVisit(body);
    }

    /** `generic_visit`: the children, in order. */
    method GenericVisit(children: seq<Node>)
      modifies this
      ensures blanketExceptions == old(blanketExceptions) + Reported(HandlersAll(children))
      decreases children, 0
    {
      for i := 0 to |children|
        invariant blanketExceptions == old(blanketExceptions) + Reported(HandlersAll(children[..i]))
      {
        assert children[..i + 1][..i] == children[..i];
        ReportedAppend(HandlersAll(children[..i]), Handlers(children[i]));
        Visit(children[i]);
      }
      assert children[..|children|] == children;
    }
  }

  /** `check_file` on a parsed file: the offending handlers in visiting order, or the one
      syntax-error issue. */
  method CheckFile(parsed: Parsed<Node>) returns (issues: seq<Issue>)
    ensures parsed.Tree? ==> issues == Reported(Handlers(parsed.root))
    ensures parsed.SyntaxError? ==>
      issues == [(if parsed.lineno.Some? then parsed.lineno.value else 0, "SyntaxError: " + parsed.text)]
  {
    match parsed
    case Tree(root) =>
      var visitor := new BlanketExceptionVisitor();
      visitor.Visit(root);
      issues := visitor.blanketExceptions;
    case SyntaxError(lineno, text) =>
      issues := [SyntaxIssue(lineno, text)];
  }
}

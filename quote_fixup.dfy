/**
 * `fix_tactic_eval_expr`: a top-down rewrite that makes the second argument of
 * every `tactic.eval_expr` application the quotation of its first argument.
 */
module QuoteFixup {
  import opened Outcomes
  import opened Terms

  /** `is_app(e) && is_constant(get_app_fn(e), tactic.eval_expr)`. */
  predicate IsEvalExprApp(e: Expr)
    ensures IsEvalExprApp(e) ==> |GetAppArgs(e)| > 0 && MentionsConst(e, EvalExprName)
  {
    if e.App? && GetAppFn(e) == Const(EvalExprName) then HeadIsMentioned(e); true else false
  }

  /** The rewrite of one `tactic.eval_expr` application: validates it and replaces argument 2. */
  function FixCall(e: Expr): (r: Result<Expr>)
    requires IsEvalExprApp(e)
    ensures |GetAppArgs(e)| != 3 ==> r == Err(EvalExprArity)
    ensures (|GetAppArgs(e)| == 3 && (!Closed(GetAppArgs(e)[0]) || HasLocal(GetAppArgs(e)[0])))
              ==> r == Err(EvalExprNotClosed)
    ensures r.Ok? ==>
              var args := GetAppArgs(e);
              var rargs := GetAppArgs(r.value);
              |args| == 3 && Closed(args[0]) && !HasLocal(args[0]) &&
              GetAppFn(r.value) == GetAppFn(e) && |rargs| == 3 &&
              rargs[0] == args[0] && rargs[1] == Quote(args[0]) && rargs[2] == args[2]
  {
    var args := GetAppArgs(e);
    if |args| != 3 then Err(EvalExprArity)
    else if !Closed(args[0]) || HasLocal(args[0]) then Err(EvalExprNotClosed)
    else
      var fixed := [args[0], Quote(args[0]), args[2]];
      SpineOfMkApp(GetAppFn(e), fixed);
      Ok(MkApp(GetAppFn(e), fixed))
  }

  /**
   * `replace` with the eval_expr rule: a node the rule rewrites is not visited
   * further; every other node has its children rewritten, function part first.
   */
  function Fix(e: Expr): (r: Result<Expr>)
    ensures r.Err? ==> r.error == EvalExprArity || r.error == EvalExprNotClosed
  {
    if IsEvalExprApp(e) then FixCall(e)
    else
      match e
      case App(f, a) =>
        var f' :- Fix(f);
        var a' :- Fix(a);
        Ok(App(f', a'))
      case Lambda(d, b) =>
        var d' :- Fix(d);
        var b' :- Fix(b);
        Ok(Lambda(d', b'))
      case Pi(d, b) =>
        var d' :- Fix(d);
        var b' :- Fix(b);
        Ok(Pi(d', b'))
      case _ => Ok(e)
  }

  /** The call validity `fix_tactic_eval_expr` demands of an eval_expr application. */
  predicate WellFormedCall(e: Expr)
  {
    var args := GetAppArgs(e);
    |args| == 3 && Closed(args[0]) && !HasLocal(args[0])
  }

  /** Every outermost eval_expr application of `e` is well formed. */
  ghost predicate Fixable(e: Expr)
  {
    if IsEvalExprApp(e) then WellFormedCall(e)
    else
      match e
      case App(f, a) => Fixable(f) && Fixable(a)
      case Lambda(d, b) => Fixable(d) && Fixable(b)
      case Pi(d, b) => Fixable(d) && Fixable(b)
      case _ => true
  }

  /** Every outermost eval_expr application is well formed and already carries the quotation of its first argument. */
  ghost predicate WellQuoted(e: Expr)
  {
    if IsEvalExprApp(e) then WellFormedCall(e) && GetAppArgs(e)[1] == Quote(GetAppArgs(e)[0])
    else
      match e
      case App(f, a) => WellQuoted(f) && WellQuoted(a)
      case Lambda(d, b) => WellQuoted(d) && WellQuoted(b)
      case Pi(d, b) => WellQuoted(d) && WellQuoted(b)
      case _ => true
  }

  /** `e` with the second argument of every outermost well-formed-arity eval_expr application blanked out. */
  ghost function Mask(e: Expr): Expr
  {
    if IsEvalExprApp(e) && |GetAppArgs(e)| == 3 then
      var args := GetAppArgs(e);
      MkApp(GetAppFn(e), [args[0], Sort(0), args[2]])
    else
      match e
      case App(f, a) => App(Mask(f), Mask(a))
      case Lambda(d, b) => Lambda(Mask(d), Mask(b))
      case Pi(d, b) => Pi(Mask(d), Mask(b))
      case _ => e
  }

  /** The fixup fails exactly when some outermost eval_expr application is malformed. */
  lemma {:induction false} FixSucceedsIffFixable(e: Expr)
    ensures Fix(e).Ok? <==> Fixable(e)
  {
    if !IsEvalExprApp(e) {
      match e
      case App(f, a) => FixSucceedsIffFixable(f); FixSucceedsIffFixable(a);
      case Lambda(d, b) => FixSucceedsIffFixable(d); FixSucceedsIffFixable(b);
      case Pi(d, b) => FixSucceedsIffFixable(d); FixSucceedsIffFixable(b);
      case _ =>
    }
  }

  /** The rewrite keeps the node kind and whether the spine is headed by `tactic.eval_expr`. */
  lemma {:induction false} FixPreservesHead(e: Expr)
    requires Fix(e).Ok?
    ensures Fix(e).value.App? <==> e.App?
    ensures IsEvalExprApp(Fix(e).value) <==> IsEvalExprApp(e)
  {
    if !IsEvalExprApp(e) {
      match e
      case App(f, a) =>
        FixPreservesHead(f);
        assert GetAppFn(Fix(e).value) == GetAppFn(Fix(f).value);
      case Lambda(d, b) =>
      case Pi(d, b) =>
      case _ =>
    }
  }

  /** A term in which `tactic.eval_expr` does not occur is returned as it is. */
  lemma {:induction false} FixWithoutEvalExpr(e: Expr)
    requires !MentionsConst(e, EvalExprName)
    ensures Fix(e) == Ok(e)
  {
    if IsEvalExprApp(e) {
      HeadIsMentioned(e);
    } else {
      match e
      case App(f, a) => FixWithoutEvalExpr(f); FixWithoutEvalExpr(a);
      case Lambda(d, b) => FixWithoutEvalExpr(d); FixWithoutEvalExpr(b);
      case Pi(d, b) => FixWithoutEvalExpr(d); FixWithoutEvalExpr(b);
      case _ =>
    }
  }

  lemma {:induction false} HeadIsMentioned(e: Expr)
    requires GetAppFn(e).Const?
    ensures MentionsConst(e, GetAppFn(e).name)
  {
    if e.App? { HeadIsMentioned(e.fn); }
  }

  /** A failing fixup always points at an occurrence of `tactic.eval_expr`. */
  lemma {:induction false} FixFailsOnlyWithEvalExpr(e: Expr)
    requires Fix(e).Err?
    ensures MentionsConst(e, EvalExprName)
  {
    if !MentionsConst(e, EvalExprName) {
      FixWithoutEvalExpr(e);
    }
  }

  /** A successful fixup yields well-quoted calls everywhere. */
  lemma {:induction false} FixEstablishesWellQuoted(e: Expr)
    requires Fix(e).Ok?
    ensures WellQuoted(Fix(e).value)
  {
    var r := Fix(e).value;
    FixPreservesHead(e);
    if !IsEvalExprApp(e) {
      match e
      case App(f, a) => FixEstablishesWellQuoted(f); FixEstablishesWellQuoted(a);
      case Lambda(d, b) => FixEstablishesWellQuoted(d); FixEstablishesWellQuoted(b);
      case Pi(d, b) => FixEstablishesWellQuoted(d); FixEstablishesWellQuoted(b);
      case _ =>
    }
  }

  /** Well-quoted terms are exactly the fixed points of the fixup. */
  lemma {:induction false} WellQuotedIsFixedPoint(e: Expr)
    ensures WellQuoted(e) <==> Fix(e) == Ok(e)
  {
    if IsEvalExprApp(e) {
      if WellQuoted(e) {
        var args := GetAppArgs(e);
        SpineRoundTrip(e);
        assert [args[0], Quote(args[0]), args[2]] == args;
      }
    } else {
      match e
      case App(f, a) => WellQuotedIsFixedPoint(f); WellQuotedIsFixedPoint(a);
      case Lambda(d, b) => WellQuotedIsFixedPoint(d); WellQuotedIsFixedPoint(b);
      case Pi(d, b) => WellQuotedIsFixedPoint(d); WellQuotedIsFixedPoint(b);
      case _ =>
    }
  }

  /** Running the fixup on its own output changes nothing. */
  lemma {:induction false} FixIdempotent(e: Expr)
    requires Fix(e).Ok?
    ensures Fix(Fix(e).value) == Fix(e)
  {
    FixEstablishesWellQuoted(e);
    WellQuotedIsFixedPoint(Fix(e).value);
  }

  /** Apart from the second argument of outermost eval_expr calls, the fixup changes nothing. */
  lemma {:induction false} FixChangesOnlyQuotedArgument(e: Expr)
    requires Fix(e).Ok?
    ensures Mask(Fix(e).value) == Mask(e)
  {
    var r := Fix(e).value;
    FixPreservesHead(e);
    if !IsEvalExprApp(e) {
      match e
      case App(f, a) => FixChangesOnlyQuotedArgument(f); FixChangesOnlyQuotedArgument(a);
      case Lambda(d, b) => FixChangesOnlyQuotedArgument(d); FixChangesOnlyQuotedArgument(b);
      case Pi(d, b) => FixChangesOnlyQuotedArgument(d); FixChangesOnlyQuotedArgument(b);
      case _ =>
    }
  }
}

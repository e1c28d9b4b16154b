/** Expressions of the kernel, and the application-spine operations used by the compiler. */
module Terms {

  type Name = string

  /** The name of the constant `tactic.eval_expr`. */
  const EvalExprName: Name := "tactic.eval_expr"

  /**
   * Immutable expression trees. Applications are binary (`App(f, a)`); binders use
   * de Bruijn indices (`Var`). `Quote(t)` is the quotation macro built by `mk_quote`:
   * it holds `t` as data and has no macro arguments, so traversals and the
   * `closed`/`has_local` tests do not look inside it.
   */
  datatype Expr =
    | Var(idx: nat)
    | Local(id: nat)
    | Const(name: Name)
    | App(fn: Expr, arg: Expr)
    | Lambda(dom: Expr, body: Expr)
    | Pi(dom: Expr, body: Expr)
    | Sort(level: nat)
    | MVar(id: nat)
    | Lit(val: nat)
    | Quote(quoted: Expr)

  function Height(e: Expr): (h: nat)
  {
    match e
    case App(f, a) => 1 + Max(Height(f), Height(a))
    case Lambda(d, b) => 1 + Max(Height(d), Height(b))
    case Pi(d, b) => 1 + Max(Height(d), Height(b))
    case _ => 0
  }

  function Max(a: nat, b: nat): nat { if a < b then b else a }

  /** `get_app_fn`: the head of the application spine. */
  function GetAppFn(e: Expr): (r: Expr)
    ensures !r.App?
    ensures !e.App? ==> r == e
    ensures e.App? ==> Height(r) < Height(e)
  {
    if e.App? then GetAppFn(e.fn) else e
  }

  /** `get_app_args`: the arguments of the application spine, leftmost first. */
  function GetAppArgs(e: Expr): (r: seq<Expr>)
    ensures e.App? <==> |r| > 0
    ensures forall x :: x in r ==> Height(x) < Height(e)
  {
    if e.App? then GetAppArgs(e.fn) + [e.arg] else []
  }

  /** `mk_app`: applies `f` to `args`, leftmost first. */
  function MkApp(f: Expr, args: seq<Expr>): (r: Expr)
    ensures r.App? <==> f.App? || |args| > 0
    ensures Height(f) <= Height(r)
  {
    if |args| == 0 then f else App(MkApp(f, args[..|args| - 1]), args[|args| - 1])
  }

  /** Splitting an expression into spine head and arguments and rebuilding it gives it back. */
  lemma {:induction false} SpineRoundTrip(e: Expr)
    ensures MkApp(GetAppFn(e), GetAppArgs(e)) == e
  {
    if e.App? {
      SpineRoundTrip(e.fn);
      var args := GetAppArgs(e);
      assert args[..|args| - 1] == GetAppArgs(e.fn);
    }
  }

  /** Building an application over a head that is not itself an application keeps head and arguments apart. */
  lemma {:induction false} SpineOfMkApp(f: Expr, args: seq<Expr>)
    requires !f.App?
    ensures GetAppFn(MkApp(f, args)) == f
    ensures GetAppArgs(MkApp(f, args)) == args
  {
    if |args| > 0 {
      var init, last := args[..|args| - 1], args[|args| - 1];
      SpineOfMkApp(f, init);
      var m := MkApp(f, init);
      assert MkApp(f, args) == App(m, last);
      assert GetAppArgs(App(m, last)) == GetAppArgs(m) + [last];
      assert init + [last] == args;
    }
  }

  /** True when `e` has a bound variable that escapes `depth` enclosing binders. */
  predicate HasLooseBVars(e: Expr, depth: nat)
  {
    match e
    case Var(i) => i >= depth
    case App(f, a) => HasLooseBVars(f, depth) || HasLooseBVars(a, depth)
    case Lambda(d, b) => HasLooseBVars(d, depth) || HasLooseBVars(b, depth + 1)
    case Pi(d, b) => HasLooseBVars(d, depth) || HasLooseBVars(b, depth + 1)
    case _ => false
  }

  /** `closed`: no loose bound variables. */
  predicate Closed(e: Expr)
  {
    !HasLooseBVars(e, 0)
  }

  /** `has_local`: a free local occurs in `e`. */
  predicate HasLocal(e: Expr)
  {
    match e
    case Local(_) => true
    case App(f, a) => HasLocal(f) || HasLocal(a)
    case Lambda(d, b) => HasLocal(d) || HasLocal(b)
    case Pi(d, b) => HasLocal(d) || HasLocal(b)
    case _ => false
  }

  /** The constant `n` occurs somewhere in `e` (outside quotations). */
  predicate MentionsConst(e: Expr, n: Name)
  {
    match e
    case Const(c) => c == n
    case App(f, a) => MentionsConst(f, n) || MentionsConst(a, n)
    case Lambda(d, b) => MentionsConst(d, n) || MentionsConst(b, n)
    case Pi(d, b) => MentionsConst(d, n) || MentionsConst(b, n)
    case _ => false
  }

  /** `s` occurs in `e` (outside quotations) below exactly `k` enclosing binders of `e`. */
  predicate OccursUnder(s: Expr, e: Expr, k: nat)
  {
    (s == e && k == 0) ||
    match e
    case App(f, a) => OccursUnder(s, f, k) || OccursUnder(s, a, k)
    case Lambda(d, b) => OccursUnder(s, d, k) || (k > 0 && OccursUnder(s, b, k - 1))
    case Pi(d, b) => OccursUnder(s, d, k) || (k > 0 && OccursUnder(s, b, k - 1))
    case _ => false
  }

  /** A loose bound variable at `depth` is an occurrence of `Var(i)` under `k` binders with `i >= depth + k`. */
  lemma LooseBVarIffEscapingOccurrence(e: Expr, depth: nat)
    ensures HasLooseBVars(e, depth) <==>
            exists s, k :: OccursUnder(s, e, k) && s.Var? && s.idx >= depth + k
  {
    if HasLooseBVars(e, depth) {
      LooseBVarHasEscapingOccurrence(e, depth);
    }
    forall s: Expr, k: nat | OccursUnder(s, e, k) && s.Var? && s.idx >= depth + k
      ensures HasLooseBVars(e, depth)
    {
      EscapingOccurrenceIsLoose(s, e, k, depth);
    }
  }

  lemma {:induction false} LooseBVarHasEscapingOccurrence(e: Expr, depth: nat)
    requires HasLooseBVars(e, depth)
    ensures exists s, k :: OccursUnder(s, e, k) && s.Var? && s.idx >= depth + k
  {
    match e
    case Var(_) =>
      assert OccursUnder(e, e, 0);
    case App(f, a) =>
      if HasLooseBVars(f, depth) {
        LooseBVarHasEscapingOccurrence(f, depth);
        var s: Expr, k: nat :| OccursUnder(s, f, k) && s.Var? && s.idx >= depth + k;
        assert OccursUnder(s, e, k);
      } else {
        LooseBVarHasEscapingOccurrence(a, depth);
        var s: Expr, k: nat :| OccursUnder(s, a, k) && s.Var? && s.idx >= depth + k;
        assert OccursUnder(s, e, k);
      }
    case Lambda(d, b) =>
      if HasLooseBVars(d, depth) {
        LooseBVarHasEscapingOccurrence(d, depth);
        var s: Expr, k: nat :| OccursUnder(s, d, k) && s.Var? && s.idx >= depth + k;
        assert OccursUnder(s, e, k);
      } else {
        LooseBVarHasEscapingOccurrence(b, depth + 1);
        var s: Expr, k: nat :| OccursUnder(s, b, k) && s.Var? && s.idx >= depth + 1 + k;
        assert OccursUnder(s, e, k + 1);
      }
    case Pi(d, b) =>
      if HasLooseBVars(d, depth) {
        LooseBVarHasEscapingOccurrence(d, depth);
        var s: Expr, k: nat :| OccursUnder(s, d, k) && s.Var? && s.idx >= depth + k;
        assert OccursUnder(s, e, k);
      } else {
        LooseBVarHasEscapingOccurrence(b, depth + 1);
        var s: Expr, k: nat :| OccursUnder(s, b, k) && s.Var? && s.idx >= depth + 1 + k;
        assert OccursUnder(s, e, k + 1);
      }
  }

  lemma {:induction false} EscapingOccurrenceIsLoose(s: Expr, e: Expr, k: nat, depth: nat)
    requires OccursUnder(s, e, k) && s.Var? && s.idx >= depth + k
    ensures HasLooseBVars(e, depth)
  {
    if s == e && k == 0 {
    } else {
      match e
      case App(f, a) =>
        if OccursUnder(s, f, k) {
          EscapingOccurrenceIsLoose(s, f, k, depth);
        } else {
          EscapingOccurrenceIsLoose(s, a, k, depth);
        }
      case Lambda(d, b) =>
        if OccursUnder(s, d, k) {
          EscapingOccurrenceIsLoose(s, d, k, depth);
        } else {
          EscapingOccurrenceIsLoose(s, b, k - 1, depth + 1);
        }
      case Pi(d, b) =>
        if OccursUnder(s, d, k) {
          EscapingOccurrenceIsLoose(s, d, k, depth);
        } else {
          EscapingOccurrenceIsLoose(s, b, k - 1, depth + 1);
        }
    }
  }

  /** A term is closed exactly when every bound variable in it is captured by one of its own binders. */
  lemma ClosedIffEveryVarCaptured(e: Expr)
    ensures Closed(e) <==> forall s, k :: OccursUnder(s, e, k) && s.Var? ==> s.idx < k
  {
    LooseBVarIffEscapingOccurrence(e, 0);
  }

  /** `HasLocal` holds exactly when some occurrence in the term is a local. */
  lemma HasLocalIffLocalOccurs(e: Expr)
    ensures HasLocal(e) <==> exists s, k :: OccursUnder(s, e, k) && s.Local?
  {
    if HasLocal(e) {
      HasLocalHasLocalOccurrence(e);
    }
    forall s: Expr, k: nat | OccursUnder(s, e, k) && s.Local?
      ensures HasLocal(e)
    {
      LocalOccurrenceIsHasLocal(s, e, k);
    }
  }

  lemma {:induction false} HasLocalHasLocalOccurrence(e: Expr)
    requires HasLocal(e)
    ensures exists s, k :: OccursUnder(s, e, k) && s.Local?
  {
    match e
    case Local(_) =>
      assert OccursUnder(e, e, 0);
    case App(f, a) =>
      if HasLocal(f) {
        HasLocalHasLocalOccurrence(f);
        var s: Expr, k: nat :| OccursUnder(s, f, k) && s.Local?;
        assert OccursUnder(s, e, k);
      } else {
        HasLocalHasLocalOccurrence(a);
        var s: Expr, k: nat :| OccursUnder(s, a, k) && s.Local?;
        assert OccursUnder(s, e, k);
      }
    case Lambda(d, b) =>
      if HasLocal(d) {
        HasLocalHasLocalOccurrence(d);
        var s: Expr, k: nat :| OccursUnder(s, d, k) && s.Local?;
        assert OccursUnder(s, e, k);
      } else {
        HasLocalHasLocalOccurrence(b);
        var s: Expr, k: nat :| OccursUnder(s, b, k) && s.Local?;
        assert OccursUnder(s, e, k + 1);
      }
    case Pi(d, b) =>
      if HasLocal(d) {
        HasLocalHasLocalOccurrence(d);
        var s: Expr, k: nat :| OccursUnder(s, d, k) && s.Local?;
        assert OccursUnder(s, e, k);
      } else {
        HasLocalHasLocalOccurrence(b);
        var s: Expr, k: nat :| OccursUnder(s, b, k) && s.Local?;
        assert OccursUnder(s, e, k + 1);
      }
  }

  lemma {:induction false} LocalOccurrenceIsHasLocal(s: Expr, e: Expr, k: nat)
    requires OccursUnder(s, e, k) && s.Local?
    ensures HasLocal(e)
  {
    if s == e && k == 0 {
    } else {
      match e
      case App(f, a) =>
        if OccursUnder(s, f, k) {
          LocalOccurrenceIsHasLocal(s, f, k);
        } else {
          LocalOccurrenceIsHasLocal(s, a, k);
        }
      case Lambda(d, b) =>
        if OccursUnder(s, d, k) {
          LocalOccurrenceIsHasLocal(s, d, k);
        } else {
          LocalOccurrenceIsHasLocal(s, b, k - 1);
        }
      case Pi(d, b) =>
        if OccursUnder(s, d, k) {
          LocalOccurrenceIsHasLocal(s, d, k);
        } else {
          LocalOccurrenceIsHasLocal(s, b, k - 1);
        }
    }
  }
}

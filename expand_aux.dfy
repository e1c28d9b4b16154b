/**
 * `expand_aux_fn`: the recursor-aware unfolder. The environment and the type
 * context are oracles supplied as the fields of `Env`; the visitor is bounded
 * by an explicit fuel, since termination of the oracles is not established.
 */
module ExpandAux {
  import opened Outcomes
  import opened Terms

  /** What `env().get(n)` reveals about a declaration. */
  datatype DeclKind = DeclKind(isDefinition: bool, isTheorem: bool)

  /** The environment and type-context operations the unfolder consults. */
  datatype Env = Env(
    lookup: Name -> Option<DeclKind>,
    isCasesOnRecursor: Name -> bool,
    isAuxRecursor: Name -> bool,
    isUserDefinedRecursor: Name -> bool,
    isProjection: Name -> bool,
    isNoConfusion: Name -> bool,
    isVmFunction: Name -> bool,
    unfoldTerm: Expr -> Option<Expr>,
    whnfPred: (Expr, Expr -> bool) -> Expr,
    reduceAuxRecursor: Expr -> Option<Expr>,
    normExt: Expr -> Option<Expr>,
    isProof: Expr -> bool
  )

  datatype RecursorKind = Aux | CasesOn | NotRecursor

  /** The per-node decision of the unfolder. */
  datatype Step =
    | Keep              // return the node as it is
    | Descend           // visit the head and every argument of the application
    | Unfold(r: Expr)   // delta-unfolded to r; visit r
    | Reduce(r: Expr)   // cases_on reduced and normalised to r; visit r
    | Normalize(r: Expr) // weak-head normalised to r (differs from the node for the probe); visit r

  /** `get_recursor_app_kind`. */
  function GetRecursorAppKind(env: Env, e: Expr): (k: RecursorKind)
    ensures !e.App? || !GetAppFn(e).Const? ==> k == NotRecursor
    ensures k == CasesOn <==>
              e.App? && GetAppFn(e).Const? && env.isCasesOnRecursor(GetAppFn(e).name)
    ensures k == Aux <==>
              e.App? && GetAppFn(e).Const? && !env.isCasesOnRecursor(GetAppFn(e).name) &&
              (env.isAuxRecursor(GetAppFn(e).name) || env.isUserDefinedRecursor(GetAppFn(e).name))
  {
    if !e.App? then NotRecursor
    else
      var fn := GetAppFn(e);
      if !fn.Const? then NotRecursor
      else if env.isCasesOnRecursor(fn.name) then CasesOn
      else if env.isAuxRecursor(fn.name) || env.isUserDefinedRecursor(fn.name) then Aux
      else NotRecursor
  }

  /** The member `is_aux_recursor(e)`, used as the stop predicate of the weak-head normaliser. */
  predicate IsAuxRecursorApp(env: Env, e: Expr)
    ensures IsAuxRecursorApp(env, e) ==> e.App? && GetAppFn(e).Const?
    ensures IsAuxRecursorApp(env, e) ==> !env.isCasesOnRecursor(GetAppFn(e).name)
  {
    GetRecursorAppKind(env, e) == Aux
  }

  /** The predicate passed for an auxiliary recursor: normalisation carries on while it holds. */
  function WhileAuxRecursor(env: Env): Expr -> bool
  {
    (x: Expr) => IsAuxRecursorApp(env, x)
  }

  /** The always-false predicate of the probe: normalisation stops at once. */
  function ProbeOnly(): Expr -> bool
  {
    (x: Expr) => false
  }

  /** `visit_constant`, for the constant `e == Const(n)`. */
  function ConstantStep(env: Env, e: Expr): (r: Result<Step>)
    requires e.Const?
    ensures env.lookup(e.name).None? <==> r == Err(UnknownDeclaration(e.name))
    ensures r.Ok? ==> r.value.Keep? || r.value.Unfold?
    ensures r.Ok? && r.value.Unfold? <==>
              env.lookup(e.name).Some? &&
              env.lookup(e.name).value.isDefinition && !env.lookup(e.name).value.isTheorem &&
              !env.isAuxRecursor(e.name) && !env.isUserDefinedRecursor(e.name) &&
              !env.isProjection(e.name) && !env.isNoConfusion(e.name) &&
              !env.isVmFunction(e.name) && env.unfoldTerm(e).Some?
    ensures r.Ok? && r.value.Unfold? ==> r.value.r == env.unfoldTerm(e).value
  {
    var n := e.name;
    match env.lookup(n)
    case None => Err(UnknownDeclaration(n))
    case Some(d) =>
      if !d.isDefinition || d.isTheorem then Ok(Keep)
      else if env.isAuxRecursor(n) || env.isUserDefinedRecursor(n) ||
              env.isProjection(n) || env.isNoConfusion(n) then Ok(Keep)
      else if !env.isVmFunction(n) && env.unfoldTerm(e).Some? then Ok(Unfold(env.unfoldTerm(e).value))
      else Ok(Keep)
  }

  /** `is_not_vm_function`. */
  function IsNotVmFunction(env: Env, e: Expr): (r: Result<bool>)
    ensures !GetAppFn(e).Const? ==> r == Ok(false)
    ensures r.Err? <==> GetAppFn(e).Const? && env.lookup(GetAppFn(e).name).None?
    ensures r == Ok(true) <==>
              GetAppFn(e).Const? && env.lookup(GetAppFn(e).name).Some? &&
              env.lookup(GetAppFn(e).name).value.isDefinition &&
              !env.lookup(GetAppFn(e).name).value.isTheorem &&
              !env.isProjection(GetAppFn(e).name) && !env.isNoConfusion(GetAppFn(e).name) &&
              !env.isVmFunction(GetAppFn(e).name)
  {
    var fn := GetAppFn(e);
    if !fn.Const? then Ok(false)
    else
      match env.lookup(fn.name)
      case None => Err(UnknownDeclaration(fn.name))
      case Some(d) =>
        if !d.isDefinition || d.isTheorem || env.isProjection(fn.name) || env.isNoConfusion(fn.name)
        then Ok(false)
        else Ok(!env.isVmFunction(fn.name))
  }

  /** `visit_cases_on`: reduce, then normalise; otherwise visit the parts. */
  function CasesOnStep(env: Env, e: Expr): (s: Step)
    ensures s.Reduce? || s.Descend?
    ensures s.Reduce? <==>
              env.reduceAuxRecursor(e).Some? && env.normExt(env.reduceAuxRecursor(e).value).Some?
    ensures s.Reduce? ==> s.r == env.normExt(env.reduceAuxRecursor(e).value).value
  {
    match env.reduceAuxRecursor(e)
    case Some(r1) =>
      (match env.normExt(r1)
       case Some(r2) => Reduce(r2)
       case None => Descend)
    case None => Descend
  }

  /** The one-step probe of the not-a-recursor case, with the identity check that prevents a self-loop. */
  function ProbeStep(env: Env, e: Expr): (s: Step)
    ensures s.Descend? || s.Normalize?
    ensures s.Descend? <==> env.whnfPred(e, ProbeOnly()) == e
    ensures s.Normalize? ==> s.r == env.whnfPred(e, ProbeOnly()) && s.r != e
  {
    var p := env.whnfPred(e, ProbeOnly());
    if p == e then Descend else Normalize(p)
  }

  /** The dispatch of `visit_app`. */
  function AppStep(env: Env, e: Expr): (r: Result<Step>)
    requires e.App?
    ensures r.Ok? ==> !r.value.Keep?
    ensures GetRecursorAppKind(env, e) == CasesOn ==> r == Ok(CasesOnStep(env, e))
    ensures GetRecursorAppKind(env, e) == Aux ==> r == Ok(Normalize(env.whnfPred(e, WhileAuxRecursor(env))))
    ensures GetRecursorAppKind(env, e) == NotRecursor ==>
              match IsNotVmFunction(env, e)
              case Err(err) => r == Err(err)
              case Ok(b) =>
                if b && !env.isProof(e) && env.unfoldTerm(e).Some?
                then r == Ok(Unfold(env.unfoldTerm(e).value))
                else r == Ok(ProbeStep(env, e))
    ensures r.Ok? && r.value.Unfold? ==> GetRecursorAppKind(env, e) == NotRecursor
    ensures r.Ok? && r.value.Reduce? ==> GetRecursorAppKind(env, e) == CasesOn
  {
    match GetRecursorAppKind(env, e)
    case NotRecursor =>
      var nv :- IsNotVmFunction(env, e);
      if nv && !env.isProof(e) && env.unfoldTerm(e).Some? then Ok(Unfold(env.unfoldTerm(e).value))
      else Ok(ProbeStep(env, e))
    case CasesOn => Ok(CasesOnStep(env, e))
    case Aux => Ok(Normalize(env.whnfPred(e, WhileAuxRecursor(env))))
  }

  /**
   * `compiler_step_visitor::visit` specialised by `expand_aux_fn`. Constants go
   * to `visit_constant`, applications to `visit_app`, binders have both parts
   * visited, all other nodes are returned as they are. Every step costs one
   * unit of fuel.
   */
  function Visit(env: Env, fuel: nat, e: Expr): (r: Result<Expr>)
    decreases fuel, 0
    ensures r.Err? ==> r.error.OutOfFuel? || r.error.UnknownDeclaration?
  {
    if fuel == 0 then Err(OutOfFuel)
    else
      match e
      case Const(_) =>
        var s :- ConstantStep(env, e);
        if s.Unfold? then Visit(env, fuel - 1, s.r) else Ok(e)
      case App(_, _) =>
        var s :- AppStep(env, e);
        (match s
         case Descend => VisitParts(env, fuel - 1, e)
         case Unfold(x) => Visit(env, fuel - 1, x)
         case Reduce(x) => Visit(env, fuel - 1, x)
         case Normalize(x) => Visit(env, fuel - 1, x)
         case Keep => Ok(e))
      case Lambda(d, b) =>
        var d' :- Visit(env, fuel - 1, d);
        var b' :- Visit(env, fuel - 1, b);
        Ok(Lambda(d', b'))
      case Pi(d, b) =>
        var d' :- Visit(env, fuel - 1, d);
        var b' :- Visit(env, fuel - 1, b);
        Ok(Pi(d', b'))
      case _ => Ok(e)
  }

  /** `compiler_step_visitor::visit_app`: visit the head and the arguments, and rebuild the application. */
  function VisitParts(env: Env, fuel: nat, e: Expr): (r: Result<Expr>)
    decreases fuel, 2 + |GetAppArgs(e)|
    ensures r.Err? ==> r.error.OutOfFuel? || r.error.UnknownDeclaration?
    ensures r.Ok? ==>
              Visit(env, fuel, GetAppFn(e)).Ok? && VisitArgs(env, fuel, GetAppArgs(e)).Ok? &&
              r.value == MkApp(Visit(env, fuel, GetAppFn(e)).value, VisitArgs(env, fuel, GetAppArgs(e)).value)
  {
    var h :- Visit(env, fuel, GetAppFn(e));
    var args :- VisitArgs(env, fuel, GetAppArgs(e));
    Ok(MkApp(h, args))
  }

  function VisitArgs(env: Env, fuel: nat, args: seq<Expr>): (r: Result<seq<Expr>>)
    decreases fuel, 1 + |args|
    ensures r.Ok? ==> |r.value| == |args|
    ensures r.Ok? ==> forall i :: 0 <= i < |args| ==> Visit(env, fuel, args[i]) == Ok(r.value[i])
    ensures r.Err? ==> r.error.OutOfFuel? || r.error.UnknownDeclaration?
  {
    if |args| == 0 then Ok([])
    else
      var x :- Visit(env, fuel, args[0]);
      var xs :- VisitArgs(env, fuel, args[1..]);
      Ok([x] + xs)
  }

  /** Every node of `e` is one the unfolder leaves alone: constants are kept and applications only descended into. */
  ghost predicate Inert(env: Env, e: Expr)
    decreases Height(e)
  {
    match e
    case Const(_) => ConstantStep(env, e) == Ok(Keep)
    case App(_, _) =>
      AppStep(env, e) == Ok(Descend) && Inert(env, GetAppFn(e)) &&
      forall x :: x in GetAppArgs(e) ==> Inert(env, x)
    case Lambda(d, b) => Inert(env, d) && Inert(env, b)
    case Pi(d, b) => Inert(env, d) && Inert(env, b)
    case _ => true
  }

  /** With fuel beyond its height, a term with nothing to unfold is returned unchanged. */
  lemma {:induction false} VisitInert(env: Env, fuel: nat, e: Expr)
    requires Inert(env, e) && fuel > Height(e)
    ensures Visit(env, fuel, e) == Ok(e)
    decreases fuel, 1
  {
    match e
    case App(_, _) =>
      VisitInertApp(env, fuel, e);
    case Lambda(d, b) => VisitInert(env, fuel - 1, d); VisitInert(env, fuel - 1, b);
    case Pi(d, b) => VisitInert(env, fuel - 1, d); VisitInert(env, fuel - 1, b);
    case _ =>
  }

  lemma {:induction false} VisitInertApp(env: Env, fuel: nat, e: Expr)
    requires e.App? && Inert(env, e) && fuel > Height(e)
    ensures Visit(env, fuel, e) == Ok(e)
    decreases fuel, 0
  {
    var h, args := GetAppFn(e), GetAppArgs(e);
    assert AppStep(env, e) == Ok(Descend);
    VisitDescends(env, fuel, e);
    VisitInert(env, fuel - 1, h);
    VisitArgsInert(env, fuel - 1, args, Height(e));
    assert VisitParts(env, fuel - 1, e) == Ok(MkApp(h, args));
    SpineRoundTrip(e);
  }

  /** Each step that yields a new term has that term visited with one unit less fuel; binders are rebuilt from their visited parts. */
  lemma VisitFollowsStep(env: Env, fuel: nat, e: Expr)
    requires fuel > 0
    ensures e.Const? && ConstantStep(env, e).Ok? && ConstantStep(env, e).value.Unfold? ==>
              Visit(env, fuel, e) == Visit(env, fuel - 1, ConstantStep(env, e).value.r)
    ensures e.App? && AppStep(env, e).Ok? && !AppStep(env, e).value.Descend? ==>
              Visit(env, fuel, e) == Visit(env, fuel - 1, AppStep(env, e).value.r)
    ensures e.Lambda? ==>
              Visit(env, fuel, e) ==
                match (Visit(env, fuel - 1, e.dom), Visit(env, fuel - 1, e.body))
                case (Ok(d), Ok(b)) => Ok(Lambda(d, b))
                case (Err(err), _) => Err(err)
                case (Ok(_), Err(err)) => Err(err)
    ensures e.Pi? ==>
              Visit(env, fuel, e) ==
                match (Visit(env, fuel - 1, e.dom), Visit(env, fuel - 1, e.body))
                case (Ok(d), Ok(b)) => Ok(Pi(d, b))
                case (Err(err), _) => Err(err)
                case (Ok(_), Err(err)) => Err(err)
  {
  }

  /** An application the dispatch only descends into is visited part by part. */
  lemma VisitDescends(env: Env, fuel: nat, e: Expr)
    requires e.App? && fuel > 0 && AppStep(env, e) == Ok(Descend)
    ensures Visit(env, fuel, e) == VisitParts(env, fuel - 1, e)
  {
  }

  lemma {:induction false} VisitArgsInert(env: Env, fuel: nat, args: seq<Expr>, bound: nat)
    requires forall x :: x in args ==> Inert(env, x) && Height(x) < bound
    requires fuel >= bound
    ensures VisitArgs(env, fuel, args) == Ok(args)
    decreases fuel, 1 + |args|
  {
    if |args| > 0 {
      VisitInert(env, fuel, args[0]);
      VisitArgsInert(env, fuel, args[1..], bound);
      assert [args[0]] + args[1..] == args;
    }
  }

  /** The fuel bound only cuts the visitor off: a run that did not run out gives the same result with more fuel. */
  lemma {:induction false} VisitFuelMonotone(env: Env, fuel: nat, more: nat, e: Expr)
    requires fuel <= more && Visit(env, fuel, e) != Err(OutOfFuel)
    ensures Visit(env, more, e) == Visit(env, fuel, e)
    decreases fuel, 0
  {
    match e
    case Const(_) =>
      var s := ConstantStep(env, e);
      if s.Ok? && s.value.Unfold? { VisitFuelMonotone(env, fuel - 1, more - 1, s.value.r); }
    case App(_, _) =>
      var s := AppStep(env, e);
      if s.Ok? {
        match s.value
        case Descend => VisitPartsFuelMonotone(env, fuel - 1, more - 1, e);
        case Unfold(x) => VisitFuelMonotone(env, fuel - 1, more - 1, x);
        case Reduce(x) => VisitFuelMonotone(env, fuel - 1, more - 1, x);
        case Normalize(x) => VisitFuelMonotone(env, fuel - 1, more - 1, x);
        case Keep =>
      }
    case Lambda(d, b) =>
      VisitFuelMonotone(env, fuel - 1, more - 1, d);
      if Visit(env, fuel - 1, d).Ok? { VisitFuelMonotone(env, fuel - 1, more - 1, b); }
    case Pi(d, b) =>
      VisitFuelMonotone(env, fuel - 1, more - 1, d);
      if Visit(env, fuel - 1, d).Ok? { VisitFuelMonotone(env, fuel - 1, more - 1, b); }
    case _ =>
  }

  lemma {:induction false} VisitPartsFuelMonotone(env: Env, fuel: nat, more: nat, e: Expr)
    requires fuel <= more && VisitParts(env, fuel, e) != Err(OutOfFuel)
    ensures VisitParts(env, more, e) == VisitParts(env, fuel, e)
    decreases fuel, 2 + |GetAppArgs(e)|
  {
    VisitFuelMonotone(env, fuel, more, GetAppFn(e));
    if Visit(env, fuel, GetAppFn(e)).Ok? {
      VisitArgsFuelMonotone(env, fuel, more, GetAppArgs(e));
    }
  }

  lemma {:induction false} VisitArgsFuelMonotone(env: Env, fuel: nat, more: nat, args: seq<Expr>)
    requires fuel <= more && VisitArgs(env, fuel, args) != Err(OutOfFuel)
    ensures VisitArgs(env, more, args) == VisitArgs(env, fuel, args)
    decreases fuel, 1 + |args|
  {
    if |args| > 0 {
      VisitFuelMonotone(env, fuel, more, args[0]);
      if Visit(env, fuel, args[0]).Ok? {
        VisitArgsFuelMonotone(env, fuel, more, args[1..]);
      }
    }
  }

  /**
   * In the not-a-recursor case, a probe that gives back the very same term makes
   * the visitor descend into the parts; it never visits the same node again.
   */
  lemma NotRecursorProbeDescends(env: Env, fuel: nat, e: Expr)
    requires e.App? && fuel > 0 && GetRecursorAppKind(env, e) == NotRecursor
    requires IsNotVmFunction(env, e).Ok?
    requires !IsNotVmFunction(env, e).value || env.isProof(e) || env.unfoldTerm(e).None?
    requires env.whnfPred(e, ProbeOnly()) == e
    ensures Visit(env, fuel, e) == VisitParts(env, fuel - 1, e)
  {
    VisitDescends(env, fuel, e);
  }

  /** A cases_on application that does not reduce is visited part by part; the application itself is not delta-unfolded. */
  lemma CasesOnStuckDescends(env: Env, fuel: nat, e: Expr)
    requires e.App? && fuel > 0 && GetRecursorAppKind(env, e) == CasesOn
    requires env.reduceAuxRecursor(e).None? || env.normExt(env.reduceAuxRecursor(e).value).None?
    ensures Visit(env, fuel, e) == VisitParts(env, fuel - 1, e)
  {
    assert CasesOnStep(env, e) == Descend;
    VisitDescends(env, fuel, e);
  }

  /**
   * The auxiliary-recursor case has no identity check: if the normaliser makes
   * no progress the visitor revisits the same node, and only the fuel stops it.
   */
  lemma {:induction false} AuxWithoutProgressRunsOutOfFuel(env: Env, fuel: nat, e: Expr)
    requires e.App? && GetRecursorAppKind(env, e) == Aux
    requires env.whnfPred(e, WhileAuxRecursor(env)) == e
    ensures Visit(env, fuel, e) == Err(OutOfFuel)
  {
    if fuel > 0 {
      AuxWithoutProgressRunsOutOfFuel(env, fuel - 1, e);
    }
  }
}

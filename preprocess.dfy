/**
 * `preprocess_fn`: the pipeline driver. The passes whose code is elsewhere are
 * opaque functions supplied in `Passes`; the driver threads one term through
 * them and then a buffer of procedures.
 */
module Preprocess {
  import opened Outcomes
  import opened Terms
  import ExpandAux
  import QuoteFixup

  datatype Pos = Pos(line: nat, column: nat)

  /** `procedure`: a name, an optional source position, and code. */
  datatype Procedure = Procedure(name: Name, pos: Option<Pos>, code: Expr)

  datatype Declaration = Declaration(name: Name, typ: Expr, value: Expr)

  /** What `elim_recursors` gives back: the rewritten code and the auxiliary procedures it appends. */
  datatype ElimResult = ElimResult(code: Expr, aux: seq<Procedure>)

  /** The passes of the pipeline whose bodies are not part of this model, the type checker, and position lookup. */
  datatype Passes = Passes(
    inlineSimpleDefinitions: Expr -> Expr,
    markCompIrrelevantSubterms: Expr -> Expr,
    findNatValues: Expr -> Expr,
    etaExpand: Expr -> Expr,
    simpPr1Rec: Expr -> Expr,
    elimRecursors: (Name, Expr) -> ElimResult,
    eraseIrrelevant: Expr -> Expr,
    reduceArity: seq<Procedure> -> seq<Procedure>,
    lambdaLifting: (Name, seq<Procedure>) -> seq<Procedure>,
    simpInductive: seq<Procedure> -> seq<Procedure>,
    typeChecks: (Declaration, Expr) -> bool,
    declPosInfo: Name -> Option<Pos>
  )

  /** `lean_cond_assert("compiler", check(d, v))`: only active when `checking` is set. */
  function SelfCheck(p: Passes, checking: bool, d: Declaration, v: Expr): (r: Result<Expr>)
    ensures r.Ok? ==> r.value == v
    ensures r.Err? <==> checking && !p.typeChecks(d, v)
    ensures r.Err? ==> r.error == PreprocessFailed
  {
    if checking && !p.typeChecks(d, v) then Err(PreprocessFailed) else Ok(v)
  }

  /** The term passes, from the quotation fixup to `simp_pr1_rec`, each followed by its check. */
  function FrontEnd(env: ExpandAux.Env, p: Passes, checking: bool, fuel: nat, d: Declaration): (r: Result<Expr>)
    ensures QuoteFixup.Fix(d.value).Err? ==> r == QuoteFixup.Fix(d.value)
    ensures r.Ok? ==> QuoteFixup.Fix(d.value).Ok?
    ensures r.Ok? && checking ==> p.typeChecks(d, r.value)
    ensures !checking && QuoteFixup.Fix(d.value).Ok? ==>
              (r.Ok? <==> ExpandAux.Visit(env, fuel, p.inlineSimpleDefinitions(QuoteFixup.Fix(d.value).value)).Ok?)
  {
    var v1 :- QuoteFixup.Fix(d.value);
    var v2 :- SelfCheck(p, checking, d, p.inlineSimpleDefinitions(v1));
    var x :- ExpandAux.Visit(env, fuel, v2);
    var v3 :- SelfCheck(p, checking, d, x);
    var v4 :- SelfCheck(p, checking, d, p.markCompIrrelevantSubterms(v3));
    var v5 :- SelfCheck(p, checking, d, p.findNatValues(v4));
    var v6 :- SelfCheck(p, checking, d, p.etaExpand(v5));
    SelfCheck(p, checking, d, p.simpPr1Rec(v6))
  }

  /** The buffer right after recursor elimination: the auxiliaries are appended, then the primary procedure. */
  function ElimStage(procs: seq<Procedure>, er: ElimResult, name: Name, pos: Option<Pos>): (r: seq<Procedure>)
    ensures |r| == |procs| + |er.aux| + 1
    ensures r[..|procs|] == procs
    ensures r[|procs|..|r| - 1] == er.aux
    ensures r[|r| - 1] == Procedure(name, pos, er.code)
  {
    var r := procs + er.aux + [Procedure(name, pos, er.code)];
    assert r[..|procs|] == procs;
    assert r[|procs|..|r| - 1] == er.aux;
    r
  }

  /** `erase_irrelevant` on every procedure: only the code changes. */
  function EraseAll(erase: Expr -> Expr, procs: seq<Procedure>): (r: seq<Procedure>)
    ensures |r| == |procs|
    ensures forall i :: 0 <= i < |procs| ==>
              r[i].name == procs[i].name && r[i].pos == procs[i].pos && r[i].code == erase(procs[i].code)
  {
    if procs == [] then []
    else [procs[0].(code := erase(procs[0].code))] + EraseAll(erase, procs[1..])
  }

  /** The procedure passes that follow recursor elimination, in order. */
  function BackEnd(p: Passes, name: Name, procs: seq<Procedure>): seq<Procedure>
  {
    p.simpInductive(p.lambdaLifting(name, p.reduceArity(EraseAll(p.eraseIrrelevant, procs))))
  }

  /** Erasure keeps the primary procedure last, under the declaration's name, with the erased code of recursor elimination. */
  lemma PrimaryStaysLast(p: Passes, procs: seq<Procedure>, er: ElimResult, name: Name, pos: Option<Pos>)
    ensures var erased := EraseAll(p.eraseIrrelevant, ElimStage(procs, er, name, pos));
            |erased| == |procs| + |er.aux| + 1 &&
            erased[|erased| - 1] == Procedure(name, pos, p.eraseIrrelevant(er.code)) &&
            forall i :: 0 <= i < |er.aux| ==>
              erased[|procs| + i].name == er.aux[i].name &&
              erased[|procs| + i].code == p.eraseIrrelevant(er.aux[i].code)
  {
    var staged := ElimStage(procs, er, name, pos);
    forall i | 0 <= i < |er.aux|
      ensures staged[|procs| + i] == er.aux[i]
    {
      assert staged[|procs|..|staged| - 1][i] == er.aux[i];
    }
  }

  /** A body with a malformed outermost eval_expr call stops preprocessing with that call's error, before any later pass runs. */
  lemma MalformedEvalExprStopsPipeline(env: ExpandAux.Env, p: Passes, checking: bool, fuel: nat, d: Declaration)
    requires !QuoteFixup.Fixable(d.value)
    ensures FrontEnd(env, p, checking, fuel, d).Err?
    ensures FrontEnd(env, p, checking, fuel, d).error == EvalExprArity ||
            FrontEnd(env, p, checking, fuel, d).error == EvalExprNotClosed
  {
    QuoteFixup.FixSucceedsIffFixable(d.value);
  }

  /** The body that is itself an eval_expr call with two arguments fails with the arity error. */
  lemma TwoArgumentEvalExprBody(env: ExpandAux.Env, p: Passes, checking: bool, fuel: nat, d: Declaration)
    requires QuoteFixup.IsEvalExprApp(d.value) && |GetAppArgs(d.value)| == 2
    ensures FrontEnd(env, p, checking, fuel, d) == Err(EvalExprArity)
  {
  }

  /** `preprocess`: runs a fresh driver over the declaration. */
  method PreprocessDeclaration(env: ExpandAux.Env, p: Passes, checking: bool, fuel: nat, d: Declaration, buf: ProcBuffer)
    returns (res: Outcome)
    modifies buf
    ensures var front := FrontEnd(env, p, checking, fuel, d);
            front.Err? ==> res == Fail(front.error) && buf.procs == old(buf.procs)
    ensures var front := FrontEnd(env, p, checking, fuel, d);
            front.Ok? ==>
              var er := p.elimRecursors(d.name, front.value);
              var staged := ElimStage(old(buf.procs), er, d.name, p.declPosInfo(d.name));
              if checking && !p.typeChecks(d, er.code)
              then res == Fail(PreprocessFailed) && buf.procs == staged
              else res == Pass && buf.procs == BackEnd(p, d.name, staged)
  {
    var pre := new Preprocessor(env, p, checking, fuel);
    res := pre.Run(d, buf);
  }

  /** `buffer<procedure>`, the caller's procedure list that the driver extends and rewrites in place. */
  class ProcBuffer {
    var procs: seq<Procedure>

    constructor ()
      ensures procs == []
    {
      procs := [];
    }

    /** `emplace_back`. */
    method EmplaceBack(q: Procedure)
      modifies this
      ensures procs == old(procs) + [q]
    {
      procs := procs + [q];
    }

    /** The appends `elim_recursors` makes. */
    method Append(qs: seq<Procedure>)
      modifies this
      ensures procs == old(procs) + qs
    {
      procs := procs + qs;
    }

    /** A pass that rewrites the whole buffer. */
    method Transform(f: seq<Procedure> -> seq<Procedure>)
      modifies this
      ensures procs == f(old(procs))
    {
      procs := f(procs);
    }
  }

  /** `preprocess_fn`, with the unfolder's fuel and the state of the debug checks fixed at construction. */
  class Preprocessor {
    const env: ExpandAux.Env
    const passes: Passes
    const checking: bool
    const fuel: nat

    constructor (env: ExpandAux.Env, passes: Passes, checking: bool, fuel: nat)
      ensures this.env == env && this.passes == passes && this.checking == checking && this.fuel == fuel
    {
      this.env := env;
      this.passes := passes;
      this.checking := checking;
      this.fuel := fuel;
    }

    /** `preprocess_fn::erase_irrelevant`: overwrites the code of each procedure in place. */
    method EraseIrrelevant(buf: ProcBuffer)
      modifies buf
      ensures buf.procs == EraseAll(passes.eraseIrrelevant, old(buf.procs))
    {
      ghost var before := buf.procs;
      var i := 0;
      while i < |buf.procs|
        invariant 0 <= i <= |buf.procs| == |before|
        invariant forall j :: 0 <= j < i ==> buf.procs[j] == before[j].(code := passes.eraseIrrelevant(before[j].code))
        invariant buf.procs[i..] == before[i..]
      {
        assert buf.procs[i] == before[i..][0];
        buf.procs := buf.procs[i := buf.procs[i].(code := passes.eraseIrrelevant(buf.procs[i].code))];
        i := i + 1;
      }
      assert buf.procs == EraseAll(passes.eraseIrrelevant, before);
    }

    /** The check after a pass. */
    method Check(d: Declaration, v: Expr) returns (ok: bool)
      ensures ok <==> SelfCheck(passes, checking, d, v).Ok?
    {
      ok := !checking || passes.typeChecks(d, v);
    }

    /** `preprocess_fn::operator()`. */
    method Run(d: Declaration, buf: ProcBuffer) returns (res: Outcome)
      modifies buf
      ensures var front := FrontEnd(env, passes, checking, fuel, d);
              front.Err? ==> res == Fail(front.error) && buf.procs == old(buf.procs)
      ensures var front := FrontEnd(env, passes, checking, fuel, d);
              front.Ok? ==>
                var er := passes.elimRecursors(d.name, front.value);
                var staged := ElimStage(old(buf.procs), er, d.name, passes.declPosInfo(d.name));
                if checking && !passes.typeChecks(d, er.code)
                then res == Fail(PreprocessFailed) && buf.procs == staged
                else res == Pass && buf.procs == BackEnd(passes, d.name, staged)
    {
      var fixed := QuoteFixup.Fix(d.value);
      if fixed.Err? {
        return Fail(fixed.error);
      }
      var v := fixed.value;
      v := passes.inlineSimpleDefinitions(v);
      var ok := Check(d, v);
      if !ok { return Fail(PreprocessFailed); }
      var expanded := ExpandAux.Visit(env, fuel, v);
      if expanded.Err? {
        return Fail(expanded.error);
      }
      v := expanded.value;
      ok := Check(d, v);
      if !ok { return Fail(PreprocessFailed); }
      v := passes.markCompIrrelevantSubterms(v);
      ok := Check(d, v);
      if !ok { return Fail(PreprocessFailed); }
      v := passes.findNatValues(v);
      ok := Check(d, v);
      if !ok { return Fail(PreprocessFailed); }
      v := passes.etaExpand(v);
      ok := Check(d, v);
      if !ok { return Fail(PreprocessFailed); }
      v := passes.simpPr1Rec(v);
      ok := Check(d, v);
      if !ok { return Fail(PreprocessFailed); }
      assert FrontEnd(env, passes, checking, fuel, d) == Ok(v);
      var er := passes.elimRecursors(d.name, v);
      buf.Append(er.aux);
      buf.EmplaceBack(Procedure(d.name, passes.declPosInfo(d.name), er.code));
      ok := Check(d, buf.procs[|buf.procs| - 1].code);
      if !ok { return Fail(PreprocessFailed); }
      EraseIrrelevant(buf);
      buf.Transform(passes.reduceArity);
      buf.Transform(procs => passes.lambdaLifting(d.name, procs));
      buf.Transform(passes.simpInductive);
      return Pass;
    }
  }
}

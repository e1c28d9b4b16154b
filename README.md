# Lean compiler preprocessing, modelled in Dafny

This project models `src/library/compiler/preprocess.cpp` of the Lean 3 compiler: the
front of the lowering pipeline that turns one type-checked declaration into the list of
procedures the bytecode VM consumes. It has three parts.

- **The recursor-aware unfolder** (`expand_aux_fn`, module `ExpandAux`). Each
  application is classified as an auxiliary recursor, a `cases_on` recursor or neither
  (`GetRecursorAppKind`). The unfolder then picks one step per node (`Step`): keep it,
  descend into head and arguments, delta-unfold it, reduce a `cases_on`, or
  weak-head-normalise it. Every environment and type-context query is a field of `Env`
  (`is_cases_on_recursor`, `is_aux_recursor`, `is_user_defined_recursor`,
  `is_projection`, `is_no_confusion`, `is_vm_function`, the declaration lookup,
  `unfold_term`, `whnf_pred`, `reduce_aux_recursor`, `norm_ext`, `is_proof`). These are
  uninterpreted: the model does not give their reduction semantics. The walk itself
  (`Visit`) carries an explicit fuel, because nothing establishes that the oracles end.
- **The quotation fixup** (`fix_tactic_eval_expr`, module `QuoteFixup`). This is a
  top-down rewrite. Every outermost `tactic.eval_expr` application must have exactly
  three arguments, and its first argument must be closed and free of locals. Its second
  argument is replaced by the quotation of the first. Calls that break these rules
  raise an error.
- **The driver** (`preprocess_fn`, module `Preprocess`). It threads the term through the
  fixed pass sequence. The debug-only check runs after inlining (which follows the
  quotation fixup, so the fixup has no check of its own), after the unfolder, after each
  of the next four term passes, and on the primary procedure after recursor elimination.
  Nothing is checked after the four buffer passes. Then it extends the
  caller's procedure buffer (class `ProcBuffer`): first the auxiliaries from recursor
  elimination, then the primary procedure under the declaration's name. Finally it
  rewrites the buffer in place, with irrelevance erasure followed by the three
  procedure passes. Passes whose code lies elsewhere are opaque fields of `Passes`.

Expressions (module `Terms`) are binary applications over de Bruijn binders. The
quotation built by `mk_quote` is the leaf `Quote(t)`. It holds its term as data and
has no macro arguments, so `closed`, `has_local` and the rewrite never look inside it.
`closed` and `has_local` are written out over this type (`Terms.Closed`, `Terms.HasLocal`) rather than left abstract.

Two behaviours of the source that the model makes visible:
- `AuxWithoutProgressRunsOutOfFuel`: the not-a-recursor case compares the probe's result
  with the node and descends when nothing changed. The auxiliary-recursor case has no
  such comparison. If `whnf_pred` cannot make progress on an auxiliary-recursor
  application, the visitor visits the same node again, and in the model only the fuel
  stops it.
- `visit_constant` never asks `is_cases_on_recursor`. The comment at lines 39-40 counts
  `cases_on` among the auxiliary recursors, so a bare `cases_on` constant is kept through
  the auxiliary-recursor test. The model keeps the two oracles independent and states
  `ConstantStep` exactly as written.

## Model

| member | source | states |
|---|---|---|
| `ExpandAux.GetRecursorAppKind` | src/library/compiler/preprocess.cpp:41-55 | A non-application, or an application whose head is not a constant, is `NotRecursor`. `CasesOn` holds exactly when the head constant is a `cases_on` recursor, whether or not it is also an aux or user recursor. `Aux` holds exactly for an aux or user recursor that is not `cases_on`. |
| `ExpandAux.IsAuxRecursorApp` | src/library/compiler/preprocess.cpp:57-59 | The stop predicate holds only for constant-headed applications that are not `cases_on` recursors. |
| `ExpandAux.CasesOnStep` | src/library/compiler/preprocess.cpp:61-69 | The step reduces exactly when both `reduce_aux_recursor` and `norm_ext` succeed, and then carries the result of `norm_ext` applied to the reduced term. Otherwise it falls back to visiting the application's parts. |
| `ExpandAux.ConstantStep` | src/library/compiler/preprocess.cpp:71-85 | It fails exactly for an undeclared name, and otherwise only keeps or unfolds. It unfolds exactly for a non-theorem definition that is not an aux or user recursor, projection, `no_confusion` or VM function and whose unfolding succeeds. The unfolded term is the oracle's result. |
| `ExpandAux.IsNotVmFunction` | src/library/compiler/preprocess.cpp:87-96 | Non-constant heads give false. It fails exactly for undeclared head constants. It is true exactly for a non-theorem definition that is not a projection, not `no_confusion` and not a VM function. |
| `ExpandAux.ProbeStep` | src/library/compiler/preprocess.cpp:107-111 | When the one-step probe returns the node itself, the step descends into the parts. It revisits only a term that differs from the node. |
| `ExpandAux.AppStep` | src/library/compiler/preprocess.cpp:98-119 | The decision for each recursor kind. `cases_on` goes to `visit_cases_on`. An aux recursor is normalised with the aux stop predicate. Otherwise a non-VM, non-proof definition is unfolded when that succeeds, and the probe runs when it does not. An application is never kept as it is, only `NotRecursor` nodes are delta-unfolded, and only `cases_on` nodes are reduced. |
| `ExpandAux.VisitFollowsStep` | src/library/compiler/preprocess.cpp:63-116 | A constant that is unfolded and an application that is unfolded, reduced or normalised have the new term visited with one unit less fuel (lines 81, 65, 104, 111, 116). A lambda or pi is rebuilt from its visited domain and body, and the first error among them is the result. |
| `ExpandAux.Visit` | src/library/compiler/preprocess.cpp:61-119 | The visitor raises no error of its own. Any failure is an unknown declaration from the environment, or the fuel running out. |
| `ExpandAux.VisitParts` | src/library/compiler/preprocess.cpp:68 | Visiting an application's parts, as at lines 68 and 109. On success the head and the argument list were each visited successfully, and the result is `mk_app` of the visited head and the visited arguments. Only the visitor's errors are raised. `compiler_step_visitor::visit_app` is not in the source files; this is the behaviour the model assumes for it. |
| `ExpandAux.VisitArgs` | src/library/compiler/preprocess.cpp:68 | On success there are as many results as arguments, and each result element is the visit of the argument at the same position. Only the visitor's errors are raised. |
| `ExpandAux.VisitInert` | src/library/compiler/preprocess.cpp:98-119 | Idempotence: with enough fuel, a term on which every node is kept or only descended into comes back unchanged. |
| `ExpandAux.VisitFuelMonotone` | src/library/compiler/preprocess.cpp:98-119 | The fuel only cuts the walk off. A run that did not run out of fuel gives the same result with any larger fuel. |
| `ExpandAux.VisitDescends` | src/library/compiler/preprocess.cpp:108-109 | A node that the dispatch only descends into is visited through its head and arguments, with one unit less fuel. |
| `ExpandAux.NotRecursorProbeDescends` | src/library/compiler/preprocess.cpp:101-112 | No self-loop. A not-a-recursor node that is not unfolded, and whose probe returns it unchanged, is visited part by part. |
| `ExpandAux.CasesOnStuckDescends` | src/library/compiler/preprocess.cpp:61-69 | A `cases_on` application that does not reduce is visited part by part. |
| `ExpandAux.AuxWithoutProgressRunsOutOfFuel` | src/library/compiler/preprocess.cpp:115-116 | An aux-recursor application that the normaliser leaves unchanged is revisited until the fuel is exhausted. |
| `Terms.GetAppFn` | src/library/compiler/preprocess.cpp:44 | The head is not an application. It is the term itself for a non-application and strictly lower otherwise. |
| `Terms.GetAppArgs` | src/library/compiler/preprocess.cpp:136-137 | Arguments exist exactly for applications, and each is strictly lower than the term. |
| `Terms.MkApp` | src/library/compiler/preprocess.cpp:143 | `mk_app` builds an application exactly when the head is one or the arguments are not empty, and never lowers the head's height. |
| `Terms.Closed` | src/library/compiler/preprocess.cpp:140 | `closed`, defined as the absence of loose bound variables at depth 0. It has no contract of its own; `Terms.ClosedIffEveryVarCaptured` characterises it. |
| `Terms.HasLocal` | src/library/compiler/preprocess.cpp:140 | `has_local`, defined by structural recursion outside quotations. It has no contract of its own; `Terms.HasLocalIffLocalOccurs` characterises it. |
| `Terms.LooseBVarIffEscapingOccurrence` | src/library/compiler/preprocess.cpp:140 | A term has a bound variable escaping `depth` binders exactly when some occurrence `Var(i)` in it, under `k` of its binders, has `i >= depth + k`. Both directions are proved against the separately defined occurrence relation `Terms.OccursUnder`. |
| `Terms.ClosedIffEveryVarCaptured` | src/library/compiler/preprocess.cpp:140 | A term is closed exactly when every bound-variable occurrence in it, under `k` binders, has an index below `k`, so it is captured by one of the term's own binders. |
| `Terms.HasLocalIffLocalOccurs` | src/library/compiler/preprocess.cpp:140 | `has_local` holds exactly when some occurrence in the term is a free local, in both directions. |
| `Terms.SpineRoundTrip` | src/library/compiler/preprocess.cpp:136-143 | Splitting an application into head and arguments and rebuilding it with `mk_app` gives the term back. |
| `Terms.SpineOfMkApp` | src/library/compiler/preprocess.cpp:142-143 | `mk_app` over a non-application head gives back that head and exactly the given arguments. |
| `QuoteFixup.IsEvalExprApp` | src/library/compiler/preprocess.cpp:135 | The rule's trigger: an application whose spine head is the constant `tactic.eval_expr`. Such a term has at least one argument and mentions the constant. |
| `QuoteFixup.FixCall` | src/library/compiler/preprocess.cpp:135-143 | Argument count 3 is required, or the call fails with the arity error. The first argument must be closed and have no local, or the call fails with the closedness error. On success the head and arguments 1 and 3 are kept, and argument 2 becomes the quotation of argument 1. |
| `QuoteFixup.Fix` | src/library/compiler/preprocess.cpp:133-147 | The fixup raises only the two eval_expr errors. |
| `QuoteFixup.FixSucceedsIffFixable` | src/library/compiler/preprocess.cpp:138-141 | The fixup fails if and only if some outermost eval_expr call has the wrong arity or an unclosed or local-bearing first argument. |
| `QuoteFixup.FixPreservesHead` | src/library/compiler/preprocess.cpp:134-146 | The rewrite keeps whether a node is an application and whether its spine is headed by `tactic.eval_expr`. |
| `QuoteFixup.FixWithoutEvalExpr` | src/library/compiler/preprocess.cpp:134-146 | A term in which `tactic.eval_expr` does not occur is returned as it is. |
| `QuoteFixup.FixFailsOnlyWithEvalExpr` | src/library/compiler/preprocess.cpp:138-141 | A failure implies that `tactic.eval_expr` occurs in the term. |
| `QuoteFixup.FixEstablishesWellQuoted` | src/library/compiler/preprocess.cpp:131-146 | After a successful fixup, every outermost eval_expr call is well formed and its argument 2 is the quotation of argument 1. |
| `QuoteFixup.WellQuotedIsFixedPoint` | src/library/compiler/preprocess.cpp:131-146 | The terms the fixup returns unchanged are exactly the well-quoted ones (both directions). |
| `QuoteFixup.FixIdempotent` | src/library/compiler/preprocess.cpp:133-147 | Running the fixup on its own output changes nothing. |
| `QuoteFixup.FixChangesOnlyQuotedArgument` | src/library/compiler/preprocess.cpp:142-143 | Nothing else changes. With argument 2 of each outermost eval_expr call masked, the output equals the input. |
| `Preprocess.SelfCheck` | src/library/compiler/preprocess.cpp:152-160 | The debug check fails with `preprocess failed` exactly when checking is on and the type check rejects the term. Otherwise it passes the term through. |
| `Preprocess.FrontEnd` | src/library/compiler/preprocess.cpp:198-216 | A failing quotation fixup is the pipeline's error, raised before any other pass. Success implies the fixup succeeded and, with checking on, that the final term type-checks. With checking off, success is exactly the unfolder's success on the inlined term. |
| `Preprocess.MalformedEvalExprStopsPipeline` | src/library/compiler/preprocess.cpp:138-141 | A body with any malformed outermost eval_expr call makes preprocessing fail with one of the two eval_expr errors. This happens at line 200, before any later pass. |
| `Preprocess.TwoArgumentEvalExprBody` | src/library/compiler/preprocess.cpp:138-139 | A body that is itself a two-argument eval_expr call fails with the arity error. |
| `Preprocess.ElimStage` | src/library/compiler/preprocess.cpp:217-218 | After recursor elimination the caller's procedures come first and the appended auxiliaries next, in order. The last procedure carries the declaration's name, position and the code elimination produced. The length is the sum of the parts plus one. |
| `Preprocess.BackEnd` | src/library/compiler/preprocess.cpp:221-227 | The procedure passes in the source's order: erasure on every procedure, then `reduce_arity`, then `lambda_lifting` under the declaration's name, then `simp_inductive`. |
| `Preprocess.EraseAll` | src/library/compiler/preprocess.cpp:168-172 | Erasure keeps length, order, every name and position. It changes each procedure's code to the erased code. |
| `Preprocess.PrimaryStaysLast` | src/library/compiler/preprocess.cpp:217-221 | After erasure the primary procedure is still last with its name and erased code, and each auxiliary keeps its place and name. |
| `Preprocess.ProcBuffer.EmplaceBack` | src/library/compiler/preprocess.cpp:218 | It appends exactly one procedure at the end. |
| `Preprocess.ProcBuffer.Append` | src/library/compiler/preprocess.cpp:217 | The auxiliaries are appended in order after the existing contents. |
| `Preprocess.ProcBuffer.Transform` | src/library/compiler/preprocess.cpp:223-227 | A buffer pass replaces the contents by its result. |
| `Preprocess.Preprocessor.EraseIrrelevant` | src/library/compiler/preprocess.cpp:168-172 | The in-place loop leaves the buffer equal to `EraseAll` of its old contents. |
| `Preprocess.Preprocessor.Check` | src/library/compiler/preprocess.cpp:152-160 | The check at each `lean_cond_assert` accepts exactly when the debug check passes. |
| `Preprocess.Preprocessor.Run` | src/library/compiler/preprocess.cpp:197-230 | If a term pass or check fails, that error is returned and the buffer is untouched. If the check after elimination fails, the buffer already holds the auxiliaries and the primary procedure. Otherwise the buffer is the procedure passes applied, in order, to that staged buffer. |
| `Preprocess.PreprocessDeclaration` | src/library/compiler/preprocess.cpp:233-235 | It behaves as `Run` on a fresh driver. |

## Left out

- The type checker and its definitional-equality test are the oracle `typeChecks`. The check runs only when `checking` is set, which models the debug-only `lean_cond_assert`.
- The bodies of `inline_simple_definitions`, `mark_comp_irrelevant_subterms`, `find_nat_values`, `eta_expand`, `simp_pr1_rec`, `elim_recursors`, `erase_irrelevant`, `reduce_arity`, `lambda_lifting` and `simp_inductive` are not part of this model. They are opaque functions; none of them may fail here.
- `elim_recursors` is assumed only to append to the buffer. Its result is split into the new code and the appended auxiliaries.
- The type-context oracles `whnf_pred`, `is_proof`, `reduce_aux_recursor`, `norm_ext` and `unfold_term` are infallible here. An exception they raise in the source would propagate unchanged; the model has no such path. Visit's error set (an unknown declaration or running out of fuel) holds only under that assumption. Likewise, an exception from the type checker's own `check` is folded into `PreprocessFailed`, the same as a failed definitional-equality test.
- The reduction semantics of `whnf_pred`, `unfold_term`, `reduce_aux_recursor`, `norm_ext` and `is_proof` are left out; they are uninterpreted oracles. `nozeta_scope` is left out too.
- `compiler_step_visitor` and `replace` are not part of this model. Descending into an application visits its head and every argument. Binders have both parts visited, and other nodes are left unchanged. The result cache is left out.
- Visit: the walk is bounded by a fuel. `OutOfFuel` stands for the non-termination the source can show; it is not an error the source raises.
- Physical identity (`is_eqp`) is modelled as structural equality.
- Position tags (`copy_tag`) and universe levels of constants and declarations are not modelled.
- Fix: when several calls are malformed, the model reports the leftmost. It visits the function part of an application before the argument.
- Let-expressions and macros other than the quotation are not modelled.
- Trace output, `display`, the `#if 0` position dump, `register_trace_class` and the `g_tmp_prefix` setup and teardown are left out. They are I/O and global setup.
- Self-checks follow the code: the first check runs after inlining, not after the quotation fixup alone.
- When the check after elimination fails, the code leaves the staged procedures in the caller's buffer, and the model does the same. Discarding them is the caller's business.
- src/library/app_builder.h and src/library/tactic/revert_tactic.cpp are not part of this model. The first only declares helpers with no bodies. The second marshals tactic state around a foreign call.
- Determinism holds by construction, since every model member is a function of its inputs.

/**
 What the values of a configuration mean to its user: which values an assignment can
 reach, and how many symbols of a choice are set.
 */
module KconfigSemantics {
  import opened Wrappers
  import opened KconfigModel
  import opened KconfigEval
  import KconfigInvalidation
  import opened KconfigCache
  import opened KconfigRank

  // ---- assignable values -------------------------------------------------------

  /** Assigning a symbol changes nothing that ranks below its value. */
  lemma {:induction false} BelowUnaffected(g: Graph, u1: Users, u2: Users, rank: Node -> nat, i: Id, n: Node)
    requires Ranked(g, rank) && UsersOk(g, u1) && UsersOk(g, u2)
    requires g.At(i).Symbol? && IsLogic(g.At(i).ty) && g.At(i).choice.None?
    requires u1.selections == u2.selections && u1.values - {i} == u2.values - {i}
    requires rank(n) < rank(Val(i))
    ensures Value(g, u1, rank, n) == Value(g, u2, rank, n)
    decreases rank(n)
  {
    var s1, s2 := Solution(g, u1, rank), Solution(g, u2, rank);
    UsedInDeps(g, u1, s1, n);
    forall r | r in StepR(g, u1, s1, n).used ensures Look(s1, r) == Look(s2, r) {
      BelowUnaffected(g, u1, u2, rank, i, r);
    }
    EnvFrame(g, u1, s1, s2, n);
    SameStep(g, u1, u2, rank, s2, i, n);
    SolutionStep(g, u1, rank, n);
    SolutionStep(g, u2, rank, n);
  }

  lemma SameStep(g: Graph, u1: Users, u2: Users, rank: Node -> nat, env: Env, i: Id, n: Node)
    requires Ranked(g, rank) && g.At(i).Symbol? && IsLogic(g.At(i).ty)
    requires u1.selections == u2.selections && u1.values - {i} == u2.values - {i}
    requires rank(n) < rank(Val(i))
    ensures StepR(g, u1, env, n) == StepR(g, u2, env, n)
  {
    hide StepR;
    if n.i == i {
      assert Val(i) in Deps(g, Str(i));
      assert n != Str(i) && n != Val(i);
    } else {
      assert n.i in u1.values <==> n.i in u1.values - {i};
      assert n.i in u2.values <==> n.i in u2.values - {i};
    }
    if n.Sel? && n.i == i { FixedSel(g, u1, u2, env, n); } else { OwnUser(g, u1, u2, env, n); }
  }

  lemma FixedSel(g: Graph, u1: Users, u2: Users, env: Env, n: Node)
    requires n.Sel? && !g.At(n.i).Choice?
    ensures StepR(g, u1, env, n) == StepR(g, u2, env, n)
  {
  }

  /** The value of a visible symbol that the user has set to `v`. */
  function Outcome(v: Tri, vis: Tri, rev: Tri, promotes: bool): Tri {
    var t := Max(rev, Min(v, vis)); if t == 1 && promotes then 2 else t
  }

  predicate Promoting(g: Graph, env: Env, i: Id)
    requires g.At(i).Symbol?
  {
    TypeR(g, env, i).v == Bool || ExprR(g, env, g.At(i).weakRevDep).v == 2
  }

  lemma ValueWhenSet(g: Graph, u: Users, env: Env, i: Id)
    requires g.At(i).Symbol? && IsLogic(g.At(i).ty) && g.At(i).choice.None?
    requires TriOf(env, Vis(i)) != 0 && u.Tri(i).Some?
    ensures SymbolValR(g, u, env, i).v.t ==
            Outcome(u.Tri(i).value, TriOf(env, Vis(i)), ExprR(g, env, g.At(i).revDep).v, Promoting(g, env, i))
  {
  }

  lemma AssignableWhenVisible(g: Graph, env: Env, i: Id)
    requires g.At(i).Symbol? && IsLogic(g.At(i).ty) && g.At(i).choice.None?
    requires TriOf(env, Vis(i)) != 0 && (TriOf(env, Vis(i)) == 1 ==> TypeR(g, env, i).v != Bool)
    ensures var vis, rev, promotes := TriOf(env, Vis(i)), ExprR(g, env, g.At(i).revDep).v, Promoting(g, env, i);
      SymbolAsgR(g, env, i).v ==
      if rev == 2 then [2]
      else if vis == 2 then
        (if promotes then (if rev == 0 then [0, 2] else [2]) else (if rev == 0 then [0, 1, 2] else [1, 2]))
      else if rev == 0 then (if promotes then [0, 2] else [0, 1])
      else [1]
  {
  }

  lemma MVisibleIsTristate(g: Graph, u: Users, rank: Node -> nat, i: Id)
    requires Ranked(g, rank) && UsersOk(g, u) && g.At(i).Symbol? && TriOf(Solution(g, u, rank), Vis(i)) == 1
    ensures TypeR(g, Solution(g, u, rank), i).v == Tristate
  {
    hide Solution, Ranked, UsersOk, PromptsR, TypeR, StepR;
    AtVis(g, u, rank, i);
  }

  /** After any accepted assignment to a visible symbol, its value is the assigned one exactly if
      `assignable` lists it -- but for one case: a symbol visible and selected to m that is implied
      to y is reported as assignable to m only, and always ends up y. */
  lemma AssignableExact(g: Graph, u: Users, rank: Node -> nat, i: Id, v: Tri)
    requires Ranked(g, rank) && UsersOk(g, u)
    requires g.At(i).Symbol? && IsLogic(g.At(i).ty) && g.At(i).choice.None?
    requires Accepts(g, i, TriUser(v))
    requires TriOf(Solution(g, u, rank), Vis(i)) != 0
    ensures var sol, sol' := Solution(g, u, rank), Solution(g, Assigned(g, u, i, TriUser(v)), rank);
      var implied := ExprR(g, sol, g.At(i).weakRevDep).v == 2;
      var stuck := TriOf(sol, Vis(i)) == 1 && ExprR(g, sol, g.At(i).revDep).v == 1 && implied;
      (v in AsgR(g, sol, i).v <==> TriOf(sol', Val(i)) == v) <==> !(stuck && v != 0)
  {
    hide Solution, Ranked, UsersOk, ExprR, TypeR, StepR, Deps, Accepts, SymbolValR, SymbolAsgR;
    var u' := Assigned(g, u, i, TriUser(v));
    var sol, sol' := Solution(g, u, rank), Solution(g, u', rank);
    assert u.values - {i} == u'.values - {i};
    AssignedOk(g, u, i, TriUser(v));
    SameBelow(g, u, u', rank, i);
    AtVal(g, u', rank, i);
    ValueWhenSet(g, u', sol', i);
    if TriOf(sol, Vis(i)) == 1 { MVisibleIsTristate(g, u, rank, i); }
    AssignableWhenVisible(g, sol, i);
  }

  /** What the value of a symbol is computed from is untouched by assigning the symbol. */
  lemma SameBelow(g: Graph, u: Users, u': Users, rank: Node -> nat, i: Id)
    requires Ranked(g, rank) && UsersOk(g, u) && UsersOk(g, u')
    requires g.At(i).Symbol? && IsLogic(g.At(i).ty) && g.At(i).choice.None?
    requires u.selections == u'.selections && u.values - {i} == u'.values - {i}
    ensures var sol, sol' := Solution(g, u, rank), Solution(g, u', rank);
      && TriOf(sol', Vis(i)) == TriOf(sol, Vis(i))
      && ExprR(g, sol', g.At(i).revDep).v == ExprR(g, sol, g.At(i).revDep).v
      && ExprR(g, sol', g.At(i).weakRevDep).v == ExprR(g, sol, g.At(i).weakRevDep).v
      && TypeR(g, sol', i).v == TypeR(g, sol, i).v
  {
    var it, sol, sol' := g.At(i), Solution(g, u, rank), Solution(g, u', rank);
    hide Solution, Ranked, UsersOk;
    forall r | r in Deps(g, Val(i)) ensures Look(sol, r) == Look(sol', r) {
      BelowUnaffected(g, u, u', rank, i, r);
    }
    SameEquations(g, sol, sol', i);
  }

  lemma SameEquations(g: Graph, env: Env, env': Env, i: Id)
    requires g.At(i).Symbol? && IsLogic(g.At(i).ty) && g.At(i).choice.None?
    requires forall r :: r in Deps(g, Val(i)) ==> Look(env, r) == Look(env', r)
    ensures TriOf(env', Vis(i)) == TriOf(env, Vis(i)) && TypeR(g, env', i).v == TypeR(g, env, i).v
    ensures ExprR(g, env', g.At(i).revDep).v == ExprR(g, env, g.At(i).revDep).v
    ensures ExprR(g, env', g.At(i).weakRevDep).v == ExprR(g, env, g.At(i).weakRevDep).v
  {
    var it := g.At(i);
    SymbolExprsUsed(g, env, it);
    ExprFrame(g, env, env', it.revDep);
    ExprFrame(g, env, env', it.weakRevDep);
    assert Vis(i) in Deps(g, Val(i));
    assert TypeDeps(g, it) <= Deps(g, Val(i));
  }

  // ---- a small configuration for the exceptional cases ---------------------------

  /** n, m, y, MODULES (y by default), and a tristate symbol X with default y that is visible to m,
      selected by item `rev` and implied by item `weak`. */
  function Sample(rev: Id, weak: Id): Graph {
    Graph([Lit(0), Lit(1), Lit(2),
           Symbol("MODULES", Bool, [], [Default(Ref(2), Ref(2))], [], Ref(0), Ref(0), Ref(0), None, false),
           Symbol("X", Tristate, [Ref(1)], [Default(Ref(2), Ref(2))], [], Ref(rev), Ref(weak), Ref(1), None, false)],
          3, (s, b) => None, (n, ty) => "")
  }

  function SampleRank(): Node -> nat { Ranking(i => i) }

  lemma SampleItems(rev: Id, weak: Id)
    requires rev <= 2 && weak <= 2
    ensures var items := Sample(rev, weak).items;
      && PropItems(items[0]) == PropItems(items[1]) == PropItems(items[2]) == {}
      && (forall j :: j in PropItems(items[3]) ==> j < 3) && (forall j :: j in PropItems(items[4]) ==> j < 3)
  {
    assert DefaultIds(Default(Ref(2), Ref(2))) == {2};
  }

  lemma SampleRanked(rev: Id, weak: Id)
    requires rev <= 2 && weak <= 2
    ensures Ranked(Sample(rev, weak), SampleRank()) && ChoiceFree(Sample(rev, weak))
  {
    hide PropItems;
    SampleItems(rev, weak);
    OrderedIsRanked(Sample(rev, weak), i => i);
  }

  /** The values of the configuration, whatever is assigned to X. */
  lemma SampleValues(rev: Id, weak: Id, u: Users)
    requires rev <= 2 && weak <= 2
    requires Ranked(Sample(rev, weak), SampleRank()) && UsersOk(Sample(rev, weak), u)
    ensures var sol := Solution(Sample(rev, weak), u, SampleRank());
      && TriOf(sol, Val(0)) == 0 && TriOf(sol, Val(1)) == 1 && TriOf(sol, Val(2)) == 2
      && TriOf(sol, Val(3)) == 2 && TriOf(sol, Vis(4)) == 1
  {
    hide Ranked, UsersOk, Solution, StepR, Deps;
    var g := Sample(rev, weak);
    AtVal(g, u, SampleRank(), 0);
    AtVal(g, u, SampleRank(), 1);
    AtVal(g, u, SampleRank(), 2);
    AtVis(g, u, SampleRank(), 3);
    AtVal(g, u, SampleRank(), 3);
    AtVis(g, u, SampleRank(), 4);
  }

  /** X, where it is selected to m and implied to y. */
  lemma StuckEquations(u: Users, env: Env)
    requires TriOf(env, Val(0)) == 0 && TriOf(env, Val(1)) == 1 && TriOf(env, Val(2)) == 2
    requires TriOf(env, Val(3)) == 2 && TriOf(env, Vis(4)) == 1 && u.Tri(4).None?
    ensures var g := Sample(1, 2);
      && ExprR(g, env, g.At(4).revDep).v == 1 && ExprR(g, env, g.At(4).weakRevDep).v == 2
      && SymbolValR(g, u, env, 4).v.t == 2 && SymbolAsgR(g, env, 4).v == [1]
  {
  }

  lemma UnsetOk(g: Graph)
    ensures UsersOk(g, Users(map[], map[]))
  {
  }

  /** The exceptional case of `AssignableExact` does occur. */
  lemma AssignableStuck()
    ensures var g, u, rank := Sample(1, 2), Users(map[], map[]), SampleRank();
      && Ranked(g, rank) && UsersOk(g, u)
      && var sol := Solution(g, u, rank);
      && TriOf(sol, Vis(4)) == 1 && ExprR(g, sol, g.At(4).revDep).v == 1 && ExprR(g, sol, g.At(4).weakRevDep).v == 2
      && AsgR(g, sol, 4).v == [1] && TriOf(sol, Val(4)) == 2
  {
    hide Ranked, UsersOk, Solution, StepR, Deps, SymbolValR, SymbolAsgR, ExprR;
    var g, u, rank := Sample(1, 2), Users(map[], map[]), SampleRank();
    UnsetOk(g);
    SampleRanked(1, 2);
    SampleValues(1, 2, u);
    StuckEquations(u, Solution(g, u, rank));
    AtVal(g, u, rank, 4);
  }

  // ---- choices -----------------------------------------------------------------

  /** An expression that is never above the mode of the choice. */
  ghost predicate LimitedBy(g: Graph, e: Expr, c: Id) {
    forall env :: LitsHold(g, env) ==> ExprR(g, env, e).v <= TriOf(env, Val(c))
  }

  /** The symbols of the choice belong to it and are bool or tristate. */
  ghost predicate ChoiceMembers(g: Graph, c: Id) {
    && g.At(c).Choice? && IsLogic(g.At(c).ty)
    && forall i :: i in g.At(c).syms ==> g.At(i).Symbol? && IsLogic(g.At(i).ty) && g.At(i).choice == Some(c)
  }

  /** The choice limits the visibility of the prompts of its symbols. */
  ghost predicate MembersLimited(g: Graph, c: Id)
    requires ChoiceMembers(g, c)
  {
    forall i, e :: i in g.At(c).syms && e in g.At(i).prompts ==> LimitedBy(g, e, c)
  }

  ghost predicate ProperChoice(g: Graph, c: Id) { ChoiceMembers(g, c) && MembersLimited(g, c) }

  /** The defaults of the choice are among its symbols. */
  predicate DefaultsInside(g: Graph, c: Id)
    requires g.At(c).Choice?
  {
    forall p :: p in g.At(c).picks ==> p.sym in g.At(c).syms
  }

  lemma PromptsLimited(g: Graph, env: Env, ps: seq<Expr>, c: Id, k: nat)
    requires k <= |ps| && LitsHold(g, env) && forall e :: e in ps ==> LimitedBy(g, e, c)
    ensures PromptsR(g, env, ps, k).v <= TriOf(env, Val(c))
    decreases |ps| - k
  {
    if k < |ps| {
      assert ps[k] in ps;
      PromptsLimited(g, env, ps, c, k + 1);
    }
  }

  lemma ModeMeansModules(g: Graph, u: Users, rank: Node -> nat, c: Id)
    requires Ranked(g, rank) && UsersOk(g, u) && ProperChoice(g, c)
    requires TriOf(Solution(g, u, rank), Val(c)) == 1
    ensures g.At(c).ty == Tristate && TriOf(Solution(g, u, rank), Val(g.modules)) != 0
  {
    hide Solution, Ranked, UsersOk, StepR, Deps;
    AtVal(g, u, rank, c);
  }

  /** A choice symbol is never visible to m in y mode. Where the choice limits its prompts, it is as
      visible as the mode allows: never y in m mode, never in n mode. */
  lemma MemberVisibility(g: Graph, u: Users, rank: Node -> nat, c: Id, i: Id)
    requires Ranked(g, rank) && UsersOk(g, u) && ChoiceMembers(g, c) && i in g.At(c).syms
    ensures var sol := Solution(g, u, rank);
      && (TriOf(sol, Val(c)) == 2 ==> TriOf(sol, Vis(i)) != 1)
      && (MembersLimited(g, c) ==> TriOf(sol, Vis(i)) == 0 || TriOf(sol, Vis(i)) == TriOf(sol, Val(c)))
  {
    hide Solution, Ranked, UsersOk, StepR, Deps, PromptsR;
    var sol := Solution(g, u, rank);
    AtVis(g, u, rank, i);
    if MembersLimited(g, c) {
      SolutionLits(g, u, rank);
      PromptsLimited(g, sol, g.At(i).prompts, c, 0);
      if TriOf(sol, Val(c)) == 1 { ModeMeansModules(g, u, rank, c); }
    }
  }

  lemma PickIsVisible(g: Graph, env: Env, ps: seq<Selectable>, k: nat)
    requires k <= |ps|
    ensures var s := PickR(g, env, ps, k).v;
      s.Some? ==> TriOf(env, Vis(s.value)) != 0 && exists p :: p in ps && p.sym == s.value
    decreases |ps| - k
  {
    if k < |ps| {
      assert ps[k] in ps;
      PickIsVisible(g, env, ps, k + 1);
    }
  }

  lemma {:induction false} FirstVisibleFinds(env: Env, syms: seq<Id>, k: nat)
    requires k <= |syms|
    ensures var s := FirstVisibleR(env, syms, k).v;
      if s.Some? then s.value in syms && TriOf(env, Vis(s.value)) != 0
      else forall j :: k <= j < |syms| ==> TriOf(env, Vis(syms[j])) == 0
    decreases |syms| - k
  {
    if k < |syms| { FirstVisibleFinds(env, syms, k + 1); }
  }

  /** A selection is visible and in y mode, and there is one whenever a symbol of the choice is visible.
      It is a symbol of the choice, if the defaults are. */
  lemma SelectionIsVisibleMember(g: Graph, u: Users, env: Env, c: Id)
    requires UsersOk(g, u) && g.At(c).Choice?
    ensures var s := SelR(g, u, env, c).v;
      && (s.Some? ==> TriOf(env, Vis(s.value)) != 0 && TriOf(env, Val(c)) == 2)
      && (s.Some? && DefaultsInside(g, c) ==> s.value in g.At(c).syms)
      && (s.None? && TriOf(env, Val(c)) == 2 ==> forall i :: i in g.At(c).syms ==> TriOf(env, Vis(i)) == 0)
  {
    PickIsVisible(g, env, g.At(c).picks, 0);
    FirstVisibleFinds(env, g.At(c).syms, 0);
  }

  /** The visibility of a symbol decides between its ways to a value. */
  lemma MemberValue(g: Graph, u: Users, rank: Node -> nat, c: Id, i: Id)
    requires Ranked(g, rank) && UsersOk(g, u) && ChoiceMembers(g, c) && i in g.At(c).syms
    ensures var sol := Solution(g, u, rank); var vis := TriOf(sol, Vis(i));
      && (vis == 2 ==> TriOf(sol, Val(i)) == Truth(SelOf(sol, Sel(c)) == Some(i)))
      && (vis == 0 ==> TriOf(sol, Val(i)) == 0)
      && (vis == 1 ==> TriOf(sol, Val(i)) == if u.Tri(i).Some? && u.Tri(i).value != 0 then 1 else 0)
  {
    hide Solution, Ranked, UsersOk, StepR, Deps;
    AtVal(g, u, rank, i);
  }

  /** In y mode the selected symbol is y and every other one n, and some symbol is selected if one is
      visible; in m and n mode no symbol is y, and in n mode all are n where the choice limits their
      prompts. */
  lemma ChoiceExclusive(g: Graph, u: Users, rank: Node -> nat, c: Id)
    requires Ranked(g, rank) && UsersOk(g, u) && ChoiceMembers(g, c)
    ensures var sol := Solution(g, u, rank); var syms, sel := g.At(c).syms, SelOf(Solution(g, u, rank), Sel(c));
      match TriOf(sol, Val(c))
      case 2 =>
        && (forall i :: i in syms ==> TriOf(sol, Val(i)) == Truth(sel == Some(i)))
        && ((exists i :: i in syms && TriOf(sol, Vis(i)) != 0) ==>
          sel.Some? && (DefaultsInside(g, c) ==> sel.value in syms))
      case 1 => forall i :: i in syms ==> TriOf(sol, Val(i)) != 2
      case _ => forall i :: i in syms ==> TriOf(sol, Val(i)) != 2 && (MembersLimited(g, c) ==> TriOf(sol, Val(i)) == 0)
  {
    hide Solution, Ranked, UsersOk, StepR, Deps, SelR, MembersLimited;
    var sol := Solution(g, u, rank);
    AtSel(g, u, rank, c);
    SelectionIsVisibleMember(g, u, sol, c);
    forall i | i in g.At(c).syms
      ensures TriOf(sol, Val(c)) == 2 ==> TriOf(sol, Val(i)) == Truth(SelOf(sol, Sel(c)) == Some(i))
      ensures TriOf(sol, Val(c)) != 2 ==> TriOf(sol, Val(i)) != 2
      ensures TriOf(sol, Val(c)) == 0 && MembersLimited(g, c) ==> TriOf(sol, Val(i)) == 0
    {
      MemberValue(g, u, rank, c, i);
      MemberVisibility(g, u, rank, c, i);
    }
  }

  // ---- assignable values of choice symbols -------------------------------------------------------

  lemma OnlySelReadsSelection(g: Graph, u1: Users, u2: Users, env: Env, n: Node)
    requires !n.Sel? && u1.Tri(n.i) == u2.Tri(n.i) && u1.Str(n.i) == u2.Str(n.i)
    ensures StepR(g, u1, env, n) == StepR(g, u2, env, n)
  {
    hide ExprR, TypeR, TriDefaultR, StrDefaultR, RangeR, PromptsR;
    match n
    case Val(i) =>
    case Str(i) =>
    case Vis(_) =>
    case Asg(_) =>
  }

  lemma MemberAboveSelection(g: Graph, rank: Node -> nat, c: Id, i: Id)
    requires Ranked(g, rank) && ChoiceMembers(g, c) && i in g.At(c).syms
    ensures rank(Sel(c)) < rank(Val(i)) < rank(Str(i))
  {
    assert Sel(c) in Deps(g, Val(i)) && Val(i) in Deps(g, Str(i));
  }

  lemma SameStepBelow(g: Graph, u1: Users, u2: Users, rank: Node -> nat, env: Env, c: Id, i: Id, n: Node)
    requires Ranked(g, rank) && ChoiceMembers(g, c) && i in g.At(c).syms && rank(n) < rank(Sel(c))
    requires u1.values - {i} == u2.values - {i} && u1.selections - {c} == u2.selections - {c}
    ensures StepR(g, u1, env, n) == StepR(g, u2, env, n)
  {
    MemberAboveSelection(g, rank, c, i);
    hide StepR, Deps, Ranked;
    assert n.i != i ==> (n.i in u1.values <==> n.i in u1.values - {i});
    assert n.i != i ==> (n.i in u2.values <==> n.i in u2.values - {i});
    assert n.i != c ==> (n.i in u1.selections <==> n.i in u1.selections - {c});
    assert n.i != c ==> (n.i in u2.selections <==> n.i in u2.selections - {c});
    if n.i == i {
      if n.Sel? { FixedSel(g, u1, u2, env, n); } else { OwnUser(g, u1, u2, env, n); }
    } else if n.Sel? {
      OwnUser(g, u1, u2, env, n);
    } else {
      OnlySelReadsSelection(g, u1, u2, env, n);
    }
  }

  /** Assigning a choice symbol changes nothing that ranks below the selection of the choice. */
  lemma {:induction false} BelowSelection(g: Graph, u1: Users, u2: Users, rank: Node -> nat, c: Id, i: Id, n: Node)
    requires Ranked(g, rank) && UsersOk(g, u1) && UsersOk(g, u2)
    requires ChoiceMembers(g, c) && i in g.At(c).syms && rank(n) < rank(Sel(c))
    requires u1.values - {i} == u2.values - {i} && u1.selections - {c} == u2.selections - {c}
    ensures Value(g, u1, rank, n) == Value(g, u2, rank, n)
    decreases rank(n)
  {
    hide ChoiceMembers;
    var s1, s2 := Solution(g, u1, rank), Solution(g, u2, rank);
    UsedInDeps(g, u1, s1, n);
    forall r | r in StepR(g, u1, s1, n).used ensures Look(s1, r) == Look(s2, r) {
      BelowSelection(g, u1, u2, rank, c, i, r);
    }
    EnvFrame(g, u1, s1, s2, n);
    SameStepBelow(g, u1, u2, rank, s2, c, i, n);
    SolutionStep(g, u1, rank, n);
    SolutionStep(g, u2, rank, n);
  }

  lemma AssignedMember(g: Graph, u: Users, c: Id, i: Id, v: Tri)
    requires UsersOk(g, u) && ChoiceMembers(g, c) && i in g.At(c).syms && Accepts(g, i, TriUser(v))
    ensures var u' := Assigned(g, u, i, TriUser(v));
      && UsersOk(g, u') && u.values - {i} == u'.values - {i} && u.selections - {c} == u'.selections - {c}
      && u'.Tri(i) == Some(v) && (v == 2 ==> u'.Selection(c) == Some(i))
  {
    var u' := Assigned(g, u, i, TriUser(v));
    assert u.values - {i} == u'.values - {i} && u.selections - {c} == u'.selections - {c};
  }

  /** A value that `assignable` lists for a choice symbol takes effect when assigned, except y where the
      mode is not y, and y for a symbol visible to m, which only selects and implies bring into the
      list. */
  lemma ChoiceAssignable(g: Graph, u: Users, rank: Node -> nat, c: Id, i: Id, v: Tri)
    requires Ranked(g, rank) && UsersOk(g, u) && ChoiceMembers(g, c) && i in g.At(c).syms
    requires Accepts(g, i, TriUser(v)) && v in AsgR(g, Solution(g, u, rank), i).v
    ensures var sol, sol' := Solution(g, u, rank), Solution(g, Assigned(g, u, i, TriUser(v)), rank);
      TriOf(sol', Val(i)) == v <==> if TriOf(sol, Vis(i)) == 2 then TriOf(sol, Val(c)) == 2 else v != 2
  {
    hide Solution, Ranked, UsersOk, StepR, Deps, Accepts, Assigned, SymbolValR, SelR, SymbolAsgR, AsgR, ChoiceMembers;
    var u' := Assigned(g, u, i, TriUser(v));
    var sol, sol' := Solution(g, u, rank), Solution(g, u', rank);
    MemberListed(g, sol, c, i, v);
    AssignedMember(g, u, c, i, v);
    SelectionReads(g, rank, c, i);
    SameUnderSelection(g, u, u', rank, c, i);
    MemberValue(g, u', rank, c, i);
    AtSel(g, u', rank, c);
    if v == 2 { SelectionOfUser(g, u', sol', c, i); }
  }

  lemma SameUnderSelection(g: Graph, u1: Users, u2: Users, rank: Node -> nat, c: Id, i: Id)
    requires Ranked(g, rank) && UsersOk(g, u1) && UsersOk(g, u2) && ChoiceMembers(g, c) && i in g.At(c).syms
    requires u1.values - {i} == u2.values - {i} && u1.selections - {c} == u2.selections - {c}
    ensures var s1, s2 := Solution(g, u1, rank), Solution(g, u2, rank);
      TriOf(s1, Vis(i)) == TriOf(s2, Vis(i)) && TriOf(s1, Val(c)) == TriOf(s2, Val(c))
  {
    hide Ranked, UsersOk, Value, StepR, Deps;
    SelectionReads(g, rank, c, i);
    BelowSelection(g, u1, u2, rank, c, i, Vis(i));
    BelowSelection(g, u1, u2, rank, c, i, Val(c));
  }

  lemma MemberListed(g: Graph, env: Env, c: Id, i: Id, v: Tri)
    requires ChoiceMembers(g, c) && i in g.At(c).syms && v in AsgR(g, env, i).v
    ensures g.At(c).Choice? && TriOf(env, Vis(i)) != 0 && (TriOf(env, Vis(i)) == 2 ==> v == 2)
  {
    hide ExprR, PromotesR;
  }

  lemma SelectionReads(g: Graph, rank: Node -> nat, c: Id, i: Id)
    requires Ranked(g, rank) && g.At(c).Choice? && i in g.At(c).syms
    ensures rank(Vis(i)) < rank(Sel(c)) && rank(Val(c)) < rank(Sel(c))
  {
    assert Vis(i) in Deps(g, Sel(c)) && Val(c) in Deps(g, Sel(c));
  }

  lemma SelectionOfUser(g: Graph, u: Users, env: Env, c: Id, i: Id)
    requires UsersOk(g, u) && g.At(c).Choice? && u.Selection(c) == Some(i) && TriOf(env, Vis(i)) != 0
    ensures SelR(g, u, env, c).v == if TriOf(env, Val(c)) == 2 then Some(i) else None
  {
  }
}

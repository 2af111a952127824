/**
 Why pruned invalidation is enough. Items are dropped from the caches by following the
 dependents of a changed item through items that have a cached visibility only. What is
 left was computed without reading anything that was dropped, so it still equals a
 computation from scratch under the new assignments.
 */
module KconfigInvalidation {
  import opened Wrappers
  import opened KconfigModel
  import opened KconfigEval

  /** The dependents the dependency builder records for an item. Constant symbols get none. */
  function PropDependents(g: Graph, j: Id): set<Id> {
    if g.At(j).Lit? then {} else set i | 0 <= i < |g.items| && j in PropItems(g.items[i])
  }

  lemma DependentIsItem(g: Graph, j: Id, d: Id)
    requires d in PropDependents(g, j)
    ensures d < |g.items| && !g.items[d].Lit?
  {
  }

  /** After the loop check, a choice also becomes a dependent of its symbols. */
  function Dependents(g: Graph, j: Id): set<Id> {
    PropDependents(g, j) +
    (if g.At(j).Lit? then {} else set i | 0 <= i < |g.items| && g.items[i].Choice? && j in g.items[i].syms)
  }

  /** What is read of item `j` by item `i` is covered by a recorded dependency. */
  predicate Recorded(g: Graph, i: Id, j: Id) { i == j || g.At(j).Lit? || i in Dependents(g, j) }

  /** A choice symbol depends on its choice through its own properties, a choice depends on its defaults
      (as it does on its symbols), and MODULES is not a choice. */
  ghost predicate Wired(g: Graph) {
    && !g.At(g.modules).Choice?
    && (forall i :: g.At(i).Symbol? && g.At(i).choice.Some? ==>
          var c := g.At(i).choice.value;
          g.At(c).Choice? && i in g.At(c).syms && i in Dependents(g, c))
    && (forall i, p :: g.At(i).Choice? && p in g.At(i).picks ==> Recorded(g, i, p.sym))
  }

  /** The items an invalidation drops: with an item, every dependent that has a cached
      visibility; with MODULES, everything. */
  ghost predicate DropsDependents(g: Graph, vis: set<Id>, dropped: set<Id>) {
    && (forall y, z :: y in dropped && z in Dependents(g, y) && z in vis ==> z in dropped)
    && (g.modules in dropped ==> vis <= dropped)
    && (forall y :: y in dropped && g.At(y).Lit? ==> vis <= dropped)
  }

  /** Of the items with a cached visibility, only those are dropped that have to go with `i`. */
  ghost predicate DropsNoMore(g: Graph, vis: set<Id>, i: Id, dropped: set<Id>) {
    forall s: set<Id> :: i in s && DropsDependents(g, vis, s) ==> dropped * vis <= s
  }

  lemma DropsNoMoreStep(g: Graph, vis: set<Id>, now: set<Id>, i: Id, d: Id, dropped: set<Id>, sub: set<Id>)
    requires DropsNoMore(g, vis, i, dropped) && DropsNoMore(g, now, d, sub)
    requires d in Dependents(g, i) && d in now && now == vis - dropped
    ensures DropsNoMore(g, vis, i, dropped + sub)
  {
    hide Dependents;
    forall s: set<Id> | i in s && DropsDependents(g, vis, s) ensures (dropped + sub) * vis <= s {
      assert d in s;
      assert DropsDependents(g, now, s);
      assert sub * now <= s && dropped * vis <= s;
    }
  }

  /** The attributes evaluated since their item was last dropped: whatever such an attribute
      read is evaluated too, and its item has a cached visibility unless its value is fixed. */
  ghost predicate LiveOk(g: Graph, u: Users, sol: Env, vis: set<Id>, live: set<Node>) {
    forall n :: n in live ==> StepR(g, u, sol, n).used <= live && (n.i in vis || Deps(g, n) == {})
  }

  function Kept(live: set<Node>, dropped: set<Id>): set<Node> { set n | n in live && n.i !in dropped }

  lemma OperandEdge(g: Graph, i: Id, r: Node)
    requires i < |g.items| && r in Operands(PropItems(g.items[i])) && !g.At(r.i).Lit?
    ensures i in Dependents(g, r.i)
  {
  }

  /** Every read crosses a recorded dependency, except reads within the item, of constants, and
      of MODULES by the type of an item. */
  lemma ReadEdge(g: Graph, n: Node, r: Node)
    requires Wired(g) && r in Deps(g, n)
    ensures r.i == n.i || r == Val(g.modules) || g.At(r.i).Lit? || n.i in Dependents(g, r.i)
  {
    var it := g.At(n.i);
    assert n.i < |g.items|;
    if !g.At(r.i).Lit? {
      assert PromptItems(it) <= PropItems(it);
      if r in Operands(PropItems(it)) { OperandEdge(g, n.i, r); }
    }
  }

  /** The condition on defaults is exact: all that a selection can read is covered if and only if the
      choice depends on its defaults. */
  lemma SelectionRecorded(g: Graph, c: Id)
    requires g.At(c).Choice?
    ensures (forall r :: r in Deps(g, Sel(c)) ==> r == Val(g.modules) || Recorded(g, c, r.i))
            <==> forall p :: p in g.At(c).picks ==> Recorded(g, c, p.sym)
  {
    hide PropItems;
    var it := g.At(c);
    forall p | p in it.picks ensures Vis(p.sym) in Deps(g, Sel(c)) {}
    forall r | r in Deps(g, Sel(c)) && r.Vis? && r.i in it.syms ensures Recorded(g, c, r.i) {}
    forall r | r in Operands(PropItems(it)) ensures Recorded(g, c, r.i) {
      if !g.At(r.i).Lit? { OperandEdge(g, c, r); }
    }
  }

  lemma NeverVisible(g: Graph, u: Users, rank: Node -> nat, i: Id)
    requires Ranked(g, rank) && UsersOk(g, u) && Prompts(g.At(i)) == []
    ensures TriOf(Solution(g, u, rank), Vis(i)) == 0
  {
    SolutionStep(g, u, rank, Vis(i));
  }

  /** Assignments to a symbol without a prompt do not show. */
  lemma UserFrame(g: Graph, u1: Users, u2: Users, env: Env, n: Node)
    requires SameUser(g, u1, u2, n.i)
    requires Prompts(g.At(n.i)) == [] ==> TriOf(env, Vis(n.i)) == 0
    ensures StepR(g, u1, env, n) == StepR(g, u2, env, n)
  {
  }

  /** An attribute without dependencies has a fixed value. */
  lemma FixedFrame(g: Graph, u1: Users, u2: Users, env: Env, n: Node)
    requires Deps(g, n) == {}
    ensures StepR(g, u1, env, n) == StepR(g, u2, env, n)
  {
    match n
    case Val(i) =>
      assert g.At(i).Choice? || (g.At(i).Symbol? && IsLogic(g.At(i).ty)) ==> Vis(i) in Deps(g, n);
    case Str(i) =>
      assert g.At(i).Symbol? && (IsNumber(g.At(i).ty) || g.At(i).ty == String) ==> Vis(i) in Deps(g, n);
    case Sel(i) => assert g.At(i).Choice? ==> Val(i) in Deps(g, n);
    case Vis(_) =>
    case Asg(_) =>
  }

  /** The assignments differ only where it cannot show in what is kept. */
  ghost predicate UsersDifferIn(g: Graph, u1: Users, u2: Users, kept: set<Node>) {
    forall n :: n in kept ==> SameUser(g, u1, u2, n.i) || Deps(g, n) == {}
  }

  lemma ReadsAreKept(g: Graph, u: Users, sol: Env, vis: set<Id>, live: set<Node>, dropped: set<Id>, n: Node)
    requires Wired(g) && UsersOk(g, u) && LiveOk(g, u, sol, vis, live) && DropsDependents(g, vis, dropped)
    requires n in Kept(live, dropped)
    ensures StepR(g, u, sol, n).used <= Kept(live, dropped)
  {
    UsedInDeps(g, u, sol, n);
    forall r | r in StepR(g, u, sol, n).used ensures r.i !in dropped {
      ReadEdge(g, n, r);
    }
  }

  /** What survives an invalidation has the value a computation from scratch gives under the
      new assignments, and read only what survives. */
  lemma {:induction false} InvalidationSound(g: Graph, u1: Users, u2: Users, rank: Node -> nat,
                                             vis: set<Id>, live: set<Node>, dropped: set<Id>, n: Node)
    requires Ranked(g, rank) && Wired(g) && UsersOk(g, u1) && UsersOk(g, u2)
    requires LiveOk(g, u1, Solution(g, u1, rank), vis, live)
    requires DropsDependents(g, vis, dropped)
    requires UsersDifferIn(g, u1, u2, Kept(live, dropped))
    requires n in Kept(live, dropped)
    ensures Value(g, u2, rank, n) == Value(g, u1, rank, n)
    ensures StepR(g, u2, Solution(g, u2, rank), n).used == StepR(g, u1, Solution(g, u1, rank), n).used
    decreases rank(n)
  {
    var s1, s2 := Solution(g, u1, rank), Solution(g, u2, rank);
    ReadsAreKept(g, u1, s1, vis, live, dropped, n);
    UsedInDeps(g, u1, s1, n);
    forall r | r in StepR(g, u1, s1, n).used ensures Look(s1, r) == Look(s2, r) {
      InvalidationSound(g, u1, u2, rank, vis, live, dropped, r);
    }
    EnvFrame(g, u1, s1, s2, n);
    if Deps(g, n) == {} {
      FixedFrame(g, u1, u2, s2, n);
    } else {
      if Prompts(g.At(n.i)) == [] { NeverVisible(g, u2, rank, n.i); }
      UserFrame(g, u1, u2, s2, n);
    }
    SolutionStep(g, u1, rank, n);
    SolutionStep(g, u2, rank, n);
  }

  lemma LiveOkAfter(g: Graph, u1: Users, u2: Users, rank: Node -> nat,
                    vis: set<Id>, live: set<Node>, dropped: set<Id>)
    requires Ranked(g, rank) && Wired(g) && UsersOk(g, u1) && UsersOk(g, u2)
    requires LiveOk(g, u1, Solution(g, u1, rank), vis, live)
    requires DropsDependents(g, vis, dropped)
    requires UsersDifferIn(g, u1, u2, Kept(live, dropped))
    ensures LiveOk(g, u2, Solution(g, u2, rank), vis - dropped, Kept(live, dropped))
    ensures forall n :: n in Kept(live, dropped) ==> Value(g, u2, rank, n) == Value(g, u1, rank, n)
  {
    forall n | n in Kept(live, dropped)
      ensures StepR(g, u2, Solution(g, u2, rank), n).used <= Kept(live, dropped)
      ensures Value(g, u2, rank, n) == Value(g, u1, rank, n)
    {
      InvalidationSound(g, u1, u2, rank, vis, live, dropped, n);
      ReadsAreKept(g, u1, Solution(g, u1, rank), vis, live, dropped, n);
    }
  }
}

/**
 The lazily filled caches of a Kconfig instance: the value properties of symbols and
 choices, assignment and unassignment, and recursive invalidation.
 */
module KconfigCache {
  import opened Wrappers
  import opened KconfigModel
  import opened KconfigEval
  import opened KconfigInvalidation

  /** The cached attributes of all items. A missing key is an empty cache slot. The .config
      flags are not caches: they are overwritten with the value and never dropped. */
  datatype Caches = Caches(vis: map<Id, Tri>, val: map<Id, Tri>, str: map<Id, string>,
                           sel: map<Id, Option<Id>>, asg: map<Id, seq<Tri>>, write: map<Id, bool>)
  {
    function Drop(items: set<Id>): Caches {
      Caches(vis - items, val - items, str - items, sel - items, asg - items, write)
    }
  }

  const EMPTY := Caches(map[], map[], map[], map[], map[], map[])

  ghost predicate ValCoherent(g: Graph, sol: Env, vis: map<Id, Tri>, val: map<Id, Tri>, write: map<Id, bool>,
                              live: set<Node>) {
    forall i :: i in val ==>
      && Val(i) in live && val[i] == TriOf(sol, Val(i))
      && (g.At(i).Symbol? && IsLogic(g.At(i).ty) ==> i in vis && i in write && write[i] == WriteOf(sol, Val(i)))
  }

  ghost predicate StrCoherent(g: Graph, sol: Env, val: map<Id, Tri>, str: map<Id, string>, write: map<Id, bool>,
                              live: set<Node>) {
    forall i :: i in str ==>
      && Str(i) in live && str[i] == StrOf(sol, Str(i))
      && (g.At(i).Symbol? && IsLogic(g.At(i).ty) ==> i in val)
      && (g.At(i).Symbol? && (IsNumber(g.At(i).ty) || g.At(i).ty == String) ==>
            i in write && write[i] == WriteOf(sol, Str(i)))
  }

  /** Every cached attribute is live and equals its value in `sol`, and a cached symbol value
      comes with the right .config flag. */
  ghost predicate Coherent(g: Graph, sol: Env, c: Caches, live: set<Node>) {
    && (forall i :: i in c.vis ==> Vis(i) in live && c.vis[i] == TriOf(sol, Vis(i)))
    && ValCoherent(g, sol, c.vis, c.val, c.write, live)
    && StrCoherent(g, sol, c.val, c.str, c.write, live)
    && (forall i :: i in c.write ==> g.At(i).Symbol? && g.At(i).ty != Unknown)
    && (forall i :: i in c.sel ==> Sel(i) in live && c.sel[i] == SelOf(sol, Sel(i)))
    && (forall i :: i in c.asg ==> Asg(i) in live && Look(sol, Asg(i)) == Some(AsgV(c.asg[i])))
  }

  // ---- the equation of an attribute, at the solution --------------------------

  lemma AtVis(g: Graph, u: Users, rank: Node -> nat, i: Id)
    requires Ranked(g, rank) && UsersOk(g, u)
    ensures var sol := Solution(g, u, rank); var r := VisR(g, sol, i);
      StepR(g, u, sol, Vis(i)).used == r.used && Look(sol, Vis(i)) == Some(TriV(r.v, false))
  {
    SolutionStep(g, u, rank, Vis(i));
  }

  lemma AtVal(g: Graph, u: Users, rank: Node -> nat, i: Id)
    requires Ranked(g, rank) && UsersOk(g, u)
    ensures var sol := Solution(g, u, rank); var s := StepR(g, u, sol, Val(i));
      match g.At(i)
      case Lit(t) => s.used == {} && Look(sol, Val(i)) == Some(TriV(t, false)) && Deps(g, Val(i)) == {}
      case Symbol(_, ty, _, _, _, _, _, _, _, _) =>
        var r := SymbolValR(g, u, sol, i);
        s.used == r.used && Look(sol, Val(i)) == Some(TriV(r.v.t, r.v.write))
          && (!IsLogic(ty) ==> Deps(g, Val(i)) == {})
      case Choice(_, _, _, _, _) =>
        var r := ModeR(g, u, sol, i); s.used == r.used && Look(sol, Val(i)) == Some(TriV(r.v, false))
  {
    SolutionStep(g, u, rank, Val(i));
  }

  lemma AtStr(g: Graph, u: Users, rank: Node -> nat, i: Id)
    requires Ranked(g, rank) && UsersOk(g, u)
    ensures var sol := Solution(g, u, rank); var r := StrR(g, u, sol, i);
      StepR(g, u, sol, Str(i)).used == r.used && Look(sol, Str(i)) == Some(StrV(r.v.s, r.v.write))
    ensures g.At(i).Lit? || (g.At(i).Symbol? && g.At(i).ty == Unknown) ==> Deps(g, Str(i)) == {}
  {
    SolutionStep(g, u, rank, Str(i));
  }

  lemma AtSel(g: Graph, u: Users, rank: Node -> nat, i: Id)
    requires Ranked(g, rank) && UsersOk(g, u) && g.At(i).Choice?
    ensures var sol := Solution(g, u, rank); var r := SelR(g, u, sol, i);
      StepR(g, u, sol, Sel(i)).used == r.used && Look(sol, Sel(i)) == Some(SelV(r.v))
  {
    SolutionStep(g, u, rank, Sel(i));
  }

  ghost function AsgR(g: Graph, env: Env, i: Id): Tracked<seq<Tri>> {
    match g.At(i)
    case Lit(_) => Tracked([], {})
    case Symbol(_, _, _, _, _, _, _, _, _, _) => SymbolAsgR(g, env, i)
    case Choice(_, _, _, _, _) => ChoiceAsgR(g, env, i)
  }

  lemma AtAsg(g: Graph, u: Users, rank: Node -> nat, i: Id)
    requires Ranked(g, rank) && UsersOk(g, u)
    ensures var sol := Solution(g, u, rank); var r := AsgR(g, sol, i);
      StepR(g, u, sol, Asg(i)).used == r.used && Look(sol, Asg(i)) == Some(AsgV(r.v))
    ensures g.At(i).Lit? || (g.At(i).Symbol? && !IsLogic(g.At(i).ty)) ==> Deps(g, Asg(i)) == {}
  {
    SolutionStep(g, u, rank, Asg(i));
  }

  // ---- filling a cache slot ---------------------------------------------------

  /** The cache invariant. */
  ghost predicate Inv(g: Graph, u: Users, rank: Node -> nat, c: Caches, live: set<Node>)
    requires Ranked(g, rank)
  {
    var sol := Solution(g, u, rank);
    LiveOk(g, u, sol, c.vis.Keys, live) && Coherent(g, sol, c, live)
  }

  /** Marking an attribute as evaluated once everything it read is. */
  lemma AddLive(g: Graph, u: Users, sol: Env, vis: set<Id>, vis': set<Id>, live: set<Node>, n: Node)
    requires LiveOk(g, u, sol, vis, live) && vis <= vis'
    requires StepR(g, u, sol, n).used <= live && (n.i in vis' || Deps(g, n) == {})
    ensures LiveOk(g, u, sol, vis', live + {n})
  {
    hide StepR, Deps;
  }

  lemma StoreVis(g: Graph, u: Users, rank: Node -> nat, c: Caches, live: set<Node>, i: Id)
    requires Ranked(g, rank) && UsersOk(g, u) && Inv(g, u, rank, c, live)
    requires VisR(g, Solution(g, u, rank), i).used <= live
    ensures var v := VisR(g, Solution(g, u, rank), i).v;
      && v == TriOf(Solution(g, u, rank), Vis(i))
      && Inv(g, u, rank, c.(vis := c.vis[i := v]), live + {Vis(i)})
  {
    hide Ranked, UsersOk, StepR, LiveOk, Deps, Value, Solution, VisR;
    AtVis(g, u, rank, i);
    AddLive(g, u, Solution(g, u, rank), c.vis.Keys, c.vis.Keys + {i}, live, Vis(i));
    assert c.vis[i := VisR(g, Solution(g, u, rank), i).v].Keys == c.vis.Keys + {i};
  }

  lemma StoreVal(g: Graph, u: Users, rank: Node -> nat, c: Caches, live: set<Node>, i: Id)
    requires Ranked(g, rank) && UsersOk(g, u) && Inv(g, u, rank, c, live) && g.At(i).Symbol?
    requires SymbolValR(g, u, Solution(g, u, rank), i).used <= live
    requires IsLogic(g.At(i).ty) ==> i in c.vis
    ensures var w := SymbolValR(g, u, Solution(g, u, rank), i).v;
      && w.t == TriOf(Solution(g, u, rank), Val(i))
      && Inv(g, u, rank,
             c.(val := c.val[i := w.t], write := if IsLogic(g.At(i).ty) then c.write[i := w.write] else c.write),
             live + {Val(i)})
  {
    hide Ranked, UsersOk, StepR, LiveOk, Deps, Value, Solution, SymbolValR;
    AtVal(g, u, rank, i);
    AddLive(g, u, Solution(g, u, rank), c.vis.Keys, c.vis.Keys, live, Val(i));
  }

  lemma NoteVal(g: Graph, u: Users, rank: Node -> nat, c: Caches, live: set<Node>, i: Id)
    requires Ranked(g, rank) && UsersOk(g, u) && Inv(g, u, rank, c, live) && !g.At(i).Symbol?
    requires g.At(i).Choice? ==> i in c.vis && ModeR(g, u, Solution(g, u, rank), i).used <= live
    ensures TriOf(Solution(g, u, rank), Val(i)) ==
            if g.At(i).Lit? then g.At(i).value else ModeR(g, u, Solution(g, u, rank), i).v
    ensures Inv(g, u, rank, c, live + {Val(i)})
  {
    hide Ranked, UsersOk, StepR, LiveOk, Deps, Value, Solution, ModeR;
    AtVal(g, u, rank, i);
    AddLive(g, u, Solution(g, u, rank), c.vis.Keys, c.vis.Keys, live, Val(i));
  }

  lemma StoreSel(g: Graph, u: Users, rank: Node -> nat, c: Caches, live: set<Node>, i: Id)
    requires Ranked(g, rank) && UsersOk(g, u) && Inv(g, u, rank, c, live) && g.At(i).Choice? && i in c.vis
    requires SelR(g, u, Solution(g, u, rank), i).used <= live
    ensures var s := SelR(g, u, Solution(g, u, rank), i).v;
      && s == SelOf(Solution(g, u, rank), Sel(i))
      && Inv(g, u, rank, c.(sel := c.sel[i := s]), live + {Sel(i)})
  {
    hide Ranked, UsersOk, StepR, LiveOk, Deps, Value, Solution, SelR;
    AtSel(g, u, rank, i);
    AddLive(g, u, Solution(g, u, rank), c.vis.Keys, c.vis.Keys, live, Sel(i));
  }

  lemma StoreStr(g: Graph, u: Users, rank: Node -> nat, c: Caches, live: set<Node>, i: Id)
    requires Ranked(g, rank) && UsersOk(g, u) && Inv(g, u, rank, c, live) && g.At(i).Symbol?
    requires StrR(g, u, Solution(g, u, rank), i).used <= live
    requires g.At(i).ty != Unknown ==> i in c.vis
    requires IsLogic(g.At(i).ty) ==> i in c.val
    ensures var w := StrR(g, u, Solution(g, u, rank), i).v;
      && w.s == StrOf(Solution(g, u, rank), Str(i))
      && Inv(g, u, rank, c.(str := c.str[i := w.s],
                            write := if IsLogic(g.At(i).ty) || g.At(i).ty == Unknown then c.write
                                     else c.write[i := w.write]),
             live + {Str(i)})
  {
    hide Ranked, UsersOk, StepR, LiveOk, Deps, Value, Solution, StrR;
    AtStr(g, u, rank, i);
    AddLive(g, u, Solution(g, u, rank), c.vis.Keys, c.vis.Keys, live, Str(i));
    CoherentStr(g, Solution(g, u, rank), c, live, i, StrR(g, u, Solution(g, u, rank), i).v);
  }

  lemma CoherentStr(g: Graph, sol: Env, c: Caches, live: set<Node>, i: Id, w: WrittenStr)
    requires Coherent(g, sol, c, live) && g.At(i).Symbol?
    requires Look(sol, Str(i)) == Some(StrV(w.s, w.write)) && (IsLogic(g.At(i).ty) ==> i in c.val)
    ensures Coherent(g, sol, c.(str := c.str[i := w.s],
                                write := if IsLogic(g.At(i).ty) || g.At(i).ty == Unknown then c.write
                                         else c.write[i := w.write]),
                     live + {Str(i)})
  {
  }

  lemma NoteStr(g: Graph, u: Users, rank: Node -> nat, c: Caches, live: set<Node>, i: Id)
    requires Ranked(g, rank) && UsersOk(g, u) && Inv(g, u, rank, c, live) && !g.At(i).Symbol?
    requires g.At(i).Choice? ==> i in c.vis && Val(i) in live
    ensures StrOf(Solution(g, u, rank), Str(i)) ==
            TriStr(if g.At(i).Lit? then g.At(i).value else TriOf(Solution(g, u, rank), Val(i)))
    ensures Inv(g, u, rank, c, live + {Str(i)})
  {
    hide Ranked, UsersOk, StepR, LiveOk, Deps, Value, Solution;
    AtStr(g, u, rank, i);
    AddLive(g, u, Solution(g, u, rank), c.vis.Keys, c.vis.Keys, live, Str(i));
  }

  lemma StoreAsg(g: Graph, u: Users, rank: Node -> nat, c: Caches, live: set<Node>, i: Id)
    requires Ranked(g, rank) && UsersOk(g, u) && Inv(g, u, rank, c, live)
    requires AsgR(g, Solution(g, u, rank), i).used <= live
    requires g.At(i).Choice? || (g.At(i).Symbol? && IsLogic(g.At(i).ty)) ==> i in c.vis
    ensures var a := AsgR(g, Solution(g, u, rank), i).v;
      && Look(Solution(g, u, rank), Asg(i)) == Some(AsgV(a))
      && Inv(g, u, rank, c.(asg := c.asg[i := a]), live + {Asg(i)})
  {
    hide Ranked, UsersOk, StepR, LiveOk, Deps, Value, Solution, AsgR;
    AtAsg(g, u, rank, i);
    AddLive(g, u, Solution(g, u, rank), c.vis.Keys, c.vis.Keys, live, Asg(i));
  }

  // ---- emptying cache slots ---------------------------------------------------

  lemma ValKept(g: Graph, s1: Env, s2: Env, c: Caches, live: set<Node>, dropped: set<Id>)
    requires ValCoherent(g, s1, c.vis, c.val, c.write, live)
    requires forall n :: n in Kept(live, dropped) ==> Look(s1, n) == Look(s2, n)
    ensures ValCoherent(g, s2, c.vis - dropped, c.val - dropped, c.write, Kept(live, dropped))
  {
  }

  lemma StrKept(g: Graph, s1: Env, s2: Env, c: Caches, live: set<Node>, dropped: set<Id>)
    requires StrCoherent(g, s1, c.val, c.str, c.write, live)
    requires forall n :: n in Kept(live, dropped) ==> Look(s1, n) == Look(s2, n)
    ensures StrCoherent(g, s2, c.val - dropped, c.str - dropped, c.write, Kept(live, dropped))
  {
  }

  lemma CoherentKept(g: Graph, s1: Env, s2: Env, c: Caches, live: set<Node>, dropped: set<Id>)
    requires Coherent(g, s1, c, live)
    requires forall n :: n in Kept(live, dropped) ==> Look(s1, n) == Look(s2, n)
    ensures Coherent(g, s2, c.Drop(dropped), Kept(live, dropped))
  {
    hide ValCoherent, StrCoherent;
    ValKept(g, s1, s2, c, live, dropped);
    StrKept(g, s1, s2, c, live, dropped);
  }

  lemma AfterChange(g: Graph, u1: Users, u2: Users, rank: Node -> nat, c: Caches, live: set<Node>, dropped: set<Id>)
    requires Ranked(g, rank) && Wired(g) && UsersOk(g, u1) && UsersOk(g, u2) && Inv(g, u1, rank, c, live)
    requires DropsDependents(g, c.vis.Keys, dropped)
    requires UsersDifferIn(g, u1, u2, Kept(live, dropped))
    ensures Inv(g, u2, rank, c.Drop(dropped), Kept(live, dropped))
  {
    hide Ranked, Wired, UsersOk, LiveOk, DropsDependents, UsersDifferIn, Value, Coherent, Kept;
    LiveOkAfter(g, u1, u2, rank, c.vis.Keys, live, dropped);
    assert c.Drop(dropped).vis.Keys == c.vis.Keys - dropped;
    CoherentKept(g, Solution(g, u1, rank), Solution(g, u2, rank), c, live, dropped);
  }

  /** A symbol's assignment changes; unless it has no prompt, the symbol is dropped. */
  lemma SymbolChange(g: Graph, u1: Users, u2: Users, kept: set<Node>, i: Id)
    requires forall j :: j != i ==> u1.Tri(j) == u2.Tri(j) && u1.Str(j) == u2.Str(j)
    requires forall j :: j != i ==> u1.Selection(j) == u2.Selection(j)
    requires (!g.At(i).Choice? && Prompts(g.At(i)) == []) || forall n :: n in kept ==> n.i != i
    ensures UsersDifferIn(g, u1, u2, kept)
  {
    hide Deps;
  }

  /** Assigning y to a choice symbol also moves the user selection of its choice. Only the choice
      is dropped explicitly; the symbol, being a dependent, goes with it if it is cached. */
  lemma ChoiceSymbolChange(g: Graph, u1: Users, u2: Users, rank: Node -> nat, k: Caches, live: set<Node>,
                           dropped: set<Id>, i: Id, c: Id)
    requires Wired(g) && Ranked(g, rank) && g.At(i).Symbol? && g.At(i).choice == Some(c)
    requires Inv(g, u1, rank, k, live) && DropsDependents(g, k.vis.Keys, dropped) && c in dropped
    requires forall j :: j != i ==> u1.Tri(j) == u2.Tri(j) && u1.Str(j) == u2.Str(j)
    requires forall j :: j != c ==> u1.Selection(j) == u2.Selection(j)
    ensures UsersDifferIn(g, u1, u2, Kept(live, dropped))
  {
    hide Deps, StepR, Coherent, Ranked, Solution;
  }

  /** The assignments after a symbol is given an accepted value. */
  function Assigned(g: Graph, u: Users, i: Id, value: UserValue): Users {
    var it, v := g.At(i), Normalized(TypeOf(g.At(i)), value);
    Users(u.values[i := v],
          if it.Symbol? && it.choice.Some? && v == TriUser(2) then u.selections[it.choice.value := i] else u.selections)
  }

  lemma AssignedOk(g: Graph, u: Users, i: Id, value: UserValue)
    requires UsersOk(g, u) && Accepts(g, i, value)
    requires g.At(i).Symbol? && g.At(i).choice.Some? ==> Wired(g)
    ensures UsersOk(g, Assigned(g, u, i, value))
  {
  }

  lemma StoredAccepted(g: Graph, u: Users, i: Id)
    requires UsersOk(g, u) && i in u.values
    ensures Accepts(g, i, u.values[i]) && Normalized(TypeOf(g.At(i)), u.values[i]) == u.values[i]
  {
  }

  datatype Op =
    | ReadVisibility(i: Id) | ReadTri(i: Id) | ReadStr(i: Id) | ReadSelection(i: Id) | ReadAssignable(i: Id)
    | Set(i: Id, value: UserValue) | Unset(i: Id)

  /** What an operation makes of the assignments. */
  function After(g: Graph, u: Users, op: Op): Users {
    match op
    case Set(i, v) => if Accepts(g, i, v) then Assigned(g, u, i, v) else u
    case Unset(i) => Users(u.values - {i}, if g.At(i).Choice? then u.selections - {i} else u.selections)
    case _ => u
  }

  function AfterAll(g: Graph, u: Users, ops: seq<Op>): Users {
    if ops == [] then u else After(g, AfterAll(g, u, ops[..|ops| - 1]), ops[|ops| - 1])
  }

  class Kconfig {
    const g: Graph
    ghost const rank: Node -> nat
    var users: Users
    var caches: Caches
    ghost var live: set<Node>

    ghost predicate Valid()
      reads this
    {
      && Ranked(g, rank) && Wired(g) && UsersOk(g, users)
      && Inv(g, users, rank, caches, live)
    }

    /** Every attribute as computed from scratch under the current assignments. */
    ghost function Sol(): Env
      reads this
      requires Ranked(g, rank)
    {
      Solution(g, users, rank)
    }

    /** The operands of an expression in the properties of an item rank below its attributes. */
    lemma OperandBound(n: Node, ids: set<Id>)
      requires Ranked(g, rank) && ids <= PropItems(g.At(n.i))
      requires match n {
        case Val(i) => g.At(i).Symbol? && IsLogic(g.At(i).ty)
        case Str(i) => g.At(i).Symbol? && (IsNumber(g.At(i).ty) || g.At(i).ty == String)
        case Sel(i) => g.At(i).Choice?
        case Asg(i) => g.At(i).Symbol? && IsLogic(g.At(i).ty)
        case Vis(_) => false
      }
      ensures forall r :: r in Operands(ids) ==> rank(r) < rank(n)
      ensures forall j :: j in ids ==> rank(Val(j)) < rank(n) && rank(Str(j)) < rank(n)
    {
      assert Operands(PropItems(g.At(n.i))) <= Deps(g, n);
      forall j | j in ids ensures rank(Val(j)) < rank(n) && rank(Str(j)) < rank(n) {
        assert Val(j) in Deps(g, n) && Str(j) in Deps(g, n);
      }
    }

    lemma SymbolBounds(n: Node)
      requires Ranked(g, rank) && (n.Val? || n.Asg?) && g.At(n.i).Symbol? && IsLogic(g.At(n.i).ty)
      ensures var it := g.At(n.i);
        && (forall r :: r in Operands(ExprItems(it.revDep)) ==> rank(r) < rank(n))
        && (forall r :: r in Operands(ExprItems(it.weakRevDep)) ==> rank(r) < rank(n))
        && (forall r :: r in Operands(ExprItems(it.directDep)) ==> rank(r) < rank(n))
        && (forall r :: r in TypeDeps(g, it) + VisChoice(it) ==> rank(r) < rank(n))
        && rank(Vis(n.i)) < rank(n)
        && (n.Val? && it.choice.Some? ==> rank(Sel(it.choice.value)) < rank(n))
    {
      OperandBound(n, ExprItems(g.At(n.i).revDep));
      OperandBound(n, ExprItems(g.At(n.i).weakRevDep));
      OperandBound(n, ExprItems(g.At(n.i).directDep));
      assert forall r :: r in Deps(g, n) ==> rank(r) < rank(n);
    }

    lemma SelectionBounds(i: Id)
      requires Ranked(g, rank) && g.At(i).Choice?
      ensures rank(Val(i)) < rank(Sel(i))
      ensures forall s :: s in g.At(i).syms ==> rank(Vis(s)) < rank(Sel(i))
      ensures forall p :: p in g.At(i).picks ==>
        rank(Vis(p.sym)) < rank(Sel(i)) && forall r :: r in Operands(ExprItems(p.cond)) ==> rank(r) < rank(Sel(i))
    {
      forall s | s in g.At(i).syms ensures rank(Vis(s)) < rank(Sel(i)) { assert Vis(s) in Deps(g, Sel(i)); }
      forall p | p in g.At(i).picks
        ensures rank(Vis(p.sym)) < rank(Sel(i))
        ensures forall r :: r in Operands(ExprItems(p.cond)) ==> rank(r) < rank(Sel(i))
      {
        assert Vis(p.sym) in Deps(g, Sel(i));
        assert ExprItems(p.cond) <= PropItems(g.At(i));
        OperandBound(Sel(i), ExprItems(p.cond));
      }
      assert Val(i) in Deps(g, Sel(i));
    }

    /** Reading a value only fills caches. */
    twostate predicate Grown()
      reads this
    {
      old(live) <= live && old(caches.vis.Keys) <= caches.vis.Keys
    }

    constructor (g: Graph, ghost rank: Node -> nat)
      requires Ranked(g, rank) && Wired(g)
      ensures Valid() && this.g == g && this.rank == rank
      ensures users == Users(map[], map[])
    {
      this.g, this.rank := g, rank;
      users, caches, live := Users(map[], map[]), EMPTY, {};
    }

    method ExprValue(e: Expr, ghost bound: nat) returns (v: Tri)
      requires Valid()
      requires forall r :: r in Operands(ExprItems(e)) ==> rank(r) < bound
      modifies `caches, `live
      ensures Valid() && Grown()
      ensures v == ExprR(g, Sol(), e).v && ExprR(g, Sol(), e).used <= live
      decreases bound, 3, e
    {
      hide Inv, Solution, Ranked, Wired, UsersOk;
      match e
      case Ref(i) => v := TriValue(i);
      case And(l, r) =>
        v := ExprValue(l, bound);
        if v != 0 {
          var w := ExprValue(r, bound);
          v := Min(v, w);
        }
      case Or(l, r) =>
        v := ExprValue(l, bound);
        if v != 2 {
          var w := ExprValue(r, bound);
          v := Max(v, w);
        }
      case Not(f) =>
        v := ExprValue(f, bound);
        v := 2 - v;
      case Compare(rel, a, b) =>
        var c := CompareValue(a, b, bound);
        v := Truth(Holds(rel, c));
    }

    method CompareValue(a: Id, b: Id, ghost bound: nat) returns (c: int)
      requires Valid()
      requires forall r :: r in Operands({a, b}) ==> rank(r) < bound
      modifies `caches, `live
      ensures Valid() && Grown()
      ensures c == CompareR(g, Sol(), a, b).v && CompareR(g, Sol(), a, b).used <= live
      decreases bound, 2
    {
      hide Inv, Solution, Ranked, Wired, UsersOk;
      if !(TypeOf(g.At(a)) == String && TypeOf(g.At(b)) == String) {
        var x := NumValue(a, bound);
        if x.Some? {
          var y := NumValue(b, bound);
          if y.Some? { return x.value - y.value; }
        }
      }
      var s := StringValue(a);
      var t := StringValue(b);
      c := StrCmp(s, t);
    }

    method NumValue(i: Id, ghost bound: nat) returns (n: Option<int>)
      requires Valid()
      requires rank(Val(i)) < bound && rank(Str(i)) < bound
      modifies `caches, `live
      ensures Valid() && Grown()
      ensures n == NumR(g, Sol(), i).v && NumR(g, Sol(), i).used <= live
      decreases bound, 1
    {
      hide Inv, Solution, Ranked, Wired, UsersOk;
      if IsLogic(TypeOf(g.At(i))) {
        var v := TriValue(i);
        n := Some(v);
      } else {
        var s := StringValue(i);
        n := g.num(s, Base(TypeOf(g.At(i))));
      }
    }

    method Type(i: Id, ghost bound: nat) returns (ty: Type)
      requires Valid()
      requires forall r :: r in TypeDeps(g, g.At(i)) + VisChoice(g.At(i)) ==> rank(r) < bound
      modifies `caches, `live
      ensures Valid() && Grown()
      ensures ty == TypeR(g, Sol(), i).v && TypeR(g, Sol(), i).used <= live
      decreases bound, 1
    {
      hide Inv, Solution, Ranked, Wired, UsersOk;
      var it := g.At(i);
      ty := TypeOf(it);
      if !it.Lit? && ty == Tristate {
        if it.Symbol? && it.choice.Some? {
          var mode := TriValue(it.choice.value);
          if mode == 2 { return Bool; }
        }
        var m := TriValue(g.modules);
        if m == 0 { ty := Bool; }
      }
    }

    method Visibility(i: Id) returns (v: Tri)
      requires Valid()
      modifies `caches, `live
      ensures Valid() && Grown()
      ensures v == TriOf(Sol(), Vis(i)) && Vis(i) in live && i in caches.vis
      decreases rank(Vis(i)), 9
    {
      hide LiveOk, Deps, Value;
      if i in caches.vis { return caches.vis[i]; }
      v := FreshVisibility(i);
      StoreVis(g, users, rank, caches, live, i);
      caches := caches.(vis := caches.vis[i := v]);
      live := live + {Vis(i)};
    }

    lemma VisibilityBounds(i: Id)
      requires Ranked(g, rank)
      ensures forall e :: e in Prompts(g.At(i)) ==> forall r :: r in Operands(ExprItems(e)) ==> rank(r) < rank(Vis(i))
      ensures forall r :: r in TypeDeps(g, g.At(i)) + VisChoice(g.At(i)) ==> rank(r) < rank(Vis(i))
    {
      forall e, r | e in Prompts(g.At(i)) && r in Operands(ExprItems(e)) ensures rank(r) < rank(Vis(i)) {
        assert ExprItems(e) <= PromptItems(g.At(i));
        assert r in Deps(g, Vis(i));
      }
      assert forall r :: r in TypeDeps(g, g.At(i)) + VisChoice(g.At(i)) ==> r in Deps(g, Vis(i));
    }

    method PromptVisibility(i: Id) returns (v: Tri)
      requires Valid()
      modifies `caches, `live
      ensures Valid() && Grown()
      ensures v == PromptsR(g, Sol(), Prompts(g.At(i)), 0).v && PromptsR(g, Sol(), Prompts(g.At(i)), 0).used <= live
      decreases rank(Vis(i)), 7
    {
      hide Inv, Solution, Ranked, Wired, UsersOk, ExprR, ExprItems, Operands;
      VisibilityBounds(i);
      var ps := Prompts(g.At(i));
      v := 0;
      var k := 0;
      while k < |ps|
        invariant 0 <= k <= |ps| && Valid() && Grown()
        invariant Max(v, PromptsR(g, Sol(), ps, k).v) == PromptsR(g, Sol(), ps, 0).v
        invariant PromptsR(g, Sol(), ps, 0).used <= live + PromptsR(g, Sol(), ps, k).used
      {
        assert ps[k] in ps;
        var w := ExprValue(ps[k], rank(Vis(i)));
        v := Max(v, w);
        k := k + 1;
      }
    }

    method FreshVisibility(i: Id) returns (v: Tri)
      requires Valid()
      modifies `caches, `live
      ensures Valid() && Grown()
      ensures v == VisR(g, Sol(), i).v && VisR(g, Sol(), i).used <= live
      decreases rank(Vis(i)), 8
    {
      hide Inv, Solution, Ranked, Wired, UsersOk, PromptsR, TypeR, TypeDeps;
      VisibilityBounds(i);
      var it := g.At(i);
      v := PromptVisibility(i);
      if it.Symbol? && it.choice.Some? {
        var c := it.choice.value;
        if TypeOf(g.At(c)) == Tristate && it.ty != Tristate {
          var mode := TriValue(c);
          if mode != 2 { return 0; }
        } else if it.ty == Tristate && v == 1 {
          var mode := TriValue(c);
          if mode == 2 { return 0; }
        }
      }
      if v == 1 {
        var ty := Type(i, rank(Vis(i)));
        if ty != Tristate { v := 2; }
      }
    }

    method TriValue(i: Id) returns (v: Tri)
      requires Valid()
      modifies `caches, `live
      ensures Valid() && Grown()
      ensures v == TriOf(Sol(), Val(i)) && Val(i) in live
      ensures g.At(i).Symbol? && IsLogic(TypeOf(g.At(i))) ==> i in caches.val && i in caches.vis
      ensures g.At(i).Choice? ==> i in caches.vis
      decreases rank(Val(i)), 9
    {
      hide LiveOk, Deps, Value;
      match g.At(i)
      case Lit(t) =>
        NoteVal(g, users, rank, caches, live, i);
        live := live + {Val(i)};
        v := t;
      case Choice(_, _, _, _, _) =>
        v := Mode(i);
        NoteVal(g, users, rank, caches, live, i);
        live := live + {Val(i)};
      case Symbol(_, ty, _, _, _, _, _, _, _, _) =>
        if i in caches.val { return caches.val[i]; }
        if !IsLogic(ty) {
          v := 0;
          StoreVal(g, users, rank, caches, live, i);
          caches := caches.(val := caches.val[i := 0]);
        } else {
          var w := FreshSymbolValue(i);
          v := w.t;
          StoreVal(g, users, rank, caches, live, i);
          caches := caches.(val := caches.val[i := v], write := caches.write[i := w.write]);
        }
        live := live + {Val(i)};
    }

    method Mode(i: Id) returns (v: Tri)
      requires Valid() && g.At(i).Choice?
      modifies `caches, `live
      ensures Valid() && Grown() && i in caches.vis
      ensures v == ModeR(g, users, Sol(), i).v && ModeR(g, users, Sol(), i).used <= live
      decreases rank(Val(i)), 8
    {
      hide Inv, Solution;
      assert forall r :: r in Deps(g, Val(i)) ==> rank(r) < rank(Val(i));
      v := if g.At(i).optional then 0 else 1;
      var user := users.Tri(i);
      if user.Some? { v := Max(v, user.value); }
      var vis := Visibility(i);
      v := Min(v, vis);
      if v == 1 {
        var ty := Type(i, rank(Val(i)));
        if ty == Bool { v := 2; }
      }
    }

    method TriDefault(i: Id) returns (v: Tri)
      requires Valid() && g.At(i).Symbol? && IsLogic(g.At(i).ty)
      modifies `caches, `live
      ensures Valid() && Grown()
      ensures v == TriDefaultR(g, Sol(), g.At(i).defaults, 0).v
      ensures TriDefaultR(g, Sol(), g.At(i).defaults, 0).used <= live
      decreases rank(Val(i)), 6
    {
      hide Inv, Solution, Ranked, Wired, UsersOk, ExprR, ExprItems, PropItems, Deps, Operands;
      var ds := g.At(i).defaults;
      ghost var bound := rank(Val(i));
      var k := 0;
      while k < |ds|
        invariant 0 <= k <= |ds| && Valid() && Grown()
        invariant TriDefaultR(g, Sol(), ds, k).v == TriDefaultR(g, Sol(), ds, 0).v
        invariant TriDefaultR(g, Sol(), ds, 0).used <= live + TriDefaultR(g, Sol(), ds, k).used
      {
        DefaultItems(g.At(i), ds[k]);
        OperandBound(Val(i), ExprItems(ds[k].cond));
        OperandBound(Val(i), ExprItems(ds[k].value));
        var c := ExprValue(ds[k].cond, bound);
        if c != 0 {
          var d := ExprValue(ds[k].value, bound);
          return Min(d, c);
        }
        k := k + 1;
      }
      v := 0;
    }

    method BaseValue(i: Id) returns (w: Written)
      requires Valid() && g.At(i).Symbol? && IsLogic(g.At(i).ty)
      modifies `caches, `live
      ensures Valid() && Grown() && i in caches.vis
      ensures w == BaseR(g, users, Sol(), i).v && BaseR(g, users, Sol(), i).used <= live
      decreases rank(Val(i)), 7
    {
      hide Inv, Solution, Ranked, Wired, UsersOk, ExprR, ExprItems, PropItems, Deps, Operands;
      var it := g.At(i);
      ghost var bound := rank(Val(i));
      SymbolBounds(Val(i));
      var vis := Visibility(i);
      var user := users.Tri(i);
      if vis != 0 && user.Some? {
        w := Written(Min(user.value, vis), true);
      } else {
        var val := TriDefault(i);
        w := Written(val, vis != 0 || val != 0);
        var weak := ExprValue(it.weakRevDep, bound);
        if weak != 0 {
          var dep := ExprValue(it.directDep, bound);
          if dep != 0 { w := Written(Max(weak, val), true); }
        }
      }
    }

    method FreshSymbolValue(i: Id) returns (w: Written)
      requires Valid() && g.At(i).Symbol? && IsLogic(g.At(i).ty)
      modifies `caches, `live
      ensures Valid() && Grown() && i in caches.vis
      ensures w == SymbolValR(g, users, Sol(), i).v && SymbolValR(g, users, Sol(), i).used <= live
      decreases rank(Val(i)), 8
    {
      hide Inv, Solution, Ranked, UsersOk, ExprR, ExprItems, PropItems, Deps, Operands;
      var it := g.At(i);
      ghost var bound := rank(Val(i));
      SymbolBounds(Val(i));
      if it.choice.None? {
        w := BaseValue(i);
        var dep := ExprValue(it.revDep, bound);
        if dep != 0 {
          var direct := ExprValue(it.directDep, bound);
          w := Written(Max(dep, w.t), true);
        }
        if w.t == 1 {
          var ty := Type(i, bound);
          if ty == Bool { w := w.(t := 2); }
          else {
            var weak := ExprValue(it.weakRevDep, bound);
            if weak == 2 { w := w.(t := 2); }
          }
        }
      } else {
        var vis := Visibility(i);
        if vis == 2 {
          var sel := Selection(it.choice.value);
          w := Written(Truth(sel == Some(i)), true);
        } else {
          var user := users.Tri(i);
          w := Written(if vis != 0 && user.Some? && user.value != 0 then 1 else 0, vis != 0);
        }
      }
    }

    method Selection(i: Id) returns (s: Option<Id>)
      requires Valid() && g.At(i).Choice?
      modifies `caches, `live
      ensures Valid() && Grown()
      ensures s == SelOf(Sol(), Sel(i)) && Sel(i) in live
      decreases rank(Sel(i)), 9
    {
      hide LiveOk, Deps, Value;
      if i in caches.sel { return caches.sel[i]; }
      s := FreshSelection(i);
      StoreSel(g, users, rank, caches, live, i);
      caches := caches.(sel := caches.sel[i := s]);
      live := live + {Sel(i)};
    }

    method FreshSelection(i: Id) returns (s: Option<Id>)
      requires Valid() && g.At(i).Choice?
      modifies `caches, `live
      ensures Valid() && Grown() && i in caches.vis
      ensures s == SelR(g, users, Sol(), i).v && SelR(g, users, Sol(), i).used <= live
      decreases rank(Sel(i)), 8
    {
      hide Inv, Solution, Ranked, Wired, Deps, DefaultSelectionR;
      SelectionBounds(i);
      var mode := TriValue(i);
      if mode != 2 { return None; }
      var user := users.Selection(i);
      if user.Some? {
        var vis := Visibility(user.value);
        if vis != 0 { return user; }
      }
      s := SelectionFromDefaults(i);
    }

    method SelectionFromDefaults(i: Id) returns (s: Option<Id>)
      requires Valid() && g.At(i).Choice?
      modifies `caches, `live
      ensures Valid() && Grown()
      ensures s == DefaultSelectionR(g, Sol(), i).v && DefaultSelectionR(g, Sol(), i).used <= live
      decreases rank(Sel(i)), 6
    {
      hide Inv, Solution, Ranked, Wired, UsersOk, PickR, FirstVisibleR;
      s := VisibleDefault(i);
      if s.None? { s := FirstVisible(i); }
    }

    method VisibleDefault(i: Id) returns (s: Option<Id>)
      requires Valid() && g.At(i).Choice?
      modifies `caches, `live
      ensures Valid() && Grown()
      ensures s == PickR(g, Sol(), g.At(i).picks, 0).v && PickR(g, Sol(), g.At(i).picks, 0).used <= live
      decreases rank(Sel(i)), 5
    {
      hide Inv, Solution, Ranked, Wired, UsersOk, ExprR, ExprItems, Operands;
      var ps := g.At(i).picks;
      SelectionBounds(i);
      var k := 0;
      while k < |ps|
        invariant 0 <= k <= |ps| && Valid() && Grown()
        invariant PickR(g, Sol(), ps, k).v == PickR(g, Sol(), ps, 0).v
        invariant PickR(g, Sol(), ps, 0).used <= live + PickR(g, Sol(), ps, k).used
      {
        assert ps[k] in ps;
        var c := ExprValue(ps[k].cond, rank(Sel(i)));
        if c != 0 {
          var vis := Visibility(ps[k].sym);
          if vis != 0 { return Some(ps[k].sym); }
        }
        k := k + 1;
      }
      s := None;
    }

    method FirstVisible(i: Id) returns (s: Option<Id>)
      requires Valid() && g.At(i).Choice?
      modifies `caches, `live
      ensures Valid() && Grown()
      ensures s == FirstVisibleR(Sol(), g.At(i).syms, 0).v && FirstVisibleR(Sol(), g.At(i).syms, 0).used <= live
      decreases rank(Sel(i)), 5
    {
      hide Inv, Solution, Ranked, Wired, UsersOk;
      var syms := g.At(i).syms;
      SelectionBounds(i);
      var k := 0;
      while k < |syms|
        invariant 0 <= k <= |syms| && Valid() && Grown()
        invariant FirstVisibleR(Sol(), syms, k).v == FirstVisibleR(Sol(), syms, 0).v
        invariant FirstVisibleR(Sol(), syms, 0).used <= live + FirstVisibleR(Sol(), syms, k).used
      {
        var vis := Visibility(syms[k]);
        if vis != 0 { return Some(syms[k]); }
        k := k + 1;
      }
      s := None;
    }

    method StringValue(i: Id) returns (s: string)
      requires Valid()
      modifies `caches, `live
      ensures Valid() && Grown()
      ensures s == StrOf(Sol(), Str(i)) && Str(i) in live
      ensures g.At(i).Symbol? ==> i in caches.str
      decreases rank(Str(i)), 9
    {
      hide LiveOk, Deps, Value;
      match g.At(i)
      case Lit(t) =>
        NoteStr(g, users, rank, caches, live, i);
        live := live + {Str(i)};
        s := TriStr(t);
      case Choice(_, _, _, _, _) =>
        StrAfterVal(i);
        var v := TriValue(i);
        NoteStr(g, users, rank, caches, live, i);
        live := live + {Str(i)};
        s := TriStr(v);
      case Symbol(name, ty, _, _, _, _, _, _, _, auto) =>
        if i in caches.str { return caches.str[i]; }
        if IsLogic(ty) {
          StrAfterVal(i);
          var v := TriValue(i);
          s := TriStr(v);
        } else if ty == Unknown {
          s := name;
        } else {
          var w;
          if IsNumber(ty) { w := FreshNumber(i); } else { w := FreshString(i); }
          s := w.s;
          StoreStr(g, users, rank, caches, live, i);
          caches := caches.(str := caches.str[i := s], write := caches.write[i := w.write && !auto]);
          live := live + {Str(i)};
          return;
        }
        StoreStr(g, users, rank, caches, live, i);
        caches := caches.(str := caches.str[i := s]);
        live := live + {Str(i)};
    }

    lemma StrAfterVal(i: Id)
      requires Ranked(g, rank) && (g.At(i).Choice? || (g.At(i).Symbol? && IsLogic(g.At(i).ty)))
      ensures rank(Val(i)) < rank(Str(i))
    {
      assert Val(i) in Deps(g, Str(i));
    }

    method StrDefault(i: Id) returns (d: Option<string>)
      requires Valid() && g.At(i).Symbol? && (IsNumber(g.At(i).ty) || g.At(i).ty == String)
      modifies `caches, `live
      ensures Valid() && Grown()
      ensures d == StrDefaultR(g, Sol(), g.At(i).defaults, 0).v
      ensures StrDefaultR(g, Sol(), g.At(i).defaults, 0).used <= live
      decreases rank(Str(i)), 6
    {
      hide Inv, Solution, Ranked, Wired, UsersOk, ExprR, PropItems, Deps, Operands;
      var ds := g.At(i).defaults;
      ghost var bound := rank(Str(i));
      var k := 0;
      while k < |ds|
        invariant 0 <= k <= |ds| && Valid() && Grown()
        invariant StrDefaultR(g, Sol(), ds, k).v == StrDefaultR(g, Sol(), ds, 0).v
        invariant StrDefaultR(g, Sol(), ds, 0).used <= live + StrDefaultR(g, Sol(), ds, k).used
      {
        DefaultItems(g.At(i), ds[k]);
        OperandBound(Str(i), ExprItems(ds[k].cond));
        OperandBound(Str(i), ExprItems(ds[k].value));
        var c := ExprValue(ds[k].cond, bound);
        if c != 0 {
          if !ds[k].value.Ref? { return Some(""); }
          assert ds[k].value.id in ExprItems(ds[k].value);
          var s := StringValue(ds[k].value.id);
          return Some(s);
        }
        k := k + 1;
      }
      d := None;
    }

    method ActiveRange(i: Id) returns (r: Option<Bounds>)
      requires Valid() && g.At(i).Symbol? && IsNumber(g.At(i).ty)
      modifies `caches, `live
      ensures Valid() && Grown()
      ensures r == RangeR(g, Sol(), g.At(i).ranges, Base(g.At(i).ty), 0).v
      ensures RangeR(g, Sol(), g.At(i).ranges, Base(g.At(i).ty), 0).used <= live
      decreases rank(Str(i)), 6
    {
      hide Inv, Solution, Ranked, Wired, UsersOk, ExprR, PropItems, Deps, Operands;
      var rs, base := g.At(i).ranges, Base(g.At(i).ty);
      ghost var bound := rank(Str(i));
      var k := 0;
      while k < |rs|
        invariant 0 <= k <= |rs| && Valid() && Grown()
        invariant RangeR(g, Sol(), rs, base, k).v == RangeR(g, Sol(), rs, base, 0).v
        invariant RangeR(g, Sol(), rs, base, 0).used <= live + RangeR(g, Sol(), rs, base, k).used
      {
        RangeItems(g.At(i), rs[k]);
        OperandBound(Str(i), RangeIds(rs[k]));
        OperandBound(Str(i), ExprItems(rs[k].cond));
        var c := ExprValue(rs[k].cond, bound);
        if c != 0 {
          var low := StringValue(rs[k].low);
          var high := StringValue(rs[k].high);
          return Some(Bounds(NumOr0(g, low, base), NumOr0(g, high, base)));
        }
        k := k + 1;
      }
      r := None;
    }

    method FreshNumber(i: Id) returns (w: WrittenStr)
      requires Valid() && g.At(i).Symbol? && IsNumber(g.At(i).ty)
      modifies `caches, `live
      ensures Valid() && Grown() && i in caches.vis
      ensures w == NumberStrR(g, users, Sol(), i).v && NumberStrR(g, users, Sol(), i).used <= live
      decreases rank(Str(i)), 8
    {
      hide Inv, Solution, Wired, UsersOk;
      var it := g.At(i);
      assert Vis(i) in Deps(g, Str(i));
      var vis := Visibility(i);
      var r := ActiveRange(i);
      var user := users.Str(i);
      if vis != 0 && user.Some? && user.value != "" {
        if InRange(r, NumOr0(g, user.value, Base(it.ty))) { return WrittenStr(user.value, true); }
      }
      var d := StrDefault(i);
      w := WrittenStr(Clamped(g, it.ty, r, d), vis != 0 || d.Some?);
    }

    method FreshString(i: Id) returns (w: WrittenStr)
      requires Valid() && g.At(i).Symbol? && g.At(i).ty == String
      modifies `caches, `live
      ensures Valid() && Grown() && i in caches.vis
      ensures w == StringStrR(g, users, Sol(), i).v && StringStrR(g, users, Sol(), i).used <= live
      decreases rank(Str(i)), 8
    {
      hide Inv, Solution, Wired, UsersOk;
      assert Vis(i) in Deps(g, Str(i));
      var vis := Visibility(i);
      var user := users.Str(i);
      if vis != 0 && user.Some? { return WrittenStr(user.value, true); }
      var d := StrDefault(i);
      w := WrittenStr(if d.Some? then d.value else "", vis != 0 || d.Some?);
    }

    method Assignable(i: Id) returns (a: seq<Tri>)
      requires Valid()
      modifies `caches, `live
      ensures Valid() && Grown()
      ensures Look(Sol(), Asg(i)) == Some(AsgV(a)) && Asg(i) in live
    {
      hide LiveOk, Deps, Value;
      if i in caches.asg { return caches.asg[i]; }
      match g.At(i) {
        case Lit(_) => a := [];
        case Choice(_, _, _, _, _) => a := FreshChoiceAssignable(i);
        case Symbol(_, _, _, _, _, _, _, _, _, _) => a := FreshSymbolAssignable(i);
      }
      StoreAsg(g, users, rank, caches, live, i);
      caches := caches.(asg := caches.asg[i := a]);
      live := live + {Asg(i)};
    }

    method Promotes(i: Id) returns (p: bool)
      requires Valid() && g.At(i).Symbol? && IsLogic(g.At(i).ty)
      modifies `caches, `live
      ensures Valid() && Grown()
      ensures p == PromotesR(g, Sol(), i).v && PromotesR(g, Sol(), i).used <= live
    {
      hide Inv, Solution;
      ghost var bound := rank(Asg(i));
      assert forall r :: r in Deps(g, Asg(i)) ==> rank(r) < bound;
      var ty := Type(i, bound);
      if ty == Bool { return true; }
      var weak := ExprValue(g.At(i).weakRevDep, bound);
      p := weak == 2;
    }

    method FreshSymbolAssignable(i: Id) returns (a: seq<Tri>)
      requires Valid() && g.At(i).Symbol?
      modifies `caches, `live
      ensures Valid() && Grown()
      ensures a == SymbolAsgR(g, Sol(), i).v && SymbolAsgR(g, Sol(), i).used <= live
      ensures IsLogic(g.At(i).ty) ==> i in caches.vis
    {
      hide Inv, Solution, Ranked, Wired, UsersOk, ExprR, PromotesR, ExprItems, Operands, TypeDeps, Deps;
      var it := g.At(i);
      if !IsLogic(it.ty) { return []; }
      var vis := Visibility(i);
      if vis == 0 { return []; }
      ghost var bound := rank(Asg(i));
      SymbolBounds(Asg(i));
      var rev := ExprValue(it.revDep, bound);
      if vis == 2 {
        if it.choice.Some? { return [2]; }
        if rev == 2 { return [2]; }
        var p := Promotes(i);
        if rev == 0 { return if p then [0, 2] else [0, 1, 2]; }
        return if p then [2] else [1, 2];
      }
      if rev == 0 {
        var weak := ExprValue(it.weakRevDep, bound);
        return if weak != 2 then [0, 1] else [0, 2];
      }
      a := if rev == 2 then [2] else [1];
    }

    method FreshChoiceAssignable(i: Id) returns (a: seq<Tri>)
      requires Valid() && g.At(i).Choice?
      modifies `caches, `live
      ensures Valid() && Grown() && i in caches.vis
      ensures a == ChoiceAsgR(g, Sol(), i).v && ChoiceAsgR(g, Sol(), i).used <= live
    {
      hide Inv, Solution;
      var optional := g.At(i).optional;
      var vis := Visibility(i);
      if vis == 0 { return []; }
      if vis == 2 {
        assert forall r :: r in Deps(g, Asg(i)) ==> rank(r) < rank(Asg(i));
        var ty := Type(i, rank(Asg(i)));
        if !optional { return if ty == Bool then [2] else [1, 2]; }
        return if ty == Bool then [0, 2] else [0, 1, 2];
      }
      a := if optional then [0, 1] else [1];
    }

    // ---- invalidation -----------------------------------------------------------

    method InvalidateAll() returns (ghost dropped: set<Id>)
      modifies `caches
      ensures caches == old(caches).Drop(dropped) && old(caches.vis.Keys) <= dropped && g.modules in dropped
    {
      dropped := caches.vis.Keys + caches.val.Keys + caches.str.Keys + caches.sel.Keys + caches.asg.Keys + {g.modules};
      caches := EMPTY.(write := caches.write);
    }

    /** Empties the slots of an item, then of its dependents that have a cached visibility, and so
        on. Each nested call starts with fewer cached visibilities, which is why the cycles between
        choices and their symbols do no harm. */
    method RecInvalidate(i: Id) returns (ghost dropped: set<Id>)
      requires !g.At(i).Lit? && !g.At(g.modules).Choice?
      modifies `caches
      ensures caches == old(caches).Drop(dropped) && i in dropped
      ensures DropsDependents(g, old(caches.vis.Keys), dropped) && DropsNoMore(g, old(caches.vis.Keys), i, dropped)
      decreases caches.vis.Keys, if i in caches.vis then 0 else 1
    {
      hide PropItems;
      if g.At(i).Symbol? && i == g.modules {
        dropped := InvalidateAll();
        return;
      }
      caches := caches.Drop({i});
      dropped := {i};
      ghost var vis := old(caches.vis.Keys);
      var rest := Dependents(g, i);
      while rest != {}
        invariant rest <= Dependents(g, i)
        invariant caches == old(caches).Drop(dropped) && i in dropped
        invariant forall y, z ::
          y in dropped && (y != i || z !in rest) && z in Dependents(g, y) && z in old(caches.vis) ==> z in dropped
        invariant g.modules in dropped ==> old(caches.vis.Keys) <= dropped
        invariant forall y :: y in dropped && g.At(y).Lit? ==> old(caches.vis.Keys) <= dropped
        invariant DropsNoMore(g, vis, i, dropped)
        decreases rest
      {
        var d :| d in rest;
        rest := rest - {d};
        if d in caches.vis {
          NotConstant(d);
          ghost var now := caches.vis.Keys;
          assert now == vis - dropped;
          ghost var sub := RecInvalidate(d);
          DropsNoMoreStep(g, vis, now, i, d, dropped, sub);
          DropTwice(old(caches), dropped, sub);
          dropped := dropped + sub;
        }
      }
    }

    lemma NotConstant(d: Id)
      requires exists j :: d in Dependents(g, j)
      ensures !g.At(d).Lit?
    {
    }

    lemma DropTwice(c: Caches, a: set<Id>, b: set<Id>)
      ensures c.Drop(a).Drop(b) == c.Drop(a + b)
    {
    }

    // ---- assignments ------------------------------------------------------------

    /** User values have no effect on symbols without a prompt, so those are left alone. */
    method RecInvalidateIfHasPrompt(i: Id) returns (ghost dropped: set<Id>)
      requires !g.At(i).Choice? && !g.At(g.modules).Choice?
      modifies `caches
      ensures caches == old(caches).Drop(dropped) && (if Prompts(g.At(i)) == [] then dropped == {} else i in dropped)
      ensures DropsDependents(g, old(caches.vis.Keys), dropped) && DropsNoMore(g, old(caches.vis.Keys), i, dropped)
    {
      dropped := {};
      if Prompts(g.At(i)) != [] { dropped := RecInvalidate(i); }
    }

    /** Symbol.set_value(). */
    method SetValue(i: Id, value: UserValue) returns (ok: bool)
      requires Valid() && !g.At(i).Choice?
      modifies this
      ensures Valid()
      ensures ok == Accepts(g, i, value)
      ensures users == if ok then Assigned(g, old(users), i, value) else old(users)
    {
      hide Inv, Solution, Ranked;
      var it := g.At(i);
      if i in users.values && users.values[i] == value && !(it.Symbol? && it.choice.Some?) {
        assert users.values[i := value] == users.values;
        return true;
      }
      ok := Accepts(g, i, value);
      if ok { Assign(i, value); }
    }

    method Assign(i: Id, value: UserValue)
      requires Valid() && !g.At(i).Choice? && Accepts(g, i, value)
      modifies this
      ensures Valid() && users == Assigned(g, old(users), i, value)
    {
      hide Inv, Solution, Ranked, DropsDependents, UsersDifferIn, UsersOk, Accepts, Kept;
      AssignedOk(g, users, i, value);
      var it, v := g.At(i), Normalized(TypeOf(g.At(i)), value);
      users := Users(users.values[i := v], users.selections);
      ghost var dropped;
      if it.Symbol? && it.choice.Some? && v == TriUser(2) {
        users := Users(users.values, users.selections[it.choice.value := i]);
        dropped := RecInvalidate(it.choice.value);
        ChoiceSymbolChange(g, old(users), users, rank, old(caches), live, dropped, i, it.choice.value);
      } else {
        dropped := RecInvalidateIfHasPrompt(i);
        KeptAvoids(live, dropped);
        SymbolChange(g, old(users), users, Kept(live, dropped), i);
      }
      AfterChange(g, old(users), users, rank, old(caches), live, dropped);
      live := Kept(live, dropped);
    }

    lemma KeptAvoids(live: set<Node>, dropped: set<Id>)
      ensures forall n :: n in Kept(live, dropped) ==> n.i !in dropped
    {
    }

    /** Symbol.unset_value(). */
    method UnsetValue(i: Id)
      requires Valid() && !g.At(i).Choice?
      modifies this
      ensures Valid() && users == Users(old(users).values - {i}, old(users).selections)
    {
      hide Inv, Solution, Ranked, DropsDependents, UsersDifferIn, Accepts, Kept;
      if i !in users.values {
        assert users.values - {i} == users.values;
        return;
      }
      users := Users(users.values - {i}, users.selections);
      ghost var dropped := RecInvalidateIfHasPrompt(i);
      KeptAvoids(live, dropped);
      SymbolChange(g, old(users), users, Kept(live, dropped), i);
      AfterChange(g, old(users), users, rank, old(caches), live, dropped);
      live := Kept(live, dropped);
    }

    /** Choice.set_value(): sets the mode. */
    method SetMode(i: Id, value: UserValue) returns (ok: bool)
      requires Valid() && g.At(i).Choice?
      modifies this
      ensures Valid()
      ensures ok == Accepts(g, i, value)
      ensures users == if ok then Assigned(g, old(users), i, value) else old(users)
    {
      hide Inv, Solution, Ranked, DropsDependents, UsersDifferIn, Kept, UsersOk, Accepts;
      if i in users.values && users.values[i] == value {
        StoredAccepted(g, users, i);
        assert users.values[i := value] == users.values;
        return true;
      }
      ok := Accepts(g, i, value);
      if ok {
        AssignedOk(g, users, i, value);
        users := Users(users.values[i := Normalized(TypeOf(g.At(i)), value)], users.selections);
        ghost var dropped := RecInvalidate(i);
        KeptAvoids(live, dropped);
        SymbolChange(g, old(users), users, Kept(live, dropped), i);
        AfterChange(g, old(users), users, rank, old(caches), live, dropped);
        live := Kept(live, dropped);
      }
    }

    /** Choice.unset_value(): forgets the mode and the user selection. */
    method UnsetMode(i: Id)
      requires Valid() && g.At(i).Choice?
      modifies this
      ensures Valid() && users == Users(old(users).values - {i}, old(users).selections - {i})
    {
      hide Inv, Solution, Ranked, DropsDependents, UsersDifferIn, Accepts, Kept;
      if i !in users.values && i !in users.selections {
        assert users.values - {i} == users.values && users.selections - {i} == users.selections;
        return;
      }
      users := Users(users.values - {i}, users.selections - {i});
      ghost var dropped := RecInvalidate(i);
      KeptAvoids(live, dropped);
      SymbolChange(g, old(users), users, Kept(live, dropped), i);
      AfterChange(g, old(users), users, rank, old(caches), live, dropped);
      live := Kept(live, dropped);
    }

    // ---- whole runs ---------------------------------------------------------------

    method Do(op: Op)
      requires Valid()
      modifies this
      ensures Valid() && users == After(g, old(users), op)
    {
      hide Inv, Solution, Ranked, Wired, UsersOk, Accepts;
      match op
      case ReadVisibility(i) => var v := Visibility(i);
      case ReadTri(i) => var v := TriValue(i);
      case ReadStr(i) => var s := StringValue(i);
      case ReadSelection(i) => if g.At(i).Choice? { var s := Selection(i); }
      case ReadAssignable(i) => var a := Assignable(i);
      case Set(i, v) => if g.At(i).Choice? { var b := SetMode(i, v); } else { var b := SetValue(i, v); }
      case Unset(i) => if g.At(i).Choice? { UnsetMode(i); } else { UnsetValue(i); }
    }

    /** The caches agree with a computation from scratch after every run of reads and writes. */
    method Run(ops: seq<Op>)
      requires Valid()
      modifies this
      ensures Valid() && users == AfterAll(g, old(users), ops)
      ensures Coherent(g, Solution(g, users, rank), caches, live)
    {
      hide Solution, Ranked, Wired, UsersOk, After, Coherent, LiveOk;
      var n := 0;
      while n < |ops|
        invariant 0 <= n <= |ops| && Valid()
        invariant users == AfterAll(g, old(users), ops[..n])
      {
        assert ops[..n + 1][..n] == ops[..n];
        Do(ops[n]);
        n := n + 1;
      }
      assert ops[..|ops|] == ops;
    }
  }
}

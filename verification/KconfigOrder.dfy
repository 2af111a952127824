/**
 When a configuration has an evaluation order. With choices a passed loop check is not enough: the
 exact condition is that no item needs itself, where a choice symbol needs what decides the
 selection of its choice.
 */
module KconfigOrder {
  import opened Wrappers
  import opened KconfigModel
  import opened KconfigEval
  import opened KconfigInvalidation
  import opened KconfigRank
  import opened KconfigLoop

  // ---- what an item needs ---------------------------------------------------------------------

  /** The items whose values the visibility of an item needs. */
  function SightNeeds(g: Graph, i: Id): set<Id> {
    var it := g.At(i);
    PromptItems(it) + (if it.Symbol? && it.choice.Some? then {it.choice.value} else {})
    + (if !it.Lit? && TypeOf(it) == Tristate then {g.modules} else {})
  }

  /** The items that decide the selection of a choice: its mode, its properties, and what its symbols and
      defaults need to be visible. */
  function SelectionNeeds(g: Graph, c: Id): set<Id> {
    var it := g.At(c);
    if !it.Choice? then {}
    else
      {c} + PropItems(it) + (set s, j | s in it.syms && j in SightNeeds(g, s) :: j)
      + (set p, j | p in it.picks && j in SightNeeds(g, p.sym) :: j)
  }

  /** The items whose values the value of an item needs. */
  function Needs(g: Graph, i: Id): set<Id> {
    var it := g.At(i);
    match it
    case Lit(_) => {}
    case Symbol(_, ty, _, _, _, _, _, _, choice, _) =>
      if ty == Unknown then {}
      else
        PropItems(it) + SightNeeds(g, i)
        + (if IsLogic(ty) && choice.Some? then SelectionNeeds(g, choice.value) else {})
    case Choice(_, _, _, _, _) => SightNeeds(g, i)
  }

  /** Choice symbols are in a choice, and MODULES is not a text symbol. */
  ghost predicate Sane(g: Graph) {
    && (forall i :: g.At(i).Symbol? && g.At(i).choice.Some? ==> g.At(g.At(i).choice.value).Choice?)
    && (g.At(g.modules).Symbol? ==> IsLogic(g.At(g.modules).ty) || g.At(g.modules).ty == Unknown)
  }

  /** Every item comes after what it needs. */
  ghost predicate Arranged(g: Graph, pos: Id -> nat) { forall i, j :: j in Needs(g, i) ==> pos(j) < pos(i) }

  // ---- from an order of the items to one of the attributes -----------------------------------------

  /** The first position after all of `s`. */
  ghost function After(pos: Id -> nat, s: set<Id>): (b: nat)
    ensures forall j :: j in s ==> pos(j) < b
    ensures b == 0 || exists j :: j in s && b == pos(j) + 1
  {
    if s == {} then 0
    else
      var j :| j in s;
      var b := After(pos, s - {j});
      if b < pos(j) + 1 then pos(j) + 1 else b
  }

  lemma AfterBelow(pos: Id -> nat, s: set<Id>, b: nat)
    requires forall j :: j in s ==> pos(j) < b
    ensures After(pos, s) <= b
  {
  }

  ghost function OrderRank(g: Graph, pos: Id -> nat, n: Node): nat {
    match n
    case Vis(i) => 8 * After(pos, SightNeeds(g, i)) + 1
    case Val(i) => 8 * pos(i) + 4
    case Str(i) => 8 * pos(i) + 5
    case Sel(c) => 8 * After(pos, SelectionNeeds(g, c)) + 2
    case Asg(i) => 8 * After(pos, PropItems(g.At(i)) + SightNeeds(g, i)) + 3
  }

  lemma SightRank(g: Graph, pos: Id -> nat, i: Id, r: Node)
    requires r in Deps(g, Vis(i))
    ensures OrderRank(g, pos, r) < OrderRank(g, pos, Vis(i))
  {
    hide PropItems, PromptItems;
    assert r.i in SightNeeds(g, i);
  }

  lemma SelectionRank(g: Graph, pos: Id -> nat, c: Id, r: Node)
    requires r in Deps(g, Sel(c))
    ensures OrderRank(g, pos, r) < OrderRank(g, pos, Sel(c))
  {
    hide PropItems, PromptItems, SightNeeds;
    if r.Vis? {
      assert forall j :: j in SightNeeds(g, r.i) ==> j in SelectionNeeds(g, c);
      AfterBelow(pos, SightNeeds(g, r.i), After(pos, SelectionNeeds(g, c)));
    } else {
      assert r.i in SelectionNeeds(g, c);
    }
  }

  lemma ValueRank(g: Graph, pos: Id -> nat, n: Node, r: Node)
    requires Arranged(g, pos) && r in Deps(g, n) && (n.Val? || n.Str?)
    ensures OrderRank(g, pos, r) < OrderRank(g, pos, n)
  {
    hide PropItems, PromptItems, SightNeeds, SelectionNeeds;
    var i := n.i;
    if r.Vis? {
      AfterBelow(pos, SightNeeds(g, i), pos(i));
    } else if r.Sel? {
      AfterBelow(pos, SelectionNeeds(g, r.i), pos(i));
    } else if r != Val(i) || n.Val? {
      SightCovers(g, i);
      assert r.i in Needs(g, i);
    }
  }

  lemma SightCovers(g: Graph, i: Id)
    ensures PromptItems(g.At(i)) <= SightNeeds(g, i)
    ensures g.At(i).Symbol? && g.At(i).choice.Some? ==> g.At(i).choice.value in SightNeeds(g, i)
    ensures !g.At(i).Lit? && TypeOf(g.At(i)) == Tristate ==> g.modules in SightNeeds(g, i)
  {
  }

  lemma AssignableRank(g: Graph, pos: Id -> nat, i: Id, r: Node)
    requires r in Deps(g, Asg(i))
    ensures OrderRank(g, pos, r) < OrderRank(g, pos, Asg(i))
  {
    var all := PropItems(g.At(i)) + SightNeeds(g, i);
    AssignableReads(g, i, r);
    hide PropItems, PromptItems, SightNeeds, Deps;
    if r.Vis? { AfterBelow(pos, SightNeeds(g, i), After(pos, all)); }
  }

  lemma AssignableReads(g: Graph, i: Id, r: Node)
    requires r in Deps(g, Asg(i))
    ensures r == Vis(i) || ((r.Val? || r.Str?) && r.i in PropItems(g.At(i)) + SightNeeds(g, i))
  {
    hide PropItems, PromptItems;
  }

  lemma ArrangedIsRanked(g: Graph, pos: Id -> nat)
    requires Arranged(g, pos)
    ensures Ranked(g, n => OrderRank(g, pos, n))
  {
    hide Deps, OrderRank, Arranged;
    forall n, r | r in Deps(g, n) ensures OrderRank(g, pos, r) < OrderRank(g, pos, n) {
      match n
      case Vis(i) => SightRank(g, pos, i, r);
      case Sel(c) => SelectionRank(g, pos, c, r);
      case Asg(i) => AssignableRank(g, pos, i, r);
      case Val(_) => ValueRank(g, pos, n, r);
      case Str(_) => ValueRank(g, pos, n, r);
    }
  }

  // ---- and back --------------------------------------------------------------------------------

  /** The rank of the attribute an item is used through. */
  function Height(g: Graph, rank: Node -> nat, i: Id): nat {
    match g.At(i)
    case Lit(_) => 0
    case Symbol(_, ty, _, _, _, _, _, _, _, _) =>
      1 + (if IsLogic(ty) then rank(Val(i)) else if ty == Unknown then 0 else rank(Str(i)))
    case Choice(_, _, _, _, _) => 1 + rank(Val(i))
  }

  /** An operand comes before what reads it. */
  lemma OperandHeight(g: Graph, rank: Node -> nat, n: Node, j: Id)
    requires Ranked(g, rank) && Val(j) in Deps(g, n)
    requires Str(j) in Deps(g, n) || g.At(j).Choice?
      || (g.At(j).Symbol? && (IsLogic(g.At(j).ty) || g.At(j).ty == Unknown)) || g.At(j).Lit?
    ensures Height(g, rank, j) <= rank(n)
  {
    hide Deps;
    assert rank(Val(j)) < rank(n);
    assert Str(j) in Deps(g, n) ==> rank(Str(j)) < rank(n);
  }

  lemma SightHeight(g: Graph, rank: Node -> nat, i: Id, j: Id)
    requires Sane(g) && Ranked(g, rank) && j in SightNeeds(g, i)
    ensures Height(g, rank, j) <= rank(Vis(i))
  {
    hide PropItems, PromptItems, Height;
    OperandHeight(g, rank, Vis(i), j);
  }

  lemma SelectionHeight(g: Graph, rank: Node -> nat, c: Id, j: Id)
    requires Sane(g) && Ranked(g, rank) && j in SelectionNeeds(g, c)
    ensures Height(g, rank, j) <= rank(Sel(c))
  {
    hide PropItems, PromptItems, Height, SightNeeds;
    var it := g.At(c);
    if j == c || j in PropItems(it) {
      OperandHeight(g, rank, Sel(c), j);
    } else if s :| s in it.syms && j in SightNeeds(g, s) {
      SightHeight(g, rank, s, j);
      assert rank(Vis(s)) < rank(Sel(c));
    } else {
      var p :| p in it.picks && j in SightNeeds(g, p.sym);
      SightHeight(g, rank, p.sym, j);
      assert Vis(p.sym) in Deps(g, Sel(c));
    }
  }

  lemma RankedIsArranged(g: Graph, rank: Node -> nat)
    requires Sane(g) && Ranked(g, rank)
    ensures Arranged(g, i => Height(g, rank, i))
  {
    forall i, j | j in Needs(g, i) ensures Height(g, rank, j) < Height(g, rank, i) { NeedHeight(g, rank, i, j); }
  }

  lemma NeedHeight(g: Graph, rank: Node -> nat, i: Id, j: Id)
    requires Sane(g) && Ranked(g, rank) && j in Needs(g, i)
    ensures Height(g, rank, j) < Height(g, rank, i)
  {
    hide PropItems, PromptItems, SightNeeds, SelectionNeeds, Sane;
    var it := g.At(i);
    var n := if it.Choice? || IsLogic(it.ty) then Val(i) else Str(i);
    assert Height(g, rank, i) == 1 + rank(n);
    assert Vis(i) in Deps(g, n);
    if j in SightNeeds(g, i) {
      SightHeight(g, rank, i, j);
    } else if j in PropItems(it) {
      assert Val(j) in Operands(PropItems(it)) && Str(j) in Operands(PropItems(it));
      OperandHeight(g, rank, n, j);
    } else {
      SelectionHeight(g, rank, it.choice.value, j);
      assert Sel(it.choice.value) in Deps(g, n);
    }
  }

  // ---- an order of the items, or a circle -------------------------------------------------------

  /** Each item needs the next one, and the last the first. */
  predicate NeedsCycle(g: Graph, loop: seq<Id>) {
    && loop != [] && loop[0] in Needs(g, loop[|loop| - 1])
    && forall k :: 0 < k < |loop| ==> loop[k] in Needs(g, loop[k - 1])
  }

  lemma {:induction false} CycleDescends(g: Graph, pos: Id -> nat, loop: seq<Id>, k: nat)
    requires Arranged(g, pos) && NeedsCycle(g, loop) && k < |loop|
    ensures pos(loop[k]) <= pos(loop[0])
  {
    hide Needs;
    if k > 0 { CycleDescends(g, pos, loop, k - 1); }
  }

  /** A path within `s`, each item of which needs the next. */
  predicate Path(g: Graph, s: set<Id>, path: seq<Id>) {
    && path != [] && NoRepeats(path) && (forall k :: 0 <= k < |path| ==> path[k] in s)
    && forall k :: 0 < k < |path| ==> path[k] in Needs(g, path[k - 1])
  }

  lemma {:induction false} PathFits(s: set<Id>, path: seq<Id>)
    requires NoRepeats(path) && forall k :: 0 <= k < |path| ==> path[k] in s
    ensures |path| <= |s|
  {
    if path != [] {
      var last := |path| - 1;
      PathFits(s - {path[last]}, path[..last]);
    }
  }

  /** Where every item of `s` needs another of `s`, following the needs closes a circle. */
  lemma {:induction false} FindCircle(g: Graph, s: set<Id>, path: seq<Id>) returns (loop: seq<Id>)
    requires Path(g, s, path) && forall i :: i in s ==> Needs(g, i) * s != {}
    ensures NeedsCycle(g, loop)
    decreases |s| - |path|
  {
    hide Needs;
    PathFits(s, path);
    var last := path[|path| - 1];
    var j :| j in Needs(g, last) * s;
    if k :| 0 <= k < |path| && path[k] == j {
      loop := path[k..];
    } else {
      PathFits(s, path + [j]);
      loop := FindCircle(g, s, path + [j]);
    }
  }

  /** An order of the items of `s` among themselves. */
  ghost predicate Sorted(g: Graph, s: set<Id>, pos: map<Id, nat>) {
    pos.Keys == s && forall i, j :: i in s && j in s && j in Needs(g, i) ==> pos[j] < pos[i]
  }

  lemma {:induction false} Sort(g: Graph, s: set<Id>) returns (pos: map<Id, nat>)
    requires forall loop :: !NeedsCycle(g, loop)
    ensures Sorted(g, s, pos)
  {
    hide Needs, NeedsCycle;
    if s == {} {
      pos := map[];
    } else if x :| x in s && Needs(g, x) * s == {} {
      var rest := Sort(g, s - {x});
      pos := map i | i in s :: if i == x then 0 else rest[i] + 1;
    } else {
      var x :| x in s;
      var loop := FindCircle(g, s, [x]);
      assert false;
    }
  }

  lemma NoCircleIsArranged(g: Graph) returns (pos: Id -> nat)
    requires forall loop :: !NeedsCycle(g, loop)
    ensures Arranged(g, pos)
  {
    var places := Sort(g, Items(g));
    pos := i => if i in places then places[i] + 1 else 0;
    forall i, j | j in Needs(g, i) ensures pos(j) < pos(i) { OnlyItemsNeed(g, i, j); }
  }

  lemma OnlyItemsNeed(g: Graph, i: Id, j: Id)
    requires j in Needs(g, i)
    ensures i in Items(g)
  {
  }

  /** A configuration has an evaluation order if and only if no item needs itself. */
  lemma OrderExactly(g: Graph)
    requires Sane(g)
    ensures (exists rank: Node -> nat :: Ranked(g, rank)) <==> forall loop :: !NeedsCycle(g, loop)
  {
    hide Ranked, Needs, Arranged;
    if rank: Node -> nat :| Ranked(g, rank) {
      RankedIsArranged(g, rank);
      forall loop ensures !NeedsCycle(g, loop) { NoCircleInOrder(g, i => Height(g, rank, i), loop); }
    }
    if forall loop :: !NeedsCycle(g, loop) {
      var pos := NoCircleIsArranged(g);
      ArrangedIsRanked(g, pos);
      assert exists rank: Node -> nat :: Ranked(g, rank);
    }
  }

  lemma NoCircleInOrder(g: Graph, pos: Id -> nat, loop: seq<Id>)
    requires Arranged(g, pos)
    ensures !NeedsCycle(g, loop)
  {
    hide Needs;
    if NeedsCycle(g, loop) { CycleDescends(g, pos, loop, |loop| - 1); }
  }

  // ---- loops through a choice that the check misses -------------------------------------------

  const D := Symbol("D", Bool, [Ref(6)], [], [], Ref(0), Ref(0), Ref(6), Some(6), false)
  const A := Symbol("A", Bool, [And(Ref(7), Ref(6))], [], [], Ref(0), Ref(0), And(Ref(7), Ref(6)), Some(6), false)
  const B := Symbol("B", Bool, [Ref(6)], [], [], Ref(0), Ref(0), Ref(6), Some(6), false)
  const C := Choice(Bool, [Ref(2)], [], [3, 4, 5], false)
  const X := Symbol("X", Bool, [Ref(5)], [], [], Ref(0), Ref(0), Ref(5), None, false)

  /** n, m, y, a choice of D, A and B, and a symbol X that depends on B and that A depends on. */
  const THROUGH_CHOICE := Graph([Lit(0), Lit(1), Lit(2), D, A, B, C, X], 0, (s, b) => None, (n, ty) => "")

  function ChoiceListing(i: Id): seq<Id> {
    if i == 5 then [7] else if i == 6 then [3, 4, 5] else if i == 7 then [4] else []
  }

  lemma ThroughItems()
    ensures PropItems(D) == PropItems(B) == {0, 6} && PropItems(A) == {0, 6, 7} && PropItems(C) == {2}
      && PropItems(X) == {0, 5}
    ensures PropItems(Lit(0)) == PropItems(Lit(1)) == PropItems(Lit(2)) == {}
    ensures PromptItems(A) == {6, 7} && PromptItems(X) == {5}
  {
    OnePrompt(D, Ref(6));
    OnePrompt(A, And(Ref(7), Ref(6)));
    OnePrompt(B, Ref(6));
    OnePrompt(C, Ref(2));
    OnePrompt(X, Ref(5));
    PlainItems(D);
    PlainItems(A);
    PlainItems(B);
    PlainItems(X);
    PicklessItems(C);
  }

  lemma ThroughMentions(i: Id, d: Id)
    requires d < 8
    ensures i in PropItems(THROUGH_CHOICE.items[d]) <==>
      match d
      case 3 => i in {0, 6}
      case 4 => i in {0, 6, 7}
      case 5 => i in {0, 6}
      case 6 => i == 2
      case 7 => i in {0, 5}
      case _ => false
  {
    ThroughItems();
    hide PropItems;
  }

  lemma ThroughLists()
    ensures Lists(THROUGH_CHOICE, ChoiceListing)
  {
    hide PropItems;
    var g := THROUGH_CHOICE;
    forall i, d ensures d in ChoiceListing(i) <==> d in PropDependents(g, i) {
      if d < 8 { ThroughMentions(i, d); }
    }
  }

  lemma ThroughDefined()
    ensures DefinedSymbols(THROUGH_CHOICE, [3, 4, 5, 7]) && InGraph(THROUGH_CHOICE)
  {
    hide PropItems;
  }

  lemma ThroughWired()
    ensures Wired(THROUGH_CHOICE)
  {
    hide PropItems;
    var g := THROUGH_CHOICE;
    ThroughMentions(6, 3);
    ThroughMentions(6, 4);
    ThroughMentions(6, 5);
    assert g.At(6) == C;
  }

  /** A symbol whose dependents and choice, if it is entered, are closed is closed at once. */
  lemma ClosesSymbol(g: Graph, list: Listing, open: set<Id>, closed: set<Id>, i: Id, ignoreChoice: bool)
    requires InGraph(g) && Lists(g, list) && IsSymbol(g, i) && i !in open && i !in closed
    requires forall d :: d in list(i) ==> d in closed
    requires g.items[i].choice.None? || ignoreChoice
    ensures SearchSymbol(g, list, open, closed, i, ignoreChoice) == Search(NoLoop, closed + {i})
  {
    hide PropDependents, InGraph, SearchSymbol, SearchChoice;
    SymbolUnfold(g, list, open, closed, i, ignoreChoice);
    ClosedDependents(g, list, open + {i}, closed, i, list(i));
  }

  lemma SymbolUnfold(g: Graph, list: Listing, open: set<Id>, closed: set<Id>, i: Id, ignoreChoice: bool)
    requires InGraph(g) && Lists(g, list) && IsSymbol(g, i) && i !in open && i !in closed
    requires g.items[i].choice.None? || ignoreChoice
    ensures forall d :: d in list(i) ==> d in PropDependents(g, i)
    ensures var d := SearchDependents(g, list, open + {i}, closed, i, list(i));
      d.r.NoLoop? ==> SearchSymbol(g, list, open, closed, i, ignoreChoice) == Search(NoLoop, d.closed + {i})
  {
    hide PropDependents, SearchDependents, SearchChoice;
  }

  lemma {:induction false} ClosedDependents(g: Graph, list: Listing, open: set<Id>, closed: set<Id>, i: Id,
                                            rest: seq<Id>)
    requires InGraph(g) && Lists(g, list) && forall d :: d in rest ==> d in PropDependents(g, i) && d in closed
    ensures SearchDependents(g, list, open, closed, i, rest) == Search(NoLoop, closed)
  {
    hide PropDependents;
    if rest != [] {
      DependentIsItem(g, i, rest[0]);
      ClosedDependents(g, list, open, closed, i, rest[1..]);
    }
  }

  lemma ThroughB()
    requires Lists(THROUGH_CHOICE, ChoiceListing) && InGraph(THROUGH_CHOICE)
    ensures SearchSymbol(THROUGH_CHOICE, ChoiceListing, {3, 6}, {4}, 5, true) == Search(NoLoop, {4, 5, 7})
  {
    hide PropDependents, InGraph, Lists, SearchSymbol, SearchChoice;
    var g, l := THROUGH_CHOICE, ChoiceListing;
    ClosesSymbol(g, l, {3, 5, 6}, {4}, 7, false);
    assert 7 in l(5) && g.items[7] == X;
    SymbolUnfold(g, l, {3, 6}, {4}, 5, true);
    assert {3, 6} + {5} == {3, 5, 6} && {4} + {7} == {4, 7} && {4, 7} + {5} == {4, 5, 7};
    var d := SearchDependents(g, l, {3, 5, 6}, {4}, 5, [7]);
    assert d == SearchDependents(g, l, {3, 5, 6}, {4, 7}, 5, [7][1..]);
    assert [7][1..] == [];
  }

  /** In the choice, entered through D, A is closed before B leads to X and X to A. */
  lemma ThroughC()
    requires Lists(THROUGH_CHOICE, ChoiceListing) && InGraph(THROUGH_CHOICE)
    ensures SearchChoice(THROUGH_CHOICE, ChoiceListing, {3}, {}, 6, Some(3)) == Search(NoLoop, {4, 5, 6, 7})
  {
    hide PropDependents, InGraph, Lists, SearchSymbol, SearchMembers, SearchDependents;
    var g, l := THROUGH_CHOICE, ChoiceListing;
    assert g.items[6] == C && IsSymbol(g, 3) && IsSymbol(g, 4) && IsSymbol(g, 5) && l(4) == [];
    ClosesSymbol(g, l, {3, 6}, {}, 4, true);
    ThroughB();
    assert {3} + {6} == {3, 6} && {} + {4} == {4} && {4, 5, 7} + {6} == {4, 5, 6, 7};
    assert [3, 4, 5][1..] == [4, 5] && [4, 5][1..] == [5] && [5][1..] == [];
    MemberPassed(g, l, {3, 6}, {}, {}, 6, Some(3), [3, 4, 5]);
    MemberPassed(g, l, {3, 6}, {}, {4}, 6, Some(3), [4, 5]);
    MemberPassed(g, l, {3, 6}, {4}, {4, 5, 7}, 6, Some(3), [5]);
    NoMembers(g, l, {3, 6}, {4, 5, 7}, 6, Some(3));
  }

  lemma MemberPassed(g: Graph, list: Listing, open: set<Id>, closed: set<Id>, closed': set<Id>, c: Id,
                     skip: Option<Id>, rest: seq<Id>)
    requires InGraph(g) && Lists(g, list) && rest != [] && forall s :: s in rest ==> IsSymbol(g, s)
    requires if skip == Some(rest[0]) then closed' == closed
             else SearchSymbol(g, list, open, closed, rest[0], true) == Search(NoLoop, closed')
    ensures SearchMembers(g, list, open, closed, c, skip, rest) ==
      SearchMembers(g, list, open, closed', c, skip, rest[1..])
  {
    hide PropDependents, SearchSymbol;
  }

  lemma NoMembers(g: Graph, list: Listing, open: set<Id>, closed: set<Id>, c: Id, skip: Option<Id>)
    requires InGraph(g) && Lists(g, list)
    ensures SearchMembers(g, list, open, closed, c, skip, []) == Search(NoLoop, closed)
  {
  }

  lemma ThroughD()
    requires Lists(THROUGH_CHOICE, ChoiceListing) && InGraph(THROUGH_CHOICE)
    ensures SearchSymbol(THROUGH_CHOICE, ChoiceListing, {}, {}, 3, false) == Search(NoLoop, {3, 4, 5, 6, 7})
  {
    hide PropDependents, InGraph, Lists, SearchChoice;
    var g, l := THROUGH_CHOICE, ChoiceListing;
    assert g.items[3] == D && IsSymbol(g, 3) && l(3) == [];
    ThroughC();
    assert {} + {3} == {3} && {4, 5, 6, 7} + {3} == {3, 4, 5, 6, 7};
    assert SearchDependents(g, l, {3}, {}, 3, []) == Search(NoLoop, {});
  }

  lemma ThroughAll()
    requires Lists(THROUGH_CHOICE, ChoiceListing) && InGraph(THROUGH_CHOICE)
    requires forall i :: i in [3, 4, 5, 7] ==> IsSymbol(THROUGH_CHOICE, i)
    ensures SearchAll(THROUGH_CHOICE, ChoiceListing, {}, [3, 4, 5, 7]) == Search(NoLoop, {3, 4, 5, 6, 7})
  {
    ThroughD();
    var g, l, all := THROUGH_CHOICE, ChoiceListing, {3, 4, 5, 6, 7};
    AllClosed(g, l, all, [4, 5, 7]);
    hide PropDependents, InGraph, Lists, SearchSymbol;
    assert [3, 4, 5, 7][1..] == [4, 5, 7];
  }

  lemma {:induction false} AllClosed(g: Graph, list: Listing, closed: set<Id>, syms: seq<Id>)
    requires InGraph(g) && Lists(g, list) && forall i :: i in syms ==> IsSymbol(g, i) && i in closed
    ensures SearchAll(g, list, closed, syms) == Search(NoLoop, closed)
  {
    hide PropDependents;
    if syms != [] { AllClosed(g, list, closed, syms[1..]); }
  }

  lemma ThroughCircle(rank: Node -> nat)
    ensures !Ranked(THROUGH_CHOICE, rank)
  {
    ThroughItems();
    hide PropItems, PromptItems;
    var g := THROUGH_CHOICE;
    assert g.At(4) == A && g.At(5) == B && g.At(6) == C && g.At(7) == X;
    assert Val(7) in Operands({6, 7}) && Val(5) in Operands({5});
    assert Val(7) in Deps(g, Vis(4)) && Vis(4) in Deps(g, Sel(6)) && Sel(6) in Deps(g, Val(5));
    assert Val(5) in Deps(g, Vis(7)) && Vis(7) in Deps(g, Val(7));
    hide Deps;
    var x, a, c, b, v := rank(Val(7)), rank(Vis(4)), rank(Sel(6)), rank(Val(5)), rank(Vis(7));
    assert Ranked(g, rank) ==> x < a && a < c;
    assert Ranked(g, rank) ==> c < b && b < v;
    assert Ranked(g, rank) ==> v < x;
  }

  /** The check passes, with all items closed, although evaluation runs in a circle: X, the visibility of
      A, the selection, B, and X again. */
  lemma CheckMissesChoice()
    ensures var g := THROUGH_CHOICE;
      && InGraph(g) && Wired(g) && DefinedSymbols(g, [3, 4, 5, 7]) && Lists(g, ChoiceListing)
      && (forall i :: i in [3, 4, 5, 7] ==> IsSymbol(g, i))
      && SearchAll(g, ChoiceListing, {}, [3, 4, 5, 7]) == Search(NoLoop, {3, 4, 5, 6, 7})
      && forall rank: Node -> nat :: !Ranked(g, rank)
  {
    ThroughLists();
    ThroughDefined();
    ThroughWired();
    var g := THROUGH_CHOICE;
    assert forall i :: i in [3, 4, 5, 7] ==> IsSymbol(g, i);
    hide Ranked, SearchAll, Wired, Lists, InGraph, DefinedSymbols, IsSymbol;
    ThroughAll();
    forall rank: Node -> nat ensures !Ranked(g, rank) { ThroughCircle(rank); }
  }

  // ---- a loop around a choice, which the check finds ----------------------------------------------

  const M := Symbol("M", Bool, [Ref(5)], [], [], Ref(0), Ref(0), Ref(5), Some(5), false)
  const N := Symbol("N", Bool, [Ref(3)], [], [], Ref(0), Ref(0), Ref(3), None, false)
  const OF_M := Choice(Bool, [Ref(4)], [], [3], false)

  /** n, m, y, a symbol M in a choice, and a symbol N that depends on M and that the choice depends on. */
  const AROUND_CHOICE := Graph([Lit(0), Lit(1), Lit(2), M, N, OF_M], 0, (s, b) => None, (n, ty) => "")

  function AroundListing(i: Id): seq<Id> {
    if i == 3 then [4] else if i == 4 then [5] else if i == 5 then [3] else []
  }

  lemma AroundItems()
    ensures PropItems(M) == {0, 5} && PropItems(N) == {0, 3} && PropItems(OF_M) == {4}
    ensures PropItems(Lit(0)) == PropItems(Lit(1)) == PropItems(Lit(2)) == {}
  {
    OnePrompt(M, Ref(5));
    OnePrompt(N, Ref(3));
    OnePrompt(OF_M, Ref(4));
    PlainItems(M);
    PlainItems(N);
    PicklessItems(OF_M);
  }

  lemma AroundDependents(i: Id, d: Id)
    ensures d in PropDependents(AROUND_CHOICE, i) <==> d in AroundListing(i)
  {
    AroundItems();
    hide PropItems;
  }

  lemma AroundGraph()
    ensures var g := AROUND_CHOICE; InGraph(g) && Wired(g) && DefinedSymbols(g, [3, 4])
  {
    AroundItems();
    hide PropItems;
  }

  lemma AroundCycle()
    ensures Lists(AROUND_CHOICE, AroundListing) && DependencyCycle(AROUND_CHOICE, [3, 5, 4])
  {
    hide PropDependents;
    var g, loop := AROUND_CHOICE, [3, 5, 4];
    forall i, d ensures d in AroundListing(i) <==> d in PropDependents(g, i) { AroundDependents(i, d); }
    assert Step(g, loop[0], loop[2]) && Step(g, loop[1], loop[0]) && Step(g, loop[2], loop[1]) by {
      assert 4 in AroundListing(3) && 5 in AroundListing(4);
    }
  }

  /** A loop found through the first dependent is passed on. */
  lemma FirstDependent(g: Graph, list: Listing, open: set<Id>, i: Id, d: Id)
    requires InGraph(g) && Lists(g, list) && list(i) == [d] && d in PropDependents(g, i) && d < |g.items|
    requires g.items[d].Symbol? || g.items[d].Choice?
    ensures var s := if g.items[d].Choice? then SearchChoice(g, list, open, {}, d, None)
                     else SearchSymbol(g, list, open, {}, d, false);
      !s.r.NoLoop? ==> SearchDependents(g, list, open, {}, i, [d]) == s
  {
    hide PropDependents, InGraph, Lists, SearchChoice, SearchSymbol;
  }

  lemma AroundFromChoice()
    requires Lists(AROUND_CHOICE, AroundListing) && InGraph(AROUND_CHOICE)
    ensures SearchChoice(AROUND_CHOICE, AroundListing, {3, 4}, {}, 5, None) == Search(Partial([3, 5]), {})
  {
    hide PropDependents, InGraph, Lists, SearchMembers;
    var g, l := AROUND_CHOICE, AroundListing;
    assert g.items[5] == OF_M && IsSymbol(g, 3) && {3, 4} + {5} == {3, 4, 5} && [3] + [5] == [3, 5];
    MembersUnfold(g, l, {3, 4, 5}, {}, 5, None, [3]);
  }

  /** From N the search enters the choice, and there comes back to M. */
  lemma AroundFromN()
    requires Lists(AROUND_CHOICE, AroundListing) && InGraph(AROUND_CHOICE)
    ensures SearchSymbol(AROUND_CHOICE, AroundListing, {3}, {}, 4, false) == Search(Partial([3, 5, 4]), {})
  {
    hide PropDependents, InGraph, Lists, SearchDependents, SearchChoice;
    var g, l := AROUND_CHOICE, AroundListing;
    assert {3} + {4} == {3, 4} && g.items[5] == OF_M && l(4) == [5] && [3, 5] + [4] == [3, 5, 4];
    AroundDependents(4, 5);
    AroundFromChoice();
    FirstDependent(g, l, {3, 4}, 4, 5);
  }

  /** The check reports the loop from M to N, to the choice and back to M. */
  lemma CheckFindsChoice()
    ensures var g := AROUND_CHOICE;
      && InGraph(g) && Wired(g) && DefinedSymbols(g, [3, 4]) && Lists(g, AroundListing)
      && (forall i :: i in [3, 4] ==> IsSymbol(g, i)) && DependencyCycle(g, [3, 5, 4])
      && SearchAll(g, AroundListing, {}, [3, 4]) == Search(Raised([3, 5, 4]), {})
  {
    hide PropDependents, InGraph, Lists, Wired, DefinedSymbols, DependencyCycle, SearchDependents;
    var g, l := AROUND_CHOICE, AroundListing;
    AroundGraph();
    AroundCycle();
    AroundFromN();
    assert {} + {3} == {3} && l(3) == [4];
    AroundDependents(3, 4);
    FirstDependent(g, l, {3}, 3, 4);
    assert SearchSymbol(g, l, {}, {}, 3, false) == Search(Raised([3, 5, 4]), {});
  }

  // ---- a choice with an evaluation order ----------------------------------------------------------

  const Y := Symbol("Y", Bool, [Ref(5)], [], [], Ref(0), Ref(0), Ref(5), Some(5), false)
  const Z := Symbol("Z", Bool, [Ref(5)], [Default(Ref(2), Ref(3))], [], Ref(0), Ref(0), Ref(5), Some(5), false)
  const YZ := Choice(Bool, [Ref(2)], [Selectable(4, Ref(2))], [3, 4], false)

  /** n, m, y, and a choice of Y and Z with default Z, where a default of Z mentions Y. */
  const WITH_CHOICE := Graph([Lit(0), Lit(1), Lit(2), Y, Z, YZ], 0, (s, b) => None, (n, ty) => "")

  lemma WithItems()
    ensures PropItems(Y) == {0, 5} && PropItems(Z) == {0, 2, 3, 5} && PropItems(YZ) == {2}
    ensures PromptItems(Y) == PromptItems(Z) == {5} && PromptItems(YZ) == {2}
  {
    OnePrompt(Y, Ref(5));
    OnePrompt(Z, Ref(5));
    OnePrompt(YZ, Ref(2));
    PlainItems(Y);
    OneDefaultItems(Z, Default(Ref(2), Ref(3)));
    assert YZ.picks[0] in YZ.picks;
  }

  function WithPos(i: Id): nat { if i == 5 then 1 else if i == 3 then 2 else if i == 4 then 3 else 0 }

  lemma WithArranged()
    ensures Arranged(WITH_CHOICE, WithPos)
  {
    hide PropItems, PromptItems;
    WithItems();
    var g := WITH_CHOICE;
    assert SightNeeds(g, 3) == SightNeeds(g, 4) == {5} && SightNeeds(g, 5) == {2};
    hide SightNeeds;
    assert SelectionNeeds(g, 5) == {2, 5};
    hide SelectionNeeds;
    forall i, j | j in Needs(g, i) ensures WithPos(j) < WithPos(i) {
      OnlyItemsNeed(g, i, j);
      assert i == 3 || i == 4 || i == 5;
    }
  }

  /** The premises of the cache theorems hold for a configuration with a choice, even with a symbol that
      mentions another one of its choice outside of its prompts. */
  lemma ChoiceHasOrder()
    ensures Ranked(WITH_CHOICE, n => OrderRank(WITH_CHOICE, WithPos, n)) && Wired(WITH_CHOICE)
    ensures 3 in PropItems(Z) && WITH_CHOICE.At(4) == Z && {3, 4} <= set s | s in YZ.syms
  {
    WithItems();
    hide PropItems, PromptItems;
    var g := WITH_CHOICE;
    assert g.items[3] == Y && g.items[4] == Z && g.items[5] == YZ;
    WithArranged();
    ArrangedIsRanked(g, WithPos);
    hide Ranked;
  }
}

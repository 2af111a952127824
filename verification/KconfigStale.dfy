/**
 Why the defaults of a choice have to be among its symbols: a configuration where one is not, which
 the parser only warns about, and an assignment after which the choice keeps a stale selection.
 */
module KconfigStale {
  import opened Wrappers
  import opened KconfigModel
  import opened KconfigEval
  import opened KconfigInvalidation
  import opened KconfigCache

  const A := Symbol("A", Bool, [Ref(2)], [], [], Ref(0), Ref(0), Ref(2), None, false)
  const X := Symbol("X", Bool, [Ref(3)], [], [], Ref(0), Ref(0), Ref(3), None, false)
  const Y := Symbol("Y", Bool, [Ref(6)], [], [], Ref(0), Ref(0), Ref(6), Some(6), false)
  const C := Choice(Bool, [Ref(2)], [Selectable(4, Ref(2))], [5], false)

  /** n, m, y, a symbol A, a symbol X that depends on A, and a choice of Y with X as its default. */
  function Outside(): Graph { Graph([Lit(0), Lit(1), Lit(2), A, X, Y, C], 0, (s, b) => None, (n, ty) => "") }

  function OutsideRank(n: Node): nat {
    match n
    case Vis(i) => if i == 3 || i == 6 then 1 else if i == 4 || i == 5 then 4 else 0
    case Val(i) => if i == 3 || i == 6 then 2 else if i == 4 then 5 else if i == 5 then 6 else 0
    case Str(i) => if i == 3 || i == 6 then 3 else if i == 4 then 6 else if i == 5 then 7 else 0
    case Sel(i) => if i == 6 then 5 else 0
    case Asg(i) => if i == 3 || i == 6 then 3 else if i == 4 then 6 else if i == 5 then 7 else 0
  }

  lemma OutsideItems()
    ensures PropItems(A) == {0, 2} && PropItems(X) == {0, 3} && PropItems(Y) == {0, 6} && PropItems(C) == {2}
    ensures PromptItems(A) == {2} && PromptItems(X) == {3} && PromptItems(Y) == {6} && PromptItems(C) == {2}
    ensures PromptItems(Lit(0)) == PromptItems(Lit(1)) == PromptItems(Lit(2)) == PromptItems(UNDEFINED) == {}
    ensures PropItems(Lit(0)) == PropItems(Lit(1)) == PropItems(Lit(2)) == {}
  {
    OnePrompt(A, Ref(2));
    OnePrompt(X, Ref(3));
    OnePrompt(Y, Ref(6));
    OnePrompt(C, Ref(2));
    PlainItems(A);
    PlainItems(X);
    PlainItems(Y);
    assert C.picks[0].cond == Ref(2);
  }

  lemma OutsideRanked()
    ensures Ranked(Outside(), OutsideRank)
  {
    OutsideItems();
    hide PropItems, PromptItems;
    forall n, r | r in Deps(Outside(), n) ensures OutsideRank(r) < OutsideRank(n) { OutsideDep(n, r); }
  }

  lemma DepOfA(n: Node, r: Node)
    requires n.i == 3 && r in Deps(Outside(), n)
    ensures OutsideRank(r) < OutsideRank(n)
  {
    OutsideItems();
    hide PropItems, PromptItems;
  }

  lemma DepOfX(n: Node, r: Node)
    requires n.i == 4 && r in Deps(Outside(), n)
    ensures OutsideRank(r) < OutsideRank(n)
  {
    OutsideItems();
    hide PropItems, PromptItems;
  }

  lemma DepOfY(n: Node, r: Node)
    requires n.i == 5 && r in Deps(Outside(), n)
    ensures OutsideRank(r) < OutsideRank(n)
  {
    OutsideItems();
    hide PropItems, PromptItems;
  }

  lemma DepOfC(n: Node, r: Node)
    requires n.i == 6 && r in Deps(Outside(), n)
    ensures OutsideRank(r) < OutsideRank(n)
  {
    OutsideItems();
    hide PropItems, PromptItems;
  }

  lemma DepOfOthers(n: Node)
    requires n.i < 3 || n.i >= 7
    ensures Deps(Outside(), n) == {}
  {
    OutsideItems();
    hide PropItems, PromptItems;
    assert Outside().At(n.i) == UNDEFINED || Outside().At(n.i).Lit?;
  }

  lemma OutsideDep(n: Node, r: Node)
    requires r in Deps(Outside(), n)
    ensures OutsideRank(r) < OutsideRank(n)
  {
    hide Deps;
    if n.i == 3 { DepOfA(n, r); }
    else if n.i == 4 { DepOfX(n, r); }
    else if n.i == 5 { DepOfY(n, r); }
    else if n.i == 6 { DepOfC(n, r); }
    else { DepOfOthers(n); }
  }

  /** The assignment of A, on its own. */
  function Assign(t: Tri): Users { Users(map[3 := TriUser(t)], map[]) }

  lemma OutsideUsers(t: Tri)
    requires t != 1
    ensures UsersOk(Outside(), Assign(t))
  {
  }

  lemma OutsideValues(t: Tri)
    requires t != 1 && Ranked(Outside(), OutsideRank) && UsersOk(Outside(), Assign(t))
    ensures var sol := Solution(Outside(), Assign(t), OutsideRank);
      TriOf(sol, Val(2)) == 2 && TriOf(sol, Vis(4)) == t && TriOf(sol, Val(6)) == 2
  {
    hide Ranked, UsersOk, Solution, StepR, Deps;
    var g, u := Outside(), Assign(t);
    AtVal(g, u, OutsideRank, 0);
    AtVal(g, u, OutsideRank, 2);
    AtVis(g, u, OutsideRank, 3);
    AtVal(g, u, OutsideRank, 3);
    AtVis(g, u, OutsideRank, 4);
    AtVis(g, u, OutsideRank, 6);
    AtVal(g, u, OutsideRank, 6);
  }

  lemma OutsideSelection(t: Tri)
    requires t != 1 && Ranked(Outside(), OutsideRank) && UsersOk(Outside(), Assign(t))
    ensures SelOf(Solution(Outside(), Assign(t), OutsideRank), Sel(6)) == Some(if t == 2 then 4 else 5)
  {
    hide Ranked, UsersOk, Solution, StepR, Deps;
    OutsideValues(t);
    AtVis(Outside(), Assign(t), OutsideRank, 5);
    AtSel(Outside(), Assign(t), OutsideRank, 6);
  }

  /** Assigning A drops A and X and, as the choice does not depend on X, nothing else: with everything
      cached, no invalidation that drops only what it must reaches the choice. But its selection is Y
      while A is n, and X once A is y. */
  lemma OutsideDefaultStale()
    ensures var g := Outside();
      && Ranked(g, OutsideRank) && UsersOk(g, Assign(0)) && UsersOk(g, Assign(2)) && !Wired(g)
      && DropsDependents(g, {3, 4, 5, 6}, {3, 4})
      && (forall dropped :: DropsNoMore(g, {3, 4, 5, 6}, 3, dropped) ==> 6 !in dropped)
      && SelOf(Solution(g, Assign(0), OutsideRank), Sel(6)) == Some(5)
      && SelOf(Solution(g, Assign(2), OutsideRank), Sel(6)) == Some(4)
  {
    OutsideRanked();
    OutsideUsers(0);
    OutsideUsers(2);
    OutsideDrops();
    OutsideMissed();
    hide Ranked, UsersOk, Solution, DropsDependents, DropsNoMore, Wired, Dependents;
    OutsideSelection(0);
    OutsideSelection(2);
  }

  lemma OutsideMissed()
    ensures var g := Outside();
      && !Wired(g)
      && forall dropped :: DropsNoMore(g, {3, 4, 5, 6}, 3, dropped) ==> 6 !in dropped
  {
    hide PropItems, PromptItems;
    var g, vis, s := Outside(), {3, 4, 5, 6}, {3, 4};
    OutsideDrops();
    assert C.picks[0] in C.picks && g.At(6) == C;
    assert !Recorded(g, 6, 4);
    hide DropsDependents, Dependents;
    forall dropped | DropsNoMore(g, vis, 3, dropped) ensures 6 !in dropped {
      assert 3 in s && dropped * vis <= s;
    }
  }

  lemma OutsideDrops()
    ensures DropsDependents(Outside(), {3, 4, 5, 6}, {3, 4}) && Dependents(Outside(), 4) == {}
  {
    OutsideItems();
    hide PropItems, PromptItems;
    var g := Outside();
    assert Dependents(g, 3) == {4} && Dependents(g, 4) == {} by {
      forall i | 0 <= i < |g.items| ensures 4 !in PropItems(g.items[i]) && (3 in PropItems(g.items[i]) ==> i == 4) {
        assert i == 0 || i == 1 || i == 2 || i == 3 || i == 4 || i == 5 || i == 6;
      }
      assert g.items[4] == X;
    }
  }
}

/** A choice whose mode, and with it the value of its symbol, a minimal configuration does not keep. */
module KconfigSaveChoice {
  import opened Wrappers
  import opened KconfigModel
  import opened KconfigEval
  import opened KconfigCache
  import opened KconfigSemantics
  import opened KconfigSave
  import O = KconfigOrder

  const MODULES := Symbol("MODULES", Bool, [], [Default(Ref(2), Ref(2))], [], Ref(0), Ref(0), Ref(0), None, false)
  const S := Symbol("S", Bool, [Ref(5)], [], [], Ref(0), Ref(0), Ref(5), Some(5), false)
  const C := Choice(Tristate, [Ref(2)], [], [4], false)

  /** n, m, y, MODULES (y by default), and a tristate choice with the one bool symbol S. */
  const LONE := Graph([Lit(0), Lit(1), Lit(2), MODULES, S, C], 3, (s, b) => None, (n, ty) => "")

  /** The user has put the choice in y mode. */
  const YES := Users(map[5 := TriUser(2)], map[])

  function Pos(i: Id): nat { if i == 3 then 1 else if i == 5 then 2 else if i == 4 then 3 else 0 }

  ghost function Rank(): Node -> nat { n => O.OrderRank(LONE, Pos, n) }

  lemma LoneItems()
    ensures PropItems(MODULES) == {0, 2} && PropItems(S) == {0, 5} && PropItems(C) == {2}
    ensures PromptItems(MODULES) == {} && PromptItems(S) == {5} && PromptItems(C) == {2}
  {
    OnePrompt(S, Ref(5));
    OnePrompt(C, Ref(2));
    ConstantItems(MODULES);
    PlainItems(S);
    OneDefaultItems(MODULES, Default(Ref(2), Ref(2)));
    PicklessItems(C);
  }

  lemma LoneSights()
    ensures O.SightNeeds(LONE, 3) == {} && O.SightNeeds(LONE, 4) == {5} && O.SightNeeds(LONE, 5) == {2, 3}
    ensures O.SelectionNeeds(LONE, 5) == {2, 5}
  {
    hide PropItems, PromptItems;
    LoneItems();
    assert O.SightNeeds(LONE, 3) == {} && O.SightNeeds(LONE, 4) == {5} && O.SightNeeds(LONE, 5) == {2, 3};
    hide O.SightNeeds;
  }

  lemma LoneNeed(i: Id, j: Id)
    requires j in O.Needs(LONE, i)
    ensures Pos(j) < Pos(i)
  {
    hide PropItems, PromptItems, O.SightNeeds, O.SelectionNeeds;
    LoneItems();
    LoneSights();
    O.OnlyItemsNeed(LONE, i, j);
    assert i == 3 || i == 4 || i == 5;
  }

  lemma LoneRanked()
    ensures Ranked(LONE, Rank())
  {
    forall i, j | j in O.Needs(LONE, i) ensures Pos(j) < Pos(i) { LoneNeed(i, j); }
    hide O.Needs, O.OrderRank, Deps;
    O.ArrangedIsRanked(LONE, Pos);
  }

  lemma LoneChoices()
    ensures ChoicesOk(LONE)
  {
    assert LONE.At(4) == S && LONE.At(5) == C;
  }

  lemma LonePrompts()
    ensures PromptsImplyDeps(LONE)
  {
    hide LitsHold;
    assert forall i, e :: LONE.At(i).Symbol? && e in LONE.At(i).prompts ==> i == 4 && e == Ref(5);
    assert LONE.At(4) == S;
  }

  lemma LoneSaveable()
    ensures Ranked(LONE, Rank()) && UsersOk(LONE, YES) && Saveable(LONE, YES, Rank(), [3, 4], true)
  {
    LoneRanked();
    LoneChoices();
    LonePrompts();
    hide Ranked, Solution, ChoicesOk, PromptsImplyDeps;
    assert forall i :: LONE.At(i).Symbol? ==> IsLogic(LONE.At(i).ty) || LONE.At(i).ty == Unknown;
  }

  lemma LoneValues()
    requires Ranked(LONE, Rank()) && UsersOk(LONE, YES)
    ensures var sol := Solution(LONE, YES, Rank());
      && TriOf(sol, Val(2)) == 2 && TriOf(sol, Val(3)) == 2 && TriOf(sol, Vis(5)) == 2 && TriOf(sol, Val(5)) == 2
      && TriOf(sol, Vis(4)) == 2
  {
    hide Ranked, UsersOk, Solution, StepR, Deps;
    var g := LONE;
    AtVal(g, YES, Rank(), 0);
    AtVal(g, YES, Rank(), 2);
    AtVis(g, YES, Rank(), 3);
    AtVal(g, YES, Rank(), 3);
    AtVis(g, YES, Rank(), 5);
    AtVal(g, YES, Rank(), 5);
    AtVis(g, YES, Rank(), 4);
  }

  lemma LoneChosen()
    requires Ranked(LONE, Rank()) && UsersOk(LONE, YES)
    ensures var sol := Solution(LONE, YES, Rank());
      TriOf(sol, Val(4)) == 2 && LostMode(LONE, sol, 5, true)
  {
    hide Ranked, UsersOk, Solution, StepR, Deps;
    LoneValues();
    AtSel(LONE, YES, Rank(), 5);
    AtVal(LONE, YES, Rank(), 4);
    var sol := Solution(LONE, YES, Rank());
    assert DefaultSelectionR(LONE, sol, 5).v == Some(4);
    assert LONE.At(4) == S && LONE.At(5) == C;
    assert Omits(LONE, sol, 4);
    assert forall i :: i in C.syms ==> i == 4;
  }

  /** The symbol of a tristate choice in y mode is chosen by default, so the minimal configuration has no
      line for it; but without a line the choice comes back in m mode. */
  lemma MinimalLosesMode()
    ensures Saveable(LONE, YES, Rank(), [3, 4], true)
    ensures var sol, u' := Solution(LONE, YES, Rank()), AfterReload(LONE, YES, Rank(), [3, 4], true);
      TriOf(sol, Val(4)) == 2 && UsersOk(LONE, u') && !SameValues(sol, Solution(LONE, u', Rank()))
  {
    LoneSaveable();
    hide Ranked, UsersOk, Solution, Saveable, LostMode, LoadedAs, AfterReload;
    LoneChosen();
    ReloadedFresh(LONE, YES, Rank(), [3, 4], true);
    var u' := AfterReload(LONE, YES, Rank(), [3, 4], true);
    assert Lost(LONE, YES, Solution(LONE, YES, Rank()), 5, true);
    SaveReload(LONE, YES, Rank(), [3, 4], true, u');
  }
}

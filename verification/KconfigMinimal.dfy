/**
 Which symbols a configuration file has a line for: in full all that are written, and minimally just those
 that the user can change and that differ from what they would be anyway.
 */
module KconfigMinimal {
  import opened Wrappers
  import opened KconfigModel
  import opened KconfigEval
  import opened KconfigCache
  import opened KconfigSemantics
  import opened KconfigSave
  import M = KconfigMeaning

  predicate HasLine(lines: seq<Line>, i: Id) { exists l :: l in lines && l.sym == i }

  lemma OwnLines(g: Graph, env: Env, i: Id, minimal: bool)
    ensures forall l :: l in LinesOf(g, env, i, minimal) ==> l.sym == i
  {
    hide Omits;
  }

  lemma {:induction false} LineInFile(g: Graph, env: Env, order: seq<Id>, minimal: bool, i: Id)
    ensures HasLine(Lines(g, env, order, minimal), i) <==> i in order && LinesOf(g, env, i, minimal) != []
  {
    if order != [] {
      hide LinesOf;
      var rest, last := order[..|order| - 1], order[|order| - 1];
      LineInFile(g, env, rest, minimal, i);
      OwnLines(g, env, last, minimal);
      assert order == rest + [last];
      var a, b := Lines(g, env, rest, minimal), LinesOf(g, env, last, minimal);
      assert Lines(g, env, order, minimal) == a + b;
      if HasLine(a, i) { var l :| l in a && l.sym == i; assert l in a + b; }
      if last == i && b != [] { assert b[0] in a + b; }
    }
  }

  lemma LineIff(g: Graph, env: Env, i: Id, minimal: bool)
    requires g.At(i).Symbol?
    ensures LinesOf(g, env, i, minimal) != [] <==> WriteOf(env, Str(i)) && !(minimal && Omits(g, env, i))
  {
    hide Omits;
  }

  /** A full configuration has a line for exactly the symbols that are written. */
  lemma FullLines(g: Graph, env: Env, order: seq<Id>, i: Id)
    requires i in order && g.At(i).Symbol?
    ensures HasLine(Lines(g, env, order, false), i) <==> WriteOf(env, Str(i))
  {
    hide Omits;
    LineInFile(g, env, order, false, i);
    LineIff(g, env, i, false);
  }

  // ---- symbols outside choices -----------------------------------------------------------------------

  lemma LogicString(g: Graph, u: Users, rank: Node -> nat, i: Id)
    requires Ranked(g, rank) && UsersOk(g, u) && g.At(i).Symbol? && IsLogic(g.At(i).ty)
    ensures var sol := Solution(g, u, rank);
      StrOf(sol, Str(i)) == TriStr(TriOf(sol, Val(i))) && (WriteOf(sol, Str(i)) <==> WriteOf(sol, Val(i)))
  {
    hide Solution, Ranked, UsersOk, StepR;
    AtStr(g, u, rank, i);
  }

  lemma LogicOmitted(g: Graph, env: Env, i: Id, d: Tri)
    requires g.At(i).Symbol? && IsLogic(g.At(i).ty) && g.At(i).choice.None?
    requires M.IsDefault(g, env, g.At(i).defaults, d) && StrOf(env, Str(i)) == TriStr(TriOf(env, Val(i)))
    requires TriOf(env, Vis(i)) != 0 ==> M.Meaning(g, env, g.At(i).directDep) != 0
    ensures var it := g.At(i);
      var vis, weak := TriOf(env, Vis(i)), M.Meaning(g, env, it.weakRevDep);
      var direct, rev := M.Meaning(g, env, it.directDep), M.Meaning(g, env, it.revDep);
      !Omits(g, env, i) <==>
      vis > rev && TriOf(env, Val(i)) != M.Combined(None, vis, d, weak, direct, rev, M.ActsTristate(g, env, i))
  {
    hide ExprR, M.Meaning, TypeR, M.ActsTristate, TriDefaultR, M.IsDefault;
    var it := g.At(i);
    M.DefaultMeaning(g, env, it.defaults, 0);
    M.DefaultUnique(g, env, it.defaults, d, TriDefaultR(g, env, it.defaults, 0).v);
    M.ExprMeaning(g, env, it.weakRevDep);
    M.ExprMeaning(g, env, it.directDep);
    M.ExprMeaning(g, env, it.revDep);
    M.TypeMeaning(g, env, i);
  }

  /** A bool or tristate symbol has a line in the minimal configuration exactly if it is more visible than
      selected, and differs from what default, implies and selects make of it without the user. */
  lemma MinimalLogic(g: Graph, u: Users, rank: Node -> nat, order: seq<Id>, i: Id, d: Tri)
    requires Ranked(g, rank) && UsersOk(g, u) && PromptsImplyDeps(g) && i in order
    requires g.At(i).Symbol? && IsLogic(g.At(i).ty) && g.At(i).choice.None?
    requires M.IsDefault(g, Solution(g, u, rank), g.At(i).defaults, d)
    ensures var it, sol := g.At(i), Solution(g, u, rank);
      var vis, weak := TriOf(sol, Vis(i)), M.Meaning(g, sol, it.weakRevDep);
      var direct, rev := M.Meaning(g, sol, it.directDep), M.Meaning(g, sol, it.revDep);
      HasLine(Lines(g, sol, order, true), i) <==>
      vis > rev && TriOf(sol, Val(i)) != M.Combined(None, vis, d, weak, direct, rev, M.ActsTristate(g, sol, i))
  {
    hide Solution, Ranked, UsersOk, Omits, M.IsDefault, M.Meaning, M.ActsTristate, PromptsImplyDeps, LinesOf, Lines,
      HasLine;
    var sol := Solution(g, u, rank);
    LineInFile(g, sol, order, true, i);
    LineIff(g, sol, i, true);
    LogicString(g, u, rank, i);
    M.ValueMeaning(g, u, rank, i, d);
    if TriOf(sol, Vis(i)) != 0 {
      VisibleImpliesDeps(g, u, rank, i);
      M.ExprMeaning(g, sol, g.At(i).directDep);
    }
    LogicOmitted(g, sol, i, d);
  }

  lemma TextOmitted(g: Graph, env: Env, i: Id, t: Option<string>)
    requires PlainText(g, i) && M.IsTextDefault(g, env, g.At(i).defaults, t)
    ensures !Omits(g, env, i) <==>
      TriOf(env, Vis(i)) > M.Meaning(g, env, g.At(i).revDep) && StrOf(env, Str(i)) != (if t.Some? then t.value else "")
  {
    hide ExprR, M.Meaning, StrDefaultR, M.IsTextDefault;
    M.TextDefaultMeaning(g, env, g.At(i).defaults, 0);
    M.TextDefaultUnique(g, env, g.At(i).defaults, t, StrDefaultR(g, env, g.At(i).defaults, 0).v);
    M.ExprMeaning(g, env, g.At(i).revDep);
  }

  lemma TextWritten(g: Graph, u: Users, rank: Node -> nat, i: Id)
    requires Ranked(g, rank) && UsersOk(g, u) && PlainText(g, i) && TriOf(Solution(g, u, rank), Vis(i)) != 0
    ensures WriteOf(Solution(g, u, rank), Str(i)) <==> !g.At(i).auto
  {
    hide Solution, Ranked, UsersOk, StepR, RangeR, StrDefaultR;
    AtStr(g, u, rank, i);
  }

  /** A string, int or hex symbol has one exactly if it is more visible than selected, does not come from the
      environment, and is not the text of its first active default. */
  lemma MinimalText(g: Graph, u: Users, rank: Node -> nat, order: seq<Id>, i: Id, t: Option<string>)
    requires Ranked(g, rank) && UsersOk(g, u) && i in order && PlainText(g, i)
    requires M.IsTextDefault(g, Solution(g, u, rank), g.At(i).defaults, t)
    ensures var it, sol := g.At(i), Solution(g, u, rank);
      HasLine(Lines(g, sol, order, true), i) <==>
      && TriOf(sol, Vis(i)) > M.Meaning(g, sol, it.revDep) && !it.auto
      && StrOf(sol, Str(i)) != (if t.Some? then t.value else "")
  {
    hide Solution, Ranked, UsersOk, Omits, M.IsTextDefault, M.Meaning, LinesOf, Lines, HasLine;
    var sol := Solution(g, u, rank);
    LineInFile(g, sol, order, true, i);
    LineIff(g, sol, i, true);
    if TriOf(sol, Vis(i)) != 0 { TextWritten(g, u, rank, i); }
    TextOmitted(g, sol, i, t);
  }

  // ---- choice symbols --------------------------------------------------------------------------------

  lemma MemberWritten(g: Graph, u: Users, rank: Node -> nat, i: Id)
    requires Ranked(g, rank) && UsersOk(g, u) && Member(g, i)
    ensures var sol := Solution(g, u, rank);
      (WriteOf(sol, Str(i)) <==> TriOf(sol, Vis(i)) != 0) && (TriOf(sol, Vis(i)) == 0 ==> TriOf(sol, Val(i)) == 0)
  {
    hide Solution, Ranked, UsersOk, StepR;
    AtVal(g, u, rank, i);
    AtStr(g, u, rank, i);
  }

  /** A choice symbol has one unless it is n, or bool, y and the default selection `s` of a choice that is not
      optional. */
  lemma MinimalMember(g: Graph, u: Users, rank: Node -> nat, order: seq<Id>, i: Id, s: Option<Id>)
    requires Ranked(g, rank) && UsersOk(g, u) && i in order && Member(g, i) && g.At(g.At(i).choice.value).Choice?
    requires M.IsDefaultSelection(g, Solution(g, u, rank), g.At(i).choice.value, s)
    ensures var it, sol := g.At(i), Solution(g, u, rank);
      HasLine(Lines(g, sol, order, true), i) <==>
      && TriOf(sol, Val(i)) != 0
      && !(it.ty == Bool && TriOf(sol, Val(i)) == 2 && s == Some(i) && !g.At(it.choice.value).optional)
  {
    hide Solution, Ranked, UsersOk, Omits, M.IsDefaultSelection, DefaultSelectionR, LinesOf, Lines, HasLine,
      MemberSolved;
    var sol, c := Solution(g, u, rank), g.At(i).choice.value;
    LineInFile(g, sol, order, true, i);
    LineIff(g, sol, i, true);
    MemberWritten(g, u, rank, i);
    SolvedMember(g, u, rank, i);
    MemberOmitted(g, u, sol, i);
    M.DefaultSelectionMeaning(g, sol, c);
    M.DefaultSelectionUnique(g, sol, c, s, DefaultSelectionR(g, sol, c).v);
  }
}

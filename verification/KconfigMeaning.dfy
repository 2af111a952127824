/**
 What the values of a solution are, read off the properties of an item as a whole: the most that a
 prompt allows, the first default, range or selection whose condition is met, the order of strings and
 numbers. Nothing here follows the way the equations go through their lists.
 */
module KconfigMeaning {
  import opened Wrappers
  import opened KconfigModel
  import opened KconfigEval
  import opened KconfigCache
  import opened KconfigSemantics

  // ---- expressions -------------------------------------------------------------------------------

  /** Lexicographic order: the strings agree up to a position where `s` ends or has the lesser character. */
  ghost predicate Before(s: string, t: string) { exists k: nat :: BeforeAt(s, t, k) }

  predicate BeforeAt(s: string, t: string, k: nat) {
    k <= |s| && k < |t| && s[..k] == t[..k] && (k < |s| ==> s[k] < t[k])
  }

  lemma {:induction false} StringOrder(s: string, t: string)
    ensures StrCmp(s, t) == 0 <==> s == t
    ensures StrCmp(s, t) < 0 <==> Before(s, t)
    ensures StrCmp(s, t) > 0 <==> Before(t, s)
  {
    if s != [] && t != [] && s[0] == t[0] {
      StringOrder(s[1..], t[1..]);
      TailOrder(s, t);
      TailOrder(t, s);
      assert s == [s[0]] + s[1..] && t == [t[0]] + t[1..];
    } else {
      FirstDecides(s, t);
      FirstDecides(t, s);
    }
  }

  lemma TailOrder(s: string, t: string)
    requires s != [] && t != [] && s[0] == t[0]
    ensures Before(s, t) <==> Before(s[1..], t[1..])
  {
    hide BeforeAt;
    if k: nat :| BeforeAt(s, t, k) {
      NotAtStart(s, t);
      TailAt(s, t, k - 1);
    }
    if k: nat :| BeforeAt(s[1..], t[1..], k) { TailAt(s, t, k); }
  }

  lemma NotAtStart(s: string, t: string)
    requires s != [] && t != [] && s[0] == t[0]
    ensures !BeforeAt(s, t, 0)
  {
  }

  lemma TailAt(s: string, t: string, k: nat)
    requires s != [] && t != [] && s[0] == t[0]
    ensures BeforeAt(s, t, k + 1) <==> BeforeAt(s[1..], t[1..], k)
  {
    if k + 1 <= |s| && k + 1 < |t| {
      assert s[..k + 1] == [s[0]] + s[1..][..k] && t[..k + 1] == [t[0]] + t[1..][..k];
      assert s[..k + 1] == t[..k + 1] ==> s[..k + 1][1..] == t[..k + 1][1..];
    }
  }

  lemma FirstDecides(s: string, t: string)
    requires s == [] || t == [] || s[0] != t[0]
    ensures Before(s, t) <==> t != [] && (s == [] || s[0] < t[0])
  {
    if t != [] && (s == [] || s[0] < t[0]) { assert BeforeAt(s, t, 0); }
    if k: nat :| BeforeAt(s, t, k) && k > 0 { assert s[..k][0] == t[..k][0]; }
  }

  /** A relation, by whether the left side is less and whether the sides are the same. */
  predicate Related(rel: Relation, less: bool, same: bool) {
    match rel
    case Equal => same
    case Unequal => !same
    case Less => less
    case LessEqual => less || same
    case Greater => !less && !same
    case GreaterEqual => !less
  }

  /** A bool or tristate symbol counts as 0, 1 or 2; others as the number their string is, if it is one. */
  function Number(g: Graph, env: Env, i: Id): Option<int> {
    match TypeOf(g.At(i))
    case Bool => Some(TriOf(env, Val(i)))
    case Tristate => Some(TriOf(env, Val(i)))
    case Int => g.num(StrOf(env, Str(i)), 10)
    case Hex => g.num(StrOf(env, Str(i)), 16)
    case _ => g.num(StrOf(env, Str(i)), 0)
  }

  /** Two strings are compared as strings, anything else as numbers if both sides are numbers. */
  predicate AsNumbers(g: Graph, env: Env, a: Id, b: Id) {
    && !(TypeOf(g.At(a)) == String && TypeOf(g.At(b)) == String)
    && Number(g, env, a).Some? && Number(g, env, b).Some?
  }

  ghost predicate Compares(g: Graph, env: Env, rel: Relation, a: Id, b: Id) {
    if AsNumbers(g, env, a, b) then
      var x, y := Number(g, env, a).value, Number(g, env, b).value; Related(rel, x < y, x == y)
    else
      var s, t := StrOf(env, Str(a)), StrOf(env, Str(b)); Related(rel, Before(s, t), s == t)
  }

  lemma Trichotomy(s: string, t: string)
    ensures !(Before(s, t) && Before(t, s)) && (s == t ==> !Before(s, t)) && (s == t || Before(s, t) || Before(t, s))
  {
    hide Before;
    StringOrder(s, t);
  }

  lemma CompareMeaning(g: Graph, env: Env, rel: Relation, a: Id, b: Id)
    ensures ExprR(g, env, Compare(rel, a, b)).v == if Compares(g, env, rel, a, b) then 2 else 0
  {
    hide Before;
    StringOrder(StrOf(env, Str(a)), StrOf(env, Str(b)));
  }

  /** The value of an expression, without short cuts. */
  ghost function Meaning(g: Graph, env: Env, e: Expr): Tri {
    match e
    case Ref(i) => TriOf(env, Val(i))
    case And(l, r) =>
      var x, y := Meaning(g, env, l), Meaning(g, env, r); if x <= y then x else y
    case Or(l, r) =>
      var x, y := Meaning(g, env, l), Meaning(g, env, r); if x <= y then y else x
    case Not(f) => 2 - Meaning(g, env, f)
    case Compare(rel, a, b) => if Compares(g, env, rel, a, b) then 2 else 0
  }

  lemma {:induction false} ExprMeaning(g: Graph, env: Env, e: Expr)
    ensures ExprR(g, env, e).v == Meaning(g, env, e)
  {
    match e
    case Ref(_) =>
    case And(l, r) => ExprMeaning(g, env, l); ExprMeaning(g, env, r);
    case Or(l, r) => ExprMeaning(g, env, l); ExprMeaning(g, env, r);
    case Not(f) => ExprMeaning(g, env, f);
    case Compare(rel, a, b) => CompareMeaning(g, env, rel, a, b);
  }

  // ---- types and visibility ------------------------------------------------------------------------

  /** Tristate symbols and choices are bool while MODULES is n, and tristate symbols in a choice in y mode. */
  predicate ActsTristate(g: Graph, env: Env, i: Id) {
    var it := g.At(i);
    && !it.Lit? && TypeOf(it) == Tristate && TriOf(env, Val(g.modules)) != 0
    && (it.Symbol? && it.choice.Some? ==> TriOf(env, Val(it.choice.value)) != 2)
  }

  lemma TypeMeaning(g: Graph, env: Env, i: Id)
    requires !g.At(i).Lit?
    ensures TypeR(g, env, i).v == Tristate <==> ActsTristate(g, env, i)
    ensures TypeR(g, env, i).v == Bool <==> IsLogic(TypeOf(g.At(i))) && !ActsTristate(g, env, i)
  {
  }

  /** Some prompt is at least at `t`. */
  ghost predicate PromptAt(g: Graph, env: Env, i: Id, t: Tri) {
    exists e :: e in Prompts(g.At(i)) && Meaning(g, env, e) >= t
  }

  /** The prompts of a symbol of the other type do not show in its choice: a bool symbol of a tristate choice
      shows in y mode only, and what is at m does not show there. */
  ghost predicate HiddenByChoice(g: Graph, env: Env, i: Id) {
    var it := g.At(i);
    it.Symbol? && it.choice.Some? &&
    var c := it.choice.value;
    if it.ty == Tristate then TriOf(env, Val(c)) == 2 && !PromptAt(g, env, i, 2)
    else TypeOf(g.At(c)) == Tristate && TriOf(env, Val(c)) != 2
  }

  lemma {:induction false} PromptsMeaning(g: Graph, env: Env, ps: seq<Expr>, k: nat, t: Tri)
    requires k <= |ps| && t > 0
    ensures PromptsR(g, env, ps, k).v >= t <==> exists j :: k <= j < |ps| && Meaning(g, env, ps[j]) >= t
    decreases |ps| - k
  {
    hide ExprR, Meaning;
    if k < |ps| {
      PromptsMeaning(g, env, ps, k + 1, t);
      ExprMeaning(g, env, ps[k]);
    }
  }

  lemma MostOfPrompts(g: Graph, env: Env, i: Id, t: Tri)
    requires t > 0
    ensures PromptsR(g, env, Prompts(g.At(i)), 0).v >= t <==> PromptAt(g, env, i, t)
  {
    hide PromptsR, Meaning, ExprR;
    var ps := Prompts(g.At(i));
    PromptsMeaning(g, env, ps, 0, t);
    if PromptAt(g, env, i, t) {
      var e :| e in ps && Meaning(g, env, e) >= t;
      var j :| 0 <= j < |ps| && ps[j] == e;
    }
  }

  /** An item is as visible as its most visible prompt, with m counting as y for what is not tristate. */
  lemma VisibilityMeaning(g: Graph, u: Users, rank: Node -> nat, i: Id)
    requires Ranked(g, rank) && UsersOk(g, u)
    ensures var sol := Solution(g, u, rank);
      TriOf(sol, Vis(i)) ==
      if !PromptAt(g, sol, i, 1) || HiddenByChoice(g, sol, i) then 0
      else if PromptAt(g, sol, i, 2) || !ActsTristate(g, sol, i) then 2 else 1
  {
    hide Solution, Ranked, UsersOk, StepR, PromptsR, TypeR, ActsTristate, PromptAt;
    var sol := Solution(g, u, rank);
    AtVis(g, u, rank, i);
    MostOfPrompts(g, sol, i, 1);
    MostOfPrompts(g, sol, i, 2);
    if !g.At(i).Lit? { TypeMeaning(g, sol, i); } else { NoPromptOnConstant(g, sol, i); }
  }

  lemma NoPromptOnConstant(g: Graph, env: Env, i: Id)
    requires g.At(i).Lit?
    ensures !PromptAt(g, env, i, 1)
  {
  }

  // ---- defaults ----------------------------------------------------------------------------------

  /** Default `j` is the first whose condition is not n. */
  ghost predicate Active(g: Graph, env: Env, ds: seq<Default>, j: nat) {
    j < |ds| && Meaning(g, env, ds[j].cond) != 0 && forall k :: 0 <= k < j ==> Meaning(g, env, ds[k].cond) == 0
  }

  ghost predicate NoneActive(g: Graph, env: Env, ds: seq<Default>) {
    forall k :: 0 <= k < |ds| ==> Meaning(g, env, ds[k].cond) == 0
  }

  /** `d` is the lesser of the value and the condition of the first active default, or n without one. */
  ghost predicate IsDefault(g: Graph, env: Env, ds: seq<Default>, d: Tri) {
    || (NoneActive(g, env, ds) && d == 0)
    || exists j: nat :: Active(g, env, ds, j) && IsLesser(d, Meaning(g, env, ds[j].value), Meaning(g, env, ds[j].cond))
  }

  predicate IsLesser(d: int, x: int, y: int) { d <= x && d <= y && (d == x || d == y) }

  lemma {:induction false} DefaultMeaning(g: Graph, env: Env, ds: seq<Default>, k: nat)
    requires k <= |ds| && forall l :: 0 <= l < k ==> Meaning(g, env, ds[l].cond) == 0
    ensures IsDefault(g, env, ds, TriDefaultR(g, env, ds, k).v)
    decreases |ds| - k
  {
    hide ExprR, Meaning;
    if k < |ds| {
      ExprMeaning(g, env, ds[k].cond);
      ExprMeaning(g, env, ds[k].value);
      if Meaning(g, env, ds[k].cond) == 0 { DefaultMeaning(g, env, ds, k + 1); } else { assert Active(g, env, ds, k); }
    }
  }

  /** There is only one such value. */
  lemma DefaultUnique(g: Graph, env: Env, ds: seq<Default>, d: Tri, d': Tri)
    requires IsDefault(g, env, ds, d) && IsDefault(g, env, ds, d')
    ensures d == d'
  {
    hide Meaning;
    if !NoneActive(g, env, ds) {
      var j: nat :| Active(g, env, ds, j) && IsLesser(d, Meaning(g, env, ds[j].value), Meaning(g, env, ds[j].cond));
      var k: nat :| Active(g, env, ds, k) && IsLesser(d', Meaning(g, env, ds[k].value), Meaning(g, env, ds[k].cond));
      assert !(j < k) && !(k < j);
    }
  }

  // ---- bool and tristate symbols ---------------------------------------------------------------------

  /** The value from the user, as far as visible, or from default and implies, raised by selects, with m
      counting as y for what is not tristate and for what is implied to y. */
  function Combined(user: Option<Tri>, vis: Tri, d: Tri, weak: Tri, direct: Tri, rev: Tri, tristate: bool): Tri {
    var base :=
      if user.Some? && vis != 0 then (if user.value <= vis then user.value else vis)
      else if direct != 0 && weak > d then weak else d;
    var raised := if rev > base then rev else base;
    if raised == 1 && (!tristate || weak == 2) then 2 else raised
  }

  /** A symbol outside choices: `d` is its default. It is written if it is visible or not n by default, imply or
      select. */
  lemma ValueMeaning(g: Graph, u: Users, rank: Node -> nat, i: Id, d: Tri)
    requires Ranked(g, rank) && UsersOk(g, u) && g.At(i).Symbol? && IsLogic(g.At(i).ty) && g.At(i).choice.None?
    requires IsDefault(g, Solution(g, u, rank), g.At(i).defaults, d)
    ensures var it, sol := g.At(i), Solution(g, u, rank);
      var vis, weak, direct, rev :=
        TriOf(sol, Vis(i)), Meaning(g, sol, it.weakRevDep), Meaning(g, sol, it.directDep), Meaning(g, sol, it.revDep);
      && TriOf(sol, Val(i)) == Combined(u.Tri(i), vis, d, weak, direct, rev, ActsTristate(g, sol, i))
      && (WriteOf(sol, Val(i)) <==> vis != 0 || d != 0 || (weak != 0 && direct != 0) || rev != 0)
  {
    hide Solution, Ranked, UsersOk, StepR, ExprR, Meaning, TypeR, ActsTristate, TriDefaultR, IsDefault;
    var it, sol := g.At(i), Solution(g, u, rank);
    AtVal(g, u, rank, i);
    DefaultMeaning(g, sol, it.defaults, 0);
    DefaultUnique(g, sol, it.defaults, d, TriDefaultR(g, sol, it.defaults, 0).v);
    ExprMeaning(g, sol, it.weakRevDep);
    ExprMeaning(g, sol, it.directDep);
    ExprMeaning(g, sol, it.revDep);
    TypeMeaning(g, sol, i);
  }

  /** Without a user value that shows, and neither implied nor selected, a symbol has the lesser of the value
      and the condition of its first active default, or n. */
  lemma DefaultDecides(g: Graph, u: Users, rank: Node -> nat, i: Id)
    requires Ranked(g, rank) && UsersOk(g, u) && g.At(i).Symbol? && IsLogic(g.At(i).ty) && g.At(i).choice.None?
    requires var it, sol := g.At(i), Solution(g, u, rank);
      && (TriOf(sol, Vis(i)) == 0 || u.Tri(i).None?)
      && Meaning(g, sol, it.revDep) == 0 && (Meaning(g, sol, it.weakRevDep) == 0 || Meaning(g, sol, it.directDep) == 0)
    ensures var ds, sol := g.At(i).defaults, Solution(g, u, rank);
      && ((forall k :: 0 <= k < |ds| ==> Meaning(g, sol, ds[k].cond) == 0) ==> TriOf(sol, Val(i)) == 0)
      && forall j :: 0 <= j < |ds| && Meaning(g, sol, ds[j].cond) != 0
                     && (forall k :: 0 <= k < j ==> Meaning(g, sol, ds[k].cond) == 0) ==>
           var x, y := Meaning(g, sol, ds[j].value), Meaning(g, sol, ds[j].cond);
           var d := if x <= y then x else y;
           TriOf(sol, Val(i)) ==
           if d == 1 && (!ActsTristate(g, sol, i) || Meaning(g, sol, g.At(i).weakRevDep) == 2) then 2 else d
  {
    hide Solution, Ranked, UsersOk, Meaning, ActsTristate;
    var ds, sol := g.At(i).defaults, Solution(g, u, rank);
    if NoneActive(g, sol, ds) { ValueMeaning(g, u, rank, i, 0); }
    forall j: nat | Active(g, sol, ds, j)
      ensures var x, y := Meaning(g, sol, ds[j].value), Meaning(g, sol, ds[j].cond);
        var d := if x <= y then x else y;
        TriOf(sol, Val(i)) ==
        if d == 1 && (!ActsTristate(g, sol, i) || Meaning(g, sol, g.At(i).weakRevDep) == 2) then 2 else d
    {
      var x, y := Meaning(g, sol, ds[j].value), Meaning(g, sol, ds[j].cond);
      var d: Tri := if x <= y then x else y;
      assert IsLesser(d, x, y);
      ValueMeaning(g, u, rank, i, d);
    }
  }

  // ---- string, int and hex symbols -------------------------------------------------------------------

  /** `t` is the string of the first active default, None without one. */
  ghost predicate IsTextDefault(g: Graph, env: Env, ds: seq<Default>, t: Option<string>) {
    || (NoneActive(g, env, ds) && t == None)
    || exists j: nat :: Active(g, env, ds, j)
                        && t == Some(if ds[j].value.Ref? then StrOf(env, Str(ds[j].value.id)) else "")
  }

  lemma {:induction false} TextDefaultMeaning(g: Graph, env: Env, ds: seq<Default>, k: nat)
    requires k <= |ds| && forall l :: 0 <= l < k ==> Meaning(g, env, ds[l].cond) == 0
    ensures IsTextDefault(g, env, ds, StrDefaultR(g, env, ds, k).v)
    decreases |ds| - k
  {
    hide ExprR, Meaning;
    if k < |ds| {
      ExprMeaning(g, env, ds[k].cond);
      if Meaning(g, env, ds[k].cond) == 0 { TextDefaultMeaning(g, env, ds, k + 1); }
      else { assert Active(g, env, ds, k); }
    }
  }

  lemma TextDefaultUnique(g: Graph, env: Env, ds: seq<Default>, t: Option<string>, t': Option<string>)
    requires IsTextDefault(g, env, ds, t) && IsTextDefault(g, env, ds, t')
    ensures t == t'
  {
    hide Meaning;
    if !NoneActive(g, env, ds) {
      var j: nat :| Active(g, env, ds, j)
                    && t == Some(if ds[j].value.Ref? then StrOf(env, Str(ds[j].value.id)) else "");
      var k: nat :| Active(g, env, ds, k)
                    && t' == Some(if ds[k].value.Ref? then StrOf(env, Str(ds[k].value.id)) else "");
      assert !(j < k) && !(k < j);
    }
  }

  /** A string symbol has the user's string where it shows, and else its default. */
  lemma StringMeaning(g: Graph, u: Users, rank: Node -> nat, i: Id, t: Option<string>)
    requires Ranked(g, rank) && UsersOk(g, u) && g.At(i).Symbol? && g.At(i).ty == String
    requires IsTextDefault(g, Solution(g, u, rank), g.At(i).defaults, t)
    ensures var sol := Solution(g, u, rank);
      && StrOf(sol, Str(i)) ==
         (if u.Str(i).Some? && TriOf(sol, Vis(i)) != 0 then u.Str(i).value else if t.Some? then t.value else "")
      && (WriteOf(sol, Str(i)) <==> !g.At(i).auto && (TriOf(sol, Vis(i)) != 0 || t.Some?))
  {
    hide Solution, Ranked, UsersOk, StepR, ExprR, Meaning, StrDefaultR, IsTextDefault;
    var sol := Solution(g, u, rank);
    AtStr(g, u, rank, i);
    TextDefaultMeaning(g, sol, g.At(i).defaults, 0);
    TextDefaultUnique(g, sol, g.At(i).defaults, t, StrDefaultR(g, sol, g.At(i).defaults, 0).v);
  }

  /** The number a string is, 0 if it is none. */
  function Parsed(g: Graph, ty: Type, s: string): int {
    var n := g.num(s, if ty == Hex then 16 else 10); if n.Some? then n.value else 0
  }

  ghost predicate RangeActive(g: Graph, env: Env, rs: seq<Range>, j: nat) {
    j < |rs| && Meaning(g, env, rs[j].cond) != 0 && forall k :: 0 <= k < j ==> Meaning(g, env, rs[k].cond) == 0
  }

  ghost predicate NoRange(g: Graph, env: Env, rs: seq<Range>) {
    forall k :: 0 <= k < |rs| ==> Meaning(g, env, rs[k].cond) == 0
  }

  lemma {:induction false} RangeMeaning(g: Graph, env: Env, ty: Type, rs: seq<Range>, k: nat)
    requires IsNumber(ty) && k <= |rs| && forall l :: 0 <= l < k ==> Meaning(g, env, rs[l].cond) == 0
    ensures var r := RangeR(g, env, rs, Base(ty), k).v;
      && (NoRange(g, env, rs) ==> r == None)
      && forall j: nat :: RangeActive(g, env, rs, j) ==>
           r == Some(Bounds(Parsed(g, ty, StrOf(env, Str(rs[j].low))), Parsed(g, ty, StrOf(env, Str(rs[j].high)))))
    decreases |rs| - k
  {
    hide ExprR, Meaning;
    if k < |rs| {
      ExprMeaning(g, env, rs[k].cond);
      if Meaning(g, env, rs[k].cond) == 0 {
        RangeMeaning(g, env, ty, rs, k + 1);
      } else {
        forall j: nat | RangeActive(g, env, rs, j) ensures j == k {}
      }
    }
  }

  /** A number that fits, else the low bound if it is too small and the high one if it is too large. */
  function Fitted(g: Graph, ty: Type, bounded: bool, low: int, high: int, t: string): string {
    if bounded && Parsed(g, ty, t) < low then g.fmt(low, ty)
    else if bounded && high < Parsed(g, ty, t) then g.fmt(high, ty)
    else t
  }

  /** The user's number counts where it shows, is not empty, and fits. */
  predicate NumberCounts(g: Graph, ty: Type, bounded: bool, low: int, high: int, user: Option<string>, vis: Tri) {
    && user.Some? && vis != 0 && user.value != ""
    && (bounded ==> low <= Parsed(g, ty, user.value) <= high)
  }

  /** An int or hex symbol without an active range. */
  lemma FreeNumberMeaning(g: Graph, u: Users, rank: Node -> nat, i: Id, t: Option<string>)
    requires Ranked(g, rank) && UsersOk(g, u) && g.At(i).Symbol? && IsNumber(g.At(i).ty)
    requires IsTextDefault(g, Solution(g, u, rank), g.At(i).defaults, t)
    requires NoRange(g, Solution(g, u, rank), g.At(i).ranges)
    ensures var sol, ty := Solution(g, u, rank), g.At(i).ty;
      && StrOf(sol, Str(i)) ==
         (if NumberCounts(g, ty, false, 0, 0, u.Str(i), TriOf(sol, Vis(i))) then u.Str(i).value
          else if t.Some? then t.value else "")
      && (WriteOf(sol, Str(i)) <==> !g.At(i).auto && (TriOf(sol, Vis(i)) != 0 || t.Some?))
  {
    hide Solution, Ranked, UsersOk, StepR, ExprR, Meaning, StrDefaultR, IsTextDefault, RangeR;
    var sol, it := Solution(g, u, rank), g.At(i);
    AtStr(g, u, rank, i);
    TextDefaultMeaning(g, sol, it.defaults, 0);
    TextDefaultUnique(g, sol, it.defaults, t, StrDefaultR(g, sol, it.defaults, 0).v);
    RangeMeaning(g, sol, it.ty, it.ranges, 0);
  }

  /** An int or hex symbol whose first active range is number `j`: the user's number where it counts, and
      else the default, fitted to the range. */
  lemma NumberMeaning(g: Graph, u: Users, rank: Node -> nat, i: Id, t: Option<string>, j: nat)
    requires Ranked(g, rank) && UsersOk(g, u) && g.At(i).Symbol? && IsNumber(g.At(i).ty)
    requires IsTextDefault(g, Solution(g, u, rank), g.At(i).defaults, t)
    requires RangeActive(g, Solution(g, u, rank), g.At(i).ranges, j)
    ensures var it, sol, ty := g.At(i), Solution(g, u, rank), g.At(i).ty;
      var low := Parsed(g, ty, StrOf(sol, Str(it.ranges[j].low)));
      var high := Parsed(g, ty, StrOf(sol, Str(it.ranges[j].high)));
      && StrOf(sol, Str(i)) ==
         (if NumberCounts(g, ty, true, low, high, u.Str(i), TriOf(sol, Vis(i))) then u.Str(i).value
          else Fitted(g, ty, true, low, high, if t.Some? then t.value else ""))
      && (WriteOf(sol, Str(i)) <==> !it.auto && (TriOf(sol, Vis(i)) != 0 || t.Some?))
  {
    hide Solution, Ranked, UsersOk, StepR, ExprR, Meaning, StrDefaultR, IsTextDefault, RangeR;
    var sol, it := Solution(g, u, rank), g.At(i);
    AtStr(g, u, rank, i);
    TextDefaultMeaning(g, sol, it.defaults, 0);
    TextDefaultUnique(g, sol, it.defaults, t, StrDefaultR(g, sol, it.defaults, 0).v);
    RangeMeaning(g, sol, it.ty, it.ranges, 0);
  }

  /** Where bounds are in order and numbers can be read back, the value of a symbol is in its range. */
  lemma NumberInRange(g: Graph, u: Users, rank: Node -> nat, i: Id, j: nat)
    requires Ranked(g, rank) && UsersOk(g, u) && g.At(i).Symbol? && IsNumber(g.At(i).ty)
    requires RangeActive(g, Solution(g, u, rank), g.At(i).ranges, j)
    requires forall n :: Parsed(g, g.At(i).ty, g.fmt(n, g.At(i).ty)) == n
    requires var it, sol, ty := g.At(i), Solution(g, u, rank), g.At(i).ty;
      Parsed(g, ty, StrOf(sol, Str(it.ranges[j].low))) <= Parsed(g, ty, StrOf(sol, Str(it.ranges[j].high)))
    ensures var it, sol, ty := g.At(i), Solution(g, u, rank), g.At(i).ty;
      Parsed(g, ty, StrOf(sol, Str(it.ranges[j].low))) <= Parsed(g, ty, StrOf(sol, Str(i)))
      <= Parsed(g, ty, StrOf(sol, Str(it.ranges[j].high)))
  {
    hide Solution, Ranked, UsersOk, Meaning, IsTextDefault, RangeActive, Parsed;
    var it, sol := g.At(i), Solution(g, u, rank);
    var t := StrDefaultR(g, sol, it.defaults, 0).v;
    TextDefaultMeaning(g, sol, it.defaults, 0);
    NumberMeaning(g, u, rank, i, t, j);
  }

  // ---- choices -----------------------------------------------------------------------------------

  ghost predicate PickFits(g: Graph, env: Env, p: Selectable) {
    Meaning(g, env, p.cond) != 0 && TriOf(env, Vis(p.sym)) != 0
  }

  /** `s` is the first default that is active and visible, else the first visible symbol, else none. */
  ghost predicate IsDefaultSelection(g: Graph, env: Env, c: Id, s: Option<Id>)
    requires g.At(c).Choice?
  {
    var picks, syms := g.At(c).picks, g.At(c).syms;
    if exists j :: 0 <= j < |picks| && PickFits(g, env, picks[j]) then
      exists j :: 0 <= j < |picks| && PickFits(g, env, picks[j]) && s == Some(picks[j].sym)
                  && forall k :: 0 <= k < j ==> !PickFits(g, env, picks[k])
    else if exists j :: 0 <= j < |syms| && TriOf(env, Vis(syms[j])) != 0 then
      exists j :: 0 <= j < |syms| && TriOf(env, Vis(syms[j])) != 0 && s == Some(syms[j])
                  && forall k :: 0 <= k < j ==> TriOf(env, Vis(syms[k])) == 0
    else s == None
  }

  lemma {:induction false} PickMeaning(g: Graph, env: Env, ps: seq<Selectable>, k: nat)
    requires k <= |ps| && forall l :: 0 <= l < k ==> !PickFits(g, env, ps[l])
    ensures var s := PickR(g, env, ps, k).v;
      if s.None? then forall j :: 0 <= j < |ps| ==> !PickFits(g, env, ps[j])
      else exists j :: 0 <= j < |ps| && PickFits(g, env, ps[j]) && s == Some(ps[j].sym)
                       && forall l :: 0 <= l < j ==> !PickFits(g, env, ps[l])
    decreases |ps| - k
  {
    hide ExprR, Meaning;
    if k < |ps| {
      ExprMeaning(g, env, ps[k].cond);
      if !PickFits(g, env, ps[k]) { PickMeaning(g, env, ps, k + 1); }
    }
  }

  lemma {:induction false} FirstVisibleMeaning(env: Env, syms: seq<Id>, k: nat)
    requires k <= |syms| && forall l :: 0 <= l < k ==> TriOf(env, Vis(syms[l])) == 0
    ensures var s := FirstVisibleR(env, syms, k).v;
      if s.None? then forall j :: 0 <= j < |syms| ==> TriOf(env, Vis(syms[j])) == 0
      else exists j :: 0 <= j < |syms| && TriOf(env, Vis(syms[j])) != 0 && s == Some(syms[j])
                       && forall l :: 0 <= l < j ==> TriOf(env, Vis(syms[l])) == 0
    decreases |syms| - k
  {
    if k < |syms| && TriOf(env, Vis(syms[k])) == 0 { FirstVisibleMeaning(env, syms, k + 1); }
  }

  lemma DefaultSelectionMeaning(g: Graph, env: Env, c: Id)
    requires g.At(c).Choice?
    ensures IsDefaultSelection(g, env, c, DefaultSelectionR(g, env, c).v)
  {
    hide PickR, FirstVisibleR, PickFits;
    PickMeaning(g, env, g.At(c).picks, 0);
    FirstVisibleMeaning(env, g.At(c).syms, 0);
  }

  lemma DefaultSelectionUnique(g: Graph, env: Env, c: Id, s: Option<Id>, s': Option<Id>)
    requires g.At(c).Choice? && IsDefaultSelection(g, env, c, s) && IsDefaultSelection(g, env, c, s')
    ensures s == s'
  {
    hide PickFits;
  }

  /** In y mode the user's selection where it is visible, and else the default one; none in other modes. */
  lemma SelectionMeaning(g: Graph, u: Users, rank: Node -> nat, c: Id, s: Option<Id>)
    requires Ranked(g, rank) && UsersOk(g, u) && g.At(c).Choice?
    requires IsDefaultSelection(g, Solution(g, u, rank), c, s)
    ensures var sol, user := Solution(g, u, rank), u.Selection(c);
      SelOf(sol, Sel(c)) ==
      if TriOf(sol, Val(c)) != 2 then None
      else if user.Some? && TriOf(sol, Vis(user.value)) != 0 then user else s
  {
    hide Solution, Ranked, UsersOk, StepR, DefaultSelectionR, IsDefaultSelection;
    var sol := Solution(g, u, rank);
    AtSel(g, u, rank, c);
    DefaultSelectionMeaning(g, sol, c);
    DefaultSelectionUnique(g, sol, c, s, DefaultSelectionR(g, sol, c).v);
  }

  /** The user's mode, at least m unless the choice is optional, as far as visible, with m counting as y for
      what is not tristate. */
  function ModeOf(user: Option<Tri>, optional: bool, vis: Tri, tristate: bool): Tri {
    var asked := if user.Some? && (user.value != 0 || optional) then user.value else if optional then 0 else 1;
    var shown := if asked <= vis then asked else vis;
    if shown == 1 && !tristate then 2 else shown
  }

  lemma ModeMeaning(g: Graph, u: Users, rank: Node -> nat, c: Id)
    requires Ranked(g, rank) && UsersOk(g, u) && g.At(c).Choice? && IsLogic(g.At(c).ty)
    ensures var sol := Solution(g, u, rank);
      TriOf(sol, Val(c)) == ModeOf(u.Tri(c), g.At(c).optional, TriOf(sol, Vis(c)), ActsTristate(g, sol, c))
  {
    hide Solution, Ranked, UsersOk, StepR, TypeR, ActsTristate;
    AtVal(g, u, rank, c);
    TypeMeaning(g, Solution(g, u, rank), c);
  }

  // ---- assignable modes ------------------------------------------------------------------------------

  lemma SameStepUnderMode(g: Graph, u1: Users, u2: Users, rank: Node -> nat, env: Env, c: Id, n: Node)
    requires Ranked(g, rank) && g.At(c).Choice? && rank(n) < rank(Val(c))
    requires u1.selections == u2.selections && u1.values - {c} == u2.values - {c}
    ensures StepR(g, u1, env, n) == StepR(g, u2, env, n)
  {
    hide StepR;
    assert Val(c) in Deps(g, Str(c)) && Val(c) in Deps(g, Sel(c));
    assert n.i == c ==> n.Vis? || n.Asg?;
    assert n.i != c ==>
      (n.i in u1.values <==> n.i in u1.values - {c}) && (n.i in u2.values <==> n.i in u2.values - {c});
    OwnUser(g, u1, u2, env, n);
  }

  /** Setting the mode of a choice changes nothing that ranks below the mode. */
  lemma {:induction false} UnderMode(g: Graph, u1: Users, u2: Users, rank: Node -> nat, c: Id, n: Node)
    requires Ranked(g, rank) && UsersOk(g, u1) && UsersOk(g, u2) && g.At(c).Choice? && rank(n) < rank(Val(c))
    requires u1.selections == u2.selections && u1.values - {c} == u2.values - {c}
    ensures Value(g, u1, rank, n) == Value(g, u2, rank, n)
    decreases rank(n)
  {
    var s1, s2 := Solution(g, u1, rank), Solution(g, u2, rank);
    UsedInDeps(g, u1, s1, n);
    forall r | r in StepR(g, u1, s1, n).used ensures Look(s1, r) == Look(s2, r) { UnderMode(g, u1, u2, rank, c, r); }
    EnvFrame(g, u1, s1, s2, n);
    SameStepUnderMode(g, u1, u2, rank, s2, c, n);
    SolutionStep(g, u1, rank, n);
    SolutionStep(g, u2, rank, n);
  }

  lemma SameUnderMode(g: Graph, u1: Users, u2: Users, rank: Node -> nat, c: Id)
    requires Ranked(g, rank) && UsersOk(g, u1) && UsersOk(g, u2) && g.At(c).Choice?
    requires u1.selections == u2.selections && u1.values - {c} == u2.values - {c}
    ensures var s1, s2 := Solution(g, u1, rank), Solution(g, u2, rank);
      TriOf(s1, Vis(c)) == TriOf(s2, Vis(c)) && (ActsTristate(g, s1, c) <==> ActsTristate(g, s2, c))
  {
    ModeReads(g, rank, c);
    hide Ranked, UsersOk, Value, StepR, Deps;
    UnderMode(g, u1, u2, rank, c, Vis(c));
    if g.At(c).ty == Tristate { UnderMode(g, u1, u2, rank, c, Val(g.modules)); }
  }

  lemma ModeReads(g: Graph, rank: Node -> nat, c: Id)
    requires Ranked(g, rank) && g.At(c).Choice?
    ensures rank(Vis(c)) < rank(Val(c)) && (g.At(c).ty == Tristate ==> rank(Val(g.modules)) < rank(Val(c)))
  {
    assert Vis(c) in Deps(g, Val(c));
    assert g.At(c).ty == Tristate ==> Val(g.modules) in Deps(g, Val(c));
  }

  lemma ListedModes(g: Graph, env: Env, c: Id, v: Tri)
    requires g.At(c).Choice? && IsLogic(g.At(c).ty) && TriOf(env, Vis(c)) != 0
    requires TriOf(env, Vis(c)) == 1 ==> ActsTristate(g, env, c)
    ensures v in AsgR(g, env, c).v <==>
      ModeOf(Some(v), g.At(c).optional, TriOf(env, Vis(c)), ActsTristate(g, env, c)) == v
  {
    hide TypeR, ActsTristate;
    TypeMeaning(g, env, c);
  }

  /** A mode takes effect when set exactly if `assignable` lists it, for a visible choice. */
  lemma ModeAssignable(g: Graph, u: Users, rank: Node -> nat, c: Id, v: Tri)
    requires Ranked(g, rank) && UsersOk(g, u) && g.At(c).Choice? && IsLogic(g.At(c).ty)
    requires Accepts(g, c, TriUser(v)) && TriOf(Solution(g, u, rank), Vis(c)) != 0
    ensures var sol, sol' := Solution(g, u, rank), Solution(g, Assigned(g, u, c, TriUser(v)), rank);
      v in AsgR(g, sol, c).v <==> TriOf(sol', Val(c)) == v
  {
    hide Solution, Ranked, UsersOk, StepR, Deps, ActsTristate, AsgR;
    var u' := Assigned(g, u, c, TriUser(v));
    ModeAssigned(g, u, c, v);
    SameUnderMode(g, u, u', rank, c);
    ModeMeaning(g, u', rank, c);
    VisibleActs(g, u, rank, c);
    ListedModes(g, Solution(g, u, rank), c, v);
  }

  lemma ModeAssigned(g: Graph, u: Users, c: Id, v: Tri)
    requires UsersOk(g, u) && g.At(c).Choice? && IsLogic(g.At(c).ty) && Accepts(g, c, TriUser(v))
    ensures var u' := Assigned(g, u, c, TriUser(v));
      UsersOk(g, u') && u'.selections == u.selections && u.values - {c} == u'.values - {c} && u'.Tri(c) == Some(v)
  {
    AssignedOk(g, u, c, TriUser(v));
    hide UsersOk, Accepts;
  }

  lemma VisibleActs(g: Graph, u: Users, rank: Node -> nat, c: Id)
    requires Ranked(g, rank) && UsersOk(g, u)
    ensures TriOf(Solution(g, u, rank), Vis(c)) == 1 ==> ActsTristate(g, Solution(g, u, rank), c)
  {
    hide Solution, Ranked, UsersOk, ActsTristate, PromptAt, HiddenByChoice;
    VisibilityMeaning(g, u, rank, c);
  }
}

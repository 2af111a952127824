/**
 What dependency propagation arranges for the rest: prompts that imply dependencies, choices that
 limit their symbols, and the meaning of the dependencies that make implicit submenus.
 */
module KconfigPremises {
  import opened Wrappers
  import opened KconfigModel
  import opened KconfigEval
  import opened KconfigPropagation
  import KconfigInvalidation
  import KconfigSave
  import KconfigSemantics
  import M = KconfigMenu

  predicate ConstItems(g: Graph, k: Consts) { g.At(k.n) == Lit(0) && g.At(k.m) == Lit(1) && g.At(k.y) == Lit(2) }

  lemma LitsAreConstant(g: Graph, k: Consts, env: Env)
    requires ConstItems(g, k) && LitsHold(g, env)
    ensures Constant(k, env)
  {
    assert g.At(k.n).Lit? && g.At(k.m).Lit? && g.At(k.y).Lit?;
  }

  /** A node whose prompt is never above its dependency. */
  ghost predicate PromptBelowDep(g: Graph, k: Consts, p: Props) {
    forall env :: Constant(k, env) && p.prompt.Some? ==>
      KconfigPropagation.Value(g, env, p.prompt.value) <= KconfigPropagation.Value(g, env, p.dep)
  }

  lemma {:induction false} CollectingPrompts(g: Graph, k: Consts, parsed: Nodes, ts: seq<M.Tree>, up: seq<Props>)
    requires up != []
    ensures forall p :: p in Collecting(k, parsed, ts, up) ==> PromptBelowDep(g, k, p)
  {
    hide FinalProps;
    if ts != [] {
      var p := Get(parsed, ts[0].id);
      CollectingPrompts(g, k, parsed, ts[0].kids, [p] + up);
      CollectingPrompts(g, k, parsed, ts[1..], up);
      FinalPromptBelow(g, k, p, up);
    }
  }

  lemma FinalPromptBelow(g: Graph, k: Consts, p: Props, up: seq<Props>)
    requires up != []
    ensures PromptBelowDep(g, k, FinalProps(k, p, up))
  {
    hide FinalProps, KconfigPropagation.Value;
    forall env | Constant(k, env) && FinalProps(k, p, up).prompt.Some?
      ensures KconfigPropagation.Value(g, env, FinalProps(k, p, up).prompt.value)
        <= KconfigPropagation.Value(g, env, FinalProps(k, p, up).dep)
    {
      PropsMeaning(g, env, k, p, up);
    }
  }

  /** The graph has the prompts and the direct dependencies that the nodes `ps` give its symbols. */
  ghost predicate Assembled(g: Graph, k: Consts, ps: seq<Props>) {
    && ConstItems(g, k)
    && forall i :: g.At(i).Symbol? ==>
         && g.At(i).directDep == Of(k, AddAll(k, map[], ps), i).directDep
         && forall e :: e in g.At(i).prompts ==> exists p :: p in ps && p.holder == OfSymbol(i) && p.prompt == Some(e)
  }

  lemma {:induction false} AllowedBounds(g: Graph, env: Env, ps: seq<Props>, i: Id, p: Props)
    requires p in ps && p.holder == OfSymbol(i)
    ensures KconfigPropagation.Value(g, env, p.dep) <= Allowed(g, env, ps, i)
  {
    if p != ps[|ps| - 1] {
      assert ps == ps[..|ps| - 1] + [ps[|ps| - 1]];
      AllowedBounds(g, env, ps[..|ps| - 1], i, p);
    }
  }

  lemma {:induction false} SomePrompt(g: Graph, env: Env, ps: seq<Expr>, j: nat) returns (e: Expr)
    requires j <= |ps| && PromptsR(g, env, ps, j).v != 0
    ensures e in ps && ExprR(g, env, e).v != 0
    decreases |ps| - j
  {
    hide ExprR;
    if ExprR(g, env, ps[j]).v != 0 { e := ps[j]; } else { e := SomePrompt(g, env, ps, j + 1); }
  }

  /** For every tree: in the graph it gives, a symbol with an active prompt has its dependencies met. */
  lemma PropagationMeetsDeps(g: Graph, k: Consts, parsed: Nodes, top: M.Tree)
    requires Assembled(g, k, Collecting(k, parsed, top.kids, [Get(parsed, top.id)]))
    ensures KconfigSave.PromptsImplyDeps(g)
  {
    var ps := Collecting(k, parsed, top.kids, [Get(parsed, top.id)]);
    hide Collecting;
    CollectingPrompts(g, k, parsed, top.kids, [Get(parsed, top.id)]);
    forall i, env | LitsHold(g, env) && g.At(i).Symbol? && PromptsR(g, env, g.At(i).prompts, 0).v != 0
      ensures ExprR(g, env, g.At(i).directDep).v != 0
    {
      var e := SomePrompt(g, env, g.At(i).prompts, 0);
      PromptMeetsDeps(g, k, ps, env, i, e);
    }
  }

  lemma PromptMeetsDeps(g: Graph, k: Consts, ps: seq<Props>, env: Env, i: Id, e: Expr)
    requires Assembled(g, k, ps) && LitsHold(g, env) && g.At(i).Symbol? && e in g.At(i).prompts
    requires forall p :: p in ps ==> PromptBelowDep(g, k, p)
    ensures ExprR(g, env, e).v <= ExprR(g, env, g.At(i).directDep).v
  {
    hide ExprR, Allowed, AddAll;
    LitsAreConstant(g, k, env);
    var p :| p in ps && p.holder == OfSymbol(i) && p.prompt == Some(e);
    assert PromptBelowDep(g, k, p);
    AllowedBounds(g, env, ps, i, p);
    CollectedMeaning(g, env, k, ps, i);
  }

  /** The nearest ancestor that is not an 'if' is the choice `c`. */
  predicate UnderChoice(up: seq<Props>, c: Id) {
    up != [] && (up[0].holder == OfChoice(c) || (up[0].holder == IfBlock && UnderChoice(up[1..], c)))
  }

  lemma {:induction false} AboveUnderChoice(g: Graph, env: Env, up: seq<Props>, c: Id)
    requires UnderChoice(up, c)
    ensures Above(g, env, up) <= TriOf(env, Val(c))
  {
    if up[0].holder == IfBlock { AboveUnderChoice(g, env, up[1..], c); }
  }

  lemma {:induction false} BaseMentions(g: Graph, k: Consts, up: seq<Props>, c: Id)
    requires UnderChoice(up, c) && ConstItems(g, k) && g.At(c).Choice?
    ensures var b := ParentDep(up[0], FinalDep(k, up[0], up[1..])); b == Ref(k.n) || c in ExprItems(b)
  {
    if up[0].holder == IfBlock {
      BaseMentions(g, k, up[1..], c);
      var b := ParentDep(up[1], FinalDep(k, up[1], up[2..]));
      assert up[1..][1..] == up[2..];
      MakeAndMentions(k, up[0].dep, b, c);
    }
  }

  /** The prompt of a node in a choice, possibly in 'if' blocks there, is never above the mode of the
      choice, and unless it is the constant n it mentions the choice. */
  lemma ChoiceLimitsPrompt(g: Graph, k: Consts, p: Props, up: seq<Props>, c: Id)
    requires ConstItems(g, k) && UnderChoice(up, c) && p.holder.OfSymbol? && p.prompt.Some?
    requires g.At(c).Choice?
    ensures var e := FinalProps(k, p, up).prompt.value;
      KconfigSemantics.LimitedBy(g, e, c) && (e == Ref(k.n) || c in ExprItems(e))
  {
    var e := FinalProps(k, p, up).prompt.value;
    forall env | LitsHold(g, env) ensures ExprR(g, env, e).v <= TriOf(env, Val(c)) {
      hide FinalProps, ExprR;
      LitsAreConstant(g, k, env);
      PropsMeaning(g, env, k, p, up);
      AboveUnderChoice(g, env, up, c);
    }
    hide FinalVisibleIf, FinalDep, UnderChoice;
    var base := ParentDep(up[0], FinalDep(k, up[0], up[1..]));
    BaseMentions(g, k, up, c);
    var dep := MakeAnd(k, p.dep, base);
    MakeAndMentions(k, p.dep, base, c);
    MakeAndMentions(k, p.prompt.value, dep, c);
    MakeAndMentions(k, MakeAnd(k, p.prompt.value, dep), FinalVisibleIf(k, up), c);
  }

  lemma MakeAndMentions(k: Consts, a: Expr, b: Expr, c: Id)
    requires k.n != k.y && c != k.y && c != k.n
    requires (a == Ref(k.n) || c in ExprItems(a)) || (b == Ref(k.n) || c in ExprItems(b))
    ensures var e := MakeAnd(k, a, b); e == Ref(k.n) || c in ExprItems(e)
  {
  }

  // ---- dependencies that make submenus -----------------------------------------------------------

  /** The operand that `s` is compared with. */
  function Other(a: Id, b: Id, s: Id): Id { if b == s then a else b }

  /** Whether a node with condition `e` goes into the submenu of the symbol `s`. */
  predicate DependsOn(k: Consts, e: Expr, s: Id) {
    match e
    case Ref(i) => i == s
    case And(l, r) => DependsOn(k, l, s) || DependsOn(k, r, s)
    case Compare(rel, a, b) =>
      && (rel == Equal || rel == Unequal) && (a == s || b == s)
      && ((rel == Equal && Other(a, b, s) == k.m) || Other(a, b, s) == k.y || (rel == Unequal && Other(a, b, s) == k.n))
    case _ => false
  }

  /** A conjunct that is the symbol, or compares it as equal to m or y, or as not equal to n. */
  predicate NeedsOn(k: Consts, e: Expr, s: Id) {
    match e
    case Ref(i) => i == s
    case And(l, r) => NeedsOn(k, l, s) || NeedsOn(k, r, s)
    case Compare(rel, a, b) =>
      && (a == s || b == s)
      && ((rel == Equal && Other(a, b, s) in {k.m, k.y}) || (rel == Unequal && Other(a, b, s) == k.n))
    case _ => false
  }

  /** A conjunct that compares the symbol as not equal to y. */
  predicate NeedsNotY(k: Consts, e: Expr, s: Id) {
    match e
    case And(l, r) => NeedsNotY(k, l, s) || NeedsNotY(k, r, s)
    case Compare(rel, a, b) => rel == Unequal && (a == s || b == s) && Other(a, b, s) == k.y
    case _ => false
  }

  lemma {:induction false} DependsOnCases(k: Consts, e: Expr, s: Id)
    ensures DependsOn(k, e, s) <==> NeedsOn(k, e, s) || NeedsNotY(k, e, s)
  {
    if e.And? {
      DependsOnCases(k, e.left, s);
      DependsOnCases(k, e.right, s);
    }
  }

  /** Such a node is invisible while the symbol is n ... */
  lemma {:induction false} NeedsOnHides(g: Graph, k: Consts, env: Env, e: Expr, s: Id)
    requires ConstItems(g, k) && LitsHold(g, env) && IsLogic(TypeOf(g.At(s))) && NeedsOn(k, e, s)
      && TriOf(env, Val(s)) == 0
    ensures ExprR(g, env, e).v == 0
  {
    LitsAreConstant(g, k, env);
    if e.And? {
      if NeedsOn(k, e.left, s) { NeedsOnHides(g, k, env, e.left, s); } else { NeedsOnHides(g, k, env, e.right, s); }
    }
  }

  /** ... but of the single conditions that put a node into the submenu, those comparing the symbol
      as not equal to y leave it visible. */
  lemma SubmenuHiddenExactly(g: Graph, k: Consts, e: Expr, s: Id)
    requires ConstItems(g, k) && g.At(s).Symbol? && IsLogic(g.At(s).ty) && DependsOn(k, e, s) && !e.And?
    ensures (forall env :: LitsHold(g, env) && TriOf(env, Val(s)) == 0 ==> ExprR(g, env, e).v == 0)
            <==> !NeedsNotY(k, e, s)
  {
    DependsOnCases(k, e, s);
    if NeedsNotY(k, e, s) {
      var env: Env := imap n: Node | n.Val? :: TriV(if g.At(n.i).Lit? then g.At(n.i).value else 0, false);
      assert LitsHold(g, env) && TriOf(env, Val(s)) == 0;
      assert ExprR(g, env, e).v == 2;
    } else {
      forall env | LitsHold(g, env) && TriOf(env, Val(s)) == 0
        ensures ExprR(g, env, e).v == 0
      {
        NeedsOnHides(g, k, env, e, s);
      }
    }
  }
}

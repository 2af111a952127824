/**
 The symbols of a choice are those among its children once the tree is finalised. All of them were
 parsed in the choice, possibly in 'if' blocks there, and so the choice limits them and they depend
 on it.
 */
module KconfigChoices {
  import opened Wrappers
  import opened KconfigModel
  import opened KconfigEval
  import opened KconfigPropagation
  import opened KconfigPremises
  import opened KconfigInvalidation
  import KconfigSemantics
  import M = KconfigMenu

  // ---- which nodes come up to a level ----------------------------------------------------------

  /** A node whose children flattening brings up. */
  predicate LetsUp(info: M.Info, x: M.Nid) { !info.prompt(x) && info.kind(x) != M.Choice }

  /** The nodes of a level, with those that come up from below. */
  function Raised(info: M.Info, ts: seq<M.Tree>): set<M.Nid> {
    if ts == [] then {}
    else {ts[0].id} + (if LetsUp(info, ts[0].id) then Raised(info, ts[0].kids) else {}) + Raised(info, ts[1..])
  }

  lemma {:induction false} RaisedConcat(info: M.Info, a: seq<M.Tree>, b: seq<M.Tree>)
    ensures Raised(info, a + b) == Raised(info, a) + Raised(info, b)
  {
    if a == [] {
      assert a + b == b;
    } else {
      assert (a + b)[1..] == a[1..] + b;
      RaisedConcat(info, a[1..], b);
    }
  }

  lemma RaisedFirst(info: M.Info, t: M.Tree, rest: seq<M.Tree>)
    ensures Raised(info, [t] + rest)
      == {t.id} + (if LetsUp(info, t.id) then Raised(info, t.kids) else {}) + Raised(info, rest)
  {
    assert ([t] + rest)[1..] == rest;
  }

  lemma NoneRaised(info: M.Info)
    ensures Raised(info, []) == {}
  {
  }

  lemma {:induction false} FlattenRaised(info: M.Info, ts: seq<M.Tree>)
    ensures Raised(info, M.Flatten(info, ts)) <= Raised(info, ts)
    decreases M.Size(ts)
  {
    M.FlattenUnfold(info, ts);
    if ts != [] {
      hide Raised, M.Flatten, M.Size;
      var t, rest := ts[0], ts[1..];
      M.Split(ts);
      RaisedFirst(info, t, rest);
      if t.kids != [] && !info.prompt(t.id) && info.kind(t.id) != M.Choice {
        FlattenRaised(info, t.kids + rest);
        RaisedConcat(info, t.kids, rest);
        NoneRaised(info);
        RaisedFirst(info, M.Node(t.id, []), M.Flatten(info, t.kids + rest));
      } else {
        FlattenRaised(info, rest);
        RaisedFirst(info, t, M.Flatten(info, rest));
      }
    }
  }

  lemma {:induction false} RemoveIfsRaised(info: M.Info, ts: seq<M.Tree>)
    ensures Raised(info, M.RemoveIfs(info, ts)) <= Raised(info, ts)
  {
    if ts != [] {
      RemoveIfsRaised(info, ts[1..]);
      var rest := M.RemoveIfs(info, ts[1..]);
      RaisedFirst(info, ts[0], rest);
      assert [] + rest == rest;
    }
  }

  lemma CleanRaised(info: M.Info, ts: seq<M.Tree>)
    ensures Raised(info, M.RemoveIfs(info, M.Flatten(info, ts))) <= Raised(info, ts)
  {
    FlattenRaised(info, ts);
    RemoveIfsRaised(info, M.Flatten(info, ts));
  }

  /** Finalising brings no further node up to a level. */
  lemma {:induction false} FinalizeRaised(info: M.Info, t: M.Tree, followers: seq<M.Tree>)
    ensures var f := M.Finalize(info, t, followers); Raised(info, [f.node] + f.rest) <= Raised(info, [t] + followers)
    decreases M.Size([t] + followers), 1
  {
    var f := M.Finalize(info, t, followers);
    M.SizeOfFirst(t, followers);
    if t.kids != [] {
      hide Raised, M.Level, M.Flatten, M.RemoveIfs, M.Size;
      LevelRaised(info, t.kids);
      CleanRaised(info, M.Level(info, t.kids));
    } else if info.kind(t.id) == M.Symbol {
      hide Raised, M.Absorb, M.Flatten, M.RemoveIfs, M.Size;
      AbsorbRaised(info, t.id, followers);
      var a := M.Absorb(info, t.id, followers);
      CleanRaised(info, a.taken);
      RaisedConcat(info, a.taken, a.rest);
    }
    RaisedFirst(info, f.node, f.rest);
    RaisedFirst(info, t, followers);
  }

  lemma {:induction false} AbsorbRaised(info: M.Info, id: M.Nid, followers: seq<M.Tree>)
    ensures var a := M.Absorb(info, id, followers); Raised(info, a.taken + a.rest) <= Raised(info, followers)
    decreases M.Size(followers), 2
  {
    hide Raised, M.Finalize, M.Absorb, M.Size;
    M.AbsorbUnfold(info, id, followers);
    if followers == [] || !info.auto(id, followers[0].id) {
      assert [] + followers == followers;
    } else {
      M.Split(followers);
      var f := M.Finalize(info, followers[0], followers[1..]);
      var more := M.Absorb(info, id, f.rest);
      FinalizeRaised(info, followers[0], followers[1..]);
      AbsorbRaised(info, id, f.rest);
      assert ([f.node] + more.taken) + more.rest == [f.node] + (more.taken + more.rest);
      RaisedFirst(info, f.node, more.taken + more.rest);
      RaisedFirst(info, f.node, f.rest);
    }
  }

  lemma {:induction false} LevelRaised(info: M.Info, ts: seq<M.Tree>)
    ensures Raised(info, M.Level(info, ts)) <= Raised(info, ts)
    decreases M.Size(ts), 2
  {
    if ts != [] {
      M.Split(ts);
      var f := M.Finalize(info, ts[0], ts[1..]);
      hide Raised, M.Finalize;
      FinalizeRaised(info, ts[0], ts[1..]);
      LevelRaised(info, f.rest);
      RaisedFirst(info, f.node, M.Level(info, f.rest));
      RaisedFirst(info, f.node, f.rest);
    }
  }

  // ---- where the nodes were parsed -----------------------------------------------------------------

  /** A node with its parsed properties and those of its ancestors, nearest first. */
  datatype Place = Place(id: M.Nid, p: Props, up: seq<Props>)

  function Places(parsed: Nodes, ts: seq<M.Tree>, up: seq<Props>): seq<Place> {
    if ts == [] then []
    else
      var p := Get(parsed, ts[0].id);
      [Place(ts[0].id, p, up)] + Places(parsed, ts[0].kids, [p] + up) + Places(parsed, ts[1..], up)
  }

  /** As parsed, of the nodes without a prompt only choices and 'if' nodes have children. */
  predicate Shaped(info: M.Info, parsed: Nodes, ts: seq<M.Tree>) {
    ts == [] ||
    (&& (ts[0].kids != [] && LetsUp(info, ts[0].id) ==> Get(parsed, ts[0].id).holder == IfBlock)
     && Shaped(info, parsed, ts[0].kids) && Shaped(info, parsed, ts[1..]))
  }

  lemma {:induction false} PlaceIds(parsed: Nodes, ts: seq<M.Tree>, up: seq<Props>, pl: Place)
    requires pl in Places(parsed, ts, up)
    ensures pl.id in M.Ids(ts)
  {
    var p := Get(parsed, ts[0].id);
    if pl in Places(parsed, ts[0].kids, [p] + up) {
      PlaceIds(parsed, ts[0].kids, [p] + up, pl);
    } else if pl in Places(parsed, ts[1..], up) {
      PlaceIds(parsed, ts[1..], up, pl);
    }
  }

  lemma {:induction false} RaisedIds(info: M.Info, ts: seq<M.Tree>)
    ensures Raised(info, ts) <= M.Ids(ts)
  {
    if ts != [] {
      RaisedIds(info, ts[0].kids);
      RaisedIds(info, ts[1..]);
    }
  }

  /** What comes up to the level of a choice was parsed in it. */
  lemma {:induction false} RaisedUnder(info: M.Info, parsed: Nodes, ts: seq<M.Tree>, up: seq<Props>, pl: Place, c: Id)
    requires M.Distinct(ts) && Shaped(info, parsed, ts) && UnderChoice(up, c)
    requires pl in Places(parsed, ts, up) && pl.id in Raised(info, ts)
    ensures UnderChoice(pl.up, c)
  {
    var p, kids, rest := Get(parsed, ts[0].id), ts[0].kids, ts[1..];
    RaisedIds(info, kids);
    RaisedIds(info, rest);
    if pl in Places(parsed, kids, [p] + up) {
      PlaceIds(parsed, kids, [p] + up, pl);
      assert ([p] + up)[1..] == up;
      RaisedUnder(info, parsed, kids, [p] + up, pl, c);
    } else if pl in Places(parsed, rest, up) {
      PlaceIds(parsed, rest, up, pl);
      RaisedUnder(info, parsed, rest, up, pl, c);
    }
  }

  // ---- choices ---------------------------------------------------------------------------------

  /** The symbols among the children of a finalised choice. */
  function ChoiceSyms(parsed: Nodes, kids: seq<M.Tree>): seq<Id> {
    if kids == [] then []
    else
      var h := Get(parsed, kids[0].id).holder;
      (if h.OfSymbol? then [h.sym] else []) + ChoiceSyms(parsed, kids[1..])
  }

  predicate IsChild(kids: seq<M.Tree>, x: M.Nid) { exists j :: 0 <= j < |kids| && kids[j].id == x }

  lemma {:induction false} ChildRaised(info: M.Info, kids: seq<M.Tree>, j: nat)
    requires j < |kids|
    ensures kids[j].id in Raised(info, kids)
  {
    if j > 0 { ChildRaised(info, kids[1..], j - 1); }
  }

  /** The choice `c` of the graph is that of the node `t`, with ancestors `up`. Its symbols are those of
      the finalised node, and have no prompt anywhere else. */
  ghost predicate ChoiceOf(g: Graph, k: Consts, info: M.Info, parsed: Nodes, t: M.Tree, up: seq<Props>, c: Id) {
    && g.At(c).Choice? && info.kind(t.id) == M.Choice && Get(parsed, t.id).holder == OfChoice(c)
    && M.Distinct(t.kids) && Shaped(info, parsed, t.kids)
    && var kids := M.Finalize(info, t, []).node.kids;
       && g.At(c).syms == ChoiceSyms(parsed, kids)
       && forall i, e :: i in g.At(c).syms && g.At(i).Symbol? && e in g.At(i).prompts ==>
            exists pl :: pl in Places(parsed, t.kids, [Get(parsed, t.id)] + up) && IsPrompt(k, kids, pl, i, e)
  }

  /** The node at `pl` is a child and gives the symbol `i` the prompt condition `e`. */
  predicate IsPrompt(k: Consts, kids: seq<M.Tree>, pl: Place, i: Id, e: Expr) {
    IsChild(kids, pl.id) && pl.p.holder == OfSymbol(i) && FinalProps(k, pl.p, pl.up).prompt == Some(e)
  }

  lemma ChildrenRaised(info: M.Info, t: M.Tree, x: M.Nid)
    requires info.kind(t.id) == M.Choice && IsChild(M.Finalize(info, t, []).node.kids, x)
    ensures x in Raised(info, t.kids)
  {
    var kids := M.Finalize(info, t, []).node.kids;
    var j :| 0 <= j < |kids| && kids[j].id == x;
    hide Raised, M.Flatten, M.RemoveIfs, M.Level;
    ChildRaised(info, kids, j);
    LevelRaised(info, t.kids);
    CleanRaised(info, M.Level(info, t.kids));
  }

  lemma FinalPrompt(k: Consts, p: Props, up: seq<Props>)
    ensures FinalProps(k, p, up).prompt.Some? <==> p.prompt.Some?
  {
  }

  /** Every prompt of a symbol of the choice is limited by the choice, and mentions it unless it is n. */
  lemma MemberPrompt(g: Graph, k: Consts, info: M.Info, parsed: Nodes, t: M.Tree, up: seq<Props>, c: Id, i: Id, e: Expr)
    requires ConstItems(g, k) && ChoiceOf(g, k, info, parsed, t, up, c)
    requires i in g.At(c).syms && g.At(i).Symbol? && e in g.At(i).prompts
    ensures KconfigSemantics.LimitedBy(g, e, c) && (e == Ref(k.n) || c in ExprItems(e))
  {
    hide M.Finalize, Places, Raised, FinalProps, ChoiceSyms, M.Distinct, Shaped, KconfigSemantics.LimitedBy, IsChild;
    var kids, above := M.Finalize(info, t, []).node.kids, [Get(parsed, t.id)] + up;
    var pl :| pl in Places(parsed, t.kids, above) && IsPrompt(k, kids, pl, i, e);
    ChildrenRaised(info, t, pl.id);
    RaisedUnder(info, parsed, t.kids, above, pl, c);
    FinalPrompt(k, pl.p, pl.up);
    ChoiceLimitsPrompt(g, k, pl.p, pl.up, c);
  }

  /** For every tree: a choice limits its symbols, and each of them depends on it, unless its prompts
      are the constant n. */
  lemma TreeMakesChoice(g: Graph, k: Consts, info: M.Info, parsed: Nodes, t: M.Tree, up: seq<Props>, c: Id)
    requires ConstItems(g, k) && ChoiceOf(g, k, info, parsed, t, up, c) && KconfigSemantics.ChoiceMembers(g, c)
    ensures KconfigSemantics.ProperChoice(g, c)
    ensures forall i :: i in g.At(c).syms ==>
      i in Dependents(g, c) || forall e :: e in g.At(i).prompts ==> e == Ref(k.n)
  {
    hide ChoiceOf, Dependents, KconfigSemantics.LimitedBy;
    forall i, e | i in g.At(c).syms && e in g.At(i).prompts
      ensures KconfigSemantics.LimitedBy(g, e, c)
    {
      MemberPrompt(g, k, info, parsed, t, up, c, i, e);
    }
    forall i | i in g.At(c).syms && i !in Dependents(g, c)
      ensures forall e :: e in g.At(i).prompts ==> e == Ref(k.n)
    {
      forall e | e in g.At(i).prompts ensures e == Ref(k.n) {
        MemberPrompt(g, k, info, parsed, t, up, c, i, e);
        if c in ExprItems(e) { MentionDepends(g, i, e, c); }
      }
    }
  }

  lemma MentionDepends(g: Graph, i: Id, e: Expr, c: Id)
    requires g.At(i).Symbol? && e in g.At(i).prompts && c in ExprItems(e) && !g.At(c).Lit?
    ensures i in Dependents(g, c)
  {
    assert c in PromptItems(g.At(i));
    assert i < |g.items|;
  }

  /** Where every choice comes from the tree so, its symbols have a prompt that is not the constant n, and
      defaults are recorded, the caches can rely on the dependencies. */
  lemma TreeMakesWired(g: Graph, k: Consts, info: M.Info, parsed: Nodes)
    requires ConstItems(g, k) && !g.At(g.modules).Choice?
    requires forall c :: g.At(c).Choice? ==> exists t, up :: ChoiceOf(g, k, info, parsed, t, up, c)
    requires forall i :: g.At(i).Symbol? && g.At(i).choice.Some? ==>
      && g.At(g.At(i).choice.value).Choice? && i in g.At(g.At(i).choice.value).syms
      && exists e :: e in g.At(i).prompts && e != Ref(k.n)
    requires forall c, p :: g.At(c).Choice? && p in g.At(c).picks ==> Recorded(g, c, p.sym)
    ensures Wired(g)
  {
    hide ChoiceOf, Dependents, KconfigSemantics.LimitedBy;
    forall i | g.At(i).Symbol? && g.At(i).choice.Some? ensures i in Dependents(g, g.At(i).choice.value) {
      var c := g.At(i).choice.value;
      var t, up :| ChoiceOf(g, k, info, parsed, t, up, c);
      var e :| e in g.At(i).prompts && e != Ref(k.n);
      MemberPrompt(g, k, info, parsed, t, up, c, i, e);
      MentionDepends(g, i, e, c);
    }
  }
}

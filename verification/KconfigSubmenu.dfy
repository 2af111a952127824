/**
 Where the nodes of the menu tree end up. Which siblings a symbol takes into its submenu is said by a
 relation between positions, and the place of a node by the list of its ancestors.
 */
module KconfigSubmenu {
  import opened Wrappers
  import opened KconfigMenu

  /** A node with its ancestors, outermost first. */
  datatype Row = Row(up: seq<Nid>, id: Nid)

  /** The nodes in order. */
  function Rows(ts: seq<Tree>, up: seq<Nid>): seq<Row> {
    if ts == [] then [] else [Row(up, ts[0].id)] + Rows(ts[0].kids, up + [ts[0].id]) + Rows(ts[1..], up)
  }

  // ---- where nodes should be -----------------------------------------------------------------------

  predicate CanTake(info: Info, t: Tree) { t.kids == [] && info.kind(t.id) == Symbol }

  /** The sibling `m` depends on `j`, or is in the submenu of a sibling between them. */
  ghost predicate Joins(info: Info, ts: seq<Tree>, j: nat, m: nat)
    requires j < m < |ts|
    decreases m - j, 0
  {
    info.auto(ts[j].id, ts[m].id) || exists i :: j < i < m && Submenu(info, ts, i, m)
  }

  /** The sibling `k` is in the submenu of the symbol `j`: it and all between them join `j`. */
  ghost predicate Submenu(info: Info, ts: seq<Tree>, j: nat, k: nat)
    requires j < k < |ts|
    decreases k - j, 1
  {
    CanTake(info, ts[j]) && forall m :: j < m <= k ==> Joins(info, ts, j, m)
  }

  /** The siblings from `s` on in whose submenu `k` is. */
  ghost function Owners(info: Info, ts: seq<Tree>, s: nat, k: nat): seq<Nid>
    requires k < |ts|
    decreases k - s
  {
    if s >= k then []
    else (if Submenu(info, ts, s, k) then [ts[s].id] else []) + Owners(info, ts, s + 1, k)
  }

  /** The siblings from `a` to `b` and all below them, with those from `s` on as owners. */
  ghost function Nested(info: Info, ts: seq<Tree>, s: nat, a: nat, b: nat, up: seq<Nid>): seq<Row>
    requires a <= b <= |ts|
    decreases ts, b - a
  {
    if a == b then []
    else
      var above, t := up + Owners(info, ts, s, a), ts[a];
      [Row(above, t.id)] + Nested(info, t.kids, 0, 0, |t.kids|, above + [t.id]) + Nested(info, ts, s, a + 1, b, up)
  }

  /** Nodes with a prompt and choices show what is below them as theirs. */
  predicate Holder(info: Info, x: Nid) { info.prompt(x) || info.kind(x) == Choice }

  function Holders(info: Info, up: seq<Nid>): seq<Nid> {
    if up == [] then [] else (if Holder(info, up[0]) then [up[0]] else []) + Holders(info, up[1..])
  }

  /** Without the 'if' nodes, and each node below the holders among its ancestors only. */
  function Shown(info: Info, rows: seq<Row>): seq<Row> {
    if rows == [] then []
    else
      var first := if info.kind(rows[0].id) == If then [] else [Row(Holders(info, rows[0].up), rows[0].id)];
      first + Shown(info, rows[1..])
  }

  lemma {:induction false} HoldersConcat(info: Info, a: seq<Nid>, b: seq<Nid>)
    ensures Holders(info, a + b) == Holders(info, a) + Holders(info, b)
  {
    if a == [] {
      assert a + b == b;
    } else {
      assert (a + b)[1..] == a[1..] + b;
      HoldersConcat(info, a[1..], b);
    }
  }

  lemma {:induction false} ShownConcat(info: Info, a: seq<Row>, b: seq<Row>)
    ensures Shown(info, a + b) == Shown(info, a) + Shown(info, b)
  {
    if a == [] {
      assert a + b == b;
    } else {
      assert (a + b)[1..] == a[1..] + b;
      ShownConcat(info, a[1..], b);
    }
  }

  lemma ShownThree(info: Info, a: seq<Row>, b: seq<Row>, c: seq<Row>)
    ensures Shown(info, a + b + c) == Shown(info, a) + Shown(info, b) + Shown(info, c)
  {
    ShownConcat(info, a + b, c);
    ShownConcat(info, a, b);
  }

  lemma {:induction false} RowsConcat(a: seq<Tree>, b: seq<Tree>, up: seq<Nid>)
    ensures Rows(a + b, up) == Rows(a, up) + Rows(b, up)
  {
    if a == [] {
      assert a + b == b;
    } else {
      assert (a + b)[1..] == a[1..] + b;
      RowsConcat(a[1..], b, up);
    }
  }

  lemma RowsOne(t: Tree, up: seq<Nid>)
    ensures Rows([t], up) == [Row(up, t.id)] + Rows(t.kids, up + [t.id])
  {
    assert [t][1..] == [];
  }

  // ---- flattening and removing 'if' nodes changes nothing that is shown -----------------------------

  lemma {:induction false} SameShown(info: Info, ts: seq<Tree>, a: seq<Nid>, b: seq<Nid>)
    requires Holders(info, a) == Holders(info, b)
    ensures Shown(info, Rows(ts, a)) == Shown(info, Rows(ts, b))
  {
    if ts != [] {
      hide Holders, Shown;
      var t := ts[0];
      HoldersConcat(info, a, [t.id]);
      HoldersConcat(info, b, [t.id]);
      SameShown(info, t.kids, a + [t.id], b + [t.id]);
      SameShown(info, ts[1..], a, b);
      ShownThree(info, [Row(a, t.id)], Rows(t.kids, a + [t.id]), Rows(ts[1..], a));
      ShownThree(info, [Row(b, t.id)], Rows(t.kids, b + [t.id]), Rows(ts[1..], b));
      ShownOne(info, a, t.id);
      ShownOne(info, b, t.id);
    }
  }

  lemma ShownOne(info: Info, up: seq<Nid>, x: Nid)
    ensures Shown(info, [Row(up, x)]) == if info.kind(x) == If then [] else [Row(Holders(info, up), x)]
  {
  }

  lemma {:induction false} FlattenShown(info: Info, ts: seq<Tree>, up: seq<Nid>)
    ensures Shown(info, Rows(Flatten(info, ts), up)) == Shown(info, Rows(ts, up))
    decreases Size(ts)
  {
    if ts != [] {
      hide Holders, Shown, Rows;
      var t, rest := ts[0], ts[1..];
      assert ts == [t] + rest;
      if t.kids != [] && !Holder(info, t.id) {
        ConcatTrees(t.kids, rest);
        FlattenShown(info, t.kids + rest, up);
        RaiseShown(info, t, rest, Flatten(info, t.kids + rest), up);
      } else {
        FlattenShown(info, rest, up);
        FirstShown(info, t, rest, up);
        FirstShown(info, t, Flatten(info, rest), up);
      }
    }
  }

  lemma FirstShown(info: Info, t: Tree, rest: seq<Tree>, up: seq<Nid>)
    ensures Shown(info, Rows([t] + rest, up)) ==
      Shown(info, [Row(up, t.id)]) + Shown(info, Rows(t.kids, up + [t.id])) + Shown(info, Rows(rest, up))
  {
    hide Shown;
    assert ([t] + rest)[1..] == rest;
    ShownThree(info, [Row(up, t.id)], Rows(t.kids, up + [t.id]), Rows(rest, up));
  }

  lemma RaiseShown(info: Info, t: Tree, rest: seq<Tree>, flat: seq<Tree>, up: seq<Nid>)
    requires !Holder(info, t.id) && Shown(info, Rows(flat, up)) == Shown(info, Rows(t.kids + rest, up))
    ensures Shown(info, Rows([Node(t.id, [])] + flat, up)) == Shown(info, Rows([t] + rest, up))
  {
    hide Shown, Rows, Holder;
    FirstShown(info, t, rest, up);
    FirstShown(info, Node(t.id, []), flat, up);
    ShownNone(info);
    RowsConcat(t.kids, rest, up);
    ShownConcat(info, Rows(t.kids, up), Rows(rest, up));
    LeavesHolders(info, up, t.id);
    SameShown(info, t.kids, up, up + [t.id]);
    var a, b, c := Shown(info, [Row(up, t.id)]), Shown(info, Rows(t.kids, up)), Shown(info, Rows(rest, up));
    assert a + [] + (b + c) == a + b + c;
  }

  lemma LeavesHolders(info: Info, up: seq<Nid>, x: Nid)
    requires !Holder(info, x)
    ensures Holders(info, up + [x]) == Holders(info, up)
  {
    HoldersConcat(info, up, [x]);
    assert Holders(info, [x]) == [];
  }

  lemma {:induction false} RemoveIfsShown(info: Info, ts: seq<Tree>, up: seq<Nid>)
    requires IfsAreLeaves(info, ts)
    ensures Shown(info, Rows(RemoveIfs(info, ts), up)) == Shown(info, Rows(ts, up))
  {
    if ts != [] {
      hide Holders, Shown;
      var t, rest := ts[0], ts[1..];
      RemoveIfsShown(info, rest, up);
      ShownThree(info, [Row(up, t.id)], Rows(t.kids, up + [t.id]), Rows(rest, up));
      ShownOne(info, up, t.id);
      var removed := RemoveIfs(info, rest);
      if info.kind(t.id) == If {
        ShownNone(info);
        assert [] + removed == removed;
      } else {
        assert ([t] + removed)[1..] == removed;
        ShownThree(info, [Row(up, t.id)], Rows(t.kids, up + [t.id]), Rows(removed, up));
      }
    }
  }

  lemma ShownNone(info: Info)
    ensures Shown(info, []) == [] && forall up :: Rows([], up) == []
  {
  }

  lemma CleanShown(info: Info, ts: seq<Tree>, up: seq<Nid>)
    requires InfoOk(info)
    ensures Shown(info, Rows(RemoveIfs(info, Flatten(info, ts)), up)) == Shown(info, Rows(ts, up))
  {
    FlattenKeepsOrder(info, ts);
    FlattenShown(info, ts, up);
    RemoveIfsShown(info, Flatten(info, ts), up);
  }

  // ---- which siblings are taken ---------------------------------------------------------------------

  lemma Downward(info: Info, ts: seq<Tree>, j: nat, k: nat, l: nat)
    requires j < k <= l < |ts| && Submenu(info, ts, j, l)
    ensures Submenu(info, ts, j, k)
  {
  }

  /** Where the siblings that `j` takes end. */
  function RunEnd(info: Info, ts: seq<Tree>, j: nat): int
    requires j < |ts|
  {
    |ts| - |Finalize(info, ts[j], ts[j + 1..]).rest|
  }

  /** They are exactly those in its submenu, in one piece after it. */
  lemma {:induction false} RunExact(info: Info, ts: seq<Tree>, j: nat)
    requires j < |ts|
    ensures var e := RunEnd(info, ts, j);
      0 <= e && EndsAt(info, ts, j, e) && Finalize(info, ts[j], ts[j + 1..]).rest == ts[e..]
    decreases |ts| - j, 1
  {
    if CanTake(info, ts[j]) {
      AbsorbRun(info, ts, j, j + 1);
      RunIsSubmenu(info, ts, j, RunEnd(info, ts, j));
    }
  }

  lemma RunIsSubmenu(info: Info, ts: seq<Tree>, j: nat, e: nat)
    requires j < e <= |ts| && CanTake(info, ts[j]) && (forall m :: j < m < e ==> Joins(info, ts, j, m))
    requires e < |ts| ==> !Joins(info, ts, j, e)
    ensures EndsAt(info, ts, j, e)
  {
    hide Joins;
    forall k | j < k < |ts| ensures Submenu(info, ts, j, k) <==> k < e {
      if e <= k { assert !Joins(info, ts, j, e); }
    }
  }

  lemma {:induction false} AbsorbRun(info: Info, ts: seq<Tree>, j: nat, p: nat)
    requires j < p <= |ts| && CanTake(info, ts[j])
    requires forall m :: j < m < p ==> Joins(info, ts, j, m)
    requires p < |ts| ==> forall i :: j < i < p ==> !Submenu(info, ts, i, p)
    ensures var r := Absorb(info, ts[j].id, ts[p..]).rest; var e := |ts| - |r|;
      && p <= e <= |ts| && r == ts[e..]
      && (forall m :: j < m < e ==> Joins(info, ts, j, m)) && (e < |ts| ==> !Joins(info, ts, j, e))
    decreases |ts| - p, 2
  {
    hide Finalize, Absorb, Submenu;
    AbsorbUnfold(info, ts[j].id, ts[p..]);
    if p < |ts| && info.auto(ts[j].id, ts[p].id) {
      assert ts[p..][0] == ts[p] && ts[p..][1..] == ts[p + 1..];
      RunExact(info, ts, p);
      var e := RunEnd(info, ts, p);
      forall m | j < m < e ensures Joins(info, ts, j, m) {
        assert m == p || m < p || Submenu(info, ts, p, m);
      }
      if e < |ts| {
        forall i | j < i < e ensures !Submenu(info, ts, i, e) {
          if i < p {
            if Submenu(info, ts, i, e) { Downward(info, ts, i, p, e); }
          } else {
            NotBeyond(info, ts, p, e, i, e);
          }
        }
      }
      AbsorbRun(info, ts, j, e);
    }
  }

  /** The siblings that `p` takes end at `e`. */
  ghost predicate EndsAt(info: Info, ts: seq<Tree>, p: nat, e: nat) {
    p < e <= |ts| && forall k :: p < k < |ts| ==> (Submenu(info, ts, p, k) <==> k < e)
  }

  /** A run ends where the runs of those in it have ended. */
  lemma NotBeyond(info: Info, ts: seq<Tree>, p: nat, e: nat, i: nat, k: nat)
    requires EndsAt(info, ts, p, e) && p <= i < e <= k < |ts|
    ensures !Submenu(info, ts, i, k)
  {
    hide Submenu;
    if i > p && Submenu(info, ts, i, k) {
      Downward(info, ts, i, e, k);
      assert Submenu(info, ts, p, e - 1);
      InnerExtends(info, ts, p, i, e);
    }
  }

  lemma InnerExtends(info: Info, ts: seq<Tree>, p: nat, i: nat, e: nat)
    requires p < i < e < |ts| && Submenu(info, ts, p, e - 1) && Submenu(info, ts, i, e)
    ensures Submenu(info, ts, p, e)
  {
    assert Joins(info, ts, p, e);
  }

  // ---- the rows of nested siblings ------------------------------------------------------------------

  lemma {:induction false} NestedSplit(info: Info, ts: seq<Tree>, s: nat, a: nat, b: nat, c: nat, up: seq<Nid>)
    requires a <= b <= c <= |ts|
    ensures Nested(info, ts, s, a, c, up) == Nested(info, ts, s, a, b, up) + Nested(info, ts, s, b, c, up)
    decreases b - a
  {
    hide Owners;
    if a < b { NestedSplit(info, ts, s, a + 1, b, c, up); }
  }

  /** Siblings that own none of them do not matter. */
  lemma {:induction false} NestedBase(info: Info, ts: seq<Tree>, s: nat, s': nat, a: nat, b: nat, up: seq<Nid>)
    requires s <= s' <= a <= b <= |ts|
    requires forall i, k :: s <= i < s' && a <= k < b ==> !Submenu(info, ts, i, k)
    ensures Nested(info, ts, s, a, b, up) == Nested(info, ts, s', a, b, up)
    decreases b - a
  {
    hide Submenu, Owners;
    if a < b {
      OwnersBase(info, ts, s, s', a);
      NestedBase(info, ts, s, s', a + 1, b, up);
    }
  }

  lemma {:induction false} OwnersBase(info: Info, ts: seq<Tree>, s: nat, s': nat, k: nat)
    requires s <= s' <= k < |ts| && forall i :: s <= i < s' ==> !Submenu(info, ts, i, k)
    ensures Owners(info, ts, s, k) == Owners(info, ts, s', k)
    decreases s' - s
  {
    hide Submenu;
    if s < s' { OwnersBase(info, ts, s + 1, s', k); }
  }

  /** Siblings in the submenu of `j` are below it. */
  lemma {:induction false} NestedUnder(info: Info, ts: seq<Tree>, j: nat, a: nat, b: nat, up: seq<Nid>)
    requires j < a <= b <= |ts| && forall k :: a <= k < b ==> Submenu(info, ts, j, k)
    ensures Nested(info, ts, j, a, b, up) == Nested(info, ts, j + 1, a, b, up + [ts[j].id])
    decreases b - a
  {
    hide Submenu, Owners;
    if a < b {
      NestedUnder(info, ts, j, a + 1, b, up);
      OwnersUnfold(info, ts, j, a);
      assert up + ([ts[j].id] + Owners(info, ts, j + 1, a)) == up + [ts[j].id] + Owners(info, ts, j + 1, a);
    }
  }

  lemma OwnersUnfold(info: Info, ts: seq<Tree>, s: nat, k: nat)
    requires s < k < |ts| && Submenu(info, ts, s, k)
    ensures Owners(info, ts, s, k) == [ts[s].id] + Owners(info, ts, s + 1, k)
  {
  }

  /** A run and what follows it. */
  lemma NestedRuns(info: Info, ts: seq<Tree>, p: nat, e: nat, c: nat, up: seq<Nid>)
    requires EndsAt(info, ts, p, e) && e <= c <= |ts|
    ensures Nested(info, ts, p, p, c, up) == Nested(info, ts, p, p, e, up) + Nested(info, ts, e, e, c, up)
  {
    hide Nested, Submenu, EndsAt;
    assert p < e by { EndsAfter(info, ts, p, e); }
    NestedSplit(info, ts, p, p, e, c, up);
    forall i, k | p <= i < e && e <= k < c ensures !Submenu(info, ts, i, k) { NotBeyond(info, ts, p, e, i, k); }
    NestedBase(info, ts, p, e, e, c, up);
  }

  lemma EndsAfter(info: Info, ts: seq<Tree>, p: nat, e: nat)
    requires EndsAt(info, ts, p, e)
    ensures p < e
  {
  }

  /** A sibling with what is below it, and those in its submenu. */
  lemma NestedFirst(info: Info, ts: seq<Tree>, j: nat, e: nat, up: seq<Nid>)
    requires EndsAt(info, ts, j, e)
    ensures var t := ts[j];
      Nested(info, ts, j, j, e, up) == [Row(up, t.id)] + Nested(info, t.kids, 0, 0, |t.kids|, up + [t.id])
                                       + Nested(info, ts, j + 1, j + 1, e, up + [t.id])
  {
    hide Submenu;
    assert up + Owners(info, ts, j, j) == up;
    NestedUnder(info, ts, j, j + 1, e, up);
  }

  // ---- finalising shows every node where it should be ------------------------------------------------

  lemma {:induction false} FinalizeShown(info: Info, ts: seq<Tree>, j: nat, up: seq<Nid>)
    requires InfoOk(info) && j < |ts|
    ensures var e := RunEnd(info, ts, j);
      && 0 <= e && EndsAt(info, ts, j, e)
      && Shown(info, Rows([Finalize(info, ts[j], ts[j + 1..]).node], up)) == Shown(info, Nested(info, ts, j, j, e, up))
    decreases Size(ts[j..]), 1
  {
    hide Level, Absorb, Flatten, RemoveIfs, Rows, Shown, Nested, Submenu;
    RunExact(info, ts, j);
    var t, e, f := ts[j], RunEnd(info, ts, j), Finalize(info, ts[j], ts[j + 1..]).node;
    assert ts[j..] == [t] + ts[j + 1..];
    SizeOfFirst(t, ts[j + 1..]);
    NestedFirst(info, ts, j, e, up);
    var below := up + [t.id];
    var kids, taken := Nested(info, t.kids, 0, 0, |t.kids|, below), Nested(info, ts, j + 1, j + 1, e, below);
    ShownThree(info, [Row(up, t.id)], kids, taken);
    RowsOne(f, up);
    ShownConcat(info, [Row(up, t.id)], Rows(f.kids, below));
    NoneNested(info, ts, j + 1, below);
    NoneNested(info, [], 0, below);
    ShownNone(info);
    if t.kids != [] {
      assert t.kids[0..] == t.kids;
      LevelShown(info, t.kids, 0, below);
      CleanShown(info, Level(info, t.kids), below);
    } else if info.kind(t.id) == Symbol {
      AbsorbShown(info, ts, j, j + 1, below);
      CleanShown(info, Absorb(info, t.id, ts[j + 1..]).taken, below);
    }
  }

  lemma NoneNested(info: Info, ts: seq<Tree>, a: nat, up: seq<Nid>)
    requires a <= |ts|
    ensures Nested(info, ts, a, a, a, up) == []
  {
  }

  lemma {:induction false} AbsorbShown(info: Info, ts: seq<Tree>, j: nat, p: nat, up: seq<Nid>)
    requires InfoOk(info) && j < p <= |ts|
    ensures var a := Absorb(info, ts[j].id, ts[p..]); var e := |ts| - |a.rest|;
      && p <= e <= |ts| && a.rest == ts[e..]
      && Shown(info, Rows(a.taken, up)) == Shown(info, Nested(info, ts, p, p, e, up))
    decreases Size(ts[p..]), 2
  {
    hide Finalize, Absorb, Rows, Shown, Nested, EndsAt, Submenu;
    var rest := ts[p..];
    AbsorbUnfold(info, ts[j].id, rest);
    if p == |ts| || !info.auto(ts[j].id, ts[p].id) {
      NoneNested(info, ts, p, up);
      ShownNone(info);
    } else {
      assert rest[0] == ts[p] && rest[1..] == ts[p + 1..];
      FinalizeShown(info, ts, p, up);
      RunExact(info, ts, p);
      var k, f := RunEnd(info, ts, p), Finalize(info, ts[p], ts[p + 1..]);
      EndsWithin(info, ts, p, k);
      AbsorbShown(info, ts, j, k, up);
      var more := Absorb(info, ts[j].id, ts[k..]);
      var e := |ts| - |more.rest|;
      NestedRuns(info, ts, p, k, e, up);
      ShownConcat(info, Nested(info, ts, p, p, k, up), Nested(info, ts, k, k, e, up));
      RowsConcat([f.node], more.taken, up);
      ShownConcat(info, Rows([f.node], up), Rows(more.taken, up));
    }
  }

  lemma EndsWithin(info: Info, ts: seq<Tree>, p: nat, e: nat)
    requires EndsAt(info, ts, p, e)
    ensures p < e <= |ts|
  {
  }

  lemma {:induction false} LevelShown(info: Info, ts: seq<Tree>, p: nat, up: seq<Nid>)
    requires InfoOk(info) && p <= |ts|
    ensures Shown(info, Rows(Level(info, ts[p..]), up)) == Shown(info, Nested(info, ts, p, p, |ts|, up))
    decreases Size(ts[p..]), 2
  {
    hide Finalize, Level, Rows, Shown, Nested, EndsAt, Submenu;
    var rest := ts[p..];
    LevelUnfold(info, rest);
    if p == |ts| {
      NoneNested(info, ts, p, up);
      ShownNone(info);
    } else {
      assert rest[0] == ts[p] && rest[1..] == ts[p + 1..];
      FinalizeShown(info, ts, p, up);
      RunExact(info, ts, p);
      var k, f := RunEnd(info, ts, p), Finalize(info, ts[p], ts[p + 1..]);
      EndsWithin(info, ts, p, k);
      LevelShown(info, ts, k, up);
      NestedRuns(info, ts, p, k, |ts|, up);
      ShownConcat(info, Nested(info, ts, p, p, k, up), Nested(info, ts, k, k, |ts|, up));
      RowsConcat([f.node], Level(info, ts[k..]), up);
      ShownConcat(info, Rows([f.node], up), Rows(Level(info, ts[k..]), up));
    }
  }

  // ---- the final tree ---------------------------------------------------------------------------------

  /** Only holders have children, at any depth. */
  predicate HoldersOnly(info: Info, ts: seq<Tree>) {
    ts == []
    || ((ts[0].kids != [] ==> Holder(info, ts[0].id)) && HoldersOnly(info, ts[0].kids) && HoldersOnly(info, ts[1..]))
  }

  /** The same below the nodes of a level. */
  predicate HoldersBelow(info: Info, ts: seq<Tree>) { forall t :: t in ts ==> HoldersOnly(info, t.kids) }

  lemma {:induction false} HoldersEach(info: Info, ts: seq<Tree>)
    ensures HoldersOnly(info, ts) <==>
      forall t :: t in ts ==> HoldersOnly(info, t.kids) && (t.kids != [] ==> Holder(info, t.id))
  {
    hide Holder;
    if ts != [] {
      HoldersEach(info, ts[1..]);
      assert forall t :: t in ts <==> t == ts[0] || t in ts[1..];
    }
  }

  lemma {:induction false} FlattenHolders(info: Info, ts: seq<Tree>)
    requires HoldersBelow(info, ts)
    ensures HoldersBelow(info, Flatten(info, ts))
    decreases Size(ts)
  {
    if ts != [] {
      var t, rest := ts[0], ts[1..];
      assert t in ts && forall x :: x in rest ==> x in ts;
      if t.kids != [] && !info.prompt(t.id) && info.kind(t.id) != Choice {
        ConcatTrees(t.kids, rest);
        HoldersEach(info, t.kids);
        FlattenHolders(info, t.kids + rest);
      } else {
        FlattenHolders(info, rest);
      }
    }
  }

  lemma {:induction false} RemovedIn(info: Info, ts: seq<Tree>)
    ensures forall t :: t in RemoveIfs(info, ts) ==> t in ts
  {
    if ts != [] { RemovedIn(info, ts[1..]); }
  }

  lemma CleanHolders(info: Info, ts: seq<Tree>)
    requires HoldersBelow(info, ts)
    ensures HoldersOnly(info, RemoveIfs(info, Flatten(info, ts)))
  {
    hide Flatten, RemoveIfs, HoldersOnly;
    var flat := Flatten(info, ts);
    FlattenKeepsOrder(info, ts);
    FlattenHolders(info, ts);
    RemovedIn(info, flat);
    HoldersEach(info, RemoveIfs(info, flat));
  }

  lemma {:induction false} FinalizeHolders(info: Info, t: Tree, followers: seq<Tree>)
    ensures HoldersOnly(info, Finalize(info, t, followers).node.kids)
    decreases Size([t] + followers), 1
  {
    hide Level, Absorb, Flatten, RemoveIfs, HoldersBelow;
    SizeOfFirst(t, followers);
    if t.kids != [] {
      LevelHolders(info, t.kids);
      CleanHolders(info, Level(info, t.kids));
    } else if info.kind(t.id) == Symbol {
      AbsorbHolders(info, t.id, followers);
      CleanHolders(info, Absorb(info, t.id, followers).taken);
    }
  }

  lemma {:induction false} AbsorbHolders(info: Info, id: Nid, followers: seq<Tree>)
    ensures HoldersBelow(info, Absorb(info, id, followers).taken)
    decreases Size(followers), 2
  {
    hide Finalize, Absorb, HoldersOnly;
    AbsorbUnfold(info, id, followers);
    if followers != [] && info.auto(id, followers[0].id) {
      assert [followers[0]] + followers[1..] == followers;
      FinalizeHolders(info, followers[0], followers[1..]);
      AbsorbHolders(info, id, Finalize(info, followers[0], followers[1..]).rest);
    }
  }

  lemma {:induction false} LevelHolders(info: Info, ts: seq<Tree>)
    ensures HoldersBelow(info, Level(info, ts))
    decreases Size(ts), 2
  {
    hide Finalize, Level, HoldersOnly;
    LevelUnfold(info, ts);
    if ts != [] {
      assert [ts[0]] + ts[1..] == ts;
      FinalizeHolders(info, ts[0], ts[1..]);
      LevelHolders(info, Finalize(info, ts[0], ts[1..]).rest);
    }
  }

  /** In such a tree without 'if' nodes every node is shown where it is. */
  lemma {:induction false} AllShown(info: Info, ts: seq<Tree>, up: seq<Nid>)
    requires IfFree(info, ts) && HoldersOnly(info, ts) && (ts != [] ==> Holders(info, up) == up)
    ensures Shown(info, Rows(ts, up)) == Rows(ts, up)
  {
    if ts != [] {
      hide Shown;
      var t := ts[0];
      assert t.id in Ids(ts);
      HoldersConcat(info, up, [t.id]);
      assert Holder(info, t.id) ==> Holders(info, [t.id]) == [t.id];
      AllShown(info, t.kids, up + [t.id]);
      AllShown(info, ts[1..], up);
      ShownThree(info, [Row(up, t.id)], Rows(t.kids, up + [t.id]), Rows(ts[1..], up));
      ShownOne(info, up, t.id);
    }
  }

  /** The final tree, for every parsed tree: its nodes are the parsed ones without the 'if' nodes, in order, and
      the ancestors of each are the holders among its parsed ancestors and the siblings, of it and of them, in
      whose submenu they are. */
  lemma FinalPlaces(info: Info, top: Tree)
    requires InfoOk(info)
    ensures Rows(Finalize(info, top, []).node.kids, []) ==
      Shown(info, Nested(info, top.kids, 0, 0, |top.kids|, []))
  {
    hide Finalize, Rows, Shown, Nested, HoldersOnly;
    var f := Finalize(info, top, []).node;
    FinalizeHolders(info, top, []);
    FinalizeKeepsOrder(info, top, []);
    AllShown(info, f.kids, []);
    BelowTop(info, top);
  }

  lemma BelowTop(info: Info, top: Tree)
    requires InfoOk(info)
    ensures Shown(info, Rows(Finalize(info, top, []).node.kids, [])) ==
      Shown(info, Nested(info, top.kids, 0, 0, |top.kids|, []))
  {
    hide Level, Flatten, RemoveIfs, Rows, Shown, Nested, Absorb;
    if top.kids != [] {
      assert top.kids[0..] == top.kids;
      LevelShown(info, top.kids, 0, []);
      CleanShown(info, Level(info, top.kids), []);
    } else {
      NoneNested(info, [], 0, []);
      AbsorbUnfold(info, top.id, []);
      NothingLeft(info);
      ShownNone(info);
    }
  }
}

/**
 The menu tree: implicit submenus, flattening of nodes without prompts and removal of 'if'
 nodes, all by rewriting the list, next and parent pointers of menu nodes, and the iterative
 walk that relies on those pointers.
 */
module KconfigMenu {
  import opened Wrappers

  type Nid = nat

  datatype Kind = If | Menu | Comment | Symbol | Choice

  /** A menu node with its children. */
  datatype Tree = Node(id: Nid, kids: seq<Tree>)

  /** What a menu node holds besides its pointers: its item, whether it has a prompt, and whether a
      node has an automatic menu dependency on the symbol of another. */
  datatype Info = Info(kind: Nid -> Kind, prompt: Nid -> bool, auto: (Nid, Nid) -> bool)

  // ---- trees --------------------------------------------------------------------------

  function Size(ts: seq<Tree>): nat { if ts == [] then 0 else 1 + Size(ts[0].kids) + Size(ts[1..]) }

  function Ids(ts: seq<Tree>): set<Nid> {
    if ts == [] then {} else {ts[0].id} + Ids(ts[0].kids) + Ids(ts[1..])
  }

  /** No node occurs twice. */
  predicate Distinct(ts: seq<Tree>) {
    ts == [] ||
    (&& ts[0].id !in Ids(ts[0].kids) && ts[0].id !in Ids(ts[1..]) && Ids(ts[0].kids) !! Ids(ts[1..])
     && Distinct(ts[0].kids) && Distinct(ts[1..]))
  }

  /** The nodes in definition order. */
  function Pre(ts: seq<Tree>): seq<Nid> { if ts == [] then [] else [ts[0].id] + Pre(ts[0].kids) + Pre(ts[1..]) }

  lemma {:induction false} ConcatSizes(a: seq<Tree>, b: seq<Tree>)
    ensures Size(a + b) == Size(a) + Size(b) && Ids(a + b) == Ids(a) + Ids(b)
  {
    if a == [] {
      assert a + b == b;
    } else {
      assert (a + b)[1..] == a[1..] + b;
      ConcatSizes(a[1..], b);
    }
  }

  lemma {:induction false} ConcatPre(a: seq<Tree>, b: seq<Tree>)
    ensures Pre(a + b) == Pre(a) + Pre(b)
  {
    if a == [] {
      assert a + b == b;
    } else {
      assert (a + b)[1..] == a[1..] + b;
      ConcatPre(a[1..], b);
    }
  }

  lemma {:induction false} ConcatDistinct(a: seq<Tree>, b: seq<Tree>)
    ensures Distinct(a + b) <==> Distinct(a) && Distinct(b) && Ids(a) !! Ids(b)
  {
    if a == [] {
      assert a + b == b;
    } else {
      assert (a + b)[1..] == a[1..] + b;
      ConcatDistinct(a[1..], b);
      ConcatSizes(a[1..], b);
      hide Distinct;
      DistinctFirst(a[0], a[1..]);
      DistinctFirst(a[0], a[1..] + b);
      assert a == [a[0]] + a[1..] && a + b == [a[0]] + (a[1..] + b);
    }
  }

  lemma ConcatTrees(a: seq<Tree>, b: seq<Tree>)
    ensures Size(a + b) == Size(a) + Size(b) && Ids(a + b) == Ids(a) + Ids(b) && Pre(a + b) == Pre(a) + Pre(b)
    ensures Distinct(a + b) <==> Distinct(a) && Distinct(b) && Ids(a) !! Ids(b)
  {
    hide Size, Ids, Pre, Distinct;
    ConcatSizes(a, b);
    ConcatPre(a, b);
    ConcatDistinct(a, b);
  }

  // ---- finalisation on trees --------------------------------------------------------------

  /** Children of nodes without a prompt come up, after the node; choices keep theirs. */
  function Flatten(info: Info, ts: seq<Tree>): seq<Tree>
    decreases Size(ts)
  {
    if ts == [] then []
    else if ts[0].kids != [] && !info.prompt(ts[0].id) && info.kind(ts[0].id) != Choice then
      ConcatTrees(ts[0].kids, ts[1..]);
      [Node(ts[0].id, [])] + Flatten(info, ts[0].kids + ts[1..])
    else [ts[0]] + Flatten(info, ts[1..])
  }

  function RemoveIfs(info: Info, ts: seq<Tree>): seq<Tree> {
    if ts == [] then [] else (if info.kind(ts[0].id) == If then [] else [ts[0]]) + RemoveIfs(info, ts[1..])
  }

  datatype Finalized = Finalized(node: Tree, rest: seq<Tree>)

  /** A node, given the siblings that follow it. A symbol takes the siblings that depend on it as its
      submenu; what it leaves is `rest`. */
  function Finalize(info: Info, t: Tree, followers: seq<Tree>): (r: Finalized)
    ensures Size(r.rest) <= Size(followers)
    decreases Size([t] + followers), 1
  {
    SizeOfFirst(t, followers);
    if t.kids != [] then
      Finalized(Node(t.id, RemoveIfs(info, Flatten(info, Level(info, t.kids)))), followers)
    else if info.kind(t.id) == Symbol then
      var a := Absorb(info, t.id, followers);
      Finalized(Node(t.id, RemoveIfs(info, Flatten(info, a.taken))), a.rest)
    else Finalized(t, followers)
  }

  datatype Absorbed = Absorbed(taken: seq<Tree>, rest: seq<Tree>)

  function Absorb(info: Info, id: Nid, followers: seq<Tree>): (r: Absorbed)
    ensures Size(r.rest) <= Size(followers)
    decreases Size(followers), 2
  {
    if followers == [] || !info.auto(id, followers[0].id) then Absorbed([], followers)
    else
      assert [followers[0]] + followers[1..] == followers;
      var f := Finalize(info, followers[0], followers[1..]);
      var more := Absorb(info, id, f.rest);
      Absorbed([f.node] + more.taken, more.rest)
  }

  /** The children of a node. */
  function Level(info: Info, ts: seq<Tree>): seq<Tree>
    decreases Size(ts), 2
  {
    if ts == [] then []
    else
      assert [ts[0]] + ts[1..] == ts;
      var f := Finalize(info, ts[0], ts[1..]);
      [f.node] + Level(info, f.rest)
  }

  lemma AbsorbUnfold(info: Info, id: Nid, followers: seq<Tree>)
    ensures followers == [] || !info.auto(id, followers[0].id) ==>
      Absorb(info, id, followers) == Absorbed([], followers)
    ensures followers != [] && info.auto(id, followers[0].id) ==>
      var f := Finalize(info, followers[0], followers[1..]);
      var more := Absorb(info, id, f.rest);
      && Absorb(info, id, followers) == Absorbed([f.node] + more.taken, more.rest)
      && Size(f.rest) < Size(followers)
  {
    hide Finalize;
  }

  lemma SizeOfFirst(t: Tree, followers: seq<Tree>)
    ensures Size([t] + followers) == 1 + Size(t.kids) + Size(followers)
  {
    assert ([t] + followers)[1..] == followers;
  }

  // ---- order --------------------------------------------------------------------------------

  function NonIfs(info: Info, ids: seq<Nid>): seq<Nid> {
    if ids == [] then [] else (if info.kind(ids[0]) == If then [] else [ids[0]]) + NonIfs(info, ids[1..])
  }

  lemma {:induction false} NonIfsConcat(info: Info, a: seq<Nid>, b: seq<Nid>)
    ensures NonIfs(info, a + b) == NonIfs(info, a) + NonIfs(info, b)
  {
    if a == [] {
      assert a + b == b;
    } else {
      assert (a + b)[1..] == a[1..] + b;
      NonIfsConcat(info, a[1..], b);
    }
  }

  /** Flattening does not change the order at all. */
  lemma {:induction false} FlattenKeepsOrder(info: Info, ts: seq<Tree>)
    ensures Pre(Flatten(info, ts)) == Pre(ts) && Ids(Flatten(info, ts)) == Ids(ts)
    ensures forall t :: t in Flatten(info, ts) ==> t.kids == [] || info.prompt(t.id) || info.kind(t.id) == Choice
    decreases Size(ts)
  {
    hide Flatten, Pre, Ids, Size;
    FlattenUnfold(info, ts);
    if ts != [] {
      var t := ts[0];
      Split(ts);
      PreFirst(t, ts[1..]);
      if t.kids != [] && !info.prompt(t.id) && info.kind(t.id) != Choice {
        ConcatTrees(t.kids, ts[1..]);
        FlattenKeepsOrder(info, t.kids + ts[1..]);
        PreFirst(Node(t.id, []), Flatten(info, t.kids + ts[1..]));
        NoOrder(info);
        assert [t.id] + [] + (Pre(t.kids) + Pre(ts[1..])) == [t.id] + Pre(t.kids) + Pre(ts[1..]);
      } else {
        FlattenKeepsOrder(info, ts[1..]);
        PreFirst(t, Flatten(info, ts[1..]));
      }
    }
  }

  /** 'if' nodes have no prompt. */
  ghost predicate InfoOk(info: Info) { forall x :: info.kind(x) == If ==> !info.prompt(x) }

  /** No 'if' node, at any depth. */
  predicate IfFree(info: Info, ts: seq<Tree>) { forall x :: x in Ids(ts) ==> info.kind(x) != If }

  /** No 'if' node below the top level. */
  predicate IfFreeBelow(info: Info, ts: seq<Tree>) {
    ts == [] || (IfFree(info, ts[0].kids) && IfFreeBelow(info, ts[1..]))
  }

  lemma {:induction false} IfFreeConcat(info: Info, a: seq<Tree>, b: seq<Tree>)
    ensures IfFreeBelow(info, a + b) <==> IfFreeBelow(info, a) && IfFreeBelow(info, b)
  {
    if a == [] {
      assert a + b == b;
    } else {
      assert (a + b)[1..] == a[1..] + b;
      IfFreeConcat(info, a[1..], b);
    }
  }

  lemma {:induction false} IfFreeIsBelow(info: Info, ts: seq<Tree>)
    requires IfFree(info, ts)
    ensures IfFreeBelow(info, ts)
  {
    if ts != [] { IfFreeIsBelow(info, ts[1..]); }
  }

  lemma {:induction false} FlattenIfFree(info: Info, ts: seq<Tree>)
    requires IfFreeBelow(info, ts)
    ensures IfFreeBelow(info, Flatten(info, ts))
    decreases Size(ts)
  {
    if ts != [] {
      var t := ts[0];
      if t.kids != [] && !info.prompt(t.id) && info.kind(t.id) != Choice {
        ConcatTrees(t.kids, ts[1..]);
        IfFreeIsBelow(info, t.kids);
        IfFreeConcat(info, t.kids, ts[1..]);
        FlattenIfFree(info, t.kids + ts[1..]);
        IfFreeConcat(info, [Node(t.id, [])], Flatten(info, t.kids + ts[1..]));
      } else {
        FlattenIfFree(info, ts[1..]);
        IfFreeConcat(info, [t], Flatten(info, ts[1..]));
      }
    }
  }

  predicate IfsAreLeaves(info: Info, ts: seq<Tree>) { forall t :: t in ts && info.kind(t.id) == If ==> t.kids == [] }

  lemma {:induction false} RemoveIfsKeepsOrder(info: Info, ts: seq<Tree>)
    requires IfFreeBelow(info, ts) && IfsAreLeaves(info, ts)
    ensures NonIfs(info, Pre(RemoveIfs(info, ts))) == NonIfs(info, Pre(ts))
    ensures IfFree(info, RemoveIfs(info, ts)) && Ids(RemoveIfs(info, ts)) <= Ids(ts)
  {
    if ts != [] {
      var t, rest := ts[0], RemoveIfs(info, ts[1..]);
      RemoveIfsKeepsOrder(info, ts[1..]);
      NonIfsConcat(info, [t.id] + Pre(t.kids), Pre(ts[1..]));
      if info.kind(t.id) == If {
        assert Pre(t.kids) == [] && [] + rest == rest;
        assert [t.id][1..] == [];
      } else {
        assert ([t] + rest)[1..] == rest;
        NonIfsConcat(info, [t.id] + Pre(t.kids), Pre(rest));
      }
    }
  }

  /** Flattening a level of finalised nodes and removing its 'if' nodes. */
  lemma CleanLevel(info: Info, ts: seq<Tree>)
    requires InfoOk(info) && IfFreeBelow(info, ts)
    ensures var r := RemoveIfs(info, Flatten(info, ts));
      NonIfs(info, Pre(r)) == NonIfs(info, Pre(ts)) && IfFree(info, r) && Ids(r) <= Ids(ts)
  {
    FlattenKeepsOrder(info, ts);
    FlattenIfFree(info, ts);
    RemoveIfsKeepsOrder(info, Flatten(info, ts));
  }

  /** Finalising a node keeps the order of the nodes that are not 'if' nodes, over the node and the
      siblings that follow it, and leaves no 'if' node below it. */
  lemma {:induction false} FinalizeKeepsOrder(info: Info, t: Tree, followers: seq<Tree>)
    requires InfoOk(info)
    ensures var f := Finalize(info, t, followers);
      && f.node.id == t.id && IfFree(info, f.node.kids)
      && NonIfs(info, Pre([f.node] + f.rest)) == NonIfs(info, Pre([t] + followers))
    decreases Size([t] + followers), 1
  {
    hide Flatten, RemoveIfs, Ids, Pre, NonIfs, Level, Absorb;
    SizeOfFirst(t, followers);
    NoOrder(info);
    var f := Finalize(info, t, followers);
    if t.kids != [] {
      LevelKeepsOrder(info, t.kids);
      CleanLevel(info, Level(info, t.kids));
      SameOrderAbove(info, t.id, f.node.kids, t.kids, followers, followers);
    } else if info.kind(t.id) == Symbol {
      AbsorbKeepsOrder(info, t.id, followers);
      var a := Absorb(info, t.id, followers);
      CleanLevel(info, a.taken);
      NonIfsConcat(info, Pre(a.taken), Pre(a.rest));
      ConcatTrees(a.taken, a.rest);
      FirstOrder(info, f.node, a.rest);
      FirstOrder(info, t, followers);
    }
  }

  lemma NoOrder(info: Info)
    ensures Pre([]) == [] && NonIfs(info, []) == [] && Ids([]) == {}
  {
  }

  lemma FirstOrder(info: Info, t: Tree, rest: seq<Tree>)
    ensures NonIfs(info, Pre([t] + rest)) == NonIfs(info, [t.id]) + NonIfs(info, Pre(t.kids)) + NonIfs(info, Pre(rest))
  {
    assert ([t] + rest)[1..] == rest;
    NonIfsConcat(info, [t.id] + Pre(t.kids), Pre(rest));
    NonIfsConcat(info, [t.id], Pre(t.kids));
  }

  lemma SameOrderAbove(info: Info, id: Nid, k1: seq<Tree>, k2: seq<Tree>, r1: seq<Tree>, r2: seq<Tree>)
    requires NonIfs(info, Pre(k1)) == NonIfs(info, Pre(k2)) && NonIfs(info, Pre(r1)) == NonIfs(info, Pre(r2))
    ensures NonIfs(info, Pre([Node(id, k1)] + r1)) == NonIfs(info, Pre([Node(id, k2)] + r2))
  {
    FirstOrder(info, Node(id, k1), r1);
    FirstOrder(info, Node(id, k2), r2);
  }

  lemma {:induction false} AbsorbKeepsOrder(info: Info, id: Nid, followers: seq<Tree>)
    requires InfoOk(info)
    ensures var a := Absorb(info, id, followers);
      IfFreeBelow(info, a.taken) && NonIfs(info, Pre(a.taken + a.rest)) == NonIfs(info, Pre(followers))
    decreases Size(followers), 2
  {
    hide Pre, NonIfs, Ids, Finalize, Absorb, Size;
    AbsorbUnfold(info, id, followers);
    var a := Absorb(info, id, followers);
    if followers == [] || !info.auto(id, followers[0].id) {
      assert a.taken + a.rest == followers;
    } else {
      assert [followers[0]] + followers[1..] == followers;
      FinalizeKeepsOrder(info, followers[0], followers[1..]);
      var f := Finalize(info, followers[0], followers[1..]);
      AbsorbKeepsOrder(info, id, f.rest);
      var more := Absorb(info, id, f.rest);
      assert a.taken + a.rest == [f.node] + (more.taken + more.rest);
      assert a.taken[1..] == more.taken;
      FirstOrder(info, f.node, more.taken + more.rest);
      FirstOrder(info, f.node, f.rest);
    }
  }

  lemma {:induction false} LevelKeepsOrder(info: Info, ts: seq<Tree>)
    requires InfoOk(info)
    ensures IfFreeBelow(info, Level(info, ts)) && NonIfs(info, Pre(Level(info, ts))) == NonIfs(info, Pre(ts))
    decreases Size(ts), 2
  {
    if ts != [] {
      assert [ts[0]] + ts[1..] == ts;
      FinalizeKeepsOrder(info, ts[0], ts[1..]);
      var f := Finalize(info, ts[0], ts[1..]);
      LevelKeepsOrder(info, f.rest);
      assert Level(info, ts)[1..] == Level(info, f.rest);
      FirstOrder(info, f.node, Level(info, f.rest));
      FirstOrder(info, f.node, f.rest);
    }
  }

  // ---- no node is duplicated ------------------------------------------------------------------

  lemma DistinctFirst(t: Tree, rest: seq<Tree>)
    ensures Ids([t] + rest) == {t.id} + Ids(t.kids) + Ids(rest)
    ensures Distinct([t] + rest) <==>
      t.id !in Ids(t.kids) && t.id !in Ids(rest) && Ids(t.kids) !! Ids(rest) && Distinct(t.kids) && Distinct(rest)
  {
    assert ([t] + rest)[1..] == rest;
  }

  lemma {:induction false} FlattenDistinct(info: Info, ts: seq<Tree>)
    requires Distinct(ts)
    ensures Distinct(Flatten(info, ts)) && Ids(Flatten(info, ts)) == Ids(ts)
    decreases Size(ts)
  {
    if ts != [] {
      var t := ts[0];
      if t.kids != [] && !info.prompt(t.id) && info.kind(t.id) != Choice {
        ConcatTrees(t.kids, ts[1..]);
        FlattenDistinct(info, t.kids + ts[1..]);
        DistinctFirst(Node(t.id, []), Flatten(info, t.kids + ts[1..]));
      } else {
        FlattenDistinct(info, ts[1..]);
        DistinctFirst(t, Flatten(info, ts[1..]));
      }
    }
  }

  lemma {:induction false} RemoveIfsDistinct(info: Info, ts: seq<Tree>)
    requires Distinct(ts)
    ensures Distinct(RemoveIfs(info, ts)) && Ids(RemoveIfs(info, ts)) <= Ids(ts)
  {
    if ts != [] {
      RemoveIfsDistinct(info, ts[1..]);
      DistinctFirst(ts[0], RemoveIfs(info, ts[1..]));
      assert [] + RemoveIfs(info, ts[1..]) == RemoveIfs(info, ts[1..]);
    }
  }

  lemma CleanDistinct(info: Info, ts: seq<Tree>)
    requires Distinct(ts)
    ensures var r := RemoveIfs(info, Flatten(info, ts)); Distinct(r) && Ids(r) <= Ids(ts)
  {
    FlattenDistinct(info, ts);
    RemoveIfsDistinct(info, Flatten(info, ts));
  }

  lemma {:induction false} FinalizeDistinct(info: Info, t: Tree, followers: seq<Tree>)
    requires Distinct([t] + followers)
    ensures var f := Finalize(info, t, followers);
      Distinct([f.node] + f.rest) && Ids([f.node] + f.rest) <= Ids([t] + followers) && f.node.id == t.id
    decreases Size([t] + followers), 1
  {
    hide Flatten, RemoveIfs, Level, Absorb, Ids, Distinct;
    SizeOfFirst(t, followers);
    var f := Finalize(info, t, followers);
    DistinctFirst(t, followers);
    DistinctFirst(f.node, f.rest);
    if t.kids != [] {
      LevelDistinct(info, t.kids);
      CleanDistinct(info, Level(info, t.kids));
    } else if info.kind(t.id) == Symbol {
      AbsorbDistinct(info, t.id, followers);
      var a := Absorb(info, t.id, followers);
      ConcatTrees(a.taken, a.rest);
      CleanDistinct(info, a.taken);
    }
  }

  lemma {:induction false} AbsorbDistinct(info: Info, id: Nid, followers: seq<Tree>)
    requires Distinct(followers)
    ensures var a := Absorb(info, id, followers); Distinct(a.taken + a.rest) && Ids(a.taken + a.rest) <= Ids(followers)
    decreases Size(followers), 2
  {
    hide Ids, Distinct, Finalize, Absorb, Size;
    AbsorbUnfold(info, id, followers);
    var a := Absorb(info, id, followers);
    if followers == [] || !info.auto(id, followers[0].id) {
      assert a.taken + a.rest == followers;
    } else {
      assert [followers[0]] + followers[1..] == followers;
      var f := Finalize(info, followers[0], followers[1..]);
      var more := Absorb(info, id, f.rest);
      FinalizeDistinct(info, followers[0], followers[1..]);
      DistinctFirst(f.node, f.rest);
      AbsorbDistinct(info, id, f.rest);
      assert a.taken + a.rest == [f.node] + (more.taken + more.rest);
      DistinctFirst(f.node, more.taken + more.rest);
    }
  }

  lemma {:induction false} LevelDistinct(info: Info, ts: seq<Tree>)
    requires Distinct(ts)
    ensures Distinct(Level(info, ts)) && Ids(Level(info, ts)) <= Ids(ts)
    decreases Size(ts), 2
  {
    if ts != [] {
      assert [ts[0]] + ts[1..] == ts;
      var f := Finalize(info, ts[0], ts[1..]);
      hide Ids, Distinct, Finalize;
      FinalizeDistinct(info, ts[0], ts[1..]);
      DistinctFirst(f.node, f.rest);
      LevelDistinct(info, f.rest);
      DistinctFirst(f.node, Level(info, f.rest));
    }
  }

  // ---- trees as pointers ------------------------------------------------------------------------

  /** The pointers of all nodes; a missing key is a null pointer. */
  datatype Links = Links(list: map<Nid, Nid>, next: map<Nid, Nid>, parent: map<Nid, Nid>)

  function At(m: map<Nid, Nid>, x: Nid): Option<Nid> { if x in m then Some(m[x]) else None }

  function Put(m: map<Nid, Nid>, x: Nid, p: Option<Nid>): map<Nid, Nid> { if p.Some? then m[x := p.value] else m - {x} }

  function Head(ts: seq<Tree>, end: Option<Nid>): Option<Nid> { if ts == [] then end else Some(ts[0].id) }

  /** From `first`, the next pointers lead through the nodes of `ts`, with parent `par`, to `end`; and
      so on for the children of each. */
  predicate Rep(l: Links, ts: seq<Tree>, first: Option<Nid>, end: Option<Nid>, par: Option<Nid>) {
    if ts == [] then first == end
    else
      var x := ts[0].id;
      && first == Some(x) && At(l.parent, x) == par
      && Rep(l, ts[0].kids, At(l.list, x), None, Some(x))
      && Rep(l, ts[1..], At(l.next, x), end, par)
  }

  predicate SameAt(l1: Links, l2: Links, x: Nid) {
    At(l1.list, x) == At(l2.list, x) && At(l1.next, x) == At(l2.next, x) && At(l1.parent, x) == At(l2.parent, x)
  }

  predicate SameOn(l1: Links, l2: Links, ids: set<Nid>) { forall x :: x in ids ==> SameAt(l1, l2, x) }

  ghost predicate SameOutside(l1: Links, l2: Links, ids: set<Nid>) { forall x :: x !in ids ==> SameAt(l1, l2, x) }

  lemma {:induction false} RepFrame(l1: Links, l2: Links, ts: seq<Tree>, first: Option<Nid>, end: Option<Nid>,
                                    par: Option<Nid>)
    requires Rep(l1, ts, first, end, par) && SameOn(l1, l2, Ids(ts))
    ensures Rep(l2, ts, first, end, par)
  {
    if ts != [] {
      var x := ts[0].id;
      assert SameAt(l1, l2, x);
      RepFrame(l1, l2, ts[0].kids, At(l1.list, x), None, Some(x));
      RepFrame(l1, l2, ts[1..], At(l1.next, x), end, par);
    }
  }

  lemma {:induction false} RepConcat(l: Links, a: seq<Tree>, b: seq<Tree>, first: Option<Nid>, end: Option<Nid>,
                                     par: Option<Nid>)
    ensures Rep(l, a + b, first, end, par) <==> Rep(l, a, first, Head(b, end), par) && Rep(l, b, Head(b, end), end, par)
  {
    if a == [] {
      assert a + b == b;
    } else {
      assert (a + b)[1..] == a[1..] + b;
      RepConcat(l, a[1..], b, At(l.next, a[0].id), end, par);
    }
  }

  /** Redirecting the next pointer of the last node. */
  lemma {:induction false} RepRelink(l: Links, l': Links, ts: seq<Tree>, first: Option<Nid>, end: Option<Nid>,
                                     end': Option<Nid>, par: Option<Nid>)
    requires ts != [] && Distinct(ts) && Rep(l, ts, first, end, par)
    requires var x := ts[|ts| - 1].id;
      && At(l'.next, x) == end' && At(l'.list, x) == At(l.list, x) && At(l'.parent, x) == At(l.parent, x)
      && forall y :: y in Ids(ts) && y != x ==> SameAt(l, l', y)
    ensures Rep(l', ts, first, end', par)
  {
    var last := |ts| - 1;
    assert ts == ts[..last] + [ts[last]];
    ConcatTrees(ts[..last], [ts[last]]);
    RepConcat(l, ts[..last], [ts[last]], first, end, par);
    RepConcat(l', ts[..last], [ts[last]], first, end', par);
    DistinctFirst(ts[last], []);
    assert [ts[last]] + [] == [ts[last]];
    RepFrame(l, l', ts[..last], first, Some(ts[last].id), par);
    RepFrame(l, l', ts[last].kids, At(l.list, ts[last].id), None, Some(ts[last].id));
  }

  function SetNext(l: Links, x: Nid, p: Option<Nid>): Links { l.(next := Put(l.next, x, p)) }
  function SetList(l: Links, x: Nid, p: Option<Nid>): Links { l.(list := Put(l.list, x, p)) }
  function SetParent(l: Links, x: Nid, p: Option<Nid>): Links { l.(parent := Put(l.parent, x, p)) }

  lemma SetEffect(l: Links, x: Nid, p: Option<Nid>)
    ensures var r := SetNext(l, x, p);
      At(r.next, x) == p && At(r.list, x) == At(l.list, x) && At(r.parent, x) == At(l.parent, x)
        && SameOutside(l, r, {x})
    ensures var r := SetList(l, x, p);
      At(r.list, x) == p && At(r.next, x) == At(l.next, x) && At(r.parent, x) == At(l.parent, x)
        && SameOutside(l, r, {x})
    ensures var r := SetParent(l, x, p);
      At(r.parent, x) == p && At(r.next, x) == At(l.next, x) && At(r.list, x) == At(l.list, x) && SameOutside(l, r, {x})
  {
  }

  /** Moving a whole list to another parent, one node at a time, happens on its top level only. */
  lemma RepReparentFirst(l: Links, l': Links, t: Tree, rest: seq<Tree>, end: Option<Nid>, par: Option<Nid>,
                         par': Option<Nid>)
    requires Distinct([t] + rest) && Rep(l, [t] + rest, Some(t.id), end, par)
    requires l' == SetParent(l, t.id, par')
    ensures Rep(l', [t], Some(t.id), At(l.next, t.id), par') && Rep(l', rest, At(l.next, t.id), end, par)
    ensures At(l.next, t.id) == Head(rest, end)
  {
    hide Ids, Distinct, Rep, At, SetParent;
    DistinctFirst(t, rest);
    SetEffect(l, t.id, par');
    RepFirst(l, t, rest, Some(t.id), end, par);
    RepHead(l, rest, At(l.next, t.id), end, par);
    RepFirst(l', t, [], Some(t.id), At(l.next, t.id), par');
    NoNodes(l', At(l.next, t.id), par');
    assert [t] + [] == [t];
    RepFrame(l, l', t.kids, At(l.list, t.id), None, Some(t.id));
    RepFrame(l, l', rest, At(l.next, t.id), end, par);
  }

  lemma RepFirst(l: Links, t: Tree, rest: seq<Tree>, first: Option<Nid>, end: Option<Nid>, par: Option<Nid>)
    ensures Rep(l, [t] + rest, first, end, par) <==>
      && first == Some(t.id) && At(l.parent, t.id) == par
      && Rep(l, t.kids, At(l.list, t.id), None, Some(t.id)) && Rep(l, rest, At(l.next, t.id), end, par)
  {
    assert ([t] + rest)[1..] == rest;
  }

  lemma RepHead(l: Links, ts: seq<Tree>, first: Option<Nid>, end: Option<Nid>, par: Option<Nid>)
    requires Rep(l, ts, first, end, par)
    ensures first == Head(ts, end)
  {
  }

  /** One round of the loop of RaiseChildren. */
  lemma Reparented(l: Links, x: Nid, kids: seq<Tree>, k: nat, par: Option<Nid>)
    requires k < |kids| && Distinct(kids) && x !in Ids(kids)
    requires Rep(l, kids[..k], At(l.list, x), Some(kids[k].id), par)
      && Rep(l, kids[k..], Some(kids[k].id), None, Some(x))
    ensures var l' := SetParent(l, kids[k].id, par);
      && kids[k].id in Ids(kids) && SameOutside(l, l', Ids(kids))
      && At(l'.next, kids[k].id) == Head(kids[k + 1..], None)
      && Rep(l', kids[..k + 1], At(l'.list, x), At(l'.next, kids[k].id), par)
      && Rep(l', kids[k + 1..], At(l'.next, kids[k].id), None, Some(x))
  {
    hide Ids, Distinct, Rep, At, SetParent;
    var t, rest := kids[k], kids[k + 1..];
    var l' := SetParent(l, t.id, par);
    assert kids[k..] == [t] + rest;
    assert kids == kids[..k] + kids[k..];
    ConcatTrees(kids[..k], kids[k..]);
    DistinctFirst(t, rest);
    SetEffect(l, t.id, par);
    assert SameAt(l, l', x);
    RepReparentFirst(l, l', t, rest, None, Some(x), par);
    RepFrame(l, l', kids[..k], At(l.list, x), Some(t.id), par);
    RepConcat(l', kids[..k], [t], At(l.list, x), At(l'.next, t.id), par);
    assert kids[..k + 1] == kids[..k] + [t];
  }

  lemma NoNodes(l: Links, p: Option<Nid>, par: Option<Nid>)
    ensures Rep(l, [], p, p, par)
  {
  }

  /** What the last three assignments of RaiseChildren amount to. */
  lemma Splice(l: Links, x: Nid, kids: seq<Tree>, tail: seq<Tree>, par: Option<Nid>)
    requires kids != [] && Distinct([Node(x, kids)] + tail) && At(l.parent, x) == par
    requires Rep(l, kids, At(l.list, x), None, par) && Rep(l, tail, At(l.next, x), None, par)
    ensures var last := kids[|kids| - 1].id;
      var l1 := SetNext(l, last, At(l.next, x));
      var l2 := SetNext(l1, x, At(l1.list, x));
      var l3 := SetList(l2, x, None);
      && Rep(l3, [Node(x, [])] + (kids + tail), Some(x), None, par)
      && SameOutside(l, l3, {x} + Ids(kids))
  {
    hide Ids, Distinct, Rep, At, SetList, SetNext, SameAt;
    var last := kids[|kids| - 1].id;
    var l1 := SetNext(l, last, At(l.next, x));
    DistinctFirst(Node(x, kids), tail);
    ConcatTrees(kids, tail);
    TopIds(kids, |kids| - 1);
    NextAffects(l, last, At(l.next, x), x);
    Relinked(l, l1, kids, tail, At(l.list, x), At(l.next, x), par);
    Raised(l1, x, kids + tail, par);
    var l3 := SetList(SetNext(l1, x, At(l1.list, x)), x, None);
    forall y | y !in {x} + Ids(kids) ensures SameAt(l, l3, y) { SameTwice(l, l1, l3, y); }
  }

  lemma SameTwice(l1: Links, l2: Links, l3: Links, x: Nid)
    requires SameAt(l1, l2, x) && SameAt(l2, l3, x)
    ensures SameAt(l1, l3, x)
  {
  }

  lemma NextAffects(l: Links, x: Nid, p: Option<Nid>, y: Nid)
    requires x != y
    ensures var r := SetNext(l, x, p);
      At(r.parent, y) == At(l.parent, y) && At(r.list, y) == At(l.list, y) && SameOutside(l, r, {x})
  {
  }

  lemma Raised(l: Links, x: Nid, ts: seq<Tree>, par: Option<Nid>)
    requires At(l.parent, x) == par && x !in Ids(ts) && Rep(l, ts, At(l.list, x), None, par)
    ensures var l' := SetList(SetNext(l, x, At(l.list, x)), x, None);
      Rep(l', [Node(x, [])] + ts, Some(x), None, par) && SameOutside(l, l', {x})
  {
    hide Ids, Rep;
    var l' := SetList(SetNext(l, x, At(l.list, x)), x, None);
    RepFrame(l, l', ts, At(l.list, x), None, par);
    NoNodes(l', None, Some(x));
    RepFirst(l', Node(x, []), ts, Some(x), None, par);
  }

  lemma Relinked(l: Links, l1: Links, kids: seq<Tree>, tail: seq<Tree>, first: Option<Nid>, second: Option<Nid>,
                 par: Option<Nid>)
    requires kids != [] && Distinct(kids + tail) && l1 == SetNext(l, kids[|kids| - 1].id, second)
    requires Rep(l, kids, first, None, par) && Rep(l, tail, second, None, par)
    ensures Rep(l1, kids + tail, first, None, par)
  {
    hide Ids, Distinct, Rep, At, SetNext;
    ConcatTrees(kids, tail);
    TopIds(kids, |kids| - 1);
    SetEffect(l, kids[|kids| - 1].id, second);
    RepHead(l, tail, second, None, par);
    RepRelink(l, l1, kids, first, None, second, par);
    RepFrame(l, l1, tail, second, None, par);
    RepConcat(l1, kids, tail, first, None, par);
  }

  lemma {:induction false} TopIds(ts: seq<Tree>, k: nat)
    requires k < |ts|
    ensures ts[k].id in Ids(ts) && Ids(ts[k].kids) <= Ids(ts)
  {
    if k > 0 { TopIds(ts[1..], k - 1); }
  }

  lemma {:induction false} FlattenUnfold(info: Info, ts: seq<Tree>)
    ensures ts == [] ==> Flatten(info, ts) == []
    ensures ts != [] && ts[0].kids != [] && !info.prompt(ts[0].id) && info.kind(ts[0].id) != Choice ==>
      && Flatten(info, ts) == [Node(ts[0].id, [])] + Flatten(info, ts[0].kids + ts[1..])
      && Size(ts[0].kids + ts[1..]) < Size(ts)
    ensures ts != [] && !(ts[0].kids != [] && !info.prompt(ts[0].id) && info.kind(ts[0].id) != Choice) ==>
      Flatten(info, ts) == [ts[0]] + Flatten(info, ts[1..]) && Size(ts[1..]) < Size(ts)
  {
    if ts != [] { ConcatTrees(ts[0].kids, ts[1..]); }
  }

  lemma RemoveIfsUnfold(info: Info, ts: seq<Tree>)
    requires ts != []
    ensures RemoveIfs(info, ts) == (if info.kind(ts[0].id) == If then [] else [ts[0]]) + RemoveIfs(info, ts[1..])
  {
  }

  lemma Split(ts: seq<Tree>)
    requires ts != []
    ensures ts == [ts[0]] + ts[1..]
  {
  }

  /** The menu nodes and their pointers. */
  class MenuTree {
    var links: Links
    const info: Info

    constructor (links: Links, info: Info)
      ensures this.links == links && this.info == info
    {
      this.links := links;
      this.info := info;
    }

    /** The children of `x` become the siblings that follow it. */
    method RaiseChildren(x: Nid, ghost kids: seq<Tree>, ghost tail: seq<Tree>, ghost par: Option<Nid>)
      requires kids != [] && Distinct([Node(x, kids)] + tail)
      requires Rep(links, [Node(x, kids)] + tail, Some(x), None, par)
      modifies `links
      ensures Rep(links, [Node(x, [])] + (kids + tail), Some(x), None, par)
      ensures SameOutside(old(links), links, {x} + Ids(kids))
    {
      hide Ids, Distinct, Rep, SetParent, SetNext, SetList;
      DistinctFirst(Node(x, kids), tail);
      RepFirst(links, Node(x, kids), tail, Some(x), None, par);
      RepHead(links, kids, At(links.list, x), None, Some(x));
      var last := links.list[x];
      ghost var k := 0;
      NoNodes(links, At(links.list, x), par);
      assert kids[0..] == kids && kids[..0] == [];
      while true
        invariant k < |kids| && last == kids[k].id
        invariant SameOutside(old(links), links, Ids(kids))
        invariant Rep(links, kids[..k], At(links.list, x), Some(last), par)
        invariant Rep(links, kids[k..], Some(last), None, Some(x))
        decreases |kids| - k
      {
        assert SameAt(old(links), links, x);
        Reparented(links, x, kids, k, par);
        links := SetParent(links, last, At(links.parent, x));
        if last !in links.next { break; }
        last := links.next[last];
        k := k + 1;
      }
      assert kids[..k + 1] == kids;
      assert SameAt(old(links), links, x);
      RepFrame(old(links), links, tail, At(links.next, x), None, par);
      Splice(links, x, kids, tail, par);
      links := SetNext(links, last, At(links.next, x));
      links := SetNext(links, x, At(links.list, x));
      links := SetList(links, x, None);
    }

    /** The nodes from `first` to the end of its list. */
    method FlattenList(first: Option<Nid>, ghost ts: seq<Tree>, ghost par: Option<Nid>)
      requires Distinct(ts) && Rep(links, ts, first, None, par)
      modifies `links
      ensures Rep(links, Flatten(info, ts), first, None, par)
      ensures SameOutside(old(links), links, Ids(ts))
    {
      hide Ids, Distinct, Rep, Flatten, Size, SameAt;
      var node := first;
      ghost var done, rest := [], ts;
      NoNodes(links, first, par);
      assert [] + ts == ts;
      SameReflexive(links, Ids(ts));
      assert [] + Flatten(info, rest) == Flatten(info, rest);
      while node.Some?
        invariant Flatten(info, ts) == done + Flatten(info, rest)
        invariant Distinct(done + rest) && Ids(done + rest) == Ids(ts)
        invariant Rep(links, done, first, node, par) && Rep(links, rest, node, None, par)
        invariant SameOutside(old(links), links, Ids(ts))
        decreases Size(rest)
      {
        RepHead(links, rest, node, None, par);
        Split(rest);
        ghost var before, t := links, rest[0];
        FlattenUnfold(info, rest);
        ConcatTrees(done, rest);
        RepFirst(links, t, rest[1..], node, None, par);
        RepHead(links, t.kids, At(links.list, t.id), None, Some(t.id));
        if node.value in links.list && !info.prompt(node.value) && info.kind(node.value) != Choice {
          RaisedIds(done, t.id, t.kids, rest[1..]);
          RaiseChildren(node.value, t.kids, rest[1..], par);
          rest := t.kids + rest[1..];
          t := Node(t.id, []);
          RepFrame(before, links, done, first, node, par);
          SameAfter(old(links), before, links, Ids(ts));
        } else {
          rest := rest[1..];
        }
        RepFirst(links, t, rest, node, None, par);
        Advance(links, done, t, rest, first, node, par);
        ghost var more := Flatten(info, rest);
        assert done + ([t] + more) == (done + [t]) + more;
        done := done + [t];
        node := At(links.next, node.value);
      }
      RepHead(links, rest, node, None, par);
      FlattenUnfold(info, rest);
      assert done + [] == done;
    }

    method SkipIfs(start: Option<Nid>, ghost ts: seq<Tree>, ghost par: Option<Nid>)
      returns (node: Option<Nid>, ghost k: nat)
      requires Rep(links, ts, start, None, par)
      ensures k <= |ts| && Rep(links, ts[k..], node, None, par) && RemoveIfs(info, ts) == RemoveIfs(info, ts[k..])
      ensures k < |ts| ==> info.kind(ts[k].id) != If
    {
      hide Rep, RemoveIfs;
      node, k := start, 0;
      assert ts[0..] == ts;
      RepHead(links, ts, start, None, par);
      while node.Some? && info.kind(node.value) == If
        invariant k <= |ts| && Rep(links, ts[k..], node, None, par) && RemoveIfs(info, ts) == RemoveIfs(info, ts[k..])
        invariant node == Head(ts[k..], None)
        decreases |ts| - k
      {
        Split(ts[k..]);
        RemoveIfsUnfold(info, ts[k..]);
        RepFirst(links, ts[k], ts[k..][1..], node, None, par);
        assert ts[k..][1..] == ts[k + 1..];
        assert [] + RemoveIfs(info, ts[k + 1..]) == RemoveIfs(info, ts[k + 1..]);
        node := At(links.next, node.value);
        RepHead(links, ts[k + 1..], node, None, par);
        k := k + 1;
      }
    }

    /** The children of `x`, flattened, lose their 'if' nodes. */
    method RemoveIfNodes(x: Nid, ghost ts: seq<Tree>)
      requires Distinct(ts) && x !in Ids(ts) && Rep(links, ts, At(links.list, x), None, Some(x))
      modifies `links
      ensures Rep(links, RemoveIfs(info, ts), At(links.list, x), None, Some(x))
      ensures SameOutside(old(links), links, {x} + Ids(ts))
      ensures At(links.next, x) == At(old(links).next, x) && At(links.parent, x) == At(old(links).parent, x)
    {
      hide Ids, Distinct, Rep, RemoveIfs, SetNext, SetList, At;
      var cur, k := SkipIfs(At(links.list, x), ts, Some(x));
      ghost var done, rest := [], ts[k..];
      Suffix(ts, k);
      SetEffect(links, x, cur);
      links := SetList(links, x, cur);
      RepFrame(old(links), links, rest, cur, None, Some(x));
      NoNodes(links, cur, Some(x));
      assert [] + rest == rest && [] + RemoveIfs(info, rest) == RemoveIfs(info, rest);
      while cur.Some?
        invariant RemoveIfs(info, ts) == done + RemoveIfs(info, rest)
        invariant Distinct(done + rest) && Ids(done + rest) <= Ids(ts)
        invariant Rep(links, done, At(links.list, x), cur, Some(x)) && Rep(links, rest, cur, None, Some(x))
        invariant rest != [] ==> info.kind(rest[0].id) != If
        invariant SameOutside(old(links), links, {x} + Ids(ts))
        invariant At(links.next, x) == At(old(links).next, x) && At(links.parent, x) == At(old(links).parent, x)
        decreases |rest|
      {
        RepHead(links, rest, cur, None, Some(x));
        ghost var before, t := links, rest[0];
        Split(rest);
        RemoveIfsUnfold(info, rest);
        RepFirst(links, t, rest[1..], cur, None, Some(x));
        var next, j := SkipIfs(At(links.next, cur.value), rest[1..], Some(x));
        links := SetNext(links, cur.value, next);
        SkippedTo(before, done, t, rest[1..], j, At(before.list, x), next, Some(x), x);
        SameAfter(old(links), before, links, {x} + Ids(ts));
        ghost var more := RemoveIfs(info, rest[1..][j..]);
        assert done + ([t] + more) == (done + [t]) + more;
        done, rest, cur := done + [t], rest[1..][j..], next;
      }
      RepHead(links, rest, cur, None, Some(x));
      assert done + [] == done;
      NothingLeft(info);
    }

    /** The last steps for the children of `x`. */
    method CleanChildren(x: Nid, ghost kids: seq<Tree>, ghost rest: seq<Tree>, ghost par: Option<Nid>)
      requires Distinct([Node(x, kids)] + rest) && Rep(links, [Node(x, kids)] + rest, Some(x), None, par)
      modifies `links
      ensures Rep(links, [Node(x, RemoveIfs(info, Flatten(info, kids)))] + rest, Some(x), None, par)
      ensures SameOutside(old(links), links, {x} + Ids(kids))
    {
      hide Ids, Distinct, Rep, RemoveIfs, Flatten;
      DistinctFirst(Node(x, kids), rest);
      FlattenDistinct(info, kids);
      RepFirst(links, Node(x, kids), rest, Some(x), None, par);
      RepHead(links, kids, At(links.list, x), None, Some(x));
      if x in links.list {
        FlattenList(At(links.list, x), kids, Some(x));
        assert SameAt(old(links), links, x);
        RemoveIfNodes(x, Flatten(info, kids));
      } else {
        NothingLeft(info);
      }
      RepFrame(old(links), links, rest, At(links.next, x), None, par);
      RepFirst(links, Node(x, RemoveIfs(info, Flatten(info, kids))), rest, Some(x), None, par);
    }

    /** The node `x`, given the siblings that follow it. */
    method FinalizeNode(x: Nid, ghost t: Tree, ghost followers: seq<Tree>, ghost par: Option<Nid>)
      requires Distinct([t] + followers) && Rep(links, [t] + followers, Some(x), None, par)
      modifies `links
      ensures var f := Finalize(info, t, followers); Rep(links, [f.node] + f.rest, Some(x), None, par)
      ensures SameOutside(old(links), links, Ids([t] + followers))
      decreases Size([t] + followers), 1
    {
      hide Ids, Distinct, Rep, RemoveIfs, Flatten, Level, Absorb, Size;
      SizeOfFirst(t, followers);
      DistinctFirst(t, followers);
      RepFirst(links, t, followers, Some(x), None, par);
      RepHead(links, t.kids, At(links.list, x), None, Some(x));
      ghost var kids, rest := t.kids, followers;
      if x in links.list {
        FinalizeLevel(At(links.list, x), t.kids, Some(x));
        assert SameAt(old(links), links, x);
        LevelDistinct(info, t.kids);
        kids := Level(info, t.kids);
        RepFrame(old(links), links, rest, At(links.next, x), None, par);
      } else if info.kind(x) == Symbol {
        assert t == Node(x, []);
        TakeFollowers(x, followers, par);
        AbsorbDistinct(info, x, followers);
        ghost var a := Absorb(info, x, followers);
        kids, rest := a.taken, a.rest;
        ConcatTrees(kids, rest);
        RepFirst(links, Node(x, kids), rest, Some(x), None, par);
      }
      RepFirst(links, Node(x, kids), rest, Some(x), None, par);
      DistinctFirst(Node(x, kids), rest);
      if x in links.list {
        CleanChildren(x, kids, rest, par);
      } else {
        RepHead(links, kids, At(links.list, x), None, Some(x));
        NothingLeft(info);
      }
    }

    /** The children of a node, one after the other; each may take followers out of the list. */
    method FinalizeLevel(first: Option<Nid>, ghost ts: seq<Tree>, ghost par: Option<Nid>)
      requires Distinct(ts) && Rep(links, ts, first, None, par)
      modifies `links
      ensures Rep(links, Level(info, ts), first, None, par)
      ensures SameOutside(old(links), links, Ids(ts))
      decreases Size(ts), 2
    {
      hide Ids, Distinct, Rep, Level, Finalize, Size, SameAt;
      var cur := first;
      ghost var done, rest := [], ts;
      NoNodes(links, first, par);
      SameReflexive(links, Ids(ts));
      assert [] + ts == ts && [] + Level(info, rest) == Level(info, rest);
      while cur.Some?
        invariant Level(info, ts) == done + Level(info, rest)
        invariant Distinct(done + rest) && Ids(done + rest) <= Ids(ts)
        invariant Rep(links, done, first, cur, par) && Rep(links, rest, cur, None, par)
        invariant SameOutside(old(links), links, Ids(ts)) && Size(rest) <= Size(ts)
        decreases Size(rest)
      {
        RepHead(links, rest, cur, None, par);
        Split(rest);
        ghost var before, f := links, Finalize(info, rest[0], rest[1..]);
        LevelUnfold(info, rest);
        ConcatTrees(done, rest);
        FinalizeNode(cur.value, rest[0], rest[1..], par);
        FinalizeDistinct(info, rest[0], rest[1..]);
        ConcatTrees(done, [f.node] + f.rest);
        RepFrame(before, links, done, first, cur, par);
        SameAfter(old(links), before, links, Ids(ts));
        RepFirst(links, f.node, f.rest, cur, None, par);
        Advance(links, done, f.node, f.rest, first, cur, par);
        ghost var more := Level(info, f.rest);
        assert done + ([f.node] + more) == (done + [f.node]) + more;
        done, rest := done + [f.node], f.rest;
        cur := At(links.next, cur.value);
      }
      RepHead(links, rest, cur, None, par);
      LevelUnfold(info, rest);
      assert done + [] == done;
    }

    /** Finalises the siblings with an automatic menu dependency on `x` and makes `x` their parent;
        `last` is the last of them, or `x`. */
    method ClaimFollowers(x: Nid, ghost followers: seq<Tree>, ghost par: Option<Nid>) returns (last: Nid)
      requires Distinct([Node(x, [])] + followers) && Rep(links, [Node(x, [])] + followers, Some(x), None, par)
      modifies `links
      ensures var a := Absorb(info, x, followers); Claimed(links, x, last, a.taken, a.rest, par)
      ensures SameOutside(old(links), links, Ids(followers))
      decreases Size(followers), 2
    {
      hide Ids, Distinct, Rep, Absorb, Finalize, Size, SetParent, At, Claimed;
      last := x;
      ghost var taken, rest := [], followers;
      NoneClaimed(links, x, followers, par);
      assert [] + followers == followers && [] + Absorb(info, x, rest).taken == Absorb(info, x, rest).taken;
      while At(links.next, last).Some? && info.auto(x, At(links.next, last).value)
        invariant Absorb(info, x, followers) ==
          Absorbed(taken + Absorb(info, x, rest).taken, Absorb(info, x, rest).rest)
        invariant Claimed(links, x, last, taken, rest, par) && Ids(taken + rest) <= Ids(followers)
        invariant At(links.next, last) == Head(rest, None)
        invariant SameOutside(old(links), links, Ids(followers)) && Size(rest) <= Size(followers)
        decreases Size(rest)
      {
        ghost var before := links;
        ghost var f := Finalize(info, rest[0], rest[1..]);
        Split(rest);
        AbsorbUnfold(info, x, rest);
        ConcatTrees(taken, rest);
        ClaimedParts(links, x, last, taken, rest, par);
        FinalizeNode(At(links.next, last).value, rest[0], rest[1..], par);
        assert SameAt(before, links, last);
        last := At(links.next, last).value;
        FinalizeDistinct(info, rest[0], rest[1..]);
        ClaimOne(before, links, x, taken, rest, f, par);
        links := SetParent(links, last, Some(x));
        ghost var more := Absorb(info, x, f.rest);
        assert taken + ([f.node] + more.taken) == (taken + [f.node]) + more.taken;
        taken, rest := taken + [f.node], f.rest;
      }
      AbsorbUnfold(info, x, rest);
      assert taken + [] == taken;
    }

    /** The symbol node `x` takes the siblings with an automatic menu dependency on it as children. */
    method TakeFollowers(x: Nid, ghost followers: seq<Tree>, ghost par: Option<Nid>)
      requires Distinct([Node(x, [])] + followers) && Rep(links, [Node(x, [])] + followers, Some(x), None, par)
      modifies `links
      ensures var a := Absorb(info, x, followers); Rep(links, [Node(x, a.taken)] + a.rest, Some(x), None, par)
      ensures SameOutside(old(links), links, {x} + Ids(followers))
      decreases Size(followers), 3
    {
      hide Ids, Distinct, Rep, Absorb, Size, SetNext, SetList;
      var last := ClaimFollowers(x, followers, par);
      ghost var a, before := Absorb(info, x, followers), links;
      DistinctFirst(Node(x, []), followers);
      RepFirst(old(links), Node(x, []), followers, Some(x), None, par);
      EmptyRep(old(links), At(old(links).list, x), None, Some(x));
      assert SameAt(old(links), links, x);
      AbsorbDistinct(info, x, followers);
      ConcatTrees(a.taken, a.rest);
      if a.taken == [] {
        NoneTaken(links, x, a.rest, par);
      } else {
        TopIds(a.taken, |a.taken| - 1);
        Tilt(links, x, a.taken, a.rest, par);
      }
      if last != x {
        links := SetList(links, x, At(links.next, x));
        links := SetNext(links, x, At(links.next, last));
        links := SetNext(links, last, None);
      }
    }

    /** The jump of the iterative walk from `node`, whose children are `kids`, to the node after it. */
    method Jump(node: Nid, ghost kids: seq<Tree>, ghost above: seq<seq<Tree>>)
      returns (next: Option<Nid>, ghost kids': seq<Tree>, ghost above': seq<seq<Tree>>)
      requires Rep(links, kids, At(links.list, node), None, Some(node)) && Around(links, node, above)
      ensures next.None? <==> Pre(kids) + Todo(above) == []
      ensures next.Some? ==>
        && Rep(links, kids', At(links.list, next.value), None, next) && Around(links, next.value, above')
        && Pre(kids) + Todo(above) == [next.value] + Pre(kids') + Todo(above')
    {
      hide Rep, Around, Todo, Pre, Ids;
      kids', above' := kids, above;
      RepHead(links, kids, At(links.list, node), None, Some(node));
      if node in links.list {
        next := Some(links.list[node]);
        FirstChild(links, node, kids, above);
        above', kids' := [kids[1..]] + above, kids[0].kids;
        return;
      }
      NoOrder(info);
      assert [] + Todo(above) == Todo(above);
      var cur := node;
      while true
        invariant Around(links, cur, above') && Todo(above) == Todo(above')
        decreases |above'|
      {
        AboveParts(links, cur, above');
        if cur in links.next {
          next := Some(links.next[cur]);
          NextInLevel(links, cur, above');
          above', kids' := [above'[0][1..]] + above'[1..], above'[0][0].kids;
          return;
        }
        if cur !in links.parent {
          return None, kids', above';
        }
        cur, above' := links.parent[cur], above'[1..];
      }
    }

    /** The walk over all nodes below `top`; with `unique`, each symbol at its first node only. */
    method NodeIter(top: Nid, unique: bool, item: Nid -> nat, ghost kids: seq<Tree>) returns (out: seq<Nid>)
      requires Rep(links, [Node(top, kids)], Some(top), None, None)
      ensures out == if unique then Firsts(info, item, Pre(kids), {}) else Pre(kids)
    {
      hide Rep, Pre, Firsts, Todo, Around, At;
      StartOfWalk(links, top, kids);
      out := [];
      var node, visited: set<nat> := top, {};
      ghost var all, kids', above := Pre(kids), kids, [[]];
      assert all + [] == all;
      ghost var todo := all;
      while true
        invariant Rep(links, kids', At(links.list, node), None, Some(node)) && Around(links, node, above)
        invariant todo == Pre(kids') + Todo(above)
        invariant !unique ==> out + todo == all
        invariant unique ==> out + Firsts(info, item, todo, visited) == Firsts(info, item, all, {})
        decreases |todo|
      {
        var next;
        next, kids', above := Jump(node, kids', above);
        FirstsUnfold(info, item, todo, visited);
        if next.None? {
          assert out + [] == out;
          return;
        }
        node := next.value;
        ghost var rest := Pre(kids') + Todo(above);
        assert todo == [node] + rest && todo[1..] == rest;
        todo := rest;
        if unique && info.kind(node) == Symbol {
          if item(node) in visited { continue; }
          visited := visited + {item(node)};
        }
        out := out + [node];
      }
    }

    /** The whole tree is finalised and then walked: the walk meets the nodes as they were parsed,
        without the 'if' nodes. */
    method FinalizeAndWalk(top: Nid, unique: bool, item: Nid -> nat, ghost t: Tree) returns (out: seq<Nid>)
      requires InfoOk(info) && info.kind(top) != If && Distinct([t]) && Rep(links, [t], Some(top), None, None)
      modifies `links
      ensures var ids := NonIfs(info, Pre(t.kids)); out == if unique then Firsts(info, item, ids, {}) else ids
    {
      hide Rep, Pre, Firsts, NonIfs, Distinct, Ids, Finalize;
      assert [t] + [] == [t];
      RepFirst(links, t, [], Some(top), None, None);
      FinalTree(info, t);
      SizeOfRest(info, t);
      FinalizeNode(top, t, [], None);
      ghost var f := Finalize(info, t, []).node;
      assert [f] + [] == [f];
      RepFirst(links, f, [], Some(top), None, None);
      assert f == Node(top, f.kids);
      out := NodeIter(top, unique, item, f.kids);
    }
  }

  /** For a node and each node above it, the siblings still to visit. */
  predicate Around(l: Links, x: Nid, above: seq<seq<Tree>>)
    decreases |above|
  {
    && above != [] && Rep(l, above[0], At(l.next, x), None, At(l.parent, x))
    && if |above| == 1 then x !in l.parent else x in l.parent && Around(l, l.parent[x], above[1..])
  }

  function Todo(above: seq<seq<Tree>>): seq<Nid> { if above == [] then [] else Pre(above[0]) + Todo(above[1..]) }

  lemma FirstChild(l: Links, x: Nid, kids: seq<Tree>, above: seq<seq<Tree>>)
    requires kids != [] && Rep(l, kids, At(l.list, x), None, Some(x)) && Around(l, x, above)
    ensures var t, rest := kids[0], [kids[1..]] + above;
      && At(l.list, x) == Some(t.id) && Rep(l, t.kids, At(l.list, t.id), None, Some(t.id)) && Around(l, t.id, rest)
      && Pre(kids) + Todo(above) == [t.id] + Pre(t.kids) + Todo(rest)
  {
    hide Rep, Around, Todo, Pre, Ids;
    Split(kids);
    var t, siblings := kids[0], kids[1..];
    RepFirst(l, t, siblings, At(l.list, x), None, Some(x));
    AroundUnfold(l, t.id, siblings, above);
    AroundNonempty(l, x, above);
    PreFirst(t, siblings);
    assert [t.id] + Pre(t.kids) + Pre(siblings) + Todo(above) == [t.id] + Pre(t.kids) + (Pre(siblings) + Todo(above));
  }

  lemma AroundNonempty(l: Links, x: Nid, above: seq<seq<Tree>>)
    requires Around(l, x, above)
    ensures above != []
  {
  }

  /** Where there is no next sibling, the walk goes on above. */
  lemma AboveParts(l: Links, x: Nid, above: seq<seq<Tree>>)
    requires Around(l, x, above)
    ensures above != [] && (x !in l.next ==> above[0] == [] && Todo(above) == Todo(above[1..]))
    ensures x in l.next ==> Todo(above) != []
    ensures x in l.parent ==> above[1..] != [] && Around(l, l.parent[x], above[1..])
    ensures x !in l.parent && x !in l.next ==> Todo(above) == []
  {
    hide Rep, Pre, Ids;
    assert above == [above[0]] + above[1..];
    RepHead(l, above[0], At(l.next, x), None, At(l.parent, x));
    if x in l.next { Split(above[0]); PreFirst(above[0][0], above[0][1..]); } else { NoPre(); }
    assert [] + Todo(above[1..]) == Todo(above[1..]);
  }

  lemma NoPre()
    ensures Pre([]) == []
  {
  }

  lemma NextInLevel(l: Links, x: Nid, above: seq<seq<Tree>>)
    requires Around(l, x, above) && x in l.next
    ensures above[0] != [] && l.next[x] == above[0][0].id
    ensures var t, rest := above[0][0], [above[0][1..]] + above[1..];
      && Rep(l, t.kids, At(l.list, t.id), None, Some(t.id)) && Around(l, t.id, rest)
      && Todo(above) == [t.id] + Pre(t.kids) + Todo(rest)
  {
    hide Rep, Around, Todo, Pre, At, Ids;
    AroundNonempty(l, x, above);
    AroundUnfold(l, x, above[0], above[1..]);
    assert above == [above[0]] + above[1..];
    RepHead(l, above[0], At(l.next, x), None, At(l.parent, x));
    assert At(l.next, x) == Some(l.next[x]) by { AtHas(l.next, x); }
    Split(above[0]);
    var t, siblings := above[0][0], above[0][1..];
    RepFirst(l, t, siblings, At(l.next, x), None, At(l.parent, x));
    AtSame(l.parent, t.id, x);
    AroundUnfold(l, t.id, siblings, above[1..]);
    PreFirst(t, siblings);
    assert [t.id] + Pre(t.kids) + Pre(siblings) + Todo(above[1..]) ==
      [t.id] + Pre(t.kids) + (Pre(siblings) + Todo(above[1..]));
  }

  lemma AtHas(m: map<Nid, Nid>, x: Nid)
    ensures At(m, x).Some? <==> x in m
    ensures x in m ==> At(m, x) == Some(m[x])
  {
  }

  lemma AtSame(m: map<Nid, Nid>, x: Nid, y: Nid)
    requires At(m, x) == At(m, y)
    ensures x in m <==> y in m
    ensures x in m ==> m[x] == m[y]
  {
  }

  lemma AroundUnfold(l: Links, x: Nid, ts: seq<Tree>, above: seq<seq<Tree>>)
    ensures Around(l, x, [ts] + above) <==>
      && Rep(l, ts, At(l.next, x), None, At(l.parent, x))
      && if above == [] then x !in l.parent else x in l.parent && Around(l, l.parent[x], above)
    ensures Todo([ts] + above) == Pre(ts) + Todo(above)
  {
    assert ([ts] + above)[1..] == above;
  }

  lemma PreFirst(t: Tree, rest: seq<Tree>)
    ensures Pre([t] + rest) == [t.id] + Pre(t.kids) + Pre(rest) && Ids([t] + rest) == {t.id} + Ids(t.kids) + Ids(rest)
  {
    assert ([t] + rest)[1..] == rest;
  }

  lemma StartOfWalk(l: Links, top: Nid, kids: seq<Tree>)
    requires Rep(l, [Node(top, kids)], Some(top), None, None)
    ensures Rep(l, kids, At(l.list, top), None, Some(top)) && Around(l, top, [[]]) && Todo([[]]) == []
  {
    assert [Node(top, kids)][1..] == [];
  }

  /** The nodes without those of a symbol seen before. */
  function Firsts(info: Info, item: Nid -> nat, ids: seq<Nid>, seen: set<nat>): seq<Nid> {
    if ids == [] then []
    else if info.kind(ids[0]) != Symbol then [ids[0]] + Firsts(info, item, ids[1..], seen)
    else if item(ids[0]) in seen then Firsts(info, item, ids[1..], seen)
    else [ids[0]] + Firsts(info, item, ids[1..], seen + {item(ids[0])})
  }

  lemma FirstsUnfold(info: Info, item: Nid -> nat, ids: seq<Nid>, seen: set<nat>)
    ensures ids == [] ==> Firsts(info, item, ids, seen) == []
    ensures ids != [] && info.kind(ids[0]) == Symbol && item(ids[0]) in seen ==>
      Firsts(info, item, ids, seen) == Firsts(info, item, ids[1..], seen)
    ensures ids != [] && info.kind(ids[0]) == Symbol && item(ids[0]) !in seen ==>
      Firsts(info, item, ids, seen) == [ids[0]] + Firsts(info, item, ids[1..], seen + {item(ids[0])})
    ensures ids != [] && info.kind(ids[0]) != Symbol ==>
      Firsts(info, item, ids, seen) == [ids[0]] + Firsts(info, item, ids[1..], seen)
  {
  }

  /** Of each symbol exactly its first node is left, and every other node. */
  lemma {:induction false} FirstsEachOnce(info: Info, item: Nid -> nat, ids: seq<Nid>, seen: set<nat>, x: Nid)
    ensures x in Firsts(info, item, ids, seen) ==> x in ids && (info.kind(x) == Symbol ==> item(x) !in seen)
    ensures x in ids && info.kind(x) != Symbol ==> x in Firsts(info, item, ids, seen)
    ensures x in ids && info.kind(x) == Symbol && item(x) !in seen ==>
      exists y :: y in Firsts(info, item, ids, seen) && info.kind(y) == Symbol && item(y) == item(x)
    ensures forall i, j :: 0 <= i < j < |Firsts(info, item, ids, seen)| ==>
      SymbolsDiffer(info, item, Firsts(info, item, ids, seen)[i], Firsts(info, item, ids, seen)[j])
  {
    if ids != [] {
      var h, rest := ids[0], ids[1..];
      var seen' := if info.kind(h) == Symbol then seen + {item(h)} else seen;
      FirstsEachOnce(info, item, rest, seen', x);
      var more := Firsts(info, item, rest, seen');
      FirstsAvoid(info, item, rest, seen');
      assert Firsts(info, item, ids, seen) ==
        if info.kind(h) == Symbol && item(h) in seen then more else [h] + more by {
        assert info.kind(h) == Symbol && item(h) in seen ==> seen' == seen;
      }
      assert x == h ==> x in [h] + more;
    }
  }

  /** Position `k` holds no symbol, or the first node of one that was not seen. */
  predicate MetAt(info: Info, item: Nid -> nat, ids: seq<Nid>, seen: set<nat>, k: nat) {
    && k < |ids|
    && (info.kind(ids[k]) == Symbol ==>
          item(ids[k]) !in seen && forall j :: 0 <= j < k ==> SymbolsDiffer(info, item, ids[j], ids[k]))
  }

  predicate Rising(pos: seq<nat>) { forall i, j :: 0 <= i < j < |pos| ==> pos[i] < pos[j] }

  predicate Picks(ids: seq<Nid>, pos: seq<nat>, out: seq<Nid>) {
    |pos| == |out| && forall i :: 0 <= i < |pos| ==> pos[i] < |ids| && out[i] == ids[pos[i]]
  }

  /** The nodes are met in order, and exactly at those positions. */
  lemma {:induction false} FirstsInOrder(info: Info, item: Nid -> nat, ids: seq<Nid>, seen: set<nat>)
    returns (pos: seq<nat>)
    ensures Rising(pos) && Picks(ids, pos, Firsts(info, item, ids, seen))
    ensures forall k: nat :: k in pos <==> MetAt(info, item, ids, seen, k)
  {
    hide Firsts, MetAt, Rising, Picks;
    pos := [];
    FirstsUnfold(info, item, ids, seen);
    MetFirst(info, item, ids, seen);
    NonePicked(ids);
    if ids != [] {
      var h, rest := ids[0], ids[1..];
      var seen' := if info.kind(h) == Symbol then seen + {item(h)} else seen;
      var later := FirstsInOrder(info, item, rest, seen');
      var met := MetAt(info, item, ids, seen, 0);
      assert !met ==> seen' == seen;
      pos := Shifted(later, met);
      assert [] + Firsts(info, item, rest, seen') == Firsts(info, item, rest, seen');
      ShiftedPicks(ids, later, met, Firsts(info, item, rest, seen'));
      forall k: nat ensures k in pos <==> MetAt(info, item, ids, seen, k) {
        ShiftedIn(later, met, k);
        if k > 0 { MetLater(info, item, ids, seen, seen', k); }
      }
    }
  }

  lemma NonePicked(ids: seq<Nid>)
    ensures Rising([]) && Picks(ids, [], [])
  {
  }

  function Shifted(later: seq<nat>, first: bool): seq<nat> {
    (if first then [0] else []) + seq(|later|, i requires 0 <= i < |later| => later[i] + 1)
  }

  lemma ShiftedPicks(ids: seq<Nid>, later: seq<nat>, first: bool, out: seq<Nid>)
    requires ids != [] && Rising(later) && Picks(ids[1..], later, out)
    ensures Rising(Shifted(later, first)) && Picks(ids, Shifted(later, first), (if first then [ids[0]] else []) + out)
  {
  }

  lemma ShiftedIn(later: seq<nat>, first: bool, k: nat)
    ensures k in Shifted(later, first) <==> if k == 0 then first else k - 1 in later
  {
    var all := Shifted(later, first);
    var d := if first then 1 else 0;
    if k > 0 && k - 1 in later {
      var i :| 0 <= i < |later| && later[i] == k - 1;
      assert all[i + d] == k;
    }
    if k == 0 && first { assert all[0] == 0; }
  }

  lemma MetFirst(info: Info, item: Nid -> nat, ids: seq<Nid>, seen: set<nat>)
    ensures MetAt(info, item, ids, seen, 0) <==> ids != [] && (info.kind(ids[0]) == Symbol ==> item(ids[0]) !in seen)
    ensures ids == [] ==> forall k :: !MetAt(info, item, ids, seen, k)
  {
  }

  lemma MetLater(info: Info, item: Nid -> nat, ids: seq<Nid>, seen: set<nat>, seen': set<nat>, k: nat)
    requires ids != [] && 0 < k
    requires seen' == if info.kind(ids[0]) == Symbol then seen + {item(ids[0])} else seen
    ensures MetAt(info, item, ids, seen, k) <==> MetAt(info, item, ids[1..], seen', k - 1)
  {
    if k < |ids| && info.kind(ids[k]) == Symbol {
      assert ids[1..][k - 1] == ids[k];
      assert forall j :: 0 < j < k ==> ids[1..][j - 1] == ids[j];
    }
  }

  predicate SymbolsDiffer(info: Info, item: Nid -> nat, x: Nid, y: Nid) {
    info.kind(x) == Symbol && info.kind(y) == Symbol ==> item(x) != item(y)
  }

  lemma {:induction false} FirstsAvoid(info: Info, item: Nid -> nat, ids: seq<Nid>, seen: set<nat>)
    ensures forall x :: x in Firsts(info, item, ids, seen) && info.kind(x) == Symbol ==> item(x) !in seen
  {
    if ids != [] {
      FirstsAvoid(info, item, ids[1..], seen);
      FirstsAvoid(info, item, ids[1..], seen + {item(ids[0])});
    }
  }

  lemma {:induction false} PreIds(ts: seq<Tree>, x: Nid)
    ensures x in Pre(ts) <==> x in Ids(ts)
  {
    if ts != [] {
      PreIds(ts[0].kids, x);
      PreIds(ts[1..], x);
    }
  }

  lemma DistinctParts(ts: seq<Tree>, x: Nid)
    requires Distinct(ts) && ts != []
    ensures Distinct(ts[0].kids) && Distinct(ts[1..])
    ensures x in Ids(ts[0].kids) ==> x !in Ids(ts[1..]) && x != ts[0].id
    ensures x in Ids(ts[1..]) ==> x != ts[0].id
  {
    hide Ids;
  }

  lemma PreParts(ts: seq<Tree>)
    requires ts != []
    ensures Pre(ts) == [ts[0].id] + (Pre(ts[0].kids) + Pre(ts[1..]))
  {
    hide Pre;
    PreFirst(ts[0], ts[1..]);
    Split(ts);
  }

  /** The walk meets each node of the tree exactly once. */
  lemma {:induction false} PreOnce(ts: seq<Tree>)
    requires Distinct(ts)
    ensures forall x :: x in Pre(ts) <==> x in Ids(ts)
    ensures Once(Pre(ts))
  {
    forall x ensures x in Pre(ts) <==> x in Ids(ts) { PreIds(ts, x); }
    if ts != [] {
      hide Pre, Ids, Distinct, Once;
      var h, a, b := ts[0].id, Pre(ts[0].kids), Pre(ts[1..]);
      DistinctParts(ts, h);
      PreParts(ts);
      PreOnce(ts[0].kids);
      PreOnce(ts[1..]);
      forall x | x in a ensures x !in b && x != h { DistinctParts(ts, x); }
      forall x | x in b ensures x != h { DistinctParts(ts, x); }
      OnceConcat(a, b);
      OnceSingle(h);
      OnceConcat([h], a + b);
    } else {
      assert Pre(ts) == [];
    }
  }

  lemma OnceSingle(x: Nid)
    ensures Once([x])
  {
  }

  predicate Once(ids: seq<Nid>) { forall i, j :: 0 <= i < j < |ids| ==> ids[i] != ids[j] }

  lemma OnceConcat(a: seq<Nid>, b: seq<Nid>)
    requires Once(a) && Once(b) && forall x :: x in a ==> x !in b
    ensures Once(a + b)
  {
    forall i, j | 0 <= i < j < |a + b| ensures (a + b)[i] != (a + b)[j] {
      assert i < |a| ==> (a + b)[i] in a;
      assert |a| <= j ==> (a + b)[j] in b;
      assert |a| <= i ==> (a + b)[i] == b[i - |a|] && (a + b)[j] == b[j - |a|];
    }
  }

  lemma {:induction false} NonIfsIdentity(info: Info, ids: seq<Nid>)
    requires forall x :: x in ids ==> info.kind(x) != If
    ensures NonIfs(info, ids) == ids
  {
    if ids != [] { NonIfsIdentity(info, ids[1..]); }
  }

  /** The finalised tree, walked in order, is the parsed tree without its 'if' nodes, in definition
      order, and each node is there once. */
  lemma FinalTree(info: Info, top: Tree)
    requires InfoOk(info) && info.kind(top.id) != If && Distinct([top])
    ensures var f := Finalize(info, top, []).node;
      && Pre(f.kids) == NonIfs(info, Pre(top.kids)) && Distinct([f]) && IfFree(info, f.kids)
      && Once(Pre(f.kids))
  {
    hide Finalize, Distinct, Ids, Pre, NonIfs;
    assert [top] + [] == [top];
    FinalizeDistinct(info, top, []);
    FinalizeKeepsOrder(info, top, []);
    var f := Finalize(info, top, []);
    SizeOfRest(info, top);
    FirstOrder(info, f.node, f.rest);
    FirstOrder(info, top, []);
    DistinctFirst(f.node, []);
    assert [f.node] + [] == [f.node];
    PreOnce(f.node.kids);
    NonIfsIdentity(info, Pre(f.node.kids));
    NoOrder(info);
    var p, u, v := NonIfs(info, [top.id]), NonIfs(info, Pre(f.node.kids)), NonIfs(info, Pre(top.kids));
    assert (p + u + [])[|p|..] == u && (p + v + [])[|p|..] == v;
  }

  lemma SizeOfRest(info: Info, top: Tree)
    ensures Finalize(info, top, []).rest == []
  {
  }

  /** The nodes `taken` follow `x` and have it as parent, up to `last`; then comes `rest`. */
  predicate Claimed(l: Links, x: Nid, last: Nid, taken: seq<Tree>, rest: seq<Tree>, par: Option<Nid>) {
    && Distinct(taken + rest) && x !in Ids(taken + rest)
    && last == (if taken == [] then x else taken[|taken| - 1].id) && At(l.next, last) == Head(rest, None)
    && Rep(l, taken, At(l.next, x), Head(rest, None), Some(x)) && Rep(l, rest, Head(rest, None), None, par)
  }

  lemma NoneClaimed(l: Links, x: Nid, rest: seq<Tree>, par: Option<Nid>)
    requires Distinct([Node(x, [])] + rest) && Rep(l, [Node(x, [])] + rest, Some(x), None, par)
    ensures Claimed(l, x, x, [], rest, par) && x !in Ids(rest)
  {
    DistinctFirst(Node(x, []), rest);
    RepFirst(l, Node(x, []), rest, Some(x), None, par);
    RepHead(l, rest, At(l.next, x), None, par);
    assert [] + rest == rest;
  }

  lemma ClaimedParts(l: Links, x: Nid, last: Nid, taken: seq<Tree>, rest: seq<Tree>, par: Option<Nid>)
    requires Claimed(l, x, last, taken, rest, par)
    ensures Rep(l, rest, At(l.next, last), None, par) && last !in Ids(rest) && Distinct(rest)
      && Ids(rest) <= Ids(taken + rest)
  {
    ConcatTrees(taken, rest);
    if taken != [] { TopIds(taken, |taken| - 1); }
  }

  lemma SameReflexive(l: Links, ids: set<Nid>)
    ensures SameOutside(l, l, ids)
  {
  }

  lemma NothingLeft(info: Info)
    ensures RemoveIfs(info, []) == [] && Flatten(info, []) == []
  {
  }

  lemma Suffix(ts: seq<Tree>, k: nat)
    requires k <= |ts|
    ensures Ids(ts[k..]) <= Ids(ts) && (Distinct(ts) ==> Distinct(ts[k..]))
  {
    assert ts == ts[..k] + ts[k..];
    ConcatTrees(ts[..k], ts[k..]);
  }

  lemma SkippedTo(l: Links, done: seq<Tree>, t: Tree, tail: seq<Tree>, j: nat, first: Option<Nid>, next: Option<Nid>,
                  par: Option<Nid>, x: Nid)
    requires Distinct(done + ([t] + tail)) && j <= |tail| && x !in Ids(done + ([t] + tail))
    requires Rep(l, done, first, Some(t.id), par) && Rep(l, [t] + tail, Some(t.id), None, par)
      && Rep(l, tail[j..], next, None, par)
    ensures var l', rest := SetNext(l, t.id, next), tail[j..];
      && Rep(l', done + [t], first, next, par) && Rep(l', rest, next, None, par)
      && SameOutside(l, l', Ids(done + ([t] + tail))) && SameAt(l, l', x)
      && Distinct(done + [t] + rest) && Ids(done + [t] + rest) <= Ids(done + ([t] + tail))
  {
    hide Ids, Distinct, Rep, At, SetNext;
    var l', rest := SetNext(l, t.id, next), tail[j..];
    ConcatTrees(done, [t] + tail);
    DistinctFirst(t, tail);
    Suffix(tail, j);
    DistinctFirst(t, rest);
    ConcatTrees(done, [t] + rest);
    assert done + [t] + rest == done + ([t] + rest);
    SetEffect(l, t.id, next);
    RepFirst(l, t, tail, Some(t.id), None, par);
    RepFrame(l, l', done, first, Some(t.id), par);
    RepFrame(l, l', rest, next, None, par);
    RepFrame(l, l', t.kids, At(l.list, t.id), None, Some(t.id));
    RepFirst(l', t, rest, Some(t.id), None, par);
    Advance(l', done, t, rest, first, Some(t.id), par);
  }

  lemma LevelUnfold(info: Info, ts: seq<Tree>)
    ensures ts == [] ==> Level(info, ts) == []
    ensures ts != [] ==>
      var f := Finalize(info, ts[0], ts[1..]);
      Level(info, ts) == [f.node] + Level(info, f.rest) && Size(f.rest) < Size(ts)
  {
    hide Finalize;
  }

  /** One round of the loop of ClaimFollowers. */
  lemma ClaimOne(l: Links, l1: Links, x: Nid, taken: seq<Tree>, rest: seq<Tree>, f: Finalized, par: Option<Nid>)
    requires rest != [] && f.node.id == rest[0].id && (exists last :: Claimed(l, x, last, taken, rest, par))
    requires Distinct([f.node] + f.rest) && Ids([f.node] + f.rest) <= Ids(rest) && SameOutside(l, l1, Ids(rest))
    requires Rep(l1, [f.node] + f.rest, Some(f.node.id), None, par)
    ensures var l2 := SetParent(l1, f.node.id, Some(x));
      && Claimed(l2, x, f.node.id, taken + [f.node], f.rest, par)
      && Ids(taken + [f.node] + f.rest) <= Ids(taken + rest) && SameOutside(l, l2, Ids(rest))
      && At(l2.next, f.node.id) == Head(f.rest, None)
  {
    hide Ids, Distinct, Rep, At, SetParent;
    var l2, y := SetParent(l1, f.node.id, Some(x)), f.node.id;
    ConcatTrees(taken, rest);
    ConcatTrees(taken, [f.node] + f.rest);
    assert taken + [f.node] + f.rest == taken + ([f.node] + f.rest);
    DistinctFirst(f.node, f.rest);
    SetEffect(l1, y, Some(x));
    assert SameAt(l, l2, x);
    RepReparentFirst(l1, l2, f.node, f.rest, None, par, Some(x));
    RepFrame(l, l2, taken, At(l.next, x), Some(y), Some(x));
    RepConcat(l2, taken, [f.node], At(l.next, x), Head(f.rest, None), Some(x));
  }

  function Tilted(l: Links, x: Nid, cur: Nid): Links {
    var l1 := SetList(l, x, At(l.next, x));
    var l2 := SetNext(l1, x, At(l1.next, cur));
    SetNext(l2, cur, None)
  }

  lemma TiltEffect(l: Links, x: Nid, cur: Nid)
    requires x != cur
    ensures var r := Tilted(l, x, cur);
      && At(r.list, x) == At(l.next, x) && At(r.next, x) == At(l.next, cur) && At(r.parent, x) == At(l.parent, x)
      && At(r.next, cur) == None && At(r.list, cur) == At(l.list, cur) && At(r.parent, cur) == At(l.parent, cur)
      && SameOutside(l, r, {x, cur})
  {
  }

  /** The assignments at the end of TakeFollowers. */
  lemma Tilt(l: Links, x: Nid, taken: seq<Tree>, rest: seq<Tree>, par: Option<Nid>)
    requires taken != [] && Distinct(taken + rest) && x !in Ids(taken + rest) && At(l.parent, x) == par
    requires Rep(l, taken, At(l.next, x), Head(rest, None), Some(x)) && Rep(l, rest, Head(rest, None), None, par)
    requires At(l.next, taken[|taken| - 1].id) == Head(rest, None)
    ensures var l' := Tilted(l, x, taken[|taken| - 1].id);
      Rep(l', [Node(x, taken)] + rest, Some(x), None, par) && SameOutside(l, l', {x} + Ids(taken))
  {
    hide Ids, Distinct, Rep, At, Tilted;
    var cur := taken[|taken| - 1].id;
    var l' := Tilted(l, x, cur);
    ConcatTrees(taken, rest);
    TopIds(taken, |taken| - 1);
    TiltEffect(l, x, cur);
    RepRelink(l, l', taken, At(l.next, x), Head(rest, None), None, Some(x));
    RepFrame(l, l', rest, Head(rest, None), None, par);
    RepFirst(l', Node(x, taken), rest, Some(x), None, par);
  }

  lemma NoneTaken(l: Links, x: Nid, rest: seq<Tree>, par: Option<Nid>)
    requires At(l.parent, x) == par && At(l.list, x) == None
    requires Rep(l, [], At(l.next, x), Head(rest, None), Some(x)) && Rep(l, rest, Head(rest, None), None, par)
    ensures Rep(l, [Node(x, [])] + rest, Some(x), None, par)
  {
    RepFirst(l, Node(x, []), rest, Some(x), None, par);
  }

  lemma EmptyRep(l: Links, first: Option<Nid>, end: Option<Nid>, par: Option<Nid>)
    ensures Rep(l, [], first, end, par) <==> first == end
  {
  }

  lemma SameAfter(l1: Links, l2: Links, l3: Links, ids: set<Nid>)
    requires SameOutside(l1, l2, ids) && SameOutside(l2, l3, ids)
    ensures SameOutside(l1, l3, ids)
  {
  }

  lemma RaisedIds(done: seq<Tree>, x: Nid, kids: seq<Tree>, tail: seq<Tree>)
    requires Distinct(done + ([Node(x, kids)] + tail))
    ensures var before, after := done + ([Node(x, kids)] + tail), done + ([Node(x, [])] + (kids + tail));
      Distinct(after) && Ids(after) == Ids(before) && {x} + Ids(kids) <= Ids(before) && ({x} + Ids(kids)) !! Ids(done)
  {
    ConcatTrees(done, [Node(x, kids)] + tail);
    DistinctFirst(Node(x, kids), tail);
    ConcatTrees(kids, tail);
    DistinctFirst(Node(x, []), kids + tail);
    ConcatTrees(done, [Node(x, [])] + (kids + tail));
  }

  /** Taking the next node from the rest of the list. */
  lemma Advance(l: Links, done: seq<Tree>, t: Tree, rest: seq<Tree>, first: Option<Nid>, node: Option<Nid>,
                par: Option<Nid>)
    requires Rep(l, done, first, node, par) && Rep(l, [t] + rest, node, None, par)
    ensures Rep(l, done + [t], first, At(l.next, t.id), par) && done + [t] + rest == done + ([t] + rest)
  {
    hide Rep;
    RepFirst(l, t, rest, node, None, par);
    NoNodes(l, At(l.next, t.id), par);
    RepFirst(l, t, [], node, At(l.next, t.id), par);
    assert [t] + [] == [t];
    RepConcat(l, done, [t], first, At(l.next, t.id), par);
  }
}

/**
 Dependency propagation: conditions of menus, ifs and choices are pushed down, level by level, into
 the properties of the nodes below them, and the properties of the nodes of a symbol are collected
 in the symbol.
 */
module KconfigPropagation {
  import opened Wrappers
  import opened KconfigModel
  import M = KconfigMenu

  /** The constant symbols n, m and y. */
  datatype Consts = Consts(n: Id, m: Id, y: Id)

  datatype Holder = IfBlock | Menu | Comment | OfSymbol(sym: Id) | OfChoice(choice: Id)

  /** What a menu node holds. */
  datatype Props = Props(holder: Holder, dep: Expr, prompt: Option<Expr>, visibleIf: Expr,
                         defaults: seq<Default>, ranges: seq<Range>, selects: seq<Selectable>, implies: seq<Selectable>)

  // ---- building expressions -------------------------------------------------------------

  function MakeAnd(k: Consts, a: Expr, b: Expr): Expr {
    if a == Ref(k.y) then b
    else if b == Ref(k.y) then a
    else if a == Ref(k.n) || b == Ref(k.n) then Ref(k.n)
    else And(a, b)
  }

  function MakeOr(k: Consts, a: Expr, b: Expr): Expr {
    if a == Ref(k.n) then b
    else if b == Ref(k.n) then a
    else if a == Ref(k.y) || b == Ref(k.y) then Ref(k.y)
    else Or(a, b)
  }

  /** The constants have their values. */
  predicate Constant(k: Consts, env: Env) {
    TriOf(env, Val(k.n)) == 0 && TriOf(env, Val(k.m)) == 1 && TriOf(env, Val(k.y)) == 2
  }

  function Value(g: Graph, env: Env, e: Expr): Tri { ExprR(g, env, e).v }

  lemma ExprValues(g: Graph, env: Env, a: Expr, b: Expr)
    ensures Value(g, env, And(a, b)) == Min(Value(g, env, a), Value(g, env, b))
    ensures Value(g, env, Or(a, b)) == Max(Value(g, env, a), Value(g, env, b))
    ensures a.Ref? ==> Value(g, env, a) == TriOf(env, Val(a.id))
    ensures b.Ref? ==> Value(g, env, b) == TriOf(env, Val(b.id))
  {
  }

  /** The simplifications change no value. */
  lemma MakeValues(g: Graph, env: Env, k: Consts, a: Expr, b: Expr)
    requires Constant(k, env)
    ensures Value(g, env, MakeAnd(k, a, b)) == Min(Value(g, env, a), Value(g, env, b))
    ensures Value(g, env, MakeOr(k, a, b)) == Max(Value(g, env, a), Value(g, env, b))
  {
    hide Value;
    ExprValues(g, env, a, b);
    ExprValues(g, env, Ref(k.n), Ref(k.y));
  }

  // ---- the properties of one node ---------------------------------------------------------

  function ParentDep(p: Props, dep: Expr): Expr { if p.holder.OfChoice? then Ref(p.holder.choice) else dep }

  predicate OfItem(p: Props) { p.holder.OfSymbol? || p.holder.OfChoice? }

  function AndDefaults(k: Consts, ds: seq<Default>, dep: Expr): seq<Default> {
    seq(|ds|, i requires 0 <= i < |ds| => Default(ds[i].value, MakeAnd(k, ds[i].cond, dep)))
  }

  function AndRanges(k: Consts, rs: seq<Range>, dep: Expr): seq<Range> {
    seq(|rs|, i requires 0 <= i < |rs| => Range(rs[i].low, rs[i].high, MakeAnd(k, rs[i].cond, dep)))
  }

  function AndTargets(k: Consts, ss: seq<Selectable>, dep: Expr): seq<Selectable> {
    seq(|ss|, i requires 0 <= i < |ss| => Selectable(ss[i].sym, MakeAnd(k, ss[i].cond, dep)))
  }

  /** A child node after propagation from its parent. */
  function Pushed(k: Consts, base: Expr, visibleIf: Expr, p: Props): Props {
    var dep := MakeAnd(k, p.dep, base);
    var prompt := if p.prompt.Some? then Some(MakeAnd(k, p.prompt.value, dep)) else None;
    if !OfItem(p) then p.(dep := dep, prompt := prompt)
    else
      p.(dep := dep,
         prompt := if prompt.Some? then Some(MakeAnd(k, prompt.value, visibleIf)) else None,
         defaults := AndDefaults(k, p.defaults, dep), ranges := AndRanges(k, p.ranges, dep),
         selects := AndTargets(k, p.selects, dep), implies := AndTargets(k, p.implies, dep))
  }

  // ---- all levels ------------------------------------------------------------------------

  type Nodes = map<M.Nid, Props>

  /** The dependency of a node with parsed properties `p` under ancestors `up`, nearest first. */
  function FinalDep(k: Consts, p: Props, up: seq<Props>): Expr
    decreases |up|
  {
    if up == [] then p.dep else MakeAnd(k, p.dep, ParentDep(up[0], FinalDep(k, up[0], up[1..])))
  }

  function FinalVisibleIf(k: Consts, up: seq<Props>): Expr {
    if up == [] then Ref(k.y)
    else if up[0].holder == Menu then MakeAnd(k, FinalVisibleIf(k, up[1..]), up[0].visibleIf)
    else FinalVisibleIf(k, up[1..])
  }

  function FinalProps(k: Consts, p: Props, up: seq<Props>): Props {
    if up == [] then p
    else Pushed(k, ParentDep(up[0], FinalDep(k, up[0], up[1..])), FinalVisibleIf(k, up), p)
  }

  lemma FinalPropsDep(k: Consts, p: Props, up: seq<Props>)
    ensures FinalProps(k, p, up).dep == FinalDep(k, p, up) && FinalProps(k, p, up).holder == p.holder
    ensures FinalProps(k, p, up).visibleIf == p.visibleIf
  {
  }

  const NOTHING := Props(Comment, Ref(0), None, Ref(0), [], [], [], [])

  function Get(nodes: Nodes, x: M.Nid): Props { if x in nodes then nodes[x] else NOTHING }

  /** Every node of the forest has its final properties. */
  predicate Final(k: Consts, parsed: Nodes, now: Nodes, ts: seq<M.Tree>, up: seq<Props>)
  {
    ts == [] ||
    (var x := ts[0].id;
     && Get(now, x) == FinalProps(k, Get(parsed, x), up)
     && Final(k, parsed, now, ts[0].kids, [Get(parsed, x)] + up)
     && Final(k, parsed, now, ts[1..], up))
  }

  // ---- what propagation means ----------------------------------------------------------------

  /** What the ancestors allow: the least of their own dependencies, up to the nearest choice, whose
      mode stands for all above it. */
  function Above(g: Graph, env: Env, up: seq<Props>): Tri {
    if up == [] then 2
    else if up[0].holder.OfChoice? then TriOf(env, Val(up[0].holder.choice))
    else Min(Value(g, env, up[0].dep), Above(g, env, up[1..]))
  }

  /** The least of the 'visible if' conditions of the enclosing menus. */
  function Shown(g: Graph, env: Env, up: seq<Props>): Tri {
    if up == [] then 2
    else Min(if up[0].holder == Menu then Value(g, env, up[0].visibleIf) else 2, Shown(g, env, up[1..]))
  }

  lemma {:induction false} DepMeaning(g: Graph, env: Env, k: Consts, p: Props, up: seq<Props>)
    requires Constant(k, env)
    ensures Value(g, env, FinalDep(k, p, up)) == Min(Value(g, env, p.dep), Above(g, env, up))
    decreases |up|
  {
    if up != [] {
      DepMeaning(g, env, k, up[0], up[1..]);
      MakeValues(g, env, k, p.dep, ParentDep(up[0], FinalDep(k, up[0], up[1..])));
    }
  }

  lemma {:induction false} VisibleIfMeaning(g: Graph, env: Env, k: Consts, up: seq<Props>)
    requires Constant(k, env)
    ensures Value(g, env, FinalVisibleIf(k, up)) == Shown(g, env, up)
  {
    if up != [] {
      VisibleIfMeaning(g, env, k, up[1..]);
      MakeValues(g, env, k, FinalVisibleIf(k, up[1..]), up[0].visibleIf);
    }
  }

  /** Each condition of a node below the top means: its own condition, the dependencies of its node
      and of all ancestors, and for a prompt of a symbol or choice every enclosing 'visible if'. */
  predicate Means(g: Graph, env: Env, p: Props, f: Props, up: seq<Props>) {
    var dep := Min(Value(g, env, p.dep), Above(g, env, up));
    && f.holder == p.holder && Value(g, env, f.dep) == dep
    && (f.prompt.Some? <==> p.prompt.Some?)
    && (p.prompt.Some? ==>
          Value(g, env, f.prompt.value) ==
          Min(Min(Value(g, env, p.prompt.value), dep), if OfItem(p) then Shown(g, env, up) else 2))
    && (OfItem(p) ==>
          && |f.defaults| == |p.defaults| && |f.ranges| == |p.ranges|
          && |f.selects| == |p.selects| && |f.implies| == |p.implies|
          && (forall i :: 0 <= i < |p.defaults| ==>
                && f.defaults[i].value == p.defaults[i].value
                && Value(g, env, f.defaults[i].cond) == Min(Value(g, env, p.defaults[i].cond), dep))
          && (forall i :: 0 <= i < |p.ranges| ==>
                && f.ranges[i].low == p.ranges[i].low && f.ranges[i].high == p.ranges[i].high
                && Value(g, env, f.ranges[i].cond) == Min(Value(g, env, p.ranges[i].cond), dep))
          && (forall i :: 0 <= i < |p.selects| ==>
                && f.selects[i].sym == p.selects[i].sym
                && Value(g, env, f.selects[i].cond) == Min(Value(g, env, p.selects[i].cond), dep))
          && (forall i :: 0 <= i < |p.implies| ==>
                && f.implies[i].sym == p.implies[i].sym
                && Value(g, env, f.implies[i].cond) == Min(Value(g, env, p.implies[i].cond), dep)))
  }

  lemma PropsMeaning(g: Graph, env: Env, k: Consts, p: Props, up: seq<Props>)
    requires Constant(k, env) && up != []
    ensures Means(g, env, p, FinalProps(k, p, up), up)
  {
    hide ExprR, MakeAnd;
    var base, shown := ParentDep(up[0], FinalDep(k, up[0], up[1..])), FinalVisibleIf(k, up);
    var dep := MakeAnd(k, p.dep, base);
    DepMeaning(g, env, k, p, up);
    VisibleIfMeaning(g, env, k, up);
    if p.prompt.Some? {
      MakeValues(g, env, k, p.prompt.value, dep);
      MakeValues(g, env, k, MakeAnd(k, p.prompt.value, dep), shown);
    }
    forall i | 0 <= i < |p.defaults| { MakeValues(g, env, k, p.defaults[i].cond, dep); }
    forall i | 0 <= i < |p.ranges| { MakeValues(g, env, k, p.ranges[i].cond, dep); }
    forall i | 0 <= i < |p.selects| { MakeValues(g, env, k, p.selects[i].cond, dep); }
    forall i | 0 <= i < |p.implies| { MakeValues(g, env, k, p.implies[i].cond, dep); }
  }

  // ---- symbols and choices ---------------------------------------------------------------------

  /** What a symbol or choice collects from its nodes and from the symbols that select it. */
  datatype Collected = Collected(directDep: Expr, defaults: seq<Default>, ranges: seq<Range>,
                                 selects: seq<Selectable>, implies: seq<Selectable>, revDep: Expr, weakRevDep: Expr)

  type Items = map<Id, Collected>

  function Of(k: Consts, items: Items, i: Id): Collected {
    if i in items then items[i] else Collected(Ref(k.n), [], [], [], [], Ref(k.n), Ref(k.n))
  }

  function AddOwn(k: Consts, items: Items, p: Props): Items {
    match p.holder
    case OfSymbol(s) =>
      var c := Of(k, items, s);
      items[s := c.(directDep := MakeOr(k, c.directDep, p.dep), defaults := c.defaults + p.defaults,
                    ranges := c.ranges + p.ranges, selects := c.selects + p.selects, implies := c.implies + p.implies)]
    case OfChoice(s) =>
      var c := Of(k, items, s);
      items[s := c.(directDep := MakeOr(k, c.directDep, p.dep), defaults := c.defaults + p.defaults)]
    case _ => items
  }

  function AddSelect(k: Consts, items: Items, source: Id, s: Selectable): Items {
    var c := Of(k, items, s.sym);
    items[s.sym := c.(revDep := MakeOr(k, c.revDep, MakeAnd(k, Ref(source), s.cond)))]
  }

  function AddImply(k: Consts, items: Items, source: Id, s: Selectable): Items {
    var c := Of(k, items, s.sym);
    items[s.sym := c.(weakRevDep := MakeOr(k, c.weakRevDep, MakeAnd(k, Ref(source), s.cond)))]
  }

  function AddSelects(k: Consts, items: Items, source: Id, ss: seq<Selectable>): Items {
    if ss == [] then items else AddSelect(k, AddSelects(k, items, source, ss[..|ss| - 1]), source, ss[|ss| - 1])
  }

  function AddImplies(k: Consts, items: Items, source: Id, ss: seq<Selectable>): Items {
    if ss == [] then items else AddImply(k, AddImplies(k, items, source, ss[..|ss| - 1]), source, ss[|ss| - 1])
  }

  /** The properties of one node reach its symbol or choice and, for a symbol, the symbols it selects
      and implies. */
  function Add(k: Consts, items: Items, p: Props): Items {
    var own := AddOwn(k, items, p);
    if p.holder.OfSymbol? then AddImplies(k, AddSelects(k, own, p.holder.sym, p.selects), p.holder.sym, p.implies)
    else own
  }

  function AddAll(k: Consts, items: Items, ps: seq<Props>): Items {
    if ps == [] then items else Add(k, AddAll(k, items, ps[..|ps| - 1]), ps[|ps| - 1])
  }

  /** The nodes in the order their properties are collected: symbols on the way down, choices on the
      way up. */
  function Collecting(k: Consts, parsed: Nodes, ts: seq<M.Tree>, up: seq<Props>): seq<Props>
  {
    if ts == [] then []
    else
      var p := Get(parsed, ts[0].id);
      var f := [FinalProps(k, p, up)];
      (if p.holder.OfSymbol? && ts[0].kids == [] then f else [])
      + Collecting(k, parsed, ts[0].kids, [p] + up)
      + (if p.holder.OfChoice? then f else [])
      + Collecting(k, parsed, ts[1..], up)
  }

  // ---- the same pass, with submenus made on the way ----------------------------------------------

  /** The nodes in the order their properties are collected by the pass that rewrites the tree: `t`, and
      with it the siblings that go into its submenu. */
  function Visit(info: M.Info, k: Consts, parsed: Nodes, t: M.Tree, followers: seq<M.Tree>, up: seq<Props>): seq<Props>
    decreases M.Size([t] + followers), 1
  {
    M.SizeOfFirst(t, followers);
    var p := Get(parsed, t.id);
    var f := [FinalProps(k, p, up)];
    if t.kids != [] then VisitLevel(info, k, parsed, t.kids, [p] + up) + (if p.holder.OfChoice? then f else [])
    else if p.holder.OfSymbol? then f + VisitTaken(info, k, parsed, t.id, followers, up)
    else if p.holder.OfChoice? then f
    else []
  }

  /** The siblings that go into the submenu of `id`. */
  function VisitTaken(info: M.Info, k: Consts, parsed: Nodes, id: M.Nid, followers: seq<M.Tree>,
                      up: seq<Props>): seq<Props>
    decreases M.Size(followers), 2
  {
    if followers == [] || !info.auto(id, followers[0].id) then []
    else
      M.Split(followers);
      M.AbsorbUnfold(info, id, followers);
      var f := M.Finalize(info, followers[0], followers[1..]);
      Visit(info, k, parsed, followers[0], followers[1..], up) + VisitTaken(info, k, parsed, id, f.rest, up)
  }

  function VisitLevel(info: M.Info, k: Consts, parsed: Nodes, ts: seq<M.Tree>, up: seq<Props>): seq<Props>
    decreases M.Size(ts), 2
  {
    if ts == [] then []
    else
      M.Split(ts);
      var f := M.Finalize(info, ts[0], ts[1..]);
      Visit(info, k, parsed, ts[0], ts[1..], up) + VisitLevel(info, k, parsed, f.rest, up)
  }

  /** The menu code and the properties agree on which nodes hold symbols. */
  ghost predicate Agree(info: M.Info, parsed: Nodes) {
    forall x :: info.kind(x) == M.Symbol <==> Get(parsed, x).holder.OfSymbol?
  }

  /** Making submenus does not change what is collected, nor the order. */
  lemma {:induction false} VisitCollects(info: M.Info, k: Consts, parsed: Nodes, t: M.Tree, followers: seq<M.Tree>,
                                         up: seq<Props>)
    requires Agree(info, parsed)
    ensures Visit(info, k, parsed, t, followers, up) + Collecting(k, parsed, M.Finalize(info, t, followers).rest, up)
      == Collecting(k, parsed, [t] + followers, up)
    decreases M.Size([t] + followers), 1
  {
    hide FinalProps, M.Finalize, Visit, VisitTaken, VisitLevel, Collecting;
    M.SizeOfFirst(t, followers);
    CollectingConcat(k, parsed, [t], followers, up);
    CollectingOne(k, parsed, t, up);
    VisitUnfold(info, k, parsed, t, followers, up);
    RestUnfold(info, t, followers);
    var p := Get(parsed, t.id);
    if t.kids != [] {
      VisitLevelCollects(info, k, parsed, t.kids, [p] + up);
    } else {
      NoChildren(k, parsed, parsed, map[], [p] + up);
      if p.holder.OfSymbol? {
        VisitTakenCollects(info, k, parsed, t.id, followers, up);
        JoinThree([FinalProps(k, p, up)], VisitTaken(info, k, parsed, t.id, followers, up),
                  Collecting(k, parsed, M.Absorb(info, t.id, followers).rest, up));
      }
    }
  }

  lemma RestUnfold(info: M.Info, t: M.Tree, followers: seq<M.Tree>)
    ensures M.Finalize(info, t, followers).rest ==
      if t.kids == [] && info.kind(t.id) == M.Symbol then M.Absorb(info, t.id, followers).rest else followers
  {
    hide M.Level, M.Flatten, M.RemoveIfs, M.Absorb;
  }

  lemma JoinThree<T>(a: seq<T>, b: seq<T>, c: seq<T>)
    ensures (a + b) + c == a + (b + c)
  {
  }

  lemma VisitUnfold(info: M.Info, k: Consts, parsed: Nodes, t: M.Tree, followers: seq<M.Tree>, up: seq<Props>)
    ensures var p := Get(parsed, t.id); var f := [FinalProps(k, p, up)];
      Visit(info, k, parsed, t, followers, up) ==
      (if p.holder.OfSymbol? && t.kids == [] then f + VisitTaken(info, k, parsed, t.id, followers, up)
       else (if t.kids == [] then [] else VisitLevel(info, k, parsed, t.kids, [p] + up))
            + (if p.holder.OfChoice? then f else []))
  {
    hide FinalProps, VisitTaken, VisitLevel;
  }

  lemma {:induction false} VisitTakenCollects(info: M.Info, k: Consts, parsed: Nodes, id: M.Nid,
                                              followers: seq<M.Tree>, up: seq<Props>)
    requires Agree(info, parsed)
    ensures VisitTaken(info, k, parsed, id, followers, up)
      + Collecting(k, parsed, M.Absorb(info, id, followers).rest, up)
      == Collecting(k, parsed, followers, up)
    decreases M.Size(followers), 2
  {
    hide FinalProps, M.Finalize, M.Absorb, Collecting, Visit;
    M.AbsorbUnfold(info, id, followers);
    if followers != [] && info.auto(id, followers[0].id) {
      M.Split(followers);
      var f := M.Finalize(info, followers[0], followers[1..]);
      VisitCollects(info, k, parsed, followers[0], followers[1..], up);
      VisitTakenCollects(info, k, parsed, id, f.rest, up);
      JoinThree(Visit(info, k, parsed, followers[0], followers[1..], up), VisitTaken(info, k, parsed, id, f.rest, up),
                Collecting(k, parsed, M.Absorb(info, id, f.rest).rest, up));
    }
  }

  lemma {:induction false} VisitLevelCollects(info: M.Info, k: Consts, parsed: Nodes, ts: seq<M.Tree>, up: seq<Props>)
    requires Agree(info, parsed)
    ensures VisitLevel(info, k, parsed, ts, up) == Collecting(k, parsed, ts, up)
    decreases M.Size(ts), 2
  {
    hide FinalProps, M.Finalize, Collecting, Visit;
    if ts == [] {
      NoChildren(k, parsed, parsed, map[], up);
    } else {
      M.Split(ts);
      VisitCollects(info, k, parsed, ts[0], ts[1..], up);
      VisitLevelCollects(info, k, parsed, M.Finalize(info, ts[0], ts[1..]).rest, up);
    }
  }

  // ---- what is collected ---------------------------------------------------------------------

  function StrongestSelect(g: Graph, env: Env, source: Id, ss: seq<Selectable>, target: Id): Tri {
    if ss == [] then 0
    else
      var last := ss[|ss| - 1];
      Max(StrongestSelect(g, env, source, ss[..|ss| - 1], target),
          if last.sym == target then Min(TriOf(env, Val(source)), Value(g, env, last.cond)) else 0)
  }

  /** The strongest select of `target`: over all nodes of all symbols, the least of the selecting
      symbol's value and the condition. */
  function Selected(g: Graph, env: Env, ps: seq<Props>, target: Id): Tri {
    if ps == [] then 0
    else
      var last := ps[|ps| - 1];
      Max(Selected(g, env, ps[..|ps| - 1], target),
          if last.holder.OfSymbol? then StrongestSelect(g, env, last.holder.sym, last.selects, target) else 0)
  }

  function Implied(g: Graph, env: Env, ps: seq<Props>, target: Id): Tri {
    if ps == [] then 0
    else
      var last := ps[|ps| - 1];
      Max(Implied(g, env, ps[..|ps| - 1], target),
          if last.holder.OfSymbol? then StrongestSelect(g, env, last.holder.sym, last.implies, target) else 0)
  }

  predicate Owns(p: Props, i: Id) { p.holder == OfSymbol(i) || p.holder == OfChoice(i) }

  /** The weakest way to satisfy the dependencies: the most that any node allows. */
  function Allowed(g: Graph, env: Env, ps: seq<Props>, i: Id): Tri {
    if ps == [] then 0
    else
      var last := ps[|ps| - 1];
      Max(Allowed(g, env, ps[..|ps| - 1], i), if Owns(last, i) then Value(g, env, last.dep) else 0)
  }

  function AllDefaults(ps: seq<Props>, i: Id): seq<Default> {
    if ps == [] then []
    else AllDefaults(ps[..|ps| - 1], i) + (if Owns(ps[|ps| - 1], i) then ps[|ps| - 1].defaults else [])
  }

  /** The ranges, selects and implies of a symbol, in definition order. */
  function AllRanges(ps: seq<Props>, i: Id): seq<Range> {
    if ps == [] then []
    else AllRanges(ps[..|ps| - 1], i) + (if ps[|ps| - 1].holder == OfSymbol(i) then ps[|ps| - 1].ranges else [])
  }

  function AllSelects(ps: seq<Props>, i: Id): seq<Selectable> {
    if ps == [] then []
    else AllSelects(ps[..|ps| - 1], i) + (if ps[|ps| - 1].holder == OfSymbol(i) then ps[|ps| - 1].selects else [])
  }

  function AllImplies(ps: seq<Props>, i: Id): seq<Selectable> {
    if ps == [] then []
    else AllImplies(ps[..|ps| - 1], i) + (if ps[|ps| - 1].holder == OfSymbol(i) then ps[|ps| - 1].implies else [])
  }

  lemma {:induction false} SelectsMeaning(g: Graph, env: Env, k: Consts, items: Items, source: Id,
                                          ss: seq<Selectable>, i: Id)
    requires Constant(k, env)
    ensures var a, b := Of(k, items, i), Of(k, AddSelects(k, items, source, ss), i);
      && b == a.(revDep := b.revDep)
      && Value(g, env, b.revDep) == Max(Value(g, env, a.revDep), StrongestSelect(g, env, source, ss, i))
    ensures var a, b := Of(k, items, i), Of(k, AddImplies(k, items, source, ss), i);
      && b == a.(weakRevDep := b.weakRevDep)
      && Value(g, env, b.weakRevDep) == Max(Value(g, env, a.weakRevDep), StrongestSelect(g, env, source, ss, i))
  {
    hide ExprR, MakeAnd, MakeOr, Value;
    if ss != [] {
      var before, last := ss[..|ss| - 1], ss[|ss| - 1];
      SelectsMeaning(g, env, k, items, source, before, i);
      var sel := MakeAnd(k, Ref(source), last.cond);
      MakeValues(g, env, k, Ref(source), last.cond);
      ExprValues(g, env, Ref(source), last.cond);
      MakeValues(g, env, k, Of(k, AddSelects(k, items, source, before), last.sym).revDep, sel);
      MakeValues(g, env, k, Of(k, AddImplies(k, items, source, before), last.sym).weakRevDep, sel);
    }
  }

  lemma AddMeaning(g: Graph, env: Env, k: Consts, items: Items, p: Props, i: Id)
    requires Constant(k, env)
    ensures var a, b := Of(k, items, i), Of(k, Add(k, items, p), i);
      && Value(g, env, b.directDep) == Max(Value(g, env, a.directDep), if Owns(p, i) then Value(g, env, p.dep) else 0)
      && b.defaults == a.defaults + (if Owns(p, i) then p.defaults else [])
      && b.ranges == a.ranges + (if p.holder == OfSymbol(i) then p.ranges else [])
      && b.selects == a.selects + (if p.holder == OfSymbol(i) then p.selects else [])
      && b.implies == a.implies + (if p.holder == OfSymbol(i) then p.implies else [])
      && Value(g, env, b.revDep) ==
         Max(Value(g, env, a.revDep),
             if p.holder.OfSymbol? then StrongestSelect(g, env, p.holder.sym, p.selects, i) else 0)
      && Value(g, env, b.weakRevDep) ==
         Max(Value(g, env, a.weakRevDep),
             if p.holder.OfSymbol? then StrongestSelect(g, env, p.holder.sym, p.implies, i) else 0)
  {
    hide ExprR, MakeAnd, MakeOr, AddSelects, AddImplies, StrongestSelect;
    var own := AddOwn(k, items, p);
    if Owns(p, i) { MakeValues(g, env, k, Of(k, items, i).directDep, p.dep); }
    if p.holder.OfSymbol? {
      SelectsMeaning(g, env, k, own, p.holder.sym, p.selects, i);
      SelectsMeaning(g, env, k, AddSelects(k, own, p.holder.sym, p.selects), p.holder.sym, p.implies, i);
    }
  }

  /** The collected properties of any symbol or choice, from nothing. */
  lemma {:induction false} CollectedMeaning(g: Graph, env: Env, k: Consts, ps: seq<Props>, i: Id)
    requires Constant(k, env)
    ensures var c := Of(k, AddAll(k, map[], ps), i);
      && Value(g, env, c.directDep) == Allowed(g, env, ps, i)
      && c.defaults == AllDefaults(ps, i) && c.ranges == AllRanges(ps, i)
      && c.selects == AllSelects(ps, i) && c.implies == AllImplies(ps, i)
      && Value(g, env, c.revDep) == Selected(g, env, ps, i)
      && Value(g, env, c.weakRevDep) == Implied(g, env, ps, i)
  {
    hide Add, StrongestSelect;
    if ps != [] {
      CollectedMeaning(g, env, k, ps[..|ps| - 1], i);
      AddMeaning(g, env, k, AddAll(k, map[], ps[..|ps| - 1]), ps[|ps| - 1], i);
    }
  }

  // ---- the pass over the tree -----------------------------------------------------------------

  lemma {:induction false} AddAllConcat(k: Consts, items: Items, a: seq<Props>, b: seq<Props>)
    ensures AddAll(k, items, a + b) == AddAll(k, AddAll(k, items, a), b)
  {
    hide Add;
    if b == [] {
      assert a + b == a;
    } else {
      assert (a + b)[..|a + b| - 1] == a + b[..|b| - 1];
      AddAllConcat(k, items, a, b[..|b| - 1]);
    }
  }

  ghost predicate SameNodes(a: Nodes, b: Nodes, ids: set<M.Nid>) { forall x :: x in ids ==> Get(a, x) == Get(b, x) }

  ghost predicate OnlyChanged(a: Nodes, b: Nodes, ids: set<M.Nid>) { forall x :: x !in ids ==> Get(a, x) == Get(b, x) }

  lemma {:induction false} FinalFrame(k: Consts, parsed: Nodes, a: Nodes, b: Nodes, ts: seq<M.Tree>, up: seq<Props>)
    requires Final(k, parsed, a, ts, up) && SameNodes(a, b, M.Ids(ts))
    ensures Final(k, parsed, b, ts, up)
  {
    hide FinalProps;
    if ts != [] {
      FinalFrame(k, parsed, a, b, ts[0].kids, [Get(parsed, ts[0].id)] + up);
      FinalFrame(k, parsed, a, b, ts[1..], up);
    }
  }

  lemma {:induction false} FinalConcat(k: Consts, parsed: Nodes, now: Nodes, a: seq<M.Tree>, b: seq<M.Tree>,
                                       up: seq<Props>)
    ensures Final(k, parsed, now, a + b, up) <==> Final(k, parsed, now, a, up) && Final(k, parsed, now, b, up)
  {
    hide FinalProps;
    if a == [] {
      assert a + b == b;
    } else {
      assert (a + b)[1..] == a[1..] + b;
      FinalConcat(k, parsed, now, a[1..], b, up);
    }
  }

  lemma {:induction false} CollectingConcat(k: Consts, parsed: Nodes, a: seq<M.Tree>, b: seq<M.Tree>, up: seq<Props>)
    ensures Collecting(k, parsed, a + b, up) == Collecting(k, parsed, a, up) + Collecting(k, parsed, b, up)
  {
    hide FinalProps;
    if a == [] {
      assert a + b == b;
    } else {
      assert (a + b)[1..] == a[1..] + b;
      CollectingConcat(k, parsed, a[1..], b, up);
    }
  }

  lemma CollectingOne(k: Consts, parsed: Nodes, t: M.Tree, up: seq<Props>)
    ensures var p := Get(parsed, t.id);
      Collecting(k, parsed, [t], up) ==
      (if p.holder.OfSymbol? && t.kids == [] then [FinalProps(k, p, up)] else [])
      + Collecting(k, parsed, t.kids, [p] + up) + (if p.holder.OfChoice? then [FinalProps(k, p, up)] else [])
  {
    hide FinalProps;
    assert [t][1..] == [];
  }

  lemma FinalOne(k: Consts, parsed: Nodes, now: Nodes, t: M.Tree, up: seq<Props>)
    requires Get(now, t.id) == FinalProps(k, Get(parsed, t.id), up)
      && Final(k, parsed, now, t.kids, [Get(parsed, t.id)] + up)
    ensures Final(k, parsed, now, [t], up)
  {
    hide FinalProps;
    assert [t][1..] == [];
  }

  lemma {:induction false} TopDistinct(ts: seq<M.Tree>, i: nat, j: nat)
    requires M.Distinct(ts) && i < j < |ts|
    ensures ts[i].id != ts[j].id && ts[i].id !in M.Ids(ts[j].kids) && ts[j].id !in M.Ids(ts[i].kids)
    ensures M.Ids(ts[i].kids) !! M.Ids(ts[j].kids)
  {
    M.TopIds(ts, i);
    M.TopIds(ts, j);
    if i == 0 { M.TopIds(ts[1..], j - 1); } else { TopDistinct(ts[1..], i - 1, j - 1); }
  }

  lemma {:induction false} TopOwn(ts: seq<M.Tree>, i: nat)
    requires M.Distinct(ts) && i < |ts|
    ensures ts[i].id in M.Ids(ts) && M.Ids(ts[i].kids) <= M.Ids(ts) && ts[i].id !in M.Ids(ts[i].kids)
      && M.Distinct(ts[i].kids)
  {
    if i > 0 { TopOwn(ts[1..], i - 1); }
  }

  lemma ChildReady(kids: seq<M.Tree>, i: nat)
    requires M.Distinct(kids) && i < |kids|
    ensures M.Distinct([kids[i]]) && M.Size([kids[i]]) <= M.Size(kids)
    ensures kids[i].id !in M.Ids(kids[i].kids)
  {
    assert kids == kids[..i] + kids[i..] && kids[i..] == [kids[i]] + kids[i + 1..];
    M.ConcatTrees(kids[..i], kids[i..]);
    M.ConcatTrees([kids[i]], kids[i + 1..]);
    TopOwn(kids, i);
  }

  /** A child and what is below it are apart from the rest of the level. */
  lemma ChildApart(kids: seq<M.Tree>, i: nat)
    requires M.Distinct(kids) && i < |kids|
    ensures M.Ids(kids[i].kids) <= M.Ids(kids) && M.Ids(kids[i].kids) !! M.Ids(kids[..i])
    ensures forall j :: 0 <= j < |kids| ==> kids[j].id !in M.Ids(kids[i].kids)
    ensures forall j :: i < j < |kids| ==> M.Ids(kids[j].kids) !! M.Ids(kids[i].kids)
  {
    forall j | 0 <= j < |kids| ensures kids[j].id !in M.Ids(kids[i].kids) { BelowIsNotTop(kids, i, j); }
    forall j | i < j < |kids| ensures M.Ids(kids[j].kids) !! M.Ids(kids[i].kids) { TopDistinct(kids, i, j); }
    hide M.Ids, M.Distinct;
    M.TopIds(kids, i);
    assert kids == kids[..i] + kids[i..];
    M.ConcatTrees(kids[..i], kids[i..]);
    M.TopIds(kids[i..], 0);
  }

  lemma BelowIsNotTop(kids: seq<M.Tree>, i: nat, j: nat)
    requires M.Distinct(kids) && i < |kids| && j < |kids|
    ensures kids[j].id !in M.Ids(kids[i].kids)
  {
    if j < i { TopDistinct(kids, j, i); } else if i < j { TopDistinct(kids, i, j); } else { TopOwn(kids, i); }
  }

  /** After the pass below one child, the level is final up to that child. */
  lemma ChildDone(k: Consts, parsed: Nodes, a: Nodes, b: Nodes, kids: seq<M.Tree>, i: nat, up: seq<Props>)
    requires M.Distinct(kids) && i < |kids| && Final(k, parsed, a, kids[..i], up)
    requires Get(a, kids[i].id) == FinalProps(k, Get(parsed, kids[i].id), up)
    requires Final(k, parsed, b, kids[i].kids, [Get(parsed, kids[i].id)] + up)
    requires OnlyChanged(a, b, M.Ids(kids[i].kids))
    ensures Final(k, parsed, b, kids[..i + 1], up)
  {
    hide FinalProps, Final, M.Ids, M.Distinct;
    ChildApart(kids, i);
    FinalFrame(k, parsed, a, b, kids[..i], up);
    FinalOne(k, parsed, b, kids[i], up);
    assert kids[..i + 1] == kids[..i] + [kids[i]];
    FinalConcat(k, parsed, b, kids[..i], [kids[i]], up);
  }

  lemma NoChildren(k: Consts, parsed: Nodes, now: Nodes, items: Items, up: seq<Props>)
    ensures Final(k, parsed, now, [], up)
    ensures Collecting(k, parsed, [], up) == [] && AddAll(k, items, []) == items
  {
  }

  lemma AddOne(k: Consts, items: Items, p: Props)
    ensures AddAll(k, items, [p]) == Add(k, items, p)
  {
    hide Add;
    assert [p][..0] == [] && AddAll(k, items, []) == items;
  }

  lemma AddOfChoice(k: Consts, items: Items, p: Props)
    requires p.holder.OfChoice?
    ensures Add(k, items, p) == AddOwn(k, items, p)
  {
  }

  lemma PushedIsFinal(k: Consts, parent: Props, p: Props, up: seq<Props>)
    ensures var f := FinalProps(k, parent, up);
      Pushed(k, ParentDep(f, f.dep), FinalVisibleIf(k, [parent] + up), p) == FinalProps(k, p, [parent] + up)
  {
    hide Pushed, MakeAnd;
    FinalPropsDep(k, parent, up);
    assert ([parent] + up)[1..] == up;
  }

  class Finalizer {
    const k: Consts
    var nodes: Nodes
    var items: Items

    constructor (k: Consts, nodes: Nodes)
      ensures this.k == k && this.nodes == nodes && items == map[]
    {
      this.k, this.nodes, this.items := k, nodes, map[];
    }

    /** The children of `parent` take its dependencies. */
    method PropagateDeps(parent: M.Nid, children: seq<M.Nid>, visibleIf: Expr)
      requires M.Once(children) && parent !in children
      modifies `nodes
      ensures var p := Get(old(nodes), parent);
        forall x :: x in children ==> Get(nodes, x) == Pushed(k, ParentDep(p, p.dep), visibleIf, Get(old(nodes), x))
      ensures forall x :: x !in children ==> Get(nodes, x) == Get(old(nodes), x)
    {
      hide Pushed;
      var holder := Get(nodes, parent).holder;
      var base := if holder.OfChoice? then Ref(holder.choice) else Get(nodes, parent).dep;
      assert children[..0] == [];
      for i := 0 to |children|
        invariant forall x :: x in children[..i] ==> Get(nodes, x) == Pushed(k, base, visibleIf, Get(old(nodes), x))
        invariant forall x :: x !in children[..i] ==> Get(nodes, x) == Get(old(nodes), x)
      {
        assert children[i] !in children[..i];
        PropagateTo(children[i], base, visibleIf);
        assert children[..i + 1] == children[..i] + [children[i]];
      }
      assert children[..|children|] == children;
    }

    method PropagateTo(cur: M.Nid, base: Expr, visibleIf: Expr)
      modifies `nodes
      ensures nodes == old(nodes)[cur := Pushed(k, base, visibleIf, Get(old(nodes), cur))]
    {
      var p := Get(nodes, cur);
      var dep := MakeAnd(k, p.dep, base);
      hide MakeAnd, AndDefaults, AndRanges, AndTargets;
      p := p.(dep := dep);
      if p.prompt.Some? { p := p.(prompt := Some(MakeAnd(k, p.prompt.value, dep))); }
      if p.holder.OfSymbol? || p.holder.OfChoice? {
        if p.prompt.Some? { p := p.(prompt := Some(MakeAnd(k, p.prompt.value, visibleIf))); }
        p := p.(defaults := AndDefaults(k, p.defaults, dep), ranges := AndRanges(k, p.ranges, dep));
        p := p.(selects := AndTargets(k, p.selects, dep), implies := AndTargets(k, p.implies, dep));
      }
      nodes := nodes[cur := p];
    }

    /** The properties of the node `x` of a symbol go to the symbol and to its targets. */
    method AddPropsToSymbol(x: M.Nid)
      requires Get(nodes, x).holder.OfSymbol?
      modifies `items
      ensures items == Add(k, old(items), Get(nodes, x))
    {
      var p := Get(nodes, x);
      var sym := p.holder.sym;
      hide MakeAnd, MakeOr;
      items := AddOwn(k, items, p);
      ghost var own := items;
      for i := 0 to |p.selects|
        invariant items == AddSelects(k, own, sym, p.selects[..i])
      {
        assert p.selects[..i + 1][..i] == p.selects[..i];
        items := AddSelect(k, items, sym, p.selects[i]);
      }
      assert p.selects[..|p.selects|] == p.selects;
      ghost var selected := items;
      for i := 0 to |p.implies|
        invariant items == AddImplies(k, selected, sym, p.implies[..i])
      {
        assert p.implies[..i + 1][..i] == p.implies[..i];
        items := AddImply(k, items, sym, p.implies[i]);
      }
      assert p.implies[..|p.implies|] == p.implies;
    }

    /** Finalises `t`, whose own properties are final already, and everything below it. */
    method FinalizeTree(t: M.Tree, visibleIf: Expr, ghost parsed: Nodes, ghost up: seq<Props>)
      requires M.Distinct([t]) && SameNodes(parsed, nodes, M.Ids(t.kids))
      requires Get(nodes, t.id) == FinalProps(k, Get(parsed, t.id), up) && visibleIf == FinalVisibleIf(k, up)
      modifies `nodes, `items
      ensures Final(k, parsed, nodes, [t], up) && OnlyChanged(old(nodes), nodes, M.Ids(t.kids))
      ensures items == AddAll(k, old(items), Collecting(k, parsed, [t], up))
      decreases M.Size([t]), 1
    {
      hide FinalProps, M.Ids, M.Distinct, Final, Collecting, AddAll, Add;
      ghost var p := Get(parsed, t.id);
      ghost var ps := Collecting(k, parsed, t.kids, [p] + up);
      CollectingOne(k, parsed, t, up);
      FinalPropsDep(k, p, up);
      assert [t] + [] == [t];
      M.DistinctFirst(t, []);
      M.SizeOfFirst(t, []);
      assert ps + [] == ps && [] + ps == ps;
      if t.kids != [] {
        var shown := visibleIf;
        if Get(nodes, t.id).holder == Menu { shown := MakeAnd(k, shown, Get(nodes, t.id).visibleIf); }
        assert ([p] + up)[1..] == up;
        FinalizeChildren(t, shown, parsed, up);
      } else {
        NoChildren(k, parsed, nodes, items, [p] + up);
        if Get(nodes, t.id).holder.OfSymbol? {
          AddPropsToSymbol(t.id);
          AddOne(k, old(items), Get(nodes, t.id));
          assert [Get(nodes, t.id)] + ps + [] == [Get(nodes, t.id)];
        }
      }
      FinalOne(k, parsed, nodes, t, up);
      if Get(nodes, t.id).holder.OfChoice? {
        AddOne(k, items, Get(nodes, t.id));
        AddAllConcat(k, old(items), ps, [Get(nodes, t.id)]);
        AddOfChoice(k, items, Get(nodes, t.id));
        items := AddOwn(k, items, Get(nodes, t.id));
      }
    }

    /** The level below `t`. */
    method FinalizeChildren(t: M.Tree, visibleIf: Expr, ghost parsed: Nodes, ghost up: seq<Props>)
      requires M.Distinct(t.kids) && t.id !in M.Ids(t.kids) && SameNodes(parsed, nodes, M.Ids(t.kids))
      requires Get(nodes, t.id) == FinalProps(k, Get(parsed, t.id), up)
      requires visibleIf == FinalVisibleIf(k, [Get(parsed, t.id)] + up)
      modifies `nodes, `items
      ensures Final(k, parsed, nodes, t.kids, [Get(parsed, t.id)] + up) && OnlyChanged(old(nodes), nodes, M.Ids(t.kids))
      ensures items == AddAll(k, old(items), Collecting(k, parsed, t.kids, [Get(parsed, t.id)] + up))
      decreases M.Size(t.kids), 2
    {
      hide FinalProps, M.Ids, M.Distinct, Final, Collecting, AddAll, Add, Pushed, OnlyChanged;
      ghost var above := [Get(parsed, t.id)] + up;
      TopsOnce(t);
      PropagateDeps(t.id, Tops(t.kids), visibleIf);
      LevelPushed(k, parsed, old(nodes), nodes, t, up);
      NoChildren(k, parsed, nodes, items, above);
      assert t.kids[..0] == [];
      for i := 0 to |t.kids|
        invariant LevelReady(k, parsed, nodes, t.kids, i, above)
        invariant Final(k, parsed, nodes, t.kids[..i], above) && OnlyChanged(old(nodes), nodes, M.Ids(t.kids))
        invariant items == AddAll(k, old(items), Collecting(k, parsed, t.kids[..i], above))
      {
        ghost var before := nodes;
        ChildReady(t.kids, i);
        FinalizeTree(t.kids[i], visibleIf, parsed, above);
        LevelStep(k, parsed, old(nodes), before, nodes, t.kids, i, above);
        AddAllConcat(k, old(items), Collecting(k, parsed, t.kids[..i], above),
                     Collecting(k, parsed, [t.kids[i]], above));
        CollectingConcat(k, parsed, t.kids[..i], [t.kids[i]], above);
        assert t.kids[..i + 1] == t.kids[..i] + [t.kids[i]];
      }
      assert t.kids[..|t.kids|] == t.kids;
    }
  }

  /** All nodes of the level have final properties; from child `i` on, nothing below is touched. */
  ghost predicate LevelReady(k: Consts, parsed: Nodes, now: Nodes, kids: seq<M.Tree>, i: nat, up: seq<Props>) {
    && (forall j :: 0 <= j < |kids| ==> Get(now, kids[j].id) == FinalProps(k, Get(parsed, kids[j].id), up))
    && (forall j :: i <= j < |kids| ==> SameNodes(parsed, now, M.Ids(kids[j].kids)))
  }

  lemma LevelStep(k: Consts, parsed: Nodes, start: Nodes, a: Nodes, b: Nodes, kids: seq<M.Tree>, i: nat, up: seq<Props>)
    requires M.Distinct(kids) && i < |kids| && LevelReady(k, parsed, a, kids, i, up)
    requires OnlyChanged(start, a, M.Ids(kids)) && OnlyChanged(a, b, M.Ids(kids[i].kids))
    requires Final(k, parsed, a, kids[..i], up) && Final(k, parsed, b, [kids[i]], up)
    ensures LevelReady(k, parsed, b, kids, i + 1, up) && OnlyChanged(start, b, M.Ids(kids))
    ensures Final(k, parsed, b, kids[..i + 1], up)
  {
    hide FinalProps, Final, M.Ids, M.Distinct, Get;
    ChildApart(kids, i);
    FinalKids(k, parsed, b, kids[i], up);
    ChildDone(k, parsed, a, b, kids, i, up);
  }

  /** The nodes of a level. */
  function Tops(ts: seq<M.Tree>): (r: seq<M.Nid>)
    ensures |r| == |ts| && forall i :: 0 <= i < |ts| ==> r[i] == ts[i].id
  {
    seq(|ts|, i requires 0 <= i < |ts| => ts[i].id)
  }

  lemma TopsOnce(t: M.Tree)
    requires M.Distinct(t.kids) && t.id !in M.Ids(t.kids)
    ensures M.Once(Tops(t.kids)) && t.id !in Tops(t.kids)
  {
    hide M.Ids, M.Distinct;
    forall i, j | 0 <= i < j < |t.kids| ensures t.kids[i].id != t.kids[j].id { TopDistinct(t.kids, i, j); }
    forall i | 0 <= i < |t.kids| ensures t.kids[i].id != t.id { M.TopIds(t.kids, i); }
  }

  lemma LevelPushed(k: Consts, parsed: Nodes, a: Nodes, b: Nodes, t: M.Tree, up: seq<Props>)
    requires M.Distinct(t.kids) && SameNodes(parsed, a, M.Ids(t.kids))
    requires var p := FinalProps(k, Get(parsed, t.id), up);
      forall x :: x in Tops(t.kids) ==>
        Get(b, x) == Pushed(k, ParentDep(p, p.dep), FinalVisibleIf(k, [Get(parsed, t.id)] + up), Get(a, x))
    requires forall x :: x !in Tops(t.kids) ==> Get(b, x) == Get(a, x)
    ensures LevelReady(k, parsed, b, t.kids, 0, [Get(parsed, t.id)] + up) && OnlyChanged(a, b, M.Ids(t.kids))
  {
    hide FinalProps, Pushed, M.Ids, M.Distinct;
    forall i | 0 <= i < |t.kids|
      ensures Get(b, t.kids[i].id) == FinalProps(k, Get(parsed, t.kids[i].id), [Get(parsed, t.id)] + up)
      ensures SameNodes(parsed, b, M.Ids(t.kids[i].kids)) && t.kids[i].id in M.Ids(t.kids)
    {
      M.TopIds(t.kids, i);
      PushedIsFinal(k, Get(parsed, t.id), Get(parsed, t.kids[i].id), up);
      ChildApart(t.kids, i);
      assert Tops(t.kids)[i] == t.kids[i].id;
    }
  }

  lemma FinalKids(k: Consts, parsed: Nodes, now: Nodes, t: M.Tree, up: seq<Props>)
    requires Final(k, parsed, now, [t], up)
    ensures Final(k, parsed, now, t.kids, [Get(parsed, t.id)] + up)
  {
  }
}

/**
 Dependency loop detection: a depth-first search over the dependents of symbols, which also
 enters choices through their symbols, and what its outcome says about evaluation.
 */
module KconfigLoop {
  import opened Wrappers
  import opened KconfigModel
  import opened KconfigEval
  import opened KconfigInvalidation
  import opened KconfigRank

  /** `Partial` is a loop still being collected on the way back to its first item; `Raised` is the
      exception that reports it. */
  datatype Outcome = NoLoop | Partial(loop: seq<Id>) | Raised(loop: seq<Id>)

  /** The search goes from a symbol to its dependents and to the choice it is in, and from a choice
      to its symbols. */
  predicate Edge(g: Graph, a: Id, b: Id) {
    match g.At(a)
    case Lit(_) => false
    case Symbol(_, _, _, _, _, _, _, _, choice, _) => b in PropDependents(g, a) || choice == Some(b)
    case Choice(_, _, _, syms, _) => b in syms
  }

  /** Each item has an edge to the one before it. */
  predicate Chain(g: Graph, loop: seq<Id>) {
    loop != [] && forall k :: 0 < k < |loop| ==> Edge(g, loop[k], loop[k - 1])
  }

  /** A chain whose first item has an edge to its last. */
  predicate Cycle(g: Graph, loop: seq<Id>) { Chain(g, loop) && Edge(g, loop[0], loop[|loop| - 1]) }

  predicate NoRepeats(loop: seq<Id>) { forall i, j :: 0 <= i < j < |loop| ==> loop[i] != loop[j] }

  /** From `a` straight to `b` and back is not just the way between a symbol and its choice. */
  predicate NotJustMember(g: Graph, a: Id, b: Id) {
    && (g.At(a).Symbol? && g.At(a).choice == Some(b) ==> b in PropDependents(g, a))
    && (g.At(b).Symbol? && g.At(b).choice == Some(a) ==> a in PropDependents(g, b))
  }

  /** A cycle that repeats no item and does not go from a symbol to its choice and straight back. */
  predicate RealCycle(g: Graph, loop: seq<Id>) {
    Cycle(g, loop) && NoRepeats(loop) && (|loop| == 2 ==> NotJustMember(g, loop[0], loop[1]))
  }

  function Items(g: Graph): set<Id> { set i | 0 <= i < |g.items| && !g.items[i].Lit? }

  /** Items refer to items. */
  predicate InGraph(g: Graph) {
    && (forall i :: 0 <= i < |g.items| && g.items[i].Choice? ==>
          forall s :: s in g.items[i].syms ==> s < |g.items| && g.items[s].Symbol?)
    && (forall i :: 0 <= i < |g.items| && g.items[i].Symbol? && g.items[i].choice.Some? ==>
          g.items[i].choice.value < |g.items| && g.items[g.items[i].choice.value].Choice?)
  }

  predicate SymbolEdge(g: Graph, a: Id, b: Id) { g.At(a).Symbol? && g.At(b).Symbol? && b in PropDependents(g, a) }

  /** A cycle of dependencies between symbols. */
  predicate SymbolCycle(g: Graph, loop: seq<Id>) {
    && loop != []
    && SymbolEdge(g, loop[0], loop[|loop| - 1])
    && forall k :: 0 < k < |loop| ==> SymbolEdge(g, loop[k], loop[k - 1])
  }

  /** The symbols that were defined: every symbol with a type, or with a property that mentions more
      than constants, or in a choice, is among them. */
  predicate DefinedSymbols(g: Graph, syms: seq<Id>) {
    && (forall i :: i in syms ==> i < |g.items| && g.items[i].Symbol?)
    && (forall i :: 0 <= i < |g.items| && g.items[i].Symbol? && g.items[i].ty != Unknown ==> i in syms)
    && (forall i, j :: 0 <= i < |g.items| && g.items[i].Symbol? && j in PropItems(g.items[i]) && !g.At(j).Lit? ==>
          i in syms)
    && (forall c, i :: 0 <= c < |g.items| && g.items[c].Choice? && i in g.items[c].syms ==> i in syms)
  }

  /** Dependents are finished before the symbols they depend on. */
  ghost predicate FinishOrder(g: Graph, finish: map<Id, nat>) {
    forall a, b :: a in finish && SymbolEdge(g, a, b) ==> b in finish && finish[b] < finish[a]
  }

  // ---- what the finishing order says --------------------------------------------------------------

  /** How the search came to an item: to a choice through one of its symbols, to a symbol from its
      choice, or otherwise. */
  datatype Entry = ThroughMember(s: Id) | FromChoice | Plainly

  /** A symbol is finished after everything that depends on it, symbols and choices. */
  ghost predicate AfterDependents(g: Graph, finish: map<Id, nat>) {
    forall a, b :: a in finish && g.At(a).Symbol? && b in PropDependents(g, a) ==> b in finish && finish[b] < finish[a]
  }

  /** A choice is finished after its symbols, but for the one it was entered through. */
  ghost predicate AfterMembers(g: Graph, finish: map<Id, nat>, via: map<Id, Entry>) {
    forall c, s :: c in finish && g.At(c).Choice? && s in g.At(c).syms ==>
      (s in finish && finish[s] < finish[c]) || Entered(via, c, s)
  }

  ghost predicate Entered(via: map<Id, Entry>, c: Id, s: Id) { c in via && via[c] == ThroughMember(s) }

  /** A choice that was entered through a symbol is finished after all that depends on that symbol. */
  ghost predicate AfterEntry(g: Graph, finish: map<Id, nat>, via: map<Id, Entry>) {
    forall c, s, b :: c in finish && Entered(via, c, s) && b in PropDependents(g, s) ==>
      b in finish && finish[b] < finish[c]
  }

  /** A symbol is finished after its choice, unless it was reached from a choice. */
  ghost predicate AfterChoice(g: Graph, finish: map<Id, nat>, via: map<Id, Entry>) {
    forall a :: a in finish && !Within(via, a) && g.At(a).Symbol? && g.At(a).choice.Some? ==>
      g.At(a).choice.value in finish && finish[g.At(a).choice.value] < finish[a]
  }

  predicate Within(via: map<Id, Entry>, a: Id) { a in via && via[a] == FromChoice }

  /** The order of the finished items, and that choices are entered through symbols that are in them. */
  ghost predicate Finished(g: Graph, finish: map<Id, nat>, via: map<Id, Entry>) {
    && AfterDependents(g, finish) && AfterMembers(g, finish, via) && AfterEntry(g, finish, via)
    && AfterChoice(g, finish, via) && forall c, s :: Entered(via, c, s) ==> IsMember(g, c, s)
  }

  predicate IsMember(g: Graph, c: Id, s: Id) {
    g.At(c).Choice? && g.At(s).Symbol? && g.At(s).choice == Some(c)
  }

  lemma FinishedOrder(g: Graph, finish: map<Id, nat>, via: map<Id, Entry>)
    requires Finished(g, finish, via)
    ensures FinishOrder(g, finish)
  {
    hide PropDependents;
  }

  /** From a symbol to what depends on it, and from a choice to its symbols. */
  predicate Step(g: Graph, a: Id, b: Id) {
    (g.At(a).Symbol? && b in PropDependents(g, a)) || (g.At(a).Choice? && b in g.At(a).syms)
  }

  /** A cycle of such steps; each item has one to the item before it, and the first to the last. */
  predicate DependencyCycle(g: Graph, loop: seq<Id>) {
    loop != [] && forall k :: 0 <= k < |loop| ==> Step(g, loop[k], loop[Prev(|loop|, k)])
  }

  function Prev(n: nat, k: nat): (p: nat)
    requires k < n
    ensures p < n
  {
    if k == 0 then n - 1 else k - 1
  }

  /** The only step a search can miss: from a symbol to its choice, if it was reached from there and the
      choice does not depend on it otherwise. */
  predicate Skipped(g: Graph, via: map<Id, Entry>, a: Id, b: Id) {
    Within(via, a) && g.At(a).Symbol? && g.At(a).choice == Some(b) && b !in PropDependents(g, a)
  }

  lemma {:induction false} Earliest(finish: map<Id, nat>, loop: seq<Id>, n: nat) returns (m: nat)
    requires 0 < n <= |loop| && forall k :: 0 <= k < |loop| ==> loop[k] in finish
    ensures m < n && forall k :: 0 <= k < n ==> finish[loop[m]] <= finish[loop[k]]
  {
    if n == 1 {
      m := 0;
    } else {
      m := Earliest(finish, loop, n - 1);
      if finish[loop[n - 1]] < finish[loop[m]] { m := n - 1; }
    }
  }

  /** A step goes back in the order, or is from a choice to the symbol it was entered through. */
  lemma StepBack(g: Graph, finish: map<Id, nat>, via: map<Id, Entry>, a: Id, b: Id)
    requires Finished(g, finish, via) && a in finish && b in finish
    requires Step(g, a, b) || (g.At(a).Symbol? && g.At(a).choice == Some(b) && !Skipped(g, via, a, b))
    ensures finish[b] < finish[a] || Entered(via, a, b)
  {
    hide PropDependents;
  }

  /** No cycle of dependencies and steps from choices to their symbols. */
  lemma NoDependencyCycle(g: Graph, finish: map<Id, nat>, via: map<Id, Entry>, loop: seq<Id>)
    requires Finished(g, finish, via) && InGraph(g) && forall k :: 0 <= k < |loop| ==> loop[k] in finish
    ensures !DependencyCycle(g, loop)
  {
    if DependencyCycle(g, loop) {
      hide PropDependents, Finished, Step, InGraph;
      var m := Earliest(finish, loop, |loop|);
      var p := Prev(|loop|, m);
      var q := Prev(|loop|, p);
      StepBack(g, finish, via, loop[m], loop[p]);
      EntryStep(g, finish, via, loop[m], loop[p], loop[q]);
    }
  }

  lemma EntryStep(g: Graph, finish: map<Id, nat>, via: map<Id, Entry>, c: Id, s: Id, b: Id)
    requires Finished(g, finish, via) && c in finish
    ensures Entered(via, c, s) && Step(g, s, b) ==> b in finish && finish[b] < finish[c]
  {
    hide PropDependents;
  }

  /** Every real cycle of a configuration that passes contains a step that the search missed. */
  lemma CycleHasSkipped(g: Graph, finish: map<Id, nat>, via: map<Id, Entry>, loop: seq<Id>)
    requires Finished(g, finish, via) && InGraph(g) && forall k :: 0 <= k < |loop| ==> loop[k] in finish
    requires RealCycle(g, loop)
    ensures exists k :: 0 <= k < |loop| && Skipped(g, via, loop[k], loop[Prev(|loop|, k)])
  {
    hide PropDependents, Finished, Step, InGraph, Skipped, Edge, NotJustMember, Entered;
    var m := Earliest(finish, loop, |loop|);
    var p := Prev(|loop|, m);
    var q := Prev(|loop|, p);
    assert Edge(g, loop[m], loop[p]) && Edge(g, loop[p], loop[q]);
    EdgeBack(g, finish, via, loop[m], loop[p]);
    EntryBack(g, finish, via, loop[m], loop[p], loop[q]);
    if q == m { EntryTrivial(g, finish, via, loop, m); }
  }

  lemma EdgeBack(g: Graph, finish: map<Id, nat>, via: map<Id, Entry>, a: Id, b: Id)
    requires Finished(g, finish, via) && a in finish && b in finish && Edge(g, a, b)
    ensures Skipped(g, via, a, b) || Entered(via, a, b) || finish[b] < finish[a]
  {
    hide PropDependents;
    if !Skipped(g, via, a, b) { StepBack(g, finish, via, a, b); }
  }

  lemma EntryBack(g: Graph, finish: map<Id, nat>, via: map<Id, Entry>, c: Id, s: Id, b: Id)
    requires Finished(g, finish, via) && c in finish && Edge(g, s, b)
    ensures Entered(via, c, s) ==> (b in finish && finish[b] < finish[c]) || b == c
  {
    hide PropDependents;
  }

  lemma EntryTrivial(g: Graph, finish: map<Id, nat>, via: map<Id, Entry>, loop: seq<Id>, k: nat)
    requires Finished(g, finish, via) && RealCycle(g, loop) && |loop| <= 2 && k < |loop| && loop[k] in finish
    ensures !Entered(via, loop[k], loop[Prev(|loop|, k)])
  {
    hide PropDependents;
    var c, s := loop[k], loop[Prev(|loop|, k)];
    assert Entered(via, c, s) ==> IsMember(g, c, s);
    assert IsMember(g, c, s) ==> c in PropDependents(g, s);
  }

  /** An order excludes cycles between symbols. */
  lemma OrderExcludesCycles(g: Graph, finish: map<Id, nat>, syms: seq<Id>, loop: seq<Id>)
    requires FinishOrder(g, finish) && DefinedSymbols(g, syms) && forall i :: i in syms ==> i in finish
    ensures !SymbolCycle(g, loop)
  {
    if SymbolCycle(g, loop) {
      var last := |loop| - 1;
      assert loop[last] in finish;
      OrderAlongLoop(g, finish, loop, 0);
    }
  }

  lemma {:induction false} OrderAlongLoop(g: Graph, finish: map<Id, nat>, loop: seq<Id>, k: nat)
    requires FinishOrder(g, finish) && SymbolCycle(g, loop) && k < |loop| && loop[|loop| - 1] in finish
    ensures loop[k] in finish && finish[loop[k]] <= finish[loop[|loop| - 1]]
    decreases |loop| - k
  {
    hide SymbolEdge;
    if k < |loop| - 1 {
      OrderAlongLoop(g, finish, loop, k + 1);
      assert SymbolEdge(g, loop[k + 1], loop[k + 1 - 1]);
    }
  }

  lemma ChoiceFreeCycle(g: Graph, loop: seq<Id>)
    requires InGraph(g) && RealCycle(g, loop)
    ensures ChoiceFree(g) ==> SymbolCycle(g, loop)
  {
  }

  predicate IsSymbol(g: Graph, i: Id) { i < |g.items| && g.items[i].Symbol? }

  // ---- the search -----------------------------------------------------------------------------

  /** An order in which the dependents of each item are gone through. */
  type Listing = Id -> seq<Id>

  ghost predicate Lists(g: Graph, list: Listing) { forall i, d :: d in list(i) <==> d in PropDependents(g, i) }

  /** The outcome and the items known not to be part of a loop. */
  datatype Search = Search(r: Outcome, closed: set<Id>)

  /** Called on the way back with an item that leads to the end of the loop. */
  function Found(r: Outcome, cur: Id): Outcome {
    match r
    case Partial(loop) => if loop != [] && cur == loop[0] then Raised(loop) else Partial(loop + [cur])
    case _ => r
  }

  /** The search from a symbol; `open` are the items it was reached through. */
  function SearchSymbol(g: Graph, list: Listing, open: set<Id>, closed: set<Id>, i: Id, ignoreChoice: bool): (s: Search)
    requires InGraph(g) && Lists(g, list) && IsSymbol(g, i)
    ensures closed <= s.closed
    decreases Items(g) - open - closed, 0, 0
  {
    if i in closed then Search(NoLoop, closed)
    else if i in open then Search(Partial([i]), closed)
    else
      assert i in Items(g) - open - closed;
      var s := SearchInside(g, list, open + {i}, closed, i, ignoreChoice);
      if s.r.NoLoop? then Search(NoLoop, s.closed + {i}) else Search(Found(s.r, i), s.closed)
  }

  /** The dependents of an open symbol, and its choice. */
  function SearchInside(g: Graph, list: Listing, open: set<Id>, closed: set<Id>, i: Id, ignoreChoice: bool): (s: Search)
    requires InGraph(g) && Lists(g, list) && IsSymbol(g, i)
    ensures closed <= s.closed
    decreases Items(g) - open - closed, 2, 0
  {
    var d := SearchDependents(g, list, open, closed, i, list(i));
    if d.r.NoLoop? && g.items[i].choice.Some? && !ignoreChoice then
      SearchChoice(g, list, open, d.closed, g.items[i].choice.value, Some(i))
    else d
  }

  function SearchDependents(g: Graph, list: Listing, open: set<Id>, closed: set<Id>, i: Id, rest: seq<Id>): (s: Search)
    requires InGraph(g) && Lists(g, list) && forall d :: d in rest ==> d in PropDependents(g, i)
    ensures closed <= s.closed
    decreases Items(g) - open - closed, 1, |rest|
  {
    if rest == [] then Search(NoLoop, closed)
    else
      DependentIsItem(g, i, rest[0]);
      var d :=
        if g.items[rest[0]].Choice? then SearchChoice(g, list, open, closed, rest[0], None)
        else SearchSymbol(g, list, open, closed, rest[0], false);
      if d.r.NoLoop? then SearchDependents(g, list, open, d.closed, i, rest[1..]) else d
  }

  /** The search from a choice, entered through its symbol `skip` or through a dependency. */
  function SearchChoice(g: Graph, list: Listing, open: set<Id>, closed: set<Id>, c: Id, skip: Option<Id>): (s: Search)
    requires InGraph(g) && Lists(g, list) && c < |g.items| && g.items[c].Choice?
    ensures closed <= s.closed
    decreases Items(g) - open - closed, 0, 0
  {
    if c in closed then Search(NoLoop, closed)
    else if c in open then Search(Partial([c]), closed)
    else
      assert c in Items(g) - open - closed;
      assert forall s :: s in g.items[c].syms ==> IsSymbol(g, s);
      var m := SearchMembers(g, list, open + {c}, closed, c, skip, g.items[c].syms);
      if m.r.NoLoop? then Search(NoLoop, m.closed + {c}) else Search(Found(m.r, c), m.closed)
  }

  function SearchMembers(g: Graph, list: Listing, open: set<Id>, closed: set<Id>, c: Id, skip: Option<Id>,
                         rest: seq<Id>): (s: Search)
    requires InGraph(g) && Lists(g, list) && forall s :: s in rest ==> IsSymbol(g, s)
    ensures closed <= s.closed
    decreases Items(g) - open - closed, 1, |rest|
  {
    if rest == [] then Search(NoLoop, closed)
    else
      var d :=
        if skip == Some(rest[0]) then Search(NoLoop, closed)
        else SearchSymbol(g, list, open, closed, rest[0], true);
      if d.r.NoLoop? then SearchMembers(g, list, open, d.closed, c, skip, rest[1..]) else d
  }

  /** The check over all defined symbols, which looks only for the exception. */
  function SearchAll(g: Graph, list: Listing, closed: set<Id>, syms: seq<Id>): Search
    requires InGraph(g) && Lists(g, list) && forall i :: i in syms ==> IsSymbol(g, i)
    decreases |syms|
  {
    if syms == [] then Search(NoLoop, closed)
    else
      var s := SearchSymbol(g, list, {}, closed, syms[0], false);
      if s.r.NoLoop? then SearchAll(g, list, s.closed, syms[1..]) else s
  }

  /** A loop in progress: it starts at an item that was open, and the rest of it was not. */
  predicate Collected(g: Graph, loop: seq<Id>, open: set<Id>) {
    && Chain(g, loop) && NoRepeats(loop) && loop[0] in open
    && forall k :: 0 < k < |loop| ==> loop[k] !in open
  }

  /** A loop in progress that came back to `cur`. */
  predicate BackFrom(g: Graph, loop: seq<Id>, cur: Id, open: set<Id>) {
    && Collected(g, loop, open) && Edge(g, cur, loop[|loop| - 1])
    && (|loop| == 2 && cur == loop[0] ==> NotJustMember(g, loop[0], loop[1]))
  }

  /** What becomes of a loop in progress on the way back through `cur`. */
  lemma FoundOk(g: Graph, loop: seq<Id>, cur: Id, open: set<Id>)
    requires BackFrom(g, loop, cur, open) && cur in open
    ensures match Found(Partial(loop), cur)
      case NoLoop => false
      case Partial(more) => Collected(g, more, open - {cur}) && more == loop + [cur]
      case Raised(raised) => RealCycle(g, raised)
  {
    hide Edge, NotJustMember, PropDependents;
  }

  lemma CollectedSelf(g: Graph, i: Id, open: set<Id>)
    ensures i in open ==> Collected(g, [i], open)
  {
  }

  lemma FinishedVia(g: Graph, finish: map<Id, nat>, via: map<Id, Entry>, i: Id, e: Entry)
    requires Finished(g, finish, via) && i !in finish && (e.ThroughMember? ==> IsMember(g, i, e.s))
    ensures Finished(g, finish, via[i := e])
  {
    hide PropDependents, IsMember;
    var after := via[i := e];
    assert forall c, s :: c != i ==> Entered(after, c, s) == Entered(via, c, s);
    assert forall a :: a != i ==> Within(after, a) == Within(via, a);
  }

  /** Everything that has to be finished before `i`. */
  ghost predicate CanFinish(g: Graph, done: set<Id>, via: map<Id, Entry>, i: Id) {
    if g.At(i).Choice? then
      && (forall s :: s in g.At(i).syms ==> s in done || Entered(via, i, s))
      && (forall s, b :: Entered(via, i, s) && b in PropDependents(g, s) ==> b in done)
    else
      && (forall b :: b in PropDependents(g, i) ==> b in done)
      && (g.At(i).Symbol? && g.At(i).choice.Some? && !Within(via, i) ==> g.At(i).choice.value in done)
  }

  lemma FinishedMore(g: Graph, finish: map<Id, nat>, via: map<Id, Entry>, i: Id, clock: nat)
    requires Finished(g, finish, via) && i !in finish && (forall j :: j in finish ==> finish[j] < clock)
    requires CanFinish(g, finish.Keys, via, i)
    ensures Finished(g, finish[i := clock], via)
  {
    hide CanFinish, AfterDependents, AfterMembers, AfterEntry, AfterChoice;
    MoreDependents(g, finish, via, i, clock);
    MoreMembers(g, finish, via, i, clock);
    MoreEntry(g, finish, via, i, clock);
    MoreChoice(g, finish, via, i, clock);
  }

  lemma MoreDependents(g: Graph, finish: map<Id, nat>, via: map<Id, Entry>, i: Id, clock: nat)
    requires AfterDependents(g, finish) && i !in finish && (forall j :: j in finish ==> finish[j] < clock)
    requires CanFinish(g, finish.Keys, via, i)
    ensures AfterDependents(g, finish[i := clock])
  {
    hide PropDependents, Entered, Within, IsMember;
  }

  lemma MoreMembers(g: Graph, finish: map<Id, nat>, via: map<Id, Entry>, i: Id, clock: nat)
    requires AfterMembers(g, finish, via) && i !in finish && (forall j :: j in finish ==> finish[j] < clock)
    requires CanFinish(g, finish.Keys, via, i)
    ensures AfterMembers(g, finish[i := clock], via)
  {
    hide PropDependents, Entered, Within, IsMember;
  }

  lemma MoreEntry(g: Graph, finish: map<Id, nat>, via: map<Id, Entry>, i: Id, clock: nat)
    requires AfterEntry(g, finish, via) && i !in finish && (forall j :: j in finish ==> finish[j] < clock)
    requires CanFinish(g, finish.Keys, via, i) && (forall s :: Entered(via, i, s) ==> g.At(i).Choice?)
    ensures AfterEntry(g, finish[i := clock], via)
  {
    hide PropDependents, Entered, Within, IsMember;
  }

  lemma MoreChoice(g: Graph, finish: map<Id, nat>, via: map<Id, Entry>, i: Id, clock: nat)
    requires AfterChoice(g, finish, via) && i !in finish && (forall j :: j in finish ==> finish[j] < clock)
    requires CanFinish(g, finish.Keys, via, i)
    ensures AfterChoice(g, finish[i := clock], via)
  {
    hide PropDependents, Entered, Within, IsMember;
  }

  /** In a configuration that passes, all items of such a cycle were finished, so there is none. */
  lemma PassExcludes(g: Graph, finish: map<Id, nat>, via: map<Id, Entry>, syms: seq<Id>, loop: seq<Id>)
    requires Finished(g, finish, via) && InGraph(g) && DefinedSymbols(g, syms)
    requires forall i :: i in syms ==> i in finish
    ensures !DependencyCycle(g, loop)
  {
    if DependencyCycle(g, loop) {
      forall k | 0 <= k < |loop| ensures loop[k] in finish {
        var n := if k + 1 == |loop| then 0 else k + 1;
        assert Prev(|loop|, n) == k && Step(g, loop[n], loop[Prev(|loop|, n)]);
        var m := if n + 1 == |loop| then 0 else n + 1;
        assert Prev(|loop|, m) == n && Step(g, loop[m], loop[Prev(|loop|, m)]);
        StepFinished(g, finish, via, syms, loop[m], loop[n], loop[k]);
      }
      NoDependencyCycle(g, finish, via, loop);
    }
  }

  /** What a step leads to is a defined symbol, or a choice that depends on one. */
  lemma StepFinished(g: Graph, finish: map<Id, nat>, via: map<Id, Entry>, syms: seq<Id>, z: Id, a: Id, b: Id)
    requires Finished(g, finish, via) && InGraph(g) && DefinedSymbols(g, syms)
    requires (forall i :: i in syms ==> i in finish) && Step(g, z, a) && Step(g, a, b)
    ensures b in finish
  {
    hide PropItems;
    StepDefined(g, syms, z, a);
    StepDefined(g, syms, a, b);
  }

  lemma StepDefined(g: Graph, syms: seq<Id>, a: Id, b: Id)
    requires InGraph(g) && DefinedSymbols(g, syms) && Step(g, a, b)
    ensures g.At(b).Symbol? ==> b in syms
    ensures !g.At(b).Symbol? ==> g.At(a).Symbol? && b in PropDependents(g, a)
  {
    hide PropItems;
    if g.At(a).Symbol? && b in PropDependents(g, a) { DependentIsItem(g, a, b); }
  }

  lemma MemberBack(g: Graph, loop: seq<Id>, c: Id, s: Id, open: set<Id>)
    requires Collected(g, loop, open) && loop[|loop| - 1] == s && IsSymbol(g, s)
    requires c < |g.items| && g.items[c].Choice? && s in g.items[c].syms
    requires |loop| == 2 && g.items[s].choice == Some(loop[0]) ==> loop[0] in PropDependents(g, s)
    ensures BackFrom(g, loop, c, open)
  {
    hide PropDependents;
  }

  lemma MembersUnfold(g: Graph, list: Listing, open: set<Id>, closed: set<Id>, c: Id, skip: Option<Id>, rest: seq<Id>)
    requires InGraph(g) && Lists(g, list) && forall s :: s in rest ==> IsSymbol(g, s)
    ensures var s := SearchMembers(g, list, open, closed, c, skip, rest);
      if rest == [] then s == Search(NoLoop, closed)
      else if skip == Some(rest[0]) then s == SearchMembers(g, list, open, closed, c, skip, rest[1..])
      else
        var d := SearchSymbol(g, list, open, closed, rest[0], true);
        s == if d.r.NoLoop? then SearchMembers(g, list, open, d.closed, c, skip, rest[1..]) else d
  {
    hide SearchSymbol, Lists, InGraph;
  }

  lemma DependentsUnfold(g: Graph, list: Listing, open: set<Id>, closed: set<Id>, i: Id, rest: seq<Id>)
    requires InGraph(g) && Lists(g, list) && forall d :: d in rest ==> d in PropDependents(g, i)
    ensures rest != [] ==> rest[0] < |g.items| && (g.items[rest[0]].Choice? || g.items[rest[0]].Symbol?)
    ensures var s := SearchDependents(g, list, open, closed, i, rest);
      if rest == [] then s == Search(NoLoop, closed)
      else
        var d := if g.items[rest[0]].Choice? then SearchChoice(g, list, open, closed, rest[0], None)
                 else SearchSymbol(g, list, open, closed, rest[0], false);
        s == if d.r.NoLoop? then SearchDependents(g, list, open, d.closed, i, rest[1..]) else d
  {
    hide SearchSymbol, SearchChoice, Lists, InGraph, PropDependents, PropItems;
    if rest != [] { DependentIsItem(g, i, rest[0]); }
  }

  lemma ChoiceSearch(g: Graph, list: Listing, open: set<Id>, closed: set<Id>, c: Id, skip: Option<Id>)
    requires InGraph(g) && Lists(g, list) && c < |g.items| && g.items[c].Choice?
    ensures forall s :: s in g.items[c].syms ==> IsSymbol(g, s)
    ensures var r := SearchChoice(g, list, open, closed, c, skip);
      if c in closed then r == Search(NoLoop, closed)
      else if c in open then r == Search(Partial([c]), closed)
      else
        var m := SearchMembers(g, list, open + {c}, closed, c, skip, g.items[c].syms);
        r == if m.r.NoLoop? then Search(NoLoop, m.closed + {c}) else Search(Found(m.r, c), m.closed)
  {
    hide Lists, SearchMembers;
  }

  lemma SymbolSearch(g: Graph, list: Listing, open: set<Id>, closed: set<Id>, i: Id, ignoreChoice: bool)
    requires InGraph(g) && Lists(g, list) && IsSymbol(g, i)
    ensures var r := SearchSymbol(g, list, open, closed, i, ignoreChoice);
      if i in closed then r == Search(NoLoop, closed)
      else if i in open then r == Search(Partial([i]), closed)
      else
        var s := SearchInside(g, list, open + {i}, closed, i, ignoreChoice);
        r == if s.r.NoLoop? then Search(NoLoop, s.closed + {i}) else Search(Found(s.r, i), s.closed)
  {
    hide Lists, InGraph, SearchInside;
  }

  predicate Extends<T(==)>(less: map<Id, T>, more: map<Id, T>) {
    forall j :: j in less ==> j in more && more[j] == less[j]
  }

  /** In a configuration that passes, every real cycle contains a step that the search missed. */
  lemma PassSkips(g: Graph, finish: map<Id, nat>, via: map<Id, Entry>, syms: seq<Id>, loop: seq<Id>)
    requires Finished(g, finish, via) && InGraph(g) && DefinedSymbols(g, syms)
    requires (forall i :: i in syms ==> i in finish) && RealCycle(g, loop)
    ensures exists k :: 0 <= k < |loop| && Skipped(g, via, loop[k], loop[Prev(|loop|, k)])
  {
    hide Finished, InGraph, DefinedSymbols, Edge, Skipped, NotJustMember;
    if k :| 0 <= k < |loop| && loop[k] !in finish {
      var n := if k + 1 == |loop| then 0 else k + 1;
      var m := if n + 1 == |loop| then 0 else n + 1;
      assert Prev(|loop|, n) == k && Edge(g, loop[n], loop[k]) && Edge(g, loop[m], loop[n]);
      UnfinishedSkipped(g, finish, via, syms, loop[m], loop[n], loop[k]);
    } else {
      CycleHasSkipped(g, finish, via, loop);
    }
  }

  /** Only a choice can stay unfinished, and only if the step to it is missed. */
  lemma UnfinishedSkipped(g: Graph, finish: map<Id, nat>, via: map<Id, Entry>, syms: seq<Id>, z: Id, a: Id, b: Id)
    requires Finished(g, finish, via) && InGraph(g) && DefinedSymbols(g, syms)
    requires (forall i :: i in syms ==> i in finish) && Edge(g, z, a) && Edge(g, a, b) && b !in finish
    ensures Skipped(g, via, a, b)
  {
    hide PropItems, DefinedSymbols;
    EdgeDefined(g, syms, z, a);
    EdgeDefined(g, syms, a, b);
  }

  lemma EdgeDefined(g: Graph, syms: seq<Id>, a: Id, b: Id)
    requires InGraph(g) && DefinedSymbols(g, syms) && Edge(g, a, b)
    ensures g.At(b).Symbol? ==> b in syms
    ensures !g.At(b).Symbol? ==> g.At(a).Symbol?
  {
    hide PropItems;
    if g.At(a).Symbol? && b in PropDependents(g, a) { DependentIsItem(g, a, b); }
  }

  class LoopCheck {
    const g: Graph
    const list: Listing

    /** The items with _visited 1: being searched. */
    var open: set<Id>

    /** The items with _visited 2: known not to be part of a loop. */
    var closed: set<Id>

    /** The order in which items were closed. */
    ghost var finish: map<Id, nat>
    ghost var clock: nat

    /** How the search came to each item that is open or closed. */
    ghost var via: map<Id, Entry>

    constructor (g: Graph, list: Listing)
      requires InGraph(g) && Lists(g, list)
      ensures Valid() && this.g == g && this.list == list && open == closed == {}
    {
      this.g, this.list, open, closed, finish, clock := g, list, {}, {}, map[], 0;
      via := map[];
    }

    ghost predicate Valid()
      reads this
    {
      && InGraph(g) && Lists(g, list)
      && open !! closed && open <= Items(g) && closed <= Items(g)
      && finish.Keys == closed && (forall i :: i in finish ==> finish[i] < clock)
      && Finished(g, finish, via) && via.Keys == open + closed
    }

    function Unvisited(): set<Id>
      reads this
    {
      Items(g) - open - closed
    }

    /** Earlier marks stay, and so does the order. */
    twostate predicate Further()
      reads this
    {
      && Valid() && old(open) <= open && old(closed) <= closed
      && Extends(old(finish), finish) && Extends(old(via), via)
    }

    /** What a search leaves: without a loop nothing more is open; a loop in progress ends at `i`. */
    twostate predicate Searched(i: Id, r: Outcome)
      reads this
    {
      && Further()
      && match r
         case NoLoop => open == old(open) && i in closed
         case Partial(loop) => Collected(g, loop, old(open)) && loop[|loop| - 1] == i
         case Raised(loop) => RealCycle(g, loop)
    }

    /** What a search through the dependents of the open item `i` leaves. */
    twostate predicate SearchedFrom(i: Id, r: Outcome)
      reads this
    {
      && Further()
      && match r
         case NoLoop => open == old(open)
         case Partial(loop) => Collected(g, loop, old(open)) && loop[|loop| - 1] in PropDependents(g, i)
         case Raised(loop) => RealCycle(g, loop)
    }

    method CheckDependents(i: Id) returns (r: Outcome)
      requires Valid() && i in open && IsSymbol(g, i)
      modifies this
      ensures SearchedFrom(i, r)
      ensures forall d :: d in list(i) ==> d in PropDependents(g, i)
      ensures Search(r, closed) == SearchDependents(g, list, old(open), old(closed), i, list(i))
      ensures r.NoLoop? ==> forall b :: b in PropDependents(g, i) ==> b in closed
      decreases Unvisited(), 1
    {
      hide Finished, PropItems, PropDependents, SearchSymbol, SearchChoice, SearchDependents, RealCycle, NoRepeats,
        Chain, InGraph;
      var k := 0;
      var all := list(i);
      assert all[0..] == all;
      while k < |all|
        invariant k <= |all| && SearchedFrom(i, NoLoop)
        invariant SearchDependents(g, list, old(open), old(closed), i, all) ==
          SearchDependents(g, list, open, closed, i, all[k..])
        invariant forall b :: b in all[..k] ==> b in closed
      {
        var d := all[k];
        assert d in all && all[k..][0] == d && all[k..][1..] == all[k + 1..] && all[..k + 1] == all[..k] + [d];
        DependentsUnfold(g, list, open, closed, i, all[k..]);
        if g.items[d].Choice? { r := CheckChoice(d, None); } else { r := CheckSymbol(d, false); }
        if !r.NoLoop? { return; }
        k := k + 1;
      }
      r := NoLoop;
      DependentsUnfold(g, list, open, closed, i, all[k..]);
      assert all[..k] == all;
    }

    method CheckSymbol(i: Id, ignoreChoice: bool) returns (r: Outcome)
      requires Valid() && IsSymbol(g, i)
      modifies this
      ensures Searched(i, r)
      ensures Search(r, closed) == SearchSymbol(g, list, old(open), old(closed), i, ignoreChoice)
      ensures r.Partial? && |r.loop| == 2 && ignoreChoice && g.items[i].choice == Some(r.loop[0]) ==>
        r.loop[0] in PropDependents(g, i)
      decreases Unvisited(), 0
    {
      hide Finished, PropItems, PropDependents, SearchInside, RealCycle, Edge, NotJustMember, InGraph, Lists, Chain,
        NoRepeats, SearchSymbol;
      SymbolSearch(g, list, open, closed, i, ignoreChoice);
      if i in closed { return NoLoop; }
      CollectedSelf(g, i, open);
      if i in open { return Partial([i]); }
      assert i in Unvisited();
      Open(i, if ignoreChoice then FromChoice else Plainly);
      r := CheckInside(i, ignoreChoice);
      if !r.NoLoop? {
        if r.Partial? { FoundOk(g, r.loop, i, old(open) + {i}); }
        return Found(r, i);
      }
      Close(i);
    }

    /** The dependents of the open symbol `i`, and its choice. */
    method CheckInside(i: Id, ignoreChoice: bool) returns (r: Outcome)
      requires Valid() && i in open && IsSymbol(g, i)
      modifies this
      ensures Further() && Search(r, closed) == SearchInside(g, list, old(open), old(closed), i, ignoreChoice)
      ensures match r
        case NoLoop =>
          && open == old(open) && (forall b :: b in PropDependents(g, i) ==> b in closed)
          && (g.items[i].choice.Some? && !ignoreChoice ==> g.items[i].choice.value in closed)
        case Partial(loop) =>
          BackFrom(g, loop, i, old(open)) && (ignoreChoice ==> loop[|loop| - 1] in PropDependents(g, i))
        case Raised(loop) => RealCycle(g, loop)
      decreases Unvisited(), 2
    {
      hide Finished, PropItems, PropDependents, SearchDependents, SearchChoice, RealCycle, NoRepeats;
      r := CheckDependents(i);
      if r.NoLoop? && g.items[i].choice.Some? && !ignoreChoice {
        r := CheckChoice(g.items[i].choice.value, Some(i));
      }
    }

    method CheckChoice(c: Id, skip: Option<Id>) returns (r: Outcome)
      requires Valid() && c < |g.items| && g.items[c].Choice?
      requires skip.Some? ==> IsMember(g, c, skip.value)
      requires skip.Some? ==> forall b :: b in PropDependents(g, skip.value) ==> b in closed
      modifies this
      ensures Searched(c, r)
      ensures Search(r, closed) == SearchChoice(g, list, old(open), old(closed), c, skip)
      ensures r.Partial? && |r.loop| == 2 ==> skip != Some(r.loop[0])
      decreases Unvisited(), 0
    {
      hide Finished, PropItems, PropDependents, SearchMembers, RealCycle, NoRepeats, NotJustMember, Edge, Chain,
        InGraph, Lists, SearchChoice;
      ChoiceSearch(g, list, open, closed, c, skip);
      if c in closed { return NoLoop; }
      CollectedSelf(g, c, open);
      if c in open { return Partial([c]); }
      assert c in Unvisited();
      Open(c, if skip.Some? then ThroughMember(skip.value) else Plainly);
      r := CheckMembers(c, skip);
      if !r.NoLoop? {
        if r.Partial? { FoundOk(g, r.loop, c, old(open) + {c}); }
        return Found(r, c);
      }
      Close(c);
    }

    /** One symbol of the open choice `c`. */
    method CheckMember(c: Id, s: Id) returns (r: Outcome)
      requires Valid() && c in open && g.items[c].Choice? && s in g.items[c].syms && IsSymbol(g, s)
      modifies this
      ensures Further() && Search(r, closed) == SearchSymbol(g, list, old(open), old(closed), s, true)
      ensures match r
        case NoLoop => open == old(open) && s in closed
        case Partial(loop) => BackFrom(g, loop, c, old(open)) && loop[|loop| - 1] == s
        case Raised(loop) => RealCycle(g, loop)
      decreases Unvisited(), 1
    {
      hide Finished, PropItems, PropDependents, SearchSymbol, RealCycle, Collected, InGraph, Lists, BackFrom;
      r := CheckSymbol(s, true);
      if r.Partial? { MemberBack(g, r.loop, c, s, old(open)); }
    }

    /** The symbols of the open choice `c`. */
    method CheckMembers(c: Id, skip: Option<Id>) returns (r: Outcome)
      requires Valid() && c in open && g.items[c].Choice? && forall s :: s in g.items[c].syms ==> IsSymbol(g, s)
      modifies this
      ensures Further()
      ensures Search(r, closed) == SearchMembers(g, list, old(open), old(closed), c, skip, g.items[c].syms)
      ensures match r
        case NoLoop => open == old(open) && forall s :: s in g.items[c].syms && skip != Some(s) ==> s in closed
        case Partial(loop) => BackFrom(g, loop, c, old(open)) && skip != Some(loop[|loop| - 1])
        case Raised(loop) => RealCycle(g, loop)
      decreases Unvisited(), 2
    {
      hide Finished, PropItems, PropDependents, SearchSymbol, RealCycle, SearchMembers, InGraph, Lists, BackFrom;
      var syms, k := g.items[c].syms, 0;
      assert syms[0..] == syms;
      while k < |syms|
        invariant 0 <= k <= |syms| && Further() && open == old(open)
        invariant SearchMembers(g, list, old(open), old(closed), c, skip, syms)
               == SearchMembers(g, list, open, closed, c, skip, syms[k..])
        invariant forall j :: 0 <= j < k && skip != Some(syms[j]) ==> syms[j] in closed
      {
        assert syms[k] in syms && syms[k..][0] == syms[k] && syms[k..][1..] == syms[k + 1..];
        MembersUnfold(g, list, open, closed, c, skip, syms[k..]);
        if skip != Some(syms[k]) {
          r := CheckMember(c, syms[k]);
          if !r.NoLoop? { return; }
        }
        k := k + 1;
      }
      r := NoLoop;
      MembersUnfold(g, list, open, closed, c, skip, syms[k..]);
    }

    /** Marks an item as being searched. */
    method Open(i: Id, ghost e: Entry)
      requires Valid() && i in Unvisited() && (e.ThroughMember? ==> IsMember(g, i, e.s))
      modifies this`open, this`via
      ensures Valid() && open == old(open) + {i} && via == old(via)[i := e]
    {
      hide Finished, PropItems, PropDependents, InGraph, Lists;
      FinishedVia(g, finish, via, i, e);
      open, via := open + {i}, via[i := e];
    }

    /** Marks an item as not part of a loop. */
    method Close(i: Id)
      requires Valid() && i in open && CanFinish(g, closed, via, i)
      modifies this`open, this`closed, this`finish, this`clock
      ensures Valid() && open == old(open) - {i} && closed == old(closed) + {i}
      ensures Extends(old(finish), finish)
    {
      hide Finished, CanFinish, PropItems, PropDependents;
      open, closed := open - {i}, closed + {i};
      FinishedMore(g, finish, via, i, clock);
      finish, clock := finish[i := clock], clock + 1;
    }

    /** The check over all defined symbols, which looks only for the exception. */
    method CheckAll(syms: seq<Id>) returns (r: Outcome)
      requires Valid() && open == closed == {} && DefinedSymbols(g, syms)
      modifies this
      ensures Valid()
      ensures forall i :: i in syms ==> IsSymbol(g, i)
      ensures Search(r, closed) == SearchAll(g, list, {}, syms)
      ensures match r
        case NoLoop =>
          && Finished(g, finish, via) && FinishOrder(g, finish) && (forall i :: i in syms ==> i in finish)
          && (forall loop :: !SymbolCycle(g, loop) && !DependencyCycle(g, loop))
          && forall loop :: RealCycle(g, loop) ==>
               exists k :: 0 <= k < |loop| && Skipped(g, via, loop[k], loop[Prev(|loop|, k)])
        case Partial(_) => false
        case Raised(loop) => RealCycle(g, loop) && (ChoiceFree(g) ==> SymbolCycle(g, loop))
    {
      hide Finished, FinishOrder, PropItems, PropDependents, Edge, SymbolEdge, SearchSymbol, DependencyCycle, RealCycle,
        Skipped, Step;
      var k := 0;
      assert syms[0..] == syms && forall i :: i in syms ==> IsSymbol(g, i);
      while k < |syms|
        invariant 0 <= k <= |syms| && Valid() && open == {}
        invariant forall j :: 0 <= j < k ==> syms[j] in closed
        invariant SearchAll(g, list, {}, syms) == SearchAll(g, list, closed, syms[k..])
      {
        assert syms[k] in syms && syms[k..][0] == syms[k] && syms[k..][1..] == syms[k + 1..];
        r := CheckSymbol(syms[k], false);
        if r.Raised? {
          ChoiceFreeCycle(g, r.loop);
          return;
        }
        k := k + 1;
      }
      r := NoLoop;
      FinishedOrder(g, finish, via);
      forall loop ensures !SymbolCycle(g, loop) && !DependencyCycle(g, loop) {
        OrderExcludesCycles(g, finish, syms, loop);
        PassExcludes(g, finish, via, syms, loop);
      }
      forall loop | RealCycle(g, loop)
        ensures exists k :: 0 <= k < |loop| && Skipped(g, via, loop[k], loop[Prev(|loop|, k)])
      {
        PassSkips(g, finish, via, syms, loop);
      }
    }
  }

  // ---- what the check says about evaluation ---------------------------------------

  /** Symbols without a type mention only constants, and MODULES is not a text symbol. */
  predicate Typed(g: Graph) {
    && (forall i, j ::
          0 <= i < |g.items| && g.items[i].Symbol? && g.items[i].ty == Unknown && j in PropItems(g.items[i]) ==>
            g.At(j).Lit?)
    && (g.At(g.modules).Symbol? ==> IsLogic(g.At(g.modules).ty) || g.At(g.modules).ty == Unknown)
  }

  /** A set of items with MODULES, closed under the items their properties mention, and without
      tristate symbols: MODULES does not depend on a tristate symbol. */
  ghost predicate ModulesCone(g: Graph, cone: set<Id>) {
    && g.modules in cone
    && (forall i, j :: i in cone && i < |g.items| && j in PropItems(g.items[i]) && j in Items(g) ==> j in cone)
    && (forall i :: i in cone ==> !(g.At(i).Symbol? && g.At(i).ty == Tristate))
  }

  /** The finishing order of the search, turned around, orders the symbols; items of the cone come
      first. */
  function Position(g: Graph, finish: map<Id, nat>, cone: set<Id>, clock: nat, i: Id): nat {
    if g.At(i).Lit? then 0
    else if i !in finish || finish[i] >= clock then 1
    else (if i in cone then 1 else 1 + clock) + clock - finish[i]
  }

  /** The order in which the check finished, with the items MODULES depends on moved to the front. */
  function CheckOrder(g: Graph, finish: map<Id, nat>, cone: set<Id>, clock: nat): Id -> nat {
    i => Position(g, finish, cone, clock, i)
  }

  /** If the check passes, and MODULES does not depend on a tristate symbol, evaluation is well
      founded. */
  lemma CheckGivesOrder(g: Graph, finish: map<Id, nat>, clock: nat, syms: seq<Id>, cone: set<Id>)
    requires ChoiceFree(g) && DefinedSymbols(g, syms) && FinishOrder(g, finish)
    requires (forall i :: i in syms ==> i in finish) && (forall i :: i in finish ==> i < |g.items| && finish[i] < clock)
    requires ModulesCone(g, cone)
    ensures Ranked(g, Ranking(CheckOrder(g, finish, cone, clock)))
  {
    forall i, j | 0 <= i < |g.items| && j in PropItems(g.items[i])
      ensures Position(g, finish, cone, clock, j) < Position(g, finish, cone, clock, i)
    {
      PositionRises(g, finish, clock, syms, cone, i, j);
    }
    OrderedIsRanked(g, CheckOrder(g, finish, cone, clock));
  }

  lemma PositionRises(g: Graph, finish: map<Id, nat>, clock: nat, syms: seq<Id>, cone: set<Id>, i: Id, j: Id)
    requires ChoiceFree(g) && DefinedSymbols(g, syms) && FinishOrder(g, finish)
    requires (forall i :: i in syms ==> i in finish) && (forall i :: i in finish ==> i < |g.items| && finish[i] < clock)
    requires ModulesCone(g, cone) && i < |g.items| && j in PropItems(g.items[i])
    ensures Position(g, finish, cone, clock, j) < Position(g, finish, cone, clock, i)
  {
    hide PropItems;
    assert g.items[i].Symbol? by { if g.items[i].Lit? { LitHasNone(g.items[i]); } }
    if !g.At(j).Lit? {
      assert i in syms;
      if j in finish {
        assert i in PropDependents(g, j);
        assert SymbolEdge(g, j, i);
      }
    }
  }

  lemma LitHasNone(it: Item)
    requires it.Lit?
    ensures PropItems(it) == {}
  {
  }

  /** The rank of the attribute an item is used through: text symbols by their string. */
  function Top(g: Graph, rank: Node -> nat, i: Id): nat {
    match g.At(i)
    case Symbol(_, ty, _, _, _, _, _, _, _, _) =>
      1 + (if IsLogic(ty) then rank(Val(i)) else if ty == Unknown then 0 else rank(Str(i)))
    case _ => 0
  }

  lemma TopRises(g: Graph, rank: Node -> nat, i: Id, j: Id)
    requires ChoiceFree(g) && Typed(g) && Ranked(g, rank) && i < |g.items| && j in PropItems(g.items[i])
    ensures Top(g, rank, j) < Top(g, rank, i)
  {
    hide PropItems;
    if g.items[i].Lit? { LitHasNone(g.items[i]); }
    var n := if IsLogic(g.items[i].ty) then Val(i) else Str(i);
    if g.items[i].ty != Unknown {
      assert Operands(PropItems(g.items[i])) <= Deps(g, n);
      assert Val(j) in Deps(g, n) && Str(j) in Deps(g, n);
      assert rank(Val(j)) < rank(n) && rank(Str(j)) < rank(n);
      assert g.At(i) == g.items[i] && Top(g, rank, i) == 1 + rank(n);
    }
  }

  /** Evaluation is well founded only if there is no cycle between symbols and MODULES does not
      depend on a tristate symbol. */
  lemma RankedNeeds(g: Graph, rank: Node -> nat)
    requires ChoiceFree(g) && Typed(g) && Ranked(g, rank)
    ensures (forall loop :: !SymbolCycle(g, loop)) && exists cone :: ModulesCone(g, cone)
  {
    forall loop ensures !SymbolCycle(g, loop) {
      if SymbolCycle(g, loop) { TopAlongLoop(g, rank, loop, 0); }
    }
    ConeOf(g, rank);
  }

  lemma ConeOf(g: Graph, rank: Node -> nat)
    requires ChoiceFree(g) && Typed(g) && Ranked(g, rank)
    ensures ModulesCone(g, set i | i in Items(g) + {g.modules} && Top(g, rank, i) <= Top(g, rank, g.modules))
  {
    var cone := set i | i in Items(g) + {g.modules} && Top(g, rank, i) <= Top(g, rank, g.modules);
    forall i, j | i in cone && i < |g.items| && j in PropItems(g.items[i]) && j in Items(g) ensures j in cone {
      TopRises(g, rank, i, j);
    }
    forall i | i in cone ensures !(g.At(i).Symbol? && g.At(i).ty == Tristate) {
      if g.At(i).Symbol? && g.At(i).ty == Tristate { TristateAfterModules(g, rank, i); }
    }
  }

  lemma TristateAfterModules(g: Graph, rank: Node -> nat, i: Id)
    requires ChoiceFree(g) && Typed(g) && Ranked(g, rank) && g.At(i).Symbol? && g.At(i).ty == Tristate
    ensures Top(g, rank, g.modules) < Top(g, rank, i)
  {
    hide PropItems;
    assert Val(g.modules) in Deps(g, Val(i));
    assert rank(Val(g.modules)) < rank(Val(i));
  }

  lemma {:induction false} TopAlongLoop(g: Graph, rank: Node -> nat, loop: seq<Id>, k: nat)
    requires ChoiceFree(g) && Typed(g) && Ranked(g, rank) && SymbolCycle(g, loop) && k < |loop|
    ensures Top(g, rank, loop[k]) >= Top(g, rank, loop[|loop| - 1])
    ensures k == 0 ==> Top(g, rank, loop[0]) < Top(g, rank, loop[|loop| - 1])
    decreases |loop| - k
  {
    if k < |loop| - 1 {
      TopAlongLoop(g, rank, loop, k + 1);
      assert SymbolEdge(g, loop[k + 1], loop[k + 1 - 1]);
      TopRises(g, rank, loop[k], loop[k + 1]);
    }
    if k == 0 { TopRises(g, rank, loop[|loop| - 1], loop[0]); }
  }

  /** n, m, y, MODULES with a prompt that depends on X, and the tristate symbol X. */
  const MODULES_ON_TRISTATE := Graph(
    [Lit(0), Lit(1), Lit(2),
     Symbol("MODULES", Bool, [Ref(4)], [], [], Ref(0), Ref(0), Ref(4), None, false),
     Symbol("X", Tristate, [], [Default(Ref(1), Ref(2))], [], Ref(0), Ref(0), Ref(2), None, false)],
    3, (s, b) => None, (n, ty) => "")

  lemma SampleItems()
    ensures var items := MODULES_ON_TRISTATE.items;
      && PropItems(items[0]) == PropItems(items[1]) == PropItems(items[2]) == {}
      && PropItems(items[3]) == {0, 4} && PropItems(items[4]) == {0, 1, 2} && PromptItems(items[3]) == {4}
  {
    assert DefaultIds(Default(Ref(1), Ref(2))) == {1, 2};
    assert Ref(4) in MODULES_ON_TRISTATE.items[3].prompts;
    assert Default(Ref(1), Ref(2)) in MODULES_ON_TRISTATE.items[4].defaults;
  }

  lemma SampleEdges()
    ensures var g := MODULES_ON_TRISTATE;
      DefinedSymbols(g, [3, 4]) && forall a, b :: SymbolEdge(g, a, b) ==> a == 4 && b == 3
  {
    hide PropItems;
    SampleItems();
    var g := MODULES_ON_TRISTATE;
    forall a, b | SymbolEdge(g, a, b) ensures a == 4 && b == 3 {
      assert b == 3 || b == 4;
    }
  }

  lemma SampleCircle(rank: Node -> nat)
    ensures !Ranked(MODULES_ON_TRISTATE, rank)
  {
    hide PropItems, PromptItems;
    SampleItems();
    var g := MODULES_ON_TRISTATE;
    assert Val(4) in Operands({4});
    assert Val(4) in Deps(g, Vis(3));
    assert Vis(3) in Deps(g, Val(3));
    assert Val(3) in Deps(g, Val(4));
    var x, vis, modules := rank(Val(4)), rank(Vis(3)), rank(Val(3));
    assert Ranked(g, rank) ==> x < vis;
    assert Ranked(g, rank) ==> vis < modules;
    assert Ranked(g, rank) ==> modules < x;
  }

  /** The check does not see that the type of a tristate symbol depends on MODULES: it passes a
      configuration whose evaluation runs in a circle. */
  lemma CheckMissesModules()
    ensures var g := MODULES_ON_TRISTATE;
      && (forall loop :: !SymbolCycle(g, loop)) && forall rank: Node -> nat :: !Ranked(g, rank)
  {
    hide Ranked, SymbolEdge, DefinedSymbols;
    var g := MODULES_ON_TRISTATE;
    SampleEdges();
    forall loop ensures !SymbolCycle(g, loop) {
      OrderExcludesCycles(g, map[3 := 0, 4 := 1], [3, 4], loop);
    }
    forall rank: Node -> nat ensures !Ranked(g, rank) { SampleCircle(rank); }
  }
}

/**
 Evaluation orders for configurations without choices: an order of the items that respects
 their properties, and puts MODULES before every tristate symbol, orders the attributes.
 */
module KconfigRank {
  import opened Wrappers
  import opened KconfigModel
  import opened KconfigEval

  predicate ChoiceFree(g: Graph) {
    forall i :: 0 <= i < |g.items| ==> !g.items[i].Choice? && (g.items[i].Symbol? ==> g.items[i].choice.None?)
  }

  function NodeRank(pos: Id -> nat, n: Node): nat {
    5 * pos(n.i) + match n { case Vis(_) => 0 case Val(_) => 1 case Str(_) => 2 case Asg(_) => 3 case Sel(_) => 4 }
  }

  function Ranking(pos: Id -> nat): Node -> nat { n => NodeRank(pos, n) }

  /** `pos` puts every item after the items its properties mention, and every tristate symbol
      after MODULES, whose value its type depends on. */
  ghost predicate Ordered(g: Graph, pos: Id -> nat) {
    && (forall i, j :: 0 <= i < |g.items| && j in PropItems(g.items[i]) ==> pos(j) < pos(i))
    && (forall i :: 0 <= i < |g.items| && g.items[i].Symbol? && g.items[i].ty == Tristate ==> pos(g.modules) < pos(i))
  }

  lemma OrderedIsRanked(g: Graph, pos: Id -> nat)
    requires ChoiceFree(g) && Ordered(g, pos)
    ensures Ranked(g, Ranking(pos))
  {
    forall n, r | r in Deps(g, n) ensures Ranking(pos)(r) < Ranking(pos)(n) {
      OrderedDep(g, pos, n, r);
    }
  }

  lemma OrderedDep(g: Graph, pos: Id -> nat, n: Node, r: Node)
    requires ChoiceFree(g) && Ordered(g, pos) && r in Deps(g, n)
    ensures NodeRank(pos, r) < NodeRank(pos, n)
  {
    var it := g.At(n.i);
    if n.i < |g.items| {
      assert it == g.items[n.i] && !it.Choice?;
      assert it.Symbol? ==> PromptItems(it) <= PropItems(it);
      if r in Operands(PropItems(it)) { assert pos(r.i) < pos(n.i); }
    }
  }
}

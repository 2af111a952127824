/**
 Expressions as text: printing an expression as the tokens of its string, and parsing tokens.
 */
module KconfigExprText {
  import opened Wrappers
  import opened KconfigModel

  /** Tokens of an expression; token lists end with `End`. */
  datatype Token = Sym(id: Id) | AndTok | OrTok | NotTok | Open | Close | Rel(rel: Relation) | End

  datatype Parsed = Ok(e: Expr, rest: seq<Token>) | Malformed

  // ---- printing --------------------------------------------------------------------

  function Print(e: Expr): (r: seq<Token>)
    ensures r != [] && r[0] != AndTok && r[0] != OrTok
    decreases e, 1
  {
    match e
    case Ref(i) => [Sym(i)]
    case And(l, r) => Parenthesized(l, l.Or?) + [AndTok] + Parenthesized(r, r.Or?)
    // redundant parentheses around conjunctions, for readability
    case Or(l, r) => Parenthesized(l, l.And?) + [OrTok] + Parenthesized(r, r.And?)
    case Not(f) => if f.Ref? then [NotTok, Sym(f.id)] else [NotTok, Open] + Print(f) + [Close]
    case Compare(rel, a, b) => [Sym(a), Rel(rel), Sym(b)]
  }

  function Parenthesized(e: Expr, parens: bool): (r: seq<Token>)
    ensures r != [] && r[0] != AndTok && r[0] != OrTok
    decreases e, 2
  {
    if parens then [Open] + Print(e) + [Close] else Print(e)
  }

  // ---- parsing ----------------------------------------------------------------------

  /** `m` is rewritten to `m && MODULES` in conditions: the ids of the two symbols, if so. */
  datatype Transform = Keep | RewriteM(m: Id, modules: Id)

  function ParseExpr(ts: seq<Token>, tr: Transform): (p: Parsed)
    ensures p.Ok? ==> |p.rest| < |ts|
    decreases |ts|, 2
  {
    match ParseAnd(ts, tr)
    case Malformed => Malformed
    case Ok(e, rest) =>
      if rest == [] || rest[0] != OrTok then Ok(e, rest)
      else match ParseExpr(rest[1..], tr) case Malformed => Malformed case Ok(f, rest') => Ok(Or(e, f), rest')
  }

  function ParseAnd(ts: seq<Token>, tr: Transform): (p: Parsed)
    ensures p.Ok? ==> |p.rest| < |ts|
    decreases |ts|, 1
  {
    match ParseFactor(ts, tr)
    case Malformed => Malformed
    case Ok(e, rest) =>
      if rest == [] || rest[0] != AndTok then Ok(e, rest)
      else match ParseAnd(rest[1..], tr) case Malformed => Malformed case Ok(f, rest') => Ok(And(e, f), rest')
  }

  function ParseFactor(ts: seq<Token>, tr: Transform): (p: Parsed)
    ensures p.Ok? ==> |p.rest| < |ts|
    decreases |ts|, 0
  {
    if ts == [] then Malformed
    else match ts[0]
      case Sym(i) =>
        if |ts| >= 2 && ts[1].Rel? then
          if |ts| >= 3 && ts[2].Sym? then Ok(Compare(ts[1].rel, i, ts[2].id), ts[3..]) else Malformed
        else if tr.RewriteM? && i == tr.m then Ok(And(Ref(i), Ref(tr.modules)), ts[1..])
        else Ok(Ref(i), ts[1..])
      case NotTok =>
        (match ParseFactor(ts[1..], tr) case Malformed => Malformed case Ok(e, rest) => Ok(Not(e), rest))
      case Open =>
        (match ParseExpr(ts[1..], tr)
         case Malformed => Malformed
         case Ok(e, rest) => if rest != [] && rest[0] == Close then Ok(e, rest[1..]) else Malformed)
      case _ => Malformed
  }

  // ---- the parser works on a token list with an index --------------------------------

  class Parser {
    const tokens: seq<Token>
    const tr: Transform
    var i: nat

    constructor (tokens: seq<Token>, tr: Transform)
      ensures this.tokens == tokens && this.tr == tr && i == 0
    {
      this.tokens, this.tr, i := tokens, tr, 0;
    }

    ghost predicate Valid()
      reads this
    {
      i < |tokens| && tokens[|tokens| - 1] == End
    }

    /** The result and the new index are those of the parse of the remaining tokens. */
    ghost predicate Agrees(ok: bool, e: Expr, p: Parsed)
      reads this
    {
      ok == p.Ok? && (ok ==> Valid() && e == p.e && tokens[i..] == p.rest)
    }

    method CheckToken(t: Token) returns (b: bool)
      requires Valid() && t != End
      modifies `i
      ensures Valid() && b == (tokens[old(i)] == t) && i == if b then old(i) + 1 else old(i)
    {
      b := tokens[i] == t;
      if b { i := i + 1; }
    }

    method Expr() returns (ok: bool, e: Expr)
      requires Valid()
      modifies `i
      ensures Agrees(ok, e, ParseExpr(tokens[old(i)..], tr)) && (ok ==> old(i) < i)
      decreases |tokens| - i, 2
    {
      ok, e := AndExpr();
      if ok {
        var b := CheckToken(OrTok);
        if b {
          assert tokens[i..] == tokens[i - 1..][1..];
          var f;
          ok, f := Expr();
          e := Or(e, f);
        }
      }
    }

    method AndExpr() returns (ok: bool, e: Expr)
      requires Valid()
      modifies `i
      ensures Agrees(ok, e, ParseAnd(tokens[old(i)..], tr)) && (ok ==> old(i) < i)
      decreases |tokens| - i, 1
    {
      ok, e := Factor();
      if ok {
        var b := CheckToken(AndTok);
        if b {
          assert tokens[i..] == tokens[i - 1..][1..];
          var f;
          ok, f := AndExpr();
          e := And(e, f);
        }
      }
    }

    method Factor() returns (ok: bool, e: Expr)
      requires Valid()
      modifies `i
      ensures Agrees(ok, e, ParseFactor(tokens[old(i)..], tr)) && (ok ==> old(i) < i)
      decreases |tokens| - i, 0
    {
      ghost var ts := tokens[i..];
      var token := tokens[i];
      if token == End { return false, Ref(0); }
      i := i + 1;
      assert tokens[i..] == ts[1..];
      match token
      case Sym(s) =>
        if !tokens[i].Rel? {
          e := if tr.RewriteM? && s == tr.m then And(Ref(s), Ref(tr.modules)) else Ref(s);
          ok := true;
        } else {
          i := i + 1;
          assert tokens[i..] == ts[2..];
          ok, e := tokens[i].Sym?, Ref(0);
          if ok {
            e := Compare(tokens[i - 1].rel, s, tokens[i].id);
            i := i + 1;
            assert tokens[i..] == ts[3..];
          }
        }
      case NotTok =>
        ok, e := Factor();
        e := Not(e);
      case Open =>
        ok, e := Expr();
        if ok {
          ok := CheckToken(Close);
          if ok { assert tokens[i..] == tokens[i - 1..][1..]; }
        }
      case AndTok => ok, e := false, Ref(0);
      case OrTok => ok, e := false, Ref(0);
      case Close => ok, e := false, Ref(0);
      case Rel(_) => ok, e := false, Ref(0);
    }
  }

  // ---- printing, then parsing ---------------------------------------------------------

  /** The expression with its conjunctions and disjunctions associated to the right. */
  function Normal(e: Expr): Expr
    decreases e, 0
  {
    match e
    case And(l, r) => JoinAnd(l, Normal(r))
    case Or(l, r) => JoinOr(l, Normal(r))
    case Not(f) => Not(Normal(f))
    case _ => e
  }

  function JoinAnd(e: Expr, tail: Expr): Expr
    decreases e, 1
  {
    if e.And? then JoinAnd(e.left, JoinAnd(e.right, tail)) else And(Normal(e), tail)
  }

  function JoinOr(e: Expr, tail: Expr): Expr
    decreases e, 1
  {
    if e.Or? then JoinOr(e.left, JoinOr(e.right, tail)) else Or(Normal(e), tail)
  }

  /** What can follow a complete operand. */
  predicate Follows(rest: seq<Token>) { rest != [] && !rest[0].Rel? }

  lemma {:induction false} ParenthesizedFactor(e: Expr, rest: seq<Token>)
    requires ParseExpr(Print(e) + [Close] + rest, Keep) == Ok(Normal(e), [Close] + rest)
    ensures ParseFactor([Open] + Print(e) + [Close] + rest, Keep) == Ok(Normal(e), rest)
  {
    hide Print, Normal, ParseExpr, ParseAnd;
    var ts := [Open] + Print(e) + [Close] + rest;
    assert ts[0] == Open && ts[1..] == Print(e) + [Close] + rest;
    assert ([Close] + rest)[1..] == rest;
  }

  /** An operand that is not a conjunction or disjunction prints as one factor. */
  lemma {:induction false} PrintedFactor(e: Expr, rest: seq<Token>)
    requires Follows(rest) && !e.And? && !e.Or?
    ensures ParseFactor(Print(e) + rest, Keep) == Ok(Normal(e), rest)
    decreases e, 0
  {
    hide ParseExpr, ParseAnd;
    var ts := Print(e) + rest;
    match e
    case Ref(i) => assert ts[1..] == rest;
    case Compare(rel, a, b) => assert ts[3..] == rest;
    case Not(f) =>
      if f.Ref? {
        assert ts[1..] == [Sym(f.id)] + rest;
        assert ts[1..][1..] == rest;
      } else {
        PrintedExpr(f, [Close] + rest);
        assert Print(f) + ([Close] + rest) == Print(f) + [Close] + rest;
        ParenthesizedFactor(f, rest);
        assert ts[0] == NotTok && ts[1..] == [Open] + Print(f) + [Close] + rest;
      }
  }

  /** An operand of a conjunction, in parentheses if it is a disjunction. */
  lemma {:induction false} PrintedOperand(e: Expr, parens: bool, rest: seq<Token>)
    requires Follows(rest) && (parens || (!e.And? && !e.Or?))
    ensures ParseFactor(Parenthesized(e, parens) + rest, Keep) == Ok(Normal(e), rest)
    decreases e, if parens then 6 else 3
  {
    hide Print, Normal, ParseExpr, ParseAnd, ParseFactor;
    if parens {
      PrintedExpr(e, [Close] + rest);
      assert Print(e) + ([Close] + rest) == Print(e) + [Close] + rest;
      ParenthesizedFactor(e, rest);
    } else {
      PrintedFactor(e, rest);
    }
  }

  /** A conjunction, followed by && and more, or by the end of the conjunction. */
  lemma {:induction false} PrintedAnd(e: Expr, rest: seq<Token>)
    requires Follows(rest)
    ensures var p := ParseAnd(Parenthesized(e, e.Or?) + rest, Keep);
      if rest[0] != AndTok then p == Ok(Normal(e), rest)
      else match ParseAnd(rest[1..], Keep)
        case Ok(t, rest') => p == Ok(JoinAnd(e, t), rest')
        case Malformed => p == Malformed
    decreases e, if e.Or? then 7 else 4
  {
    if e.And? {
      var l, r := Parenthesized(e.left, e.left.Or?), Parenthesized(e.right, e.right.Or?);
      var tail := [AndTok] + r + rest;
      assert Parenthesized(e, e.Or?) + rest == l + tail;
      assert tail[1..] == r + rest;
      PrintedAnd(e.right, rest);
      PrintedAnd(e.left, tail);
    } else {
      PrintedOperand(e, e.Or?, rest);
    }
  }

  lemma {:induction false} PrintedOr(e: Expr, rest: seq<Token>)
    requires Follows(rest) && rest[0] != AndTok
    ensures var p := ParseExpr(Parenthesized(e, e.And?) + rest, Keep);
      if rest[0] != OrTok then p == Ok(Normal(e), rest)
      else match ParseExpr(rest[1..], Keep)
        case Ok(t, rest') => p == Ok(JoinOr(e, t), rest')
        case Malformed => p == Malformed
    decreases e, if e.And? then 7 else 4
  {
    if e.Or? {
      var l, r := Parenthesized(e.left, e.left.And?), Parenthesized(e.right, e.right.And?);
      var tail := [OrTok] + r + rest;
      assert Parenthesized(e, e.And?) + rest == l + tail;
      assert tail[1..] == r + rest;
      PrintedOr(e.right, rest);
      PrintedOr(e.left, tail);
    } else {
      PrintedOperand(e, e.And?, rest);
    }
  }

  /** Parsing the tokens of a printed expression consumes them and gives the expression, up to the
      association of && and ||. */
  lemma {:induction false} PrintedExpr(e: Expr, rest: seq<Token>)
    requires Follows(rest) && rest[0] != AndTok && rest[0] != OrTok
    ensures ParseExpr(Print(e) + rest, Keep) == Ok(Normal(e), rest)
    decreases e, 5
  {
    if e.Or? { PrintedOr(e, rest); } else { PrintedAnd(e, rest); }
  }

  // ---- meaning -------------------------------------------------------------------------

  lemma {:induction false} JoinAndValue(g: Graph, env: Env, e: Expr, tail: Expr)
    ensures ExprR(g, env, JoinAnd(e, tail)).v == Min(ExprR(g, env, e).v, ExprR(g, env, tail).v)
    decreases e, 1
  {
    if e.And? {
      JoinAndValue(g, env, e.left, JoinAnd(e.right, tail));
      JoinAndValue(g, env, e.right, tail);
    } else {
      NormalValue(g, env, e);
    }
  }

  lemma {:induction false} JoinOrValue(g: Graph, env: Env, e: Expr, tail: Expr)
    ensures ExprR(g, env, JoinOr(e, tail)).v == Max(ExprR(g, env, e).v, ExprR(g, env, tail).v)
    decreases e, 1
  {
    if e.Or? {
      JoinOrValue(g, env, e.left, JoinOr(e.right, tail));
      JoinOrValue(g, env, e.right, tail);
    } else {
      NormalValue(g, env, e);
    }
  }

  /** Re-association changes no value. */
  lemma {:induction false} NormalValue(g: Graph, env: Env, e: Expr)
    ensures ExprR(g, env, Normal(e)).v == ExprR(g, env, e).v
    decreases e, 0
  {
    match e
    case And(l, r) => NormalValue(g, env, r); JoinAndValue(g, env, l, Normal(r));
    case Or(l, r) => NormalValue(g, env, r); JoinOrValue(g, env, l, Normal(r));
    case Not(f) => NormalValue(g, env, f);
    case _ =>
  }

  /** For every expression: its printed tokens parse, completely, to an expression with the same
      value under every assignment. */
  lemma RoundTrip(e: Expr)
    ensures ParseExpr(Print(e) + [End], Keep) == Ok(Normal(e), [End])
    ensures forall g, env :: ExprR(g, env, Normal(e)).v == ExprR(g, env, e).v
  {
    PrintedExpr(e, [End]);
    forall g, env ensures ExprR(g, env, Normal(e)).v == ExprR(g, env, e).v { NormalValue(g, env, e); }
  }

  // ---- m in conditions -----------------------------------------------------------------

  /** Every mention of `m` joined with MODULES; comparisons stay as they are. */
  function Gated(e: Expr, m: Id, modules: Id): Expr {
    match e
    case Ref(i) => if i == m then And(e, Ref(modules)) else e
    case And(l, r) => And(Gated(l, m, modules), Gated(r, m, modules))
    case Or(l, r) => Or(Gated(l, m, modules), Gated(r, m, modules))
    case Not(f) => Not(Gated(f, m, modules))
    case Compare(_, _, _) => e
  }

  function GatedParse(p: Parsed, m: Id, modules: Id): Parsed {
    match p case Malformed => Malformed case Ok(e, rest) => Ok(Gated(e, m, modules), rest)
  }

  /** In a condition the same tokens are accepted as elsewhere, and only `m` becomes something else. */
  lemma {:induction false} ConditionParse(ts: seq<Token>, m: Id, modules: Id)
    ensures ParseExpr(ts, RewriteM(m, modules)) == GatedParse(ParseExpr(ts, Keep), m, modules)
    decreases |ts|, 2
  {
    hide ParseAnd, ParseFactor;
    ConditionParseAnd(ts, m, modules);
    var p := ParseAnd(ts, Keep);
    if p.Ok? && p.rest != [] { ConditionParse(p.rest[1..], m, modules); }
  }

  lemma {:induction false} ConditionParseAnd(ts: seq<Token>, m: Id, modules: Id)
    ensures ParseAnd(ts, RewriteM(m, modules)) == GatedParse(ParseAnd(ts, Keep), m, modules)
    decreases |ts|, 1
  {
    hide ParseExpr, ParseFactor;
    ConditionParseFactor(ts, m, modules);
    var p := ParseFactor(ts, Keep);
    if p.Ok? && p.rest != [] { ConditionParseAnd(p.rest[1..], m, modules); }
  }

  lemma {:induction false} ConditionParseFactor(ts: seq<Token>, m: Id, modules: Id)
    ensures ParseFactor(ts, RewriteM(m, modules)) == GatedParse(ParseFactor(ts, Keep), m, modules)
    decreases |ts|, 0
  {
    hide ParseExpr, ParseAnd;
    if ts != [] && ts[0] == NotTok {
      ConditionParseFactor(ts[1..], m, modules);
    } else if ts != [] && ts[0] == Open {
      ConditionParse(ts[1..], m, modules);
    }
  }

  /** With `v` for the value of `m`, wherever it is not compared. */
  ghost function ValueWith(g: Graph, env: Env, e: Expr, m: Id, v: Tri): Tri {
    match e
    case Ref(i) => if i == m then v else TriOf(env, Val(i))
    case And(l, r) => Min(ValueWith(g, env, l, m, v), ValueWith(g, env, r, m, v))
    case Or(l, r) => Max(ValueWith(g, env, l, m, v), ValueWith(g, env, r, m, v))
    case Not(f) => 2 - ValueWith(g, env, f, m, v)
    case Compare(_, _, _) => ExprR(g, env, e).v
  }

  lemma {:induction false} GatedValue(g: Graph, env: Env, e: Expr, m: Id, modules: Id)
    ensures ExprR(g, env, Gated(e, m, modules)).v
         == ValueWith(g, env, e, m, Min(TriOf(env, Val(m)), TriOf(env, Val(modules))))
    ensures ExprR(g, env, e).v == ValueWith(g, env, e, m, TriOf(env, Val(m)))
  {
    match e
    case And(l, r) => GatedValue(g, env, l, m, modules); GatedValue(g, env, r, m, modules);
    case Or(l, r) => GatedValue(g, env, l, m, modules); GatedValue(g, env, r, m, modules);
    case Not(f) => GatedValue(g, env, f, m, modules);
    case _ =>
  }

  /** In a condition `m` counts as m while MODULES is y, and as n while it is n. */
  lemma ConditionMeaning(g: Graph, env: Env, ts: seq<Token>, m: Id, modules: Id)
    requires TriOf(env, Val(m)) == 1
    ensures var plain, condition := ParseExpr(ts, Keep), ParseExpr(ts, RewriteM(m, modules));
      && plain.Ok? == condition.Ok?
      && (plain.Ok? ==>
            && condition.rest == plain.rest
            && ExprR(g, env, condition.e).v ==
               ValueWith(g, env, plain.e, m, if TriOf(env, Val(modules)) == 0 then 0 else 1))
  {
    hide ParseExpr;
    ConditionParse(ts, m, modules);
    var plain := ParseExpr(ts, Keep);
    if plain.Ok? { GatedValue(g, env, plain.e, m, modules); }
  }
}

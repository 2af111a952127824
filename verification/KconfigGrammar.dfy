/**
 The grammar of expressions, apart from any parser, and that the parser accepts exactly it.
 */
module KconfigGrammar {
  import opened Wrappers
  import opened KconfigModel
  import opened KconfigExprText

  /** A symbol, a comparison of two, a negated factor, or an expression in parentheses. */
  ghost predicate IsFactor(ts: seq<Token>, e: Expr)
    decreases |ts|, 0
  {
    || (e.Ref? && ts == [Sym(e.id)])
    || (e.Compare? && ts == [Sym(e.a), Rel(e.rel), Sym(e.b)])
    || (e.Not? && ts != [] && ts[0] == NotTok && IsFactor(ts[1..], e.operand))
    || (|ts| >= 2 && ts[0] == Open && ts[|ts| - 1] == Close && IsExpr(ts[1..|ts| - 1], e))
  }

  /** Factors joined by &&. */
  ghost predicate IsConjunction(ts: seq<Token>, e: Expr)
    decreases |ts|, 1
  {
    || IsFactor(ts, e)
    || (e.And? && exists k :: AndAt(ts, k) && IsFactor(ts[..k], e.left) && IsConjunction(ts[k + 1..], e.right))
  }

  /** Conjunctions joined by ||, which binds less than &&. */
  ghost predicate IsExpr(ts: seq<Token>, e: Expr)
    decreases |ts|, 2
  {
    || IsConjunction(ts, e)
    || (e.Or? && exists k :: OrAt(ts, k) && IsConjunction(ts[..k], e.left) && IsExpr(ts[k + 1..], e.right))
  }

  predicate AndAt(ts: seq<Token>, k: int) { 0 <= k < |ts| && ts[k] == AndTok }

  predicate OrAt(ts: seq<Token>, k: int) { 0 <= k < |ts| && ts[k] == OrTok }

  /** The tokens that a parse used up. */
  ghost predicate Used(ts: seq<Token>, p: Parsed, n: nat) { p.Ok? && n <= |ts| && p.rest == ts[n..] }

  // ---- what is parsed is an expression of the grammar ----------------------------------------------

  lemma {:induction false} ExprSound(ts: seq<Token>) returns (n: nat)
    requires ParseExpr(ts, Keep).Ok?
    ensures Used(ts, ParseExpr(ts, Keep), n) && IsExpr(ts[..n], ParseExpr(ts, Keep).e)
    decreases |ts|, 2
  {
    hide ParseAnd, ParseFactor, IsFactor, IsConjunction;
    var k := AndSound(ts);
    n := k;
    var rest := ts[k..];
    if rest != [] && rest[0] == OrTok {
      var m := ExprSound(rest[1..]);
      n := k + 1 + m;
      Joins(ts, k, m);
      assert OrAt(ts[..n], k);
    }
  }

  lemma {:induction false} AndSound(ts: seq<Token>) returns (n: nat)
    requires ParseAnd(ts, Keep).Ok?
    ensures Used(ts, ParseAnd(ts, Keep), n) && IsConjunction(ts[..n], ParseAnd(ts, Keep).e)
    decreases |ts|, 1
  {
    hide ParseExpr, ParseFactor, IsFactor, IsExpr;
    var k := FactorSound(ts);
    n := k;
    var rest := ts[k..];
    if rest != [] && rest[0] == AndTok {
      var m := AndSound(rest[1..]);
      n := k + 1 + m;
      Joins(ts, k, m);
      assert AndAt(ts[..n], k);
    }
  }

  /** Two parts of a token list and the token between them. */
  lemma Joins(ts: seq<Token>, k: nat, m: nat)
    requires k + 1 + m <= |ts|
    ensures var all := ts[..k + 1 + m];
      && all[..k] == ts[..k] && all[k] == ts[k] && all[k + 1..] == ts[k..][1..][..m]
      && ts[k + 1 + m..] == ts[k..][1..][m..]
  {
  }

  lemma {:induction false} FactorSound(ts: seq<Token>) returns (n: nat)
    requires ParseFactor(ts, Keep).Ok?
    ensures Used(ts, ParseFactor(ts, Keep), n) && IsFactor(ts[..n], ParseFactor(ts, Keep).e)
    decreases |ts|, 0
  {
    hide ParseExpr, ParseAnd, IsConjunction, IsExpr;
    n := if |ts| >= 2 && ts[1].Rel? then 3 else 1;
    if ts[0] == NotTok {
      var m := FactorSound(ts[1..]);
      n := 1 + m;
      assert ts[..n][1..] == ts[1..][..m] && ts[n..] == ts[1..][m..];
    } else if ts[0] == Open {
      var m := ExprSound(ts[1..]);
      n := m + 2;
      assert ts[..n][1..n - 1] == ts[1..][..m] && ts[n..] == ts[1..][m..][1..];
      assert ts[..n][n - 1] == ts[1..][m..][0];
    }
  }

  // ---- and every expression of the grammar is parsed as such ------------------------------------------

  lemma {:induction false} FactorComplete(ts: seq<Token>, e: Expr, rest: seq<Token>)
    requires IsFactor(ts, e) && Follows(rest)
    ensures ParseFactor(ts + rest, Keep) == Ok(e, rest)
    decreases |ts|, 0
  {
    hide ParseExpr, ParseAnd, IsConjunction, IsExpr;
    var all := ts + rest;
    if e.Ref? && ts == [Sym(e.id)] {
      assert all[1..] == rest;
    } else if e.Compare? && ts == [Sym(e.a), Rel(e.rel), Sym(e.b)] {
      assert all[3..] == rest;
    } else if e.Not? && ts[0] == NotTok && IsFactor(ts[1..], e.operand) {
      FactorComplete(ts[1..], e.operand, rest);
      assert all[1..] == ts[1..] + rest;
    } else {
      var inner := ts[1..|ts| - 1];
      ExprComplete(inner, e, [Close] + rest);
      assert all[1..] == inner + ([Close] + rest);
      assert ([Close] + rest)[1..] == rest;
    }
  }

  lemma {:induction false} AndComplete(ts: seq<Token>, e: Expr, rest: seq<Token>)
    requires IsConjunction(ts, e) && Follows(rest) && rest[0] != AndTok
    ensures ParseAnd(ts + rest, Keep) == Ok(e, rest)
    decreases |ts|, 1
  {
    hide ParseExpr, ParseFactor, IsFactor, IsExpr;
    if IsFactor(ts, e) {
      FactorComplete(ts, e, rest);
    } else {
      var k :| AndAt(ts, k) && IsFactor(ts[..k], e.left) && IsConjunction(ts[k + 1..], e.right);
      var tail := ts[k..] + rest;
      FactorComplete(ts[..k], e.left, tail);
      AndComplete(ts[k + 1..], e.right, rest);
      assert ts + rest == ts[..k] + tail && tail[1..] == ts[k + 1..] + rest;
    }
  }

  lemma {:induction false} ExprComplete(ts: seq<Token>, e: Expr, rest: seq<Token>)
    requires IsExpr(ts, e) && Follows(rest) && rest[0] != AndTok && rest[0] != OrTok
    ensures ParseExpr(ts + rest, Keep) == Ok(e, rest)
    decreases |ts|, 2
  {
    hide ParseAnd, ParseFactor, IsFactor, IsConjunction;
    if IsConjunction(ts, e) {
      AndComplete(ts, e, rest);
    } else {
      var k :| OrAt(ts, k) && IsConjunction(ts[..k], e.left) && IsExpr(ts[k + 1..], e.right);
      var tail := ts[k..] + rest;
      AndComplete(ts[..k], e.left, tail);
      ExprComplete(ts[k + 1..], e.right, rest);
      assert ts + rest == ts[..k] + tail && tail[1..] == ts[k + 1..] + rest;
    }
  }

  /** A whole token list is parsed as `e` if and only if the grammar derives `e` from it. */
  lemma ParserIsGrammar(ts: seq<Token>, e: Expr)
    requires forall k :: 0 <= k < |ts| ==> ts[k] != End
    ensures ParseExpr(ts + [End], Keep) == Ok(e, [End]) <==> IsExpr(ts, e)
  {
    hide ParseExpr, IsExpr;
    var all := ts + [End];
    if ParseExpr(all, Keep) == Ok(e, [End]) {
      var n := ExprSound(all);
      assert n == |ts|;
      assert all[..n] == ts;
    }
    if IsExpr(ts, e) { ExprComplete(ts, e, [End]); }
  }

  /** So no token list has two readings. */
  lemma Unambiguous(ts: seq<Token>, e: Expr, e': Expr)
    requires IsExpr(ts, e) && IsExpr(ts, e')
    ensures e == e'
  {
    ExprComplete(ts, e, [End]);
    ExprComplete(ts, e', [End]);
  }

  // ---- what is printed ---------------------------------------------------------------------------

  /** A printed expression is one of the grammar, with its value. */
  lemma PrintedIsExpr(e: Expr)
    ensures IsExpr(Print(e), Normal(e)) && forall g, env :: ExprR(g, env, Normal(e)).v == ExprR(g, env, e).v
  {
    hide IsExpr, ParseExpr;
    RoundTrip(e);
    var all := Print(e) + [End];
    var n := ExprSound(all);
    assert all[n..] == [End] ==> n == |Print(e)|;
    assert all[..|Print(e)|] == Print(e);
  }

  /** The parentheses that are printed: around a disjunction in a conjunction, a conjunction in a disjunction,
      and what is negated, if that is not a symbol. */
  function Groups(e: Expr): nat {
    match e
    case Ref(_) => 0
    case Compare(_, _, _) => 0
    case And(l, r) => Groups(l) + Groups(r) + One(l.Or?) + One(r.Or?)
    case Or(l, r) => Groups(l) + Groups(r) + One(l.And?) + One(r.And?)
    case Not(f) => Groups(f) + One(!f.Ref?)
  }

  function One(b: bool): nat { if b then 1 else 0 }

  function Opens(ts: seq<Token>): nat { multiset(ts)[Open] }

  lemma OpensJoin(a: seq<Token>, b: seq<Token>)
    ensures Opens(a + b) == Opens(a) + Opens(b)
  {
  }

  lemma OpensParenthesized(e: Expr, parens: bool)
    ensures Opens(Parenthesized(e, parens)) == Opens(Print(e)) + One(parens)
  {
    hide Print;
    if parens {
      OpensJoin([Open] + Print(e), [Close]);
      OpensJoin([Open], Print(e));
    }
  }

  lemma OpensOperands(l: Expr, r: Expr, pl: bool, pr: bool, op: Token)
    requires op != Open
    ensures Opens(Parenthesized(l, pl) + [op] + Parenthesized(r, pr)) ==
      Opens(Print(l)) + One(pl) + Opens(Print(r)) + One(pr)
  {
    hide Print, Parenthesized;
    OpensParenthesized(l, pl);
    OpensParenthesized(r, pr);
    OpensJoin(Parenthesized(l, pl) + [op], Parenthesized(r, pr));
    OpensJoin(Parenthesized(l, pl), [op]);
  }

  lemma {:induction false} PrintedGroups(e: Expr)
    ensures Opens(Print(e)) == Groups(e)
  {
    hide Opens, Parenthesized;
    match e
    case Ref(i) => NoOpens(Print(e));
    case Compare(_, _, _) => NoOpens(Print(e));
    case And(l, r) => PrintedGroups(l); PrintedGroups(r); OpensOperands(l, r, l.Or?, r.Or?, AndTok);
    case Or(l, r) => PrintedGroups(l); PrintedGroups(r); OpensOperands(l, r, l.And?, r.And?, OrTok);
    case Not(f) =>
      if f.Ref? { NoOpens(Print(e)); } else {
        PrintedGroups(f);
        OpensNegated(f);
      }
  }

  lemma NoOpens(ts: seq<Token>)
    requires Open !in ts
    ensures Opens(ts) == 0
  {
  }

  lemma OpensNegated(f: Expr)
    ensures Opens([NotTok, Open] + Print(f) + [Close]) == Opens(Print(f)) + 1
  {
    hide Print;
    OpensJoin([NotTok, Open] + Print(f), [Close]);
    OpensJoin([NotTok, Open], Print(f));
  }
}

/**
 What any .config file assigns, line by line: which lines count, what they say, and that the last one wins.
 */
module KconfigLoading {
  import opened Wrappers
  import opened KconfigModel
  import opened KconfigEval
  import opened KconfigCache
  import opened KconfigSave
  import S = KconfigStrings

  /** A value that a symbol or choice accepts: n, y and, for a tristate one, m, as numbers or letters; any
      string; a decimal number; a hexadecimal number that is not negative. */
  lemma AcceptsExactly(g: Graph, i: Id, v: UserValue)
    ensures var ty := TypeOf(g.At(i));
      Accepts(g, i, v) <==>
      match ty
      case Bool => v in {TriUser(0), TriUser(2), StrUser("n"), StrUser("y")}
      case Tristate => v.TriUser? || v in {StrUser("n"), StrUser("m"), StrUser("y")}
      case String => v.StrUser? && g.At(i).Symbol?
      case Int => v.StrUser? && g.At(i).Symbol? && g.num(v.s, 10).Some?
      case Hex => v.StrUser? && g.At(i).Symbol? && g.num(v.s, 16).Some? && g.num(v.s, 16).value >= 0
      case Unknown => false
  {
    assert TriUser(0) != StrUser("n") && "n" != "m" && "m" != "y" && "n" != "y";
  }

  /** Trailing whitespace, and nothing else, is removed. */
  lemma {:induction false} Stripped(s: string)
    ensures var t := RStrip(s);
      t <= s && (forall k :: |t| <= k < |s| ==> IsSpace(s[k])) && (t != "" ==> !IsSpace(t[|t| - 1]))
  {
    if s != "" && IsSpace(s[|s| - 1]) { Stripped(s[..|s| - 1]); }
  }

  /** The line gives its symbol the value `v`. Of a bool or tristate value only the first letter counts; a
      string is the text between quotes, whatever follows it. */
  ghost predicate Says(g: Graph, line: Line, v: UserValue)
    requires g.At(line.sym).Symbol?
  {
    var ty := g.At(line.sym).ty;
    match line
    case UnsetLine(_) => IsLogic(ty) && v == TriUser(0)
    case SetLine(_, text) =>
      var t := RStrip(text);
      match ty
      case Bool => t != "" && ((t[0] == 'n' && v == TriUser(0)) || (t[0] == 'y' && v == TriUser(2)))
      case Tristate =>
        t != "" && ((t[0] == 'n' && v == TriUser(0)) || (t[0] == 'm' && v == TriUser(1))
                    || (t[0] == 'y' && v == TriUser(2)))
      case String => exists body :: S.Matches(t, body) && v == StrUser(S.Unescape(body))
      case Int => g.num(t, 10).Some? && v == StrUser(t)
      case Hex => g.num(t, 16).Some? && g.num(t, 16).value >= 0 && v == StrUser(t)
      case Unknown => false
  }

  lemma LineSays(g: Graph, line: Line, v: UserValue)
    requires g.At(line.sym).Symbol?
    ensures var x := LineValue(g, line);
      Says(g, line, v) <==>
      x.Some? && Accepts(g, line.sym, x.value) && Normalized(g.At(line.sym).ty, x.value) == v
  {
    hide S.Unescape, S.IsBody, RStrip;
    var ty := g.At(line.sym).ty;
    if line.SetLine? {
      var t := RStrip(line.text);
      if ty == String {
        forall a, b | S.Matches(t, a) && S.Matches(t, b) ensures a == b { CapturedOnce(t, a, b); }
      } else if IsLogic(ty) && t != "" {
        assert t[..1] == [t[0]];
      }
    }
  }

  lemma CapturedOnce(line: string, a: string, b: string)
    requires S.Matches(line, a) && S.Matches(line, b)
    ensures a == b
  {
    var ra, rb := line[|a| + 2..], line[|b| + 2..];
    assert line == (S.QUOTE + a + S.QUOTE) + ra && line == (S.QUOTE + b + S.QUOTE) + rb;
    assert line[1..] == a + S.QUOTE + ra && line[1..] == b + S.QUOTE + rb;
    S.BodyUnique(a, b, ra, rb);
  }

  // ---- what a file assigns ------------------------------------------------------------------------

  /** What the user can assign: values of symbols and modes of choices, and selections. */
  datatype Slot = ValueSlot(i: Id) | SelectionSlot(c: Id)

  datatype Content = Given(v: UserValue) | Selected(i: Id)

  function Held(u: Users, s: Slot): Option<Content> {
    match s
    case ValueSlot(i) => if i in u.values then Some(Given(u.values[i])) else None
    case SelectionSlot(c) => if c in u.selections then Some(Selected(u.selections[c])) else None
  }

  /** A line assigns its symbol; m or y for a symbol in a choice also its mode to the choice, if that can have
      it, and y the selection. */
  ghost predicate Gives(g: Graph, line: Line, s: Slot, x: Content)
    requires g.At(line.sym).Symbol?
  {
    var it := g.At(line.sym);
    match s
    case SelectionSlot(c) =>
      it.choice == Some(c) && IsLogic(it.ty) && Says(g, line, TriUser(2)) && x == Selected(line.sym)
    case ValueSlot(i) =>
      && x.Given? && Says(g, line, x.v)
      && (i == line.sym
          || (it.choice == Some(i) && x.v in {TriUser(1), TriUser(2)}
              && (TypeOf(g.At(i)) == Tristate || (TypeOf(g.At(i)) == Bool && x.v == TriUser(2)))))
  }

  /** Lines are about symbols, and symbols are in choices. */
  ghost predicate OfSymbols(g: Graph, lines: seq<Line>) {
    && (forall k :: 0 <= k < |lines| ==> g.At(lines[k].sym).Symbol?)
    && (forall i :: g.At(i).Symbol? && g.At(i).choice.Some? ==> g.At(g.At(i).choice.value).Choice?)
  }

  /** The letter that a line has for a bool or tristate symbol, also as the mode of a choice. */
  lemma SaidLetter(g: Graph, line: Line, c: Id, t: Tri)
    requires g.At(line.sym).Symbol? && IsLogic(g.At(line.sym).ty) && Says(g, line, TriUser(t))
    ensures var x := LineValue(g, line); var ty := TypeOf(g.At(c));
      && x.Some? && x.value.StrUser? && Accepts(g, line.sym, x.value)
      && Normalized(g.At(line.sym).ty, x.value) == TriUser(t)
      && (x.value == StrUser("n") <==> t == 0)
      && (Accepts(g, c, x.value) && IsLogic(ty) <==> ty == Tristate || (ty == Bool && t != 1))
      && (IsLogic(ty) ==> Normalized(ty, x.value) == TriUser(t))
      && (t != 0 && g.At(c).Choice? && Accepts(g, c, x.value) ==> IsLogic(ty))
  {
    LineSays(g, line, TriUser(t));
    AcceptsExactly(g, c, LineValue(g, line).value);
  }

  /** What loading a line amounts to, by what the line says. */
  function Put(g: Graph, u: Users, line: Line, v: UserValue): Users
    requires g.At(line.sym).Symbol?
  {
    var it := g.At(line.sym);
    if it.choice.None? || !v.TriUser? || v.t == 0 then Users(u.values[line.sym := v], u.selections)
    else
      var c := it.choice.value;
      var mode := TypeOf(g.At(c)) == Tristate || (TypeOf(g.At(c)) == Bool && v.t == 2);
      Users((if mode then u.values[c := v] else u.values)[line.sym := v],
            if v.t == 2 then u.selections[c := line.sym] else u.selections)
  }

  lemma LoadIsPut(g: Graph, u: Users, line: Line, v: UserValue)
    requires OfSymbols(g, [line]) && g.At(line.sym).Symbol? && Says(g, line, v)
    ensures Load(g, u, line) == Put(g, u, line, v)
  {
    hide LineValue, Says;
    LineSays(g, line, v);
    var it := g.At(line.sym);
    if IsLogic(it.ty) {
      LogicSaid(g, line, v);
      SaidLetter(g, line, if it.choice.Some? then it.choice.value else line.sym, v.t);
    } else {
      AcceptsExactly(g, line.sym, LineValue(g, line).value);
    }
  }

  lemma LogicSaid(g: Graph, line: Line, v: UserValue)
    requires g.At(line.sym).Symbol? && Says(g, line, v)
    ensures v.TriUser? <==> IsLogic(g.At(line.sym).ty)
  {
  }

  lemma NothingSaid(g: Graph, u: Users, line: Line)
    requires g.At(line.sym).Symbol? && forall v :: !Says(g, line, v)
    ensures Load(g, u, line) == u
  {
    hide Says;
    var x := LineValue(g, line);
    if x.Some? {
      LineSays(g, line, Normalized(g.At(line.sym).ty, x.value));
      assert !Accepts(g, line.sym, x.value);
    }
  }

  lemma LineGives(g: Graph, u: Users, line: Line, s: Slot)
    requires OfSymbols(g, [line]) && g.At(line.sym).Symbol?
    ensures forall x :: Gives(g, line, s, x) ==> Held(Load(g, u, line), s) == Some(x)
    ensures (forall x :: !Gives(g, line, s, x)) ==> Held(Load(g, u, line), s) == Held(u, s)
  {
    hide Says, Load;
    if v :| Says(g, line, v) {
      LoadIsPut(g, u, line, v);
      LogicSaid(g, line, v);
      forall w | Says(g, line, w) ensures w == v { LineSays(g, line, v); LineSays(g, line, w); }
      PutGives(g, u, line, v, s);
    } else {
      NothingSaid(g, u, line);
    }
  }

  lemma PutGives(g: Graph, u: Users, line: Line, v: UserValue, s: Slot)
    requires OfSymbols(g, [line]) && g.At(line.sym).Symbol? && Says(g, line, v)
    requires (v.TriUser? <==> IsLogic(g.At(line.sym).ty)) && forall w :: Says(g, line, w) ==> w == v
    ensures forall x :: Gives(g, line, s, x) ==> Held(Put(g, u, line, v), s) == Some(x)
    ensures (forall x :: !Gives(g, line, s, x)) ==> Held(Put(g, u, line, v), s) == Held(u, s)
  {
    hide Says;
    assert [line][0] == line;
    var it, after := g.At(line.sym), Put(g, u, line, v);
    match s
    case SelectionSlot(c) =>
      if it.choice == Some(c) && v == TriUser(2) {
        assert Gives(g, line, s, Selected(line.sym));
      }
    case ValueSlot(i) =>
      if Held(after, s) != Held(u, s) {
        assert Gives(g, line, s, Given(v));
      }
  }

  /** Line `k` assigns, and none after it does. */
  ghost predicate GivesLast(g: Graph, lines: seq<Line>, s: Slot, k: nat, x: Content)
    requires OfSymbols(g, lines)
  {
    k < |lines| && Gives(g, lines[k], s, x) && forall j, y :: k < j < |lines| ==> !Gives(g, lines[j], s, y)
  }

  /** The last line that says something decides; without one everything stays. */
  lemma {:induction false} LastLineWins(g: Graph, u: Users, lines: seq<Line>, s: Slot)
    requires OfSymbols(g, lines)
    ensures forall k, x :: GivesLast(g, lines, s, k, x) ==> Held(LoadAll(g, u, lines), s) == Some(x)
    ensures (forall k, x :: 0 <= k < |lines| ==> !Gives(g, lines[k], s, x)) ==>
      Held(LoadAll(g, u, lines), s) == Held(u, s)
  {
    hide Gives, Load;
    if lines != [] {
      var n := |lines| - 1;
      var before := lines[..n];
      LastLineWins(g, u, before, s);
      assert OfSymbols(g, [lines[n]]);
      LineGives(g, LoadAll(g, u, before), lines[n], s);
      assert forall k :: 0 <= k < n ==> before[k] == lines[k];
      assert forall k: nat, x :: k < n && GivesLast(g, lines, s, k, x) ==> GivesLast(g, before, s, k, x);
    }
  }
}

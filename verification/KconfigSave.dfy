/**
 Writing a configuration, in full or minimally, and loading it back: exactly which symbols and which
 choices do not get their values back.
 */
module KconfigSave {
  import opened Wrappers
  import opened KconfigModel
  import opened KconfigEval
  import opened KconfigInvalidation
  import opened KconfigCache
  import opened KconfigRank
  import opened KconfigSemantics
  import S = KconfigStrings

  /** A line of a .config file: CONFIG_X=text, or "# CONFIG_X is not set". */
  datatype Line = SetLine(sym: Id, text: string) | UnsetLine(sym: Id)

  // ---- writing -------------------------------------------------------------------

  /** The line of a symbol, if it gets one. */
  function ConfigString(g: Graph, env: Env, i: Id): seq<Line> {
    var ty, val := TypeOf(g.At(i)), StrOf(env, Str(i));
    if !WriteOf(env, Str(i)) then []
    else if IsLogic(ty) then (if val != "n" then [SetLine(i, val)] else [UnsetLine(i)])
    else if IsNumber(ty) then [SetLine(i, val)]
    else [SetLine(i, S.QUOTE + S.Escape(val) + S.QUOTE)]
  }

  /** The value a symbol would get from defaults, selects and implies, as savedefconfig sees it. */
  function DefaultString(g: Graph, env: Env, i: Id): string
    requires g.At(i).Symbol?
  {
    var it := g.At(i);
    if IsLogic(it.ty) then
      if it.choice.Some? then "n" else
      var t := Max(Max(ExprR(g, env, it.revDep).v, ExprR(g, env, it.weakRevDep).v),
                   TriDefaultR(g, env, it.defaults, 0).v);
      TriStr(if t == 1 && TypeR(g, env, i).v == Bool then 2 else t)
    else if it.ty != Unknown && StrDefaultR(g, env, it.defaults, 0).v.Some? then
      StrDefaultR(g, env, it.defaults, 0).v.value
    else ""
  }

  /** A bool symbol with the value y that its choice, which is not optional, selects by default. */
  predicate ChosenByDefault(g: Graph, env: Env, i: Id)
    requires g.At(i).Symbol?
  {
    var it := g.At(i);
    && it.choice.Some? && g.At(it.choice.value).Choice? && !g.At(it.choice.value).optional
    && DefaultSelectionR(g, env, it.choice.value).v == Some(i) && it.ty == Bool && TriOf(env, Val(i)) == 2
  }

  /** The symbols a minimal configuration leaves out: those that cannot be changed, those that have
      their default value, and those that are chosen by default. */
  predicate Omits(g: Graph, env: Env, i: Id)
    requires g.At(i).Symbol?
  {
    || (g.At(i).choice.None? && TriOf(env, Vis(i)) <= ExprR(g, env, g.At(i).revDep).v)
    || StrOf(env, Str(i)) == DefaultString(g, env, i)
    || ChosenByDefault(g, env, i)
  }

  function LinesOf(g: Graph, env: Env, i: Id, minimal: bool): seq<Line> {
    if !g.At(i).Symbol? || (minimal && Omits(g, env, i)) then [] else ConfigString(g, env, i)
  }

  function Lines(g: Graph, env: Env, order: seq<Id>, minimal: bool): seq<Line> {
    if order == [] then []
    else Lines(g, env, order[..|order| - 1], minimal) + LinesOf(g, env, order[|order| - 1], minimal)
  }

  // ---- loading -------------------------------------------------------------------

  predicate IsSpace(c: char) { c == ' ' || ('\t' <= c <= '\r') }

  function RStrip(s: string): string { if s != "" && IsSpace(s[|s| - 1]) then RStrip(s[..|s| - 1]) else s }

  /** The value a line assigns, None where the line is ignored. */
  function LineValue(g: Graph, line: Line): Option<UserValue> {
    var ty := TypeOf(g.At(line.sym));
    match line
    case UnsetLine(_) => if IsLogic(ty) then Some(StrUser("n")) else None
    case SetLine(_, text) =>
      var val := RStrip(text);
      if IsLogic(ty) then
        if val != "" && (val[0] == 'y' || val[0] == 'n' || (ty == Tristate && val[0] == 'm')) then
          Some(StrUser(val[..1]))
        else None
      else if ty == String then
        var c := S.Capture(val); if c.0 then Some(StrUser(S.Unescape(c.1))) else None
      else Some(StrUser(val))
  }

  /** Assigning the symbol. A choice symbol that gets m or y first gives its choice that mode. */
  function Load(g: Graph, u: Users, line: Line): Users {
    var v, it := LineValue(g, line), g.At(line.sym);
    if v.None? then u
    else
      var u1 := if SetsMode(g, line.sym, v.value) then Assigned(g, u, it.choice.value, v.value) else u;
      if Accepts(g, line.sym, v.value) then Assigned(g, u1, line.sym, v.value) else u1
  }

  predicate SetsMode(g: Graph, i: Id, v: UserValue) {
    && g.At(i).Symbol? && g.At(i).choice.Some? && IsLogic(g.At(i).ty) && v != StrUser("n")
    && Accepts(g, g.At(i).choice.value, v)
  }

  function LoadAll(g: Graph, u: Users, lines: seq<Line>): Users {
    if lines == [] then u else Load(g, LoadAll(g, u, lines[..|lines| - 1]), lines[|lines| - 1])
  }

  const NOTHING := Users(map[], map[])

  lemma {:induction false} LoadAllConcat(g: Graph, u: Users, a: seq<Line>, b: seq<Line>)
    ensures LoadAll(g, u, a + b) == LoadAll(g, LoadAll(g, u, a), b)
  {
    if b == [] {
      assert a + b == a;
    } else {
      assert (a + b)[..|a + b| - 1] == a + b[..|b| - 1];
      LoadAllConcat(g, u, a, b[..|b| - 1]);
    }
  }

  // ---- what the loaded file assigns ------------------------------------------------

  /** What loading assigns to a symbol. */
  function Reloaded(g: Graph, env: Env, i: Id, minimal: bool): Option<UserValue> {
    var ls := LinesOf(g, env, i, minimal);
    if ls == [] then None
    else
      var v := LineValue(g, ls[0]);
      if v.Some? && Accepts(g, i, v.value) then Some(Normalized(TypeOf(g.At(i)), v.value)) else None
  }

  /** What every choice has, as the tree gives it. */
  ghost predicate ChoicesOk(g: Graph) {
    && (forall c :: g.At(c).Choice? ==> ChoiceMembers(g, c))
    && (forall i :: g.At(i).Symbol? && g.At(i).choice.Some? ==>
          g.At(g.At(i).choice.value).Choice? && i in g.At(g.At(i).choice.value).syms)
  }

  /** The line of the symbol `i` gives the choice `c` a mode. */
  predicate Speaks(g: Graph, env: Env, i: Id, minimal: bool, c: Id) {
    && g.At(i).Symbol? && g.At(i).choice == Some(c) && IsLogic(g.At(i).ty)
    && var r := Reloaded(g, env, i, minimal); r.Some? && r.value != TriUser(0) && Accepts(g, c, r.value)
  }

  /** The line of the symbol `i` makes it the user's selection in the choice `c`. */
  predicate Chosen(g: Graph, env: Env, i: Id, minimal: bool, c: Id) {
    g.At(i).Symbol? && g.At(i).choice == Some(c) && Reloaded(g, env, i, minimal) == Some(TriUser(2))
  }

  /** The assignments after the lines of `i`. */
  function With(g: Graph, u: Users, env: Env, i: Id, minimal: bool): Users {
    var r := Reloaded(g, env, i, minimal);
    if r.None? then u
    else
      var it := g.At(i);
      var values := if it.Symbol? && it.choice.Some? && Speaks(g, env, i, minimal, it.choice.value)
                    then u.values[it.choice.value := r.value] else u.values;
      var selections := if it.Symbol? && it.choice.Some? && r.value == TriUser(2)
                        then u.selections[it.choice.value := i] else u.selections;
      Users(values[i := r.value], selections)
  }

  function Meaning(v: UserValue): UserValue {
    TriUser(if v == StrUser("n") then 0 else if v == StrUser("m") then 1 else 2)
  }

  /** A line for a bool or tristate symbol holds one of its values. */
  lemma LogicLine(g: Graph, line: Line)
    requires g.At(line.sym).Symbol? && IsLogic(g.At(line.sym).ty) && LineValue(g, line).Some?
    ensures var v := LineValue(g, line).value;
      && v in {StrUser("n"), StrUser("m"), StrUser("y")} && Accepts(g, line.sym, v)
      && Normalized(g.At(line.sym).ty, v) == Meaning(v)
  {
    hide RStrip;
    if line.SetLine? {
      var val := RStrip(line.text);
      assert val[..1] == [val[0]] && "y" == ['y'] && "m" == ['m'] && "n" == ['n'];
    }
  }

  lemma SameForChoice(g: Graph, c: Id, v: UserValue)
    requires IsLogic(TypeOf(g.At(c))) && v in {StrUser("n"), StrUser("m"), StrUser("y")}
    ensures Normalized(TypeOf(g.At(c)), v) == Meaning(v) && (Accepts(g, c, v) <==> Accepts(g, c, Meaning(v)))
  {
  }

  lemma LoadOwnLines(g: Graph, u: Users, env: Env, i: Id, minimal: bool)
    requires ChoicesOk(g)
    ensures LoadAll(g, u, LinesOf(g, env, i, minimal)) == With(g, u, env, i, minimal)
  {
    hide Omits, LineValue, Accepts;
    var ls := LinesOf(g, env, i, minimal);
    if ls != [] {
      assert |ls| == 1 && ls[0].sym == i && ls[..0] == [];
      assert LoadAll(g, u, ls) == Load(g, LoadAll(g, u, []), ls[0]);
      var it, v := g.At(i), LineValue(g, ls[0]);
      if it.choice.Some? && v.Some? {
        assert it.Symbol? && IsLogic(it.ty);
        LogicLine(g, ls[0]);
        SameForChoice(g, it.choice.value, v.value);
      }
    }
  }

  function ValueIn(u: Users, i: Id): Option<UserValue> { if i in u.values then Some(u.values[i]) else None }

  /** The assignments are those of the lines of `order`, with at most an older selection left in a choice
      that was given its mode. */
  ghost predicate LoadedAs(g: Graph, env: Env, order: seq<Id>, minimal: bool, u: Users) {
    && UsersOk(g, u)
    && (forall i :: !g.At(i).Choice? ==> ValueIn(u, i) == if i in order then Reloaded(g, env, i, minimal) else None)
    && (forall c :: g.At(c).Choice? ==> ModeLoaded(g, env, order, minimal, u, c))
    && (forall c :: g.At(c).Choice? ==> SelectionLoaded(g, env, order, minimal, u, c))
  }

  ghost predicate ModeLoaded(g: Graph, env: Env, order: seq<Id>, minimal: bool, u: Users, c: Id) {
    if c in u.values then
      exists i :: i in order && Speaks(g, env, i, minimal, c) && Reloaded(g, env, i, minimal) == Some(u.values[c])
    else forall i :: i in order ==> !Speaks(g, env, i, minimal, c)
  }

  ghost predicate SelectionLoaded(g: Graph, env: Env, order: seq<Id>, minimal: bool, u: Users, c: Id) {
    if c in u.selections && u.selections[c] in order && Chosen(g, env, u.selections[c], minimal, c) then true
    else (forall i :: i in order ==> !Chosen(g, env, i, minimal, c)) && (c in u.selections ==> c in u.values)
  }

  lemma {:induction false} LoadedValues(g: Graph, env: Env, order: seq<Id>, minimal: bool)
    requires ChoicesOk(g)
    ensures LoadedAs(g, env, order, minimal, LoadAll(g, NOTHING, Lines(g, env, order, minimal)))
  {
    if order == [] {
      assert UsersOk(g, NOTHING);
    } else {
      hide LinesOf, Reloaded, UsersOk, With, Speaks, Chosen, ChoicesOk, LoadedAs;
      var i, rest := order[|order| - 1], order[..|order| - 1];
      LoadedValues(g, env, rest, minimal);
      var u := LoadAll(g, NOTHING, Lines(g, env, rest, minimal));
      LoadAllConcat(g, NOTHING, Lines(g, env, rest, minimal), LinesOf(g, env, i, minimal));
      LoadOwnLines(g, u, env, i, minimal);
      LoadStep(g, env, rest, i, minimal, u);
      assert order == rest + [i];
    }
  }

  lemma LoadStep(g: Graph, env: Env, rest: seq<Id>, i: Id, minimal: bool, u: Users)
    requires ChoicesOk(g) && LoadedAs(g, env, rest, minimal, u)
    ensures LoadedAs(g, env, rest + [i], minimal, With(g, u, env, i, minimal))
  {
    var u' := With(g, u, env, i, minimal);
    WithOk(g, u, env, i, minimal);
    hide UsersOk, Reloaded, Accepts;
    forall c | g.At(c).Choice? ensures ModeLoaded(g, env, rest + [i], minimal, u', c) {
      ModeStep(g, env, rest, i, minimal, u, c);
    }
    forall c | g.At(c).Choice? ensures SelectionLoaded(g, env, rest + [i], minimal, u', c) {
      SelectionStep(g, env, rest, i, minimal, u, c);
    }
    hide ModeLoaded, SelectionLoaded, Speaks;
    ReloadedSymbol(g, env, i, minimal);
    ChoiceIsNotSymbol(g, i);
  }

  lemma ReloadedSymbol(g: Graph, env: Env, i: Id, minimal: bool)
    ensures Reloaded(g, env, i, minimal).Some? ==> g.At(i).Symbol?
  {
    hide ConfigString, LineValue, Accepts, Omits;
  }

  lemma ChoiceIsNotSymbol(g: Graph, i: Id)
    requires ChoicesOk(g)
    ensures g.At(i).Symbol? && g.At(i).choice.Some? ==> g.At(g.At(i).choice.value).Choice?
  {
  }

  lemma WithOk(g: Graph, u: Users, env: Env, i: Id, minimal: bool)
    requires ChoicesOk(g) && UsersOk(g, u)
    ensures UsersOk(g, With(g, u, env, i, minimal))
  {
    hide LineValue, LinesOf;
    var r := Reloaded(g, env, i, minimal);
    ReloadedSymbol(g, env, i, minimal);
    if r.Some? {
      assert Accepts(g, i, r.value) && Normalized(TypeOf(g.At(i)), r.value) == r.value;
    }
  }

  lemma ModeStep(g: Graph, env: Env, rest: seq<Id>, i: Id, minimal: bool, u: Users, c: Id)
    requires ChoicesOk(g) && g.At(c).Choice? && ModeLoaded(g, env, rest, minimal, u, c)
    ensures ModeLoaded(g, env, rest + [i], minimal, With(g, u, env, i, minimal), c)
  {
    hide Reloaded, Accepts;
    ReloadedSymbol(g, env, i, minimal);
    var u' := With(g, u, env, i, minimal);
    assert forall j :: j in rest + [i] <==> j in rest || j == i;
    if Speaks(g, env, i, minimal, c) {
      assert u'.values[c] == Reloaded(g, env, i, minimal).value;
    } else {
      assert c in u'.values <==> c in u.values;
    }
  }

  lemma SelectionStep(g: Graph, env: Env, rest: seq<Id>, i: Id, minimal: bool, u: Users, c: Id)
    requires ChoicesOk(g) && g.At(c).Choice? && SelectionLoaded(g, env, rest, minimal, u, c)
    ensures SelectionLoaded(g, env, rest + [i], minimal, With(g, u, env, i, minimal), c)
  {
    hide Reloaded, Accepts;
    ReloadedSymbol(g, env, i, minimal);
    var u' := With(g, u, env, i, minimal);
    assert forall j :: j in rest + [i] <==> j in rest || j == i;
    assert c in u.values ==> c in u'.values;
    if Chosen(g, env, i, minimal, c) {
      assert u'.selections[c] == i;
    } else {
      assert u'.Selection(c) == u.Selection(c);
    }
  }

  // ---- what is kept ------------------------------------------------------------------

  /** The value a string, int or hex symbol has without a user value. */
  function Unset(g: Graph, env: Env, i: Id): string { StrR(g, NOTHING, env, i).v.s }

  /** The symbols whose value a full configuration loses. A tristate symbol visible to m only, but y
      by its default, is cut down to m by its own line. A symbol that takes its default from the
      environment gets no line. */
  predicate LostInFull(g: Graph, env: Env, i: Id) {
    var it := g.At(i);
    it.Symbol? && it.choice.None? &&
    if IsLogic(it.ty) then
      && TriOf(env, Vis(i)) == 1 && TriOf(env, Val(i)) == 2
      && ExprR(g, env, it.revDep).v != 2 && ExprR(g, env, it.weakRevDep).v != 2
    else it.ty != Unknown && it.auto && Unset(g, env, i) != StrOf(env, Str(i))
  }

  /** The symbols whose value a minimal configuration loses. A tristate symbol that the user holds
      at m while it is visible and selected to m counts as unchangeable and gets no line, but its
      default of y applies once the user value is gone. */
  predicate LostInMinimal(g: Graph, u: Users, env: Env, i: Id) {
    var it := g.At(i);
    it.Symbol? && it.choice.None? &&
    if IsLogic(it.ty) then
      && TriOf(env, Vis(i)) == 1 && ExprR(g, env, it.revDep).v == 1 && u.Tri(i).Some?
      && ExprR(g, env, it.weakRevDep).v != 2 && TriDefaultR(g, env, it.defaults, 0).v == 2
    else
      && it.ty != Unknown && Unset(g, env, i) != StrOf(env, Str(i))
      && (it.auto || TriOf(env, Vis(i)) <= ExprR(g, env, it.revDep).v)
  }


  /** Values fit on a line: strings without line breaks, and numbers also without trailing space. */
  predicate OneLine(s: string) { '\n' !in s && '\r' !in s }

  ghost predicate Printable(g: Graph, env: Env) {
    forall i :: g.At(i).Symbol? ==>
      && (g.At(i).ty == String ==> OneLine(StrOf(env, Str(i))))
      && (IsNumber(g.At(i).ty) ==> OneLine(StrOf(env, Str(i))) && RStrip(StrOf(env, Str(i))) == StrOf(env, Str(i)))
  }

  /** A symbol with an active prompt has its direct dependencies met, as dependency propagation
      arranges. */
  ghost predicate PromptsImplyDeps(g: Graph) {
    forall i, env :: LitsHold(g, env) && g.At(i).Symbol? && PromptsR(g, env, g.At(i).prompts, 0).v != 0 ==>
      ExprR(g, env, g.At(i).directDep).v != 0
  }

  // ---- bool and tristate symbols ----------------------------------------------------

  predicate PlainLogic(g: Graph, i: Id) { g.At(i).Symbol? && IsLogic(g.At(i).ty) && g.At(i).choice.None? }

  /** Value of a symbol without a user value. */
  function Untouched(g: Graph, env: Env, i: Id): Tri
    requires PlainLogic(g, i)
  {
    var it := g.At(i);
    var weak, dflt := ExprR(g, env, it.weakRevDep).v, TriDefaultR(g, env, it.defaults, 0).v;
    var base := if weak != 0 && ExprR(g, env, it.directDep).v != 0 then Max(weak, dflt) else dflt;
    var t := Max(ExprR(g, env, it.revDep).v, base);
    if t == 1 && Promoting(g, env, i) then 2 else t
  }

  lemma ValueCases(g: Graph, u: Users, env: Env, i: Id)
    requires PlainLogic(g, i)
    ensures var vis := TriOf(env, Vis(i)); var w := SymbolValR(g, u, env, i).v;
      && w.t == (if vis != 0 && u.Tri(i).Some? then
                   Outcome(u.Tri(i).value, vis, ExprR(g, env, g.At(i).revDep).v, Promoting(g, env, i))
                 else Untouched(g, env, i))
      && (vis != 0 ==> w.write)
  {
    hide ExprR, TypeR, TriDefaultR;
  }

  lemma HiddenIgnoresUser(g: Graph, u1: Users, u2: Users, env: Env, i: Id)
    requires PlainLogic(g, i) && (TriOf(env, Vis(i)) == 0 || (u1.Tri(i).None? && u2.Tri(i).None?))
    ensures SymbolValR(g, u1, env, i).v == SymbolValR(g, u2, env, i).v
  {
    hide ExprR, TypeR, TriDefaultR;
  }

  /** `env` has the values of bool and tristate symbol `i` under `u`. */
  predicate LogicSolved(g: Graph, u: Users, env: Env, i: Id)
    requires PlainLogic(g, i)
  {
    var w := SymbolValR(g, u, env, i).v;
    && Look(env, Val(i)) == Some(TriV(w.t, w.write))
    && Look(env, Str(i)) == Some(StrV(TriStr(w.t), w.write))
    && (TriOf(env, Vis(i)) == 1 ==> TypeR(g, env, i).v == Tristate)
    && (u.Tri(i).Some? ==> Accepts(g, i, TriUser(u.Tri(i).value)))
  }

  /** Bool symbols are never m. */
  lemma ValueAccepted(g: Graph, u: Users, env: Env, i: Id)
    requires PlainLogic(g, i) && LogicSolved(g, u, env, i)
    ensures Accepts(g, i, TriUser(TriOf(env, Val(i))))
  {
    ValueCases(g, u, env, i);
    hide ExprR, TriDefaultR, SymbolValR;
  }

  lemma LogicReloaded(g: Graph, env: Env, i: Id, minimal: bool)
    requires g.At(i).Symbol? && IsLogic(g.At(i).ty) && Accepts(g, i, TriUser(TriOf(env, Val(i))))
    requires Look(env, Str(i)) == Some(StrV(TriStr(TriOf(env, Val(i))), WriteOf(env, Val(i))))
    ensures Reloaded(g, env, i, minimal) ==
            if WriteOf(env, Val(i)) && !(minimal && Omits(g, env, i)) then Some(TriUser(TriOf(env, Val(i)))) else None
  {
    hide Omits;
    var t := TriOf(env, Val(i));
    assert RStrip(TriStr(t)) == TriStr(t) && TriStr(t)[..1] == TriStr(t);
  }

  /** Reloading a bool or tristate symbol, with everything else unchanged. */
  lemma LogicKept(g: Graph, u: Users, u': Users, env: Env, i: Id, minimal: bool)
    requires PlainLogic(g, i) && LogicSolved(g, u, env, i)
    requires ValueIn(u', i) == Reloaded(g, env, i, minimal)
    requires minimal && TriOf(env, Vis(i)) != 0 ==> ExprR(g, env, g.At(i).directDep).v != 0
    ensures SymbolValR(g, u', env, i).v == SymbolValR(g, u, env, i).v <==> !Lost(g, u, env, i, minimal)
  {
    hide ExprR, TriDefaultR, SymbolValR, Reloaded, Accepts, TypeR;
    ValueAccepted(g, u, env, i);
    LogicReloaded(g, env, i, minimal);
    ValueCases(g, u, env, i);
    ValueCases(g, u', env, i);
    if TriOf(env, Vis(i)) == 0 { HiddenIgnoresUser(g, u, u', env, i); }
  }

  // ---- string, int and hex symbols ----------------------------------------------------

  predicate PlainText(g: Graph, i: Id) {
    g.At(i).Symbol? && g.At(i).choice.None? && (IsNumber(g.At(i).ty) || g.At(i).ty == String)
  }

  predicate TextSolved(g: Graph, u: Users, env: Env, i: Id)
    requires PlainText(g, i)
  {
    var w := StrR(g, u, env, i).v;
    && Look(env, Str(i)) == Some(StrV(w.s, w.write))
    && OneLine(w.s) && (IsNumber(g.At(i).ty) ==> RStrip(w.s) == w.s)
    && (u.Str(i).Some? ==> Accepts(g, i, StrUser(u.Str(i).value)))
  }

  lemma QuotedKept(s: string)
    ensures RStrip(S.QUOTE + s + S.QUOTE) == S.QUOTE + s + S.QUOTE
  {
    var q := S.QUOTE + s + S.QUOTE;
    assert q[|q| - 1] == '"';
  }

  lemma TextReloaded(g: Graph, u: Users, env: Env, i: Id, minimal: bool)
    requires PlainText(g, i) && TextSolved(g, u, env, i)
    ensures var v := StrUser(StrOf(env, Str(i)));
      Reloaded(g, env, i, minimal) ==
      if WriteOf(env, Str(i)) && !(minimal && Omits(g, env, i)) && Accepts(g, i, v) then Some(v) else None
  {
    hide ExprR, StrR, Omits;
    var s := StrOf(env, Str(i));
    if g.At(i).ty == String {
      S.StringRoundTrip(s);
      QuotedKept(S.Escape(s));
    }
  }

  /** The value of a text symbol: the user's if it counts, the default otherwise. */
  predicate UserCounts(g: Graph, env: Env, i: Id, s: string)
    requires PlainText(g, i)
  {
    var it := g.At(i);
    && TriOf(env, Vis(i)) != 0
    && (IsNumber(it.ty) ==> s != "" && InRange(RangeR(g, env, it.ranges, Base(it.ty), 0).v, NumOr0(g, s, Base(it.ty))))
  }

  lemma TextCases(g: Graph, u: Users, env: Env, i: Id)
    requires PlainText(g, i)
    ensures var w := StrR(g, u, env, i).v;
      && w.s == (if u.Str(i).Some? && UserCounts(g, env, i, u.Str(i).value) then u.Str(i).value else Unset(g, env, i))
      && (TriOf(env, Vis(i)) != 0 ==> w.write == !g.At(i).auto)
      && (TriOf(env, Vis(i)) == 0 ==> w.write == StrR(g, NOTHING, env, i).v.write)
  {
    hide ExprR, RangeR, StrDefaultR;
  }

  /** A value equal to the default text is what the defaults give. */
  lemma DefaultText(g: Graph, u: Users, env: Env, i: Id)
    requires PlainText(g, i) && StrR(g, u, env, i).v.s == DefaultString(g, env, i)
    ensures Unset(g, env, i) == DefaultString(g, env, i)
  {
    hide ExprR, RangeR, StrDefaultR;
  }

  lemma TextKept(g: Graph, u: Users, u': Users, env: Env, i: Id, minimal: bool)
    requires PlainText(g, i) && TextSolved(g, u, env, i)
    requires ValueIn(u', i) == Reloaded(g, env, i, minimal)
    ensures StrR(g, u', env, i).v == StrR(g, u, env, i).v <==> !Lost(g, u, env, i, minimal)
  {
    TextReloaded(g, u, env, i, minimal);
    TextCases(g, u, env, i);
    TextCases(g, u', env, i);
    if StrR(g, u, env, i).v.s == DefaultString(g, env, i) { DefaultText(g, u, env, i); }
    hide ExprR, RangeR, StrDefaultR, StrR, Reloaded, Accepts, DefaultString, OneLine, RStrip;
  }

  // ---- choices ---------------------------------------------------------------------------

  predicate Member(g: Graph, i: Id) { g.At(i).Symbol? && IsLogic(g.At(i).ty) && g.At(i).choice.Some? }

  /** `env` has the values of the choice symbol `i` under `u`. */
  predicate MemberSolved(g: Graph, u: Users, env: Env, i: Id)
    requires Member(g, i)
  {
    var w := SymbolValR(g, u, env, i).v;
    && Look(env, Val(i)) == Some(TriV(w.t, w.write)) && Look(env, Str(i)) == Some(StrV(TriStr(w.t), w.write))
    && (TriOf(env, Vis(i)) == 1 ==> g.At(i).ty == Tristate)
  }

  lemma MemberReloaded(g: Graph, u: Users, env: Env, i: Id, minimal: bool)
    requires Member(g, i) && MemberSolved(g, u, env, i)
    ensures Reloaded(g, env, i, minimal) ==
            if TriOf(env, Vis(i)) != 0 && !(minimal && Omits(g, env, i)) then Some(TriUser(TriOf(env, Val(i))))
            else None
  {
    hide Omits, Reloaded;
    LogicReloaded(g, env, i, minimal);
  }

  /** Of the choice symbols, a minimal configuration leaves out those with the value n and those chosen by
      default. */
  lemma MemberOmitted(g: Graph, u: Users, env: Env, i: Id)
    requires Member(g, i) && MemberSolved(g, u, env, i)
    ensures Omits(g, env, i) <==> TriOf(env, Val(i)) == 0 || ChosenByDefault(g, env, i)
  {
    hide ChosenByDefault;
  }

  /** A choice symbol is never lost on its own. */
  lemma MemberKept(g: Graph, u: Users, u': Users, env: Env, i: Id, minimal: bool)
    requires Member(g, i) && MemberSolved(g, u, env, i) && ValueIn(u', i) == Reloaded(g, env, i, minimal)
    ensures SymbolValR(g, u', env, i).v == SymbolValR(g, u, env, i).v
  {
    hide Omits, Reloaded;
    MemberReloaded(g, u, env, i, minimal);
    MemberOmitted(g, u, env, i);
  }

  /** Some symbol of the choice has a line that gives the choice its mode. */
  predicate Spoken(g: Graph, env: Env, c: Id, minimal: bool)
    requires g.At(c).Choice?
  {
    exists i :: i in g.At(c).syms && Speaks(g, env, i, minimal, c)
  }

  /** The choices whose mode a configuration loses. Without a line for one of its symbols a choice comes
      back in the least mode it can have. With one, which then says m, a choice only loses n mode; that takes
      a symbol with a prompt that the choice does not limit. */
  predicate LostMode(g: Graph, env: Env, c: Id, minimal: bool) {
    g.At(c).Choice? &&
    var mode, vis := TriOf(env, Val(c)), TriOf(env, Vis(c));
    if Spoken(g, env, c, minimal) then mode == 0 && vis != 0
    else mode != (if g.At(c).optional || vis == 0 then 0 else if TypeR(g, env, c).v == Bool then 2 else 1)
  }

  /** `env` has the mode and the selection of the choice `c` under `u`, and the values of its symbols. */
  ghost predicate ChoiceSolved(g: Graph, u: Users, env: Env, c: Id)
    requires g.At(c).Choice?
  {
    && TriOf(env, Val(c)) == ModeR(g, u, env, c).v && SelOf(env, Sel(c)) == SelR(g, u, env, c).v
    && (TriOf(env, Vis(c)) == 1 ==> TypeR(g, env, c).v != Bool)
    && (u.Tri(c).Some? ==> Accepts(g, c, TriUser(u.Tri(c).value)))
    && (u.Selection(c).Some? ==> u.Selection(c).value in g.At(c).syms)
    && forall i :: i in g.At(c).syms ==>
         Member(g, i) && g.At(i).choice == Some(c) && MemberSolved(g, u, env, i)
         && (TriOf(env, Val(c)) == 2 ==> TriOf(env, Vis(i)) != 1)
  }

  /** A line that gives the mode says y in y mode and m otherwise. */
  lemma SpokenValue(g: Graph, u: Users, env: Env, c: Id, i: Id, minimal: bool)
    requires g.At(c).Choice? && ChoiceSolved(g, u, env, c) && i in g.At(c).syms && Speaks(g, env, i, minimal, c)
    ensures Reloaded(g, env, i, minimal) == Some(TriUser(if TriOf(env, Val(c)) == 2 then 2 else 1))
    ensures TriOf(env, Val(c)) == 2 ==> SelOf(env, Sel(c)) == Some(i) && TriOf(env, Vis(i)) != 0
    ensures TriOf(env, Val(c)) != 2 ==> Accepts(g, c, TriUser(1))
  {
    hide Omits, Reloaded, ModeR, DefaultSelectionR;
    MemberReloaded(g, u, env, i, minimal);
  }

  lemma ModeKept(g: Graph, u: Users, u': Users, env: Env, c: Id, order: seq<Id>, minimal: bool)
    requires g.At(c).Choice? && ChoiceSolved(g, u, env, c) && ModeLoaded(g, env, order, minimal, u', c)
    requires IsLogic(g.At(c).ty)
    requires forall i :: i in g.At(c).syms ==> i in order
    requires forall i :: i in order && g.At(i).Symbol? && g.At(i).choice == Some(c) ==> i in g.At(c).syms
    ensures ModeR(g, u', env, c).v == TriOf(env, Val(c)) <==> !LostMode(g, env, c, minimal)
  {
    hide Reloaded, SelR, MemberSolved, Omits;
    if c in u'.values {
      var i :| i in order && Speaks(g, env, i, minimal, c) && Reloaded(g, env, i, minimal) == Some(u'.values[c]);
      SpokenValue(g, u, env, c, i, minimal);
      assert Spoken(g, env, c, minimal);
    } else {
      assert !Spoken(g, env, c, minimal);
    }
    hide Speaks, ChoiceSolved;
    TypeOfChoice(g, env, c);
  }

  lemma TypeOfChoice(g: Graph, env: Env, c: Id)
    requires g.At(c).Choice? && IsLogic(g.At(c).ty)
    ensures TypeR(g, env, c).v == Bool || TypeR(g, env, c).v == Tristate
    ensures g.At(c).ty == Bool ==> TypeR(g, env, c).v == Bool
  {
  }

  /** The selection comes back, wherever the mode does. */
  lemma SelectionKept(g: Graph, u: Users, u': Users, env: Env, c: Id, order: seq<Id>, minimal: bool)
    requires g.At(c).Choice? && ChoiceSolved(g, u, env, c)
    requires ModeLoaded(g, env, order, minimal, u', c) && SelectionLoaded(g, env, order, minimal, u', c)
    requires IsLogic(g.At(c).ty)
    requires forall i :: i in g.At(c).syms ==> i in order
    requires forall i :: i in order && g.At(i).Symbol? && g.At(i).choice == Some(c) ==> i in g.At(c).syms
    ensures SelR(g, u', env, c).v == SelOf(env, Sel(c))
  {
    hide Reloaded, Omits, ModeR, DefaultSelectionR;
    if TriOf(env, Val(c)) == 2 {
      var s := u'.Selection(c);
      if s.Some? && s.value in order && Chosen(g, env, s.value, minimal, c) {
        ChosenSpeaks(g, env, s.value, minimal, c);
        SpokenValue(g, u, env, c, s.value, minimal);
      } else {
        if s.Some? {
          var i :| i in order && Speaks(g, env, i, minimal, c) && Reloaded(g, env, i, minimal) == Some(u'.values[c]);
          SpokenValue(g, u, env, c, i, minimal);
        }
        NotChosen(g, u, env, c, order, minimal);
      }
    }
  }

  lemma ChosenSpeaks(g: Graph, env: Env, i: Id, minimal: bool, c: Id)
    requires Chosen(g, env, i, minimal, c) && IsLogic(g.At(i).ty) && g.At(c).Choice? && IsLogic(g.At(c).ty)
    ensures Speaks(g, env, i, minimal, c)
  {
    hide Reloaded;
  }

  /** If no line selects a symbol, the selection was the default one. */
  lemma NotChosen(g: Graph, u: Users, env: Env, c: Id, order: seq<Id>, minimal: bool)
    requires g.At(c).Choice? && ChoiceSolved(g, u, env, c) && TriOf(env, Val(c)) == 2
    requires forall i :: i in g.At(c).syms ==> i in order
    requires forall i :: i in order ==> !Chosen(g, env, i, minimal, c)
    ensures SelOf(env, Sel(c)) == DefaultSelectionR(g, env, c).v
  {
    hide Reloaded, Omits, ModeR, DefaultSelectionR;
    var user := u.Selection(c);
    if user.Some? && TriOf(env, Vis(user.value)) != 0 {
      var i := user.value;
      MemberReloaded(g, u, env, i, minimal);
      MemberOmitted(g, u, env, i);
      assert i in order && !Chosen(g, env, i, minimal, c);
    }
  }

  /** The symbol or choice `i` does not get its value back. */
  predicate Lost(g: Graph, u: Users, env: Env, i: Id, minimal: bool) {
    || LostMode(g, env, i, minimal)
    || if minimal then LostInMinimal(g, u, env, i) else LostInFull(g, env, i)
  }

  // ---- whole configurations ------------------------------------------------------------

  /** Every symbol keeps its tristate and its string value. */
  ghost predicate SameValues(e1: Env, e2: Env) {
    forall i: Id :: Look(e1, Val(i)) == Look(e2, Val(i)) && Look(e1, Str(i)) == Look(e2, Str(i))
  }

  lemma SameVisibility(g: Graph, u1: Users, u2: Users, rank: Node -> nat, i: Id)
    requires Ranked(g, rank) && UsersOk(g, u1) && UsersOk(g, u2)
    requires SameValues(Solution(g, u1, rank), Solution(g, u2, rank))
    ensures Look(Solution(g, u1, rank), Vis(i)) == Look(Solution(g, u2, rank), Vis(i))
  {
    hide Solution, Ranked, UsersOk, VisR, StepR, Deps;
    var s1, s2 := Solution(g, u1, rank), Solution(g, u2, rank);
    AtVis(g, u1, rank, i);
    AtVis(g, u2, rank, i);
    VisUsed(g, s1, i);
    VisDepsAreValues(g, i);
    assert forall r :: r in VisR(g, s1, i).used ==> r == Val(r.i) || r == Str(r.i);
    VisFrame(g, s1, s2, i);
  }

  lemma VisDepsAreValues(g: Graph, i: Id)
    ensures forall r :: r in Deps(g, Vis(i)) ==> r.Val? || r.Str?
  {
  }

  lemma SymbolSolved(g: Graph, u: Users, rank: Node -> nat, i: Id)
    requires Ranked(g, rank) && UsersOk(g, u) && Printable(g, Solution(g, u, rank)) && g.At(i).Symbol?
    ensures PlainLogic(g, i) ==> LogicSolved(g, u, Solution(g, u, rank), i)
    ensures PlainText(g, i) ==> TextSolved(g, u, Solution(g, u, rank), i)
  {
    AtVal(g, u, rank, i);
    AtStr(g, u, rank, i);
    if TriOf(Solution(g, u, rank), Vis(i)) == 1 { MVisibleIsTristate(g, u, rank, i); }
    hide Solution, Ranked, StepR, Deps, SymbolValR, TypeR, OneLine;
  }

  /** The file has a line for every symbol that gets one. */
  predicate Covers(g: Graph, order: seq<Id>) {
    forall i :: 0 <= i < |g.items| && g.items[i].Symbol? && g.items[i].ty != Unknown ==> i in order
  }

  /** The assignments after saving and loading into an unset configuration. */
  ghost function AfterReload(g: Graph, u: Users, rank: Node -> nat, order: seq<Id>, minimal: bool): Users
    requires Ranked(g, rank)
  {
    LoadAll(g, NOTHING, Lines(g, Solution(g, u, rank), order, minimal))
  }

  ghost predicate Saveable(g: Graph, u: Users, rank: Node -> nat, order: seq<Id>, minimal: bool) {
    && ChoicesOk(g) && Ranked(g, rank) && UsersOk(g, u) && Covers(g, order)
    && Printable(g, Solution(g, u, rank)) && (minimal ==> PromptsImplyDeps(g))
  }

  lemma ReloadedFresh(g: Graph, u: Users, rank: Node -> nat, order: seq<Id>, minimal: bool)
    requires Saveable(g, u, rank, order, minimal)
    ensures LoadedAs(g, Solution(g, u, rank), order, minimal, AfterReload(g, u, rank, order, minimal))
    ensures UsersOk(g, AfterReload(g, u, rank, order, minimal))
  {
    LoadedValues(g, Solution(g, u, rank), order, minimal);
  }

  lemma VisibleImpliesDeps(g: Graph, u: Users, rank: Node -> nat, i: Id)
    requires Ranked(g, rank) && UsersOk(g, u) && PromptsImplyDeps(g) && g.At(i).Symbol?
    requires TriOf(Solution(g, u, rank), Vis(i)) != 0
    ensures ExprR(g, Solution(g, u, rank), g.At(i).directDep).v != 0
  {
    hide Solution, Ranked, UsersOk, StepR, Deps, TypeR, ExprR, PromptsR, LitsHold;
    AtVis(g, u, rank, i);
    SolutionLits(g, u, rank);
  }

  lemma SolvedMember(g: Graph, u: Users, rank: Node -> nat, i: Id)
    requires Ranked(g, rank) && UsersOk(g, u) && Member(g, i)
    ensures MemberSolved(g, u, Solution(g, u, rank), i)
  {
    hide Solution, Ranked, UsersOk, StepR, Deps, SymbolValR;
    AtVal(g, u, rank, i);
    AtStr(g, u, rank, i);
    if TriOf(Solution(g, u, rank), Vis(i)) == 1 { MVisibleIsTristate(g, u, rank, i); }
  }

  lemma SolvedChoice(g: Graph, u: Users, rank: Node -> nat, c: Id)
    requires ChoicesOk(g) && Ranked(g, rank) && UsersOk(g, u) && g.At(c).Choice?
    ensures ChoiceSolved(g, u, Solution(g, u, rank), c)
  {
    assert ChoiceMembers(g, c);
    var sol := Solution(g, u, rank);
    forall i | i in g.At(c).syms
      ensures Member(g, i) && g.At(i).choice == Some(c) && MemberSolved(g, u, sol, i)
      ensures TriOf(sol, Val(c)) == 2 ==> TriOf(sol, Vis(i)) != 1
    {
      hide Solution, Ranked, UsersOk, MemberSolved;
      SolvedMember(g, u, rank, i);
      MemberVisibility(g, u, rank, c, i);
    }
    hide Solution, Ranked, StepR, Deps, MemberSolved, SelR, ModeR, PromptsR, ChoicesOk;
    AtVal(g, u, rank, c);
    AtSel(g, u, rank, c);
    AtVis(g, u, rank, c);
  }

  /** The mode of a choice comes back exactly if it is not lost; the selection always fits the mode. */
  lemma ChoiceKept(g: Graph, u: Users, rank: Node -> nat, order: seq<Id>, minimal: bool, u': Users, c: Id)
    requires Saveable(g, u, rank, order, minimal) && LoadedAs(g, Solution(g, u, rank), order, minimal, u')
    requires g.At(c).Choice?
    ensures var sol := Solution(g, u, rank);
      && (StepR(g, u', sol, Val(c)).v == sol[Val(c)] <==> !Lost(g, u, sol, c, minimal))
      && StepR(g, u', sol, Sel(c)).v == sol[Sel(c)] && StepR(g, u', sol, Str(c)).v == sol[Str(c)]
  {
    hide Solution, Ranked, UsersOk, Deps, SelR, ModeR, ChoiceSolved, LostMode, LoadedAs, ModeLoaded, SelectionLoaded,
      Saveable, ChoiceMembers, ChoicesOk, StepR;
    ChoiceParts(g, u, rank, order, minimal, u', c);
    var sol := Solution(g, u, rank);
    SolvedChoice(g, u, rank, c);
    ModeKept(g, u, u', sol, c, order, minimal);
    SelectionKept(g, u, u', sol, c, order, minimal);
    ChoiceSteps(g, u, u', rank, c);
    OnlyModeLost(g, u, sol, c, minimal);
  }

  lemma ChoiceParts(g: Graph, u: Users, rank: Node -> nat, order: seq<Id>, minimal: bool, u': Users, c: Id)
    requires Saveable(g, u, rank, order, minimal) && LoadedAs(g, Solution(g, u, rank), order, minimal, u')
    requires g.At(c).Choice?
    ensures Ranked(g, rank) && UsersOk(g, u) && ChoicesOk(g) && IsLogic(g.At(c).ty)
    ensures ModeLoaded(g, Solution(g, u, rank), order, minimal, u', c)
    ensures SelectionLoaded(g, Solution(g, u, rank), order, minimal, u', c)
    ensures forall i :: i in g.At(c).syms ==> i in order
    ensures forall i :: i in order && g.At(i).Symbol? && g.At(i).choice == Some(c) ==> i in g.At(c).syms
  {
    hide Solution, Ranked, UsersOk, Printable, PromptsImplyDeps, ModeLoaded, SelectionLoaded;
    assert ChoiceMembers(g, c);
  }

  /** The equations of a choice, at a solution and under other assignments. */
  lemma ChoiceSteps(g: Graph, u: Users, u': Users, rank: Node -> nat, c: Id)
    requires Ranked(g, rank) && UsersOk(g, u) && g.At(c).Choice?
    ensures var sol := Solution(g, u, rank);
      && (StepR(g, u', sol, Val(c)).v == sol[Val(c)] <==> ModeR(g, u', sol, c).v == TriOf(sol, Val(c)))
      && (StepR(g, u', sol, Sel(c)).v == sol[Sel(c)] <==> SelR(g, u', sol, c).v == SelOf(sol, Sel(c)))
      && StepR(g, u', sol, Str(c)).v == sol[Str(c)]
  {
    hide Solution, Ranked, UsersOk, Deps, SelR, ModeR;
    SolvedStep(g, u, rank, Val(c));
    SolvedStep(g, u, rank, Sel(c));
    SolvedStep(g, u, rank, Str(c));
  }

  lemma OnlyModeLost(g: Graph, u: Users, env: Env, c: Id, minimal: bool)
    requires g.At(c).Choice?
    ensures Lost(g, u, env, c, minimal) <==> LostMode(g, env, c, minimal)
  {
    hide LostMode;
  }

  /** The equations of a symbol hold with its reloaded assignment exactly if the symbol is not lost. */
  lemma SymbolKept(g: Graph, u: Users, rank: Node -> nat, order: seq<Id>, minimal: bool, u': Users, i: Id)
    requires Saveable(g, u, rank, order, minimal) && LoadedAs(g, Solution(g, u, rank), order, minimal, u')
    requires g.At(i).Symbol?
    ensures var sol := Solution(g, u, rank);
      (StepR(g, u', sol, Val(i)).v == sol[Val(i)] && StepR(g, u', sol, Str(i)).v == sol[Str(i)])
      <==> !Lost(g, u, sol, i, minimal)
  {
    hide Solution, Ranked, UsersOk, Deps, SymbolValR, StrR, Lost, Reloaded, Printable, LogicSolved, TextSolved,
      MemberSolved, ChoicesOk, LoadedAs, Covers, Saveable, PlainLogic, PlainText, Member, PromptsImplyDeps;
    SymbolParts(g, u, rank, order, minimal, u', i);
    var sol := Solution(g, u, rank);
    SymbolSolved(g, u, rank, i);
    AtVal(g, u, rank, i);
    AtStr(g, u, rank, i);
    if PlainLogic(g, i) {
      if minimal && TriOf(sol, Vis(i)) != 0 { VisibleImpliesDeps(g, u, rank, i); }
      LogicKept(g, u, u', sol, i, minimal);
      LogicStr(g, u, u', sol, i);
    } else if PlainText(g, i) {
      TextKept(g, u, u', sol, i, minimal);
      TextVal(g, u, u', sol, i);
    } else if Member(g, i) {
      SolvedMember(g, u, rank, i);
      MemberKept(g, u, u', sol, i, minimal);
      LogicStr(g, u, u', sol, i);
      MemberNotLost(g, u, sol, i, minimal);
    } else {
      UnknownKept(g, u, u', sol, i, minimal);
    }
  }

  lemma SymbolParts(g: Graph, u: Users, rank: Node -> nat, order: seq<Id>, minimal: bool, u': Users, i: Id)
    requires Saveable(g, u, rank, order, minimal) && LoadedAs(g, Solution(g, u, rank), order, minimal, u')
    requires g.At(i).Symbol?
    ensures Ranked(g, rank) && UsersOk(g, u) && UsersOk(g, u') && Printable(g, Solution(g, u, rank))
    ensures minimal ==> PromptsImplyDeps(g)
    ensures PlainLogic(g, i) || PlainText(g, i) || Member(g, i) ==>
      ValueIn(u', i) == Reloaded(g, Solution(g, u, rank), i, minimal)
    ensures PlainLogic(g, i) || PlainText(g, i) || Member(g, i) || g.At(i).ty == Unknown
    ensures PlainLogic(g, i) || Member(g, i) ==> IsLogic(g.At(i).ty)
  {
    hide Solution, Ranked, Printable, Reloaded, UsersOk;
    assert g.At(i).ty != Unknown ==> i < |g.items|;
    if g.At(i).choice.Some? { assert ChoiceMembers(g, g.At(i).choice.value); }
  }

  lemma MemberNotLost(g: Graph, u: Users, env: Env, i: Id, minimal: bool)
    requires Member(g, i)
    ensures !Lost(g, u, env, i, minimal)
  {
  }

  lemma LogicStr(g: Graph, u: Users, u': Users, env: Env, i: Id)
    requires g.At(i).Symbol? && IsLogic(g.At(i).ty)
    ensures StrR(g, u, env, i) == StrR(g, u', env, i)
  {
  }

  lemma TextVal(g: Graph, u: Users, u': Users, env: Env, i: Id)
    requires PlainText(g, i)
    ensures SymbolValR(g, u, env, i) == SymbolValR(g, u', env, i)
  {
  }

  lemma UnknownKept(g: Graph, u: Users, u': Users, env: Env, i: Id, minimal: bool)
    requires g.At(i).Symbol? && g.At(i).ty == Unknown
    ensures StrR(g, u, env, i) == StrR(g, u', env, i) && SymbolValR(g, u, env, i) == SymbolValR(g, u', env, i)
    ensures !Lost(g, u, env, i, minimal)
  {
  }

  /** Saving a configuration, in full or minimally, and loading it back gives every symbol and every choice
      its old value if and only if none of them is lost. */
  lemma SaveReload(g: Graph, u: Users, rank: Node -> nat, order: seq<Id>, minimal: bool, u': Users)
    requires Saveable(g, u, rank, order, minimal) && LoadedAs(g, Solution(g, u, rank), order, minimal, u')
    ensures var sol := Solution(g, u, rank);
      SameValues(sol, Solution(g, u', rank)) <==> forall i :: !Lost(g, u, sol, i, minimal)
  {
    var sol := Solution(g, u, rank);
    if forall i :: !Lost(g, u, sol, i, minimal) { NothingLost(g, u, rank, order, minimal, u'); }
    if i :| Lost(g, u, sol, i, minimal) { SomethingLost(g, u, rank, order, minimal, u', i); }
  }

  lemma NothingLost(g: Graph, u: Users, rank: Node -> nat, order: seq<Id>, minimal: bool, u': Users)
    requires Saveable(g, u, rank, order, minimal) && LoadedAs(g, Solution(g, u, rank), order, minimal, u')
    requires forall i :: !Lost(g, u, Solution(g, u, rank), i, minimal)
    ensures SameValues(Solution(g, u, rank), Solution(g, u', rank))
  {
    hide Saveable, LoadedAs, Lost, StepR, Ranked, UsersOk, Value;
    Parts(g, u, rank, order, minimal, u');
    var sol := Solution(g, u, rank);
    forall n: Node ensures n in sol && sol[n] == StepR(g, u', sol, n).v {
      NodeKept(g, u, rank, order, minimal, u', n);
    }
    assert IsSolution(g, u', sol);
    forall n: Node ensures sol[n] == Value(g, u', rank, n) { SolutionUnique(g, u', rank, sol, n); }
  }

  lemma Parts(g: Graph, u: Users, rank: Node -> nat, order: seq<Id>, minimal: bool, u': Users)
    requires Saveable(g, u, rank, order, minimal) && LoadedAs(g, Solution(g, u, rank), order, minimal, u')
    ensures Ranked(g, rank) && UsersOk(g, u) && UsersOk(g, u')
  {
  }

  lemma NodeKept(g: Graph, u: Users, rank: Node -> nat, order: seq<Id>, minimal: bool, u': Users, n: Node)
    requires Saveable(g, u, rank, order, minimal) && LoadedAs(g, Solution(g, u, rank), order, minimal, u')
    requires !Lost(g, u, Solution(g, u, rank), n.i, minimal)
    ensures Solution(g, u, rank)[n] == StepR(g, u', Solution(g, u, rank), n).v
  {
    hide StepR, Lost, LoadedAs, Saveable, Ranked, UsersOk, Solution, Deps;
    Parts(g, u, rank, order, minimal, u');
    var sol := Solution(g, u, rank);
    SolvedStep(g, u, rank, n);
    if g.At(n.i).Symbol? && (n.Val? || n.Str?) {
      SymbolKept(g, u, rank, order, minimal, u', n.i);
    } else if g.At(n.i).Choice? && (n.Val? || n.Str? || n.Sel?) {
      ChoiceKept(g, u, rank, order, minimal, u', n.i);
    } else {
      NoUser(g, u, u', sol, n);
    }
  }

  lemma SolvedStep(g: Graph, u: Users, rank: Node -> nat, n: Node)
    requires Ranked(g, rank) && UsersOk(g, u)
    ensures var sol := Solution(g, u, rank); n in sol && sol[n] == StepR(g, u, sol, n).v && Look(sol, n) == Some(sol[n])
  {
    hide StepR, Ranked, UsersOk, Value;
    SolutionStep(g, u, rank, n);
  }

  lemma NoUser(g: Graph, u: Users, u': Users, env: Env, n: Node)
    requires !(g.At(n.i).Symbol? && (n.Val? || n.Str?)) && !(g.At(n.i).Choice? && (n.Val? || n.Str? || n.Sel?))
    ensures StepR(g, u, env, n) == StepR(g, u', env, n)
  {
  }

  /** What can be lost reads values and visibilities only. */
  lemma LosableDeps(g: Graph, n: Node)
    requires n.Val? || n.Str?
    requires g.At(n.i).Symbol? ==> g.At(n.i).choice.None?
    ensures forall r :: r in Deps(g, n) ==> r == Val(r.i) || r == Str(r.i) || r == Vis(r.i)
  {
    hide PropItems;
  }

  lemma SameAtItem(g: Graph, u: Users, u': Users, rank: Node -> nat, n: Node)
    requires Ranked(g, rank) && UsersOk(g, u) && UsersOk(g, u')
    requires SameValues(Solution(g, u, rank), Solution(g, u', rank)) && (n.Val? || n.Str?)
    requires g.At(n.i).Symbol? ==> g.At(n.i).choice.None?
    ensures StepR(g, u', Solution(g, u, rank), n) == StepR(g, u', Solution(g, u', rank), n)
  {
    hide StepR, Deps, Solution, Ranked, UsersOk;
    var sol, sol' := Solution(g, u, rank), Solution(g, u', rank);
    UsedInDeps(g, u', sol, n);
    LosableDeps(g, n);
    forall r | r in StepR(g, u', sol, n).used ensures Look(sol, r) == Look(sol', r) {
      SameVisibility(g, u, u', rank, r.i);
    }
    EnvFrame(g, u', sol, sol', n);
  }

  lemma LostKind(g: Graph, u: Users, env: Env, i: Id, minimal: bool)
    requires Lost(g, u, env, i, minimal)
    ensures g.At(i).Choice? || (g.At(i).Symbol? && g.At(i).choice.None?)
  {
  }

  lemma SomethingLost(g: Graph, u: Users, rank: Node -> nat, order: seq<Id>, minimal: bool, u': Users, i: Id)
    requires Saveable(g, u, rank, order, minimal) && LoadedAs(g, Solution(g, u, rank), order, minimal, u')
    requires Lost(g, u, Solution(g, u, rank), i, minimal)
    ensures !SameValues(Solution(g, u, rank), Solution(g, u', rank))
  {
    hide StepR, Lost, LoadedAs, Saveable, Ranked, UsersOk, Solution, Deps;
    Parts(g, u, rank, order, minimal, u');
    var sol, sol' := Solution(g, u, rank), Solution(g, u', rank);
    LostKind(g, u, sol, i, minimal);
    if SameValues(sol, sol') {
      if g.At(i).Choice? { ChoiceKept(g, u, rank, order, minimal, u', i); }
      else { SymbolKept(g, u, rank, order, minimal, u', i); }
      SameAtItem(g, u, u', rank, Val(i));
      SameAtItem(g, u, u', rank, Str(i));
      SolvedStep(g, u', rank, Val(i));
      SolvedStep(g, u', rank, Str(i));
      SolvedStep(g, u, rank, Val(i));
      SolvedStep(g, u, rank, Str(i));
    }
  }

  /** A choice of bool symbols that is on although none of its symbols is set. */
  predicate EmptyOn(g: Graph, env: Env, c: Id) {
    && g.At(c).Choice? && g.At(c).optional && TriOf(env, Val(c)) == 2
    && forall i :: i in g.At(c).syms ==> TriOf(env, Val(i)) != 2
  }

  /** Bool symbols lose nothing: a configuration of bool symbols and choices is restored exactly, unless an
      optional choice is on without a symbol set. */
  lemma BoolsLoseNothing(g: Graph, u: Users, rank: Node -> nat, order: seq<Id>, minimal: bool, u': Users)
    requires Saveable(g, u, rank, order, minimal) && LoadedAs(g, Solution(g, u, rank), order, minimal, u')
    requires forall i :: g.At(i).Symbol? ==> g.At(i).ty == Bool || g.At(i).ty == Unknown
    requires forall c :: g.At(c).Choice? ==> g.At(c).ty == Bool
    ensures SameValues(Solution(g, u, rank), Solution(g, u', rank))
            <==> forall c :: !EmptyOn(g, Solution(g, u, rank), c)
  {
    var sol := Solution(g, u, rank);
    Parts(g, u, rank, order, minimal, u');
    forall i ensures Lost(g, u, sol, i, minimal) <==> EmptyOn(g, sol, i) {
      if g.At(i).Choice? {
        BoolChoice(g, u, rank, i, minimal);
      } else {
        if g.At(i).Symbol? && TriOf(sol, Vis(i)) == 1 { MVisibleIsTristate(g, u, rank, i); }
      }
    }
    hide Saveable, LoadedAs, Lost, EmptyOn;
    SaveReload(g, u, rank, order, minimal, u');
  }

  lemma BoolChoice(g: Graph, u: Users, rank: Node -> nat, c: Id, minimal: bool)
    requires ChoicesOk(g) && Ranked(g, rank) && UsersOk(g, u) && g.At(c).Choice? && g.At(c).ty == Bool
    requires forall i :: g.At(i).Symbol? ==> g.At(i).ty == Bool || g.At(i).ty == Unknown
    ensures Lost(g, u, Solution(g, u, rank), c, minimal) <==> EmptyOn(g, Solution(g, u, rank), c)
  {
    hide Solution, Ranked, UsersOk, ChoiceSolved;
    assert ChoiceMembers(g, c);
    SolvedChoice(g, u, rank, c);
    BoolChoiceAt(g, u, Solution(g, u, rank), c, minimal);
  }

  lemma BoolChoiceAt(g: Graph, u: Users, env: Env, c: Id, minimal: bool)
    requires g.At(c).Choice? && g.At(c).ty == Bool && ChoiceSolved(g, u, env, c)
    requires forall i :: i in g.At(c).syms ==> g.At(i).ty == Bool
    ensures Lost(g, u, env, c, minimal) <==> EmptyOn(g, env, c)
  {
    forall i | i in g.At(c).syms
      ensures TriOf(env, Val(i)) == 2 && g.At(c).optional ==> Speaks(g, env, i, minimal, c)
      ensures Speaks(g, env, i, minimal, c) ==> TriOf(env, Val(i)) == 2 && TriOf(env, Val(c)) == 2
    {
      BoolMember(g, u, env, c, i, minimal);
    }
    hide Reloaded, Omits, SelR, MemberSolved, Speaks;
    TypeOfChoice(g, env, c);
  }

  lemma BoolMember(g: Graph, u: Users, env: Env, c: Id, i: Id, minimal: bool)
    requires g.At(c).Choice? && g.At(c).ty == Bool && ChoiceSolved(g, u, env, c)
    requires i in g.At(c).syms && g.At(i).ty == Bool
    ensures TriOf(env, Val(i)) == 2 && g.At(c).optional ==> Speaks(g, env, i, minimal, c)
    ensures Speaks(g, env, i, minimal, c) ==> TriOf(env, Val(i)) == 2 && TriOf(env, Val(c)) == 2
  {
    hide Reloaded, Omits, ModeR, SelR;
    MemberReloaded(g, u, env, i, minimal);
    MemberOmitted(g, u, env, i);
    if Speaks(g, env, i, minimal, c) { SpokenValue(g, u, env, c, i, minimal); }
  }

  // ---- the losses do occur ---------------------------------------------------------------

  lemma SampleSaveable(rev: Id, u: Users, minimal: bool)
    requires rev <= 2 && UsersOk(Sample(rev, 0), u)
    ensures Saveable(Sample(rev, 0), u, SampleRank(), [3, 4], minimal)
  {
    hide Ranked, UsersOk, Solution;
    SampleRanked(rev, 0);
    var g := Sample(rev, 0);
    assert forall i :: g.At(i).Symbol? ==> IsLogic(g.At(i).ty) || g.At(i).ty == Unknown;
  }

  predicate SampleEnv(env: Env) {
    && TriOf(env, Val(0)) == 0 && TriOf(env, Val(1)) == 1 && TriOf(env, Val(2)) == 2
    && TriOf(env, Val(3)) == 2 && TriOf(env, Vis(4)) == 1
  }

  lemma FullEquations(env: Env)
    requires SampleEnv(env)
    ensures SymbolValR(Sample(0, 0), NOTHING, env, 4).v.t == 2
    ensures TriOf(env, Val(4)) == 2 ==> Lost(Sample(0, 0), NOTHING, env, 4, false)
  {
  }

  lemma MinimalEquations(u: Users, env: Env)
    requires SampleEnv(env) && u.Tri(4) == Some(1)
    ensures Lost(Sample(1, 0), u, env, 4, true)
  {
  }

  /** A full configuration turns a y that comes from a default into m, for a symbol visible to m. */
  lemma FullLosesDefault()
    ensures var g, rank := Sample(0, 0), SampleRank();
      && Saveable(g, NOTHING, rank, [3, 4], false)
      && var u' := AfterReload(g, NOTHING, rank, [3, 4], false);
      UsersOk(g, u') && !SameValues(Solution(g, NOTHING, rank), Solution(g, u', rank))
  {
    hide Ranked, UsersOk, Solution, StepR, Deps, Saveable, AfterReload, SameValues, SymbolValR, Lost, LoadedAs;
    var g, rank := Sample(0, 0), SampleRank();
    UnsetOk(g);
    SampleRanked(0, 0);
    SampleSaveable(0, NOTHING, false);
    SampleValues(0, 0, NOTHING);
    FullEquations(Solution(g, NOTHING, rank));
    AtVal(g, NOTHING, rank, 4);
    ReloadedFresh(g, NOTHING, rank, [3, 4], false);
    SaveReload(g, NOTHING, rank, [3, 4], false, AfterReload(g, NOTHING, rank, [3, 4], false));
  }

  /** A minimal configuration drops the m of a symbol that is visible and selected to m, which then
      gets its default of y. */
  lemma MinimalLosesM()
    ensures var g, rank, u := Sample(1, 0), SampleRank(), Users(map[4 := TriUser(1)], map[]);
      && UsersOk(g, u) && Saveable(g, u, rank, [3, 4], true)
      && var u' := AfterReload(g, u, rank, [3, 4], true);
      UsersOk(g, u') && !SameValues(Solution(g, u, rank), Solution(g, u', rank))
  {
    var g, rank, u := Sample(1, 0), SampleRank(), Users(map[4 := TriUser(1)], map[]);
    assert UsersOk(g, u);
    hide Ranked, UsersOk, Solution, StepR, Deps, Saveable, AfterReload, SameValues, Lost, LoadedAs;
    SampleRanked(1, 0);
    SampleSaveable(1, u, true);
    SampleValues(1, 0, u);
    MinimalEquations(u, Solution(g, u, rank));
    ReloadedFresh(g, u, rank, [3, 4], true);
    SaveReload(g, u, rank, [3, 4], true, AfterReload(g, u, rank, [3, 4], true));
  }

  // ---- the methods that write and load -----------------------------------------------------

  ghost function Above(rank: Node -> nat, s: set<Node>): (b: nat)
    ensures forall r :: r in s ==> rank(r) < b
  {
    if s == {} then 0
    else
      var r :| r in s;
      var b := Above(rank, s - {r});
      if rank(r) < b then b else rank(r) + 1
  }

  method ConfigStringOf(k: Kconfig, i: Id) returns (lines: seq<Line>)
    requires k.Valid() && k.g.At(i).Symbol?
    modifies k
    ensures k.Valid() && k.users == old(k.users) && lines == ConfigString(k.g, k.Sol(), i)
  {
    hide LiveOk, Ranked, Wired, UsersOk, Solution, StepR, Deps;
    var val := k.StringValue(i);
    AtStr(k.g, k.users, k.rank, i);
    var ty := k.g.At(i).ty;
    if !(i in k.caches.write && k.caches.write[i]) { return []; }
    if IsLogic(ty) { return if val != "n" then [SetLine(i, val)] else [UnsetLine(i)]; }
    if IsNumber(ty) { return [SetLine(i, val)]; }
    lines := [SetLine(i, S.QUOTE + S.Escape(val) + S.QUOTE)];
  }

  method DefaultStringOf(k: Kconfig, i: Id) returns (s: string)
    requires k.Valid() && k.g.At(i).Symbol?
    modifies k
    ensures k.Valid() && k.users == old(k.users) && s == DefaultString(k.g, k.Sol(), i)
  {
    hide Inv, Ranked, Wired, UsersOk, Solution, ExprR, TypeR, TriDefaultR, StrDefaultR;
    var it := k.g.At(i);
    if IsLogic(it.ty) {
      if it.choice.Some? { return "n"; }
      var val := k.TriDefault(i);
      var rev := k.ExprValue(it.revDep, Above(k.rank, Operands(ExprItems(it.revDep))));
      var weak := k.ExprValue(it.weakRevDep, Above(k.rank, Operands(ExprItems(it.weakRevDep))));
      val := Max(Max(rev, weak), val);
      if val == 1 {
        var ty := k.Type(i, Above(k.rank, TypeDeps(k.g, it) + VisChoice(it)));
        if ty == Bool { val := 2; }
      }
      return TriStr(val);
    }
    if it.ty != Unknown {
      var d := k.StrDefault(i);
      if d.Some? { return d.value; }
    }
    s := "";
  }

  method IsOmitted(k: Kconfig, i: Id) returns (b: bool)
    requires k.Valid() && k.g.At(i).Symbol?
    modifies k
    ensures k.Valid() && k.users == old(k.users) && b == Omits(k.g, k.Sol(), i)
  {
    hide Inv, Ranked, UsersOk, Solution, ExprR, DefaultString, DefaultSelectionR, Dependents;
    var it := k.g.At(i);
    if it.choice.None? {
      var vis := k.Visibility(i);
      var rev := k.ExprValue(it.revDep, Above(k.rank, Operands(ExprItems(it.revDep))));
      if vis <= rev { return true; }
    }
    var val := k.StringValue(i);
    var d := DefaultStringOf(k, i);
    if val == d { return true; }
    if it.choice.Some? && !k.g.At(it.choice.value).optional {
      var sel := k.SelectionFromDefaults(it.choice.value);
      if sel == Some(i) && it.ty == Bool {
        var t := k.TriValue(i);
        return t == 2;
      }
    }
    b := false;
  }

  /** write_config() and write_min_config(), for the symbols in `order`. */
  method WriteConfig(k: Kconfig, order: seq<Id>, minimal: bool) returns (lines: seq<Line>)
    requires k.Valid() && forall i :: i in order ==> k.g.At(i).Symbol?
    modifies k
    ensures k.Valid() && k.users == old(k.users) && lines == Lines(k.g, k.Sol(), order, minimal)
  {
    hide Inv, Ranked, Wired, UsersOk, Solution, Omits, ConfigString;
    lines := [];
    var n := 0;
    while n < |order|
      invariant 0 <= n <= |order| && k.Valid() && k.users == old(k.users)
      invariant lines == Lines(k.g, k.Sol(), order[..n], minimal)
    {
      var i := order[n];
      assert order[..n + 1][..n] == order[..n];
      var omitted := false;
      if minimal { omitted := IsOmitted(k, i); }
      if !omitted {
        var ls := ConfigStringOf(k, i);
        lines := lines + ls;
      }
      n := n + 1;
    }
    assert order[..|order|] == order;
  }

  /** The assignments after loading with replacement: those of the lines, with an older selection left
      where the lines give the choice a mode but no selection. */
  function Replaced(u: Users, loaded: Users): Users {
    Users(loaded.values,
          map c | c in u.selections.Keys + loaded.selections.Keys && (c in loaded.selections || c in loaded.values) ::
            if c in loaded.selections then loaded.selections[c] else u.selections[c])
  }

  lemma ReplacedOk(g: Graph, u: Users, loaded: Users)
    requires UsersOk(g, u) && UsersOk(g, loaded)
    ensures UsersOk(g, Replaced(u, loaded))
  {
    hide Accepts;
  }

  lemma ReplacedAs(g: Graph, env: Env, order: seq<Id>, minimal: bool, u: Users, loaded: Users)
    requires UsersOk(g, u) && LoadedAs(g, env, order, minimal, loaded)
    ensures LoadedAs(g, env, order, minimal, Replaced(u, loaded))
  {
    hide Speaks, Chosen, Reloaded, Accepts, UsersOk;
    var r := Replaced(u, loaded);
    ReplacedOk(g, u, loaded);
    forall c | g.At(c).Choice?
      ensures ModeLoaded(g, env, order, minimal, r, c) && SelectionLoaded(g, env, order, minimal, r, c)
    {
      assert ModeLoaded(g, env, order, minimal, loaded, c) && SelectionLoaded(g, env, order, minimal, loaded, c);
    }
  }

  /** The loading so far: what is set is set as in a fresh configuration, what is not is as before. */
  ghost predicate Loading(g: Graph, start: Users, loaded: Users, now: Users, done: set<Id>) {
    && done == loaded.values.Keys + loaded.selections.Keys
    && (forall i :: ValueIn(now, i) == if i in loaded.values then Some(loaded.values[i]) else ValueIn(start, i))
    && (forall c ::
          now.Selection(c) == if c in loaded.selections then Some(loaded.selections[c]) else start.Selection(c))
    && (forall c :: c in loaded.selections ==> c in loaded.values && g.At(c).Choice?)
  }

  lemma AssignedKeys(g: Graph, u: Users, i: Id, v: UserValue)
    requires g.At(i).Symbol? && g.At(i).choice.Some? && Normalized(g.At(i).ty, v) == TriUser(2) ==>
      g.At(i).choice.value in u.values && g.At(g.At(i).choice.value).Choice?
    requires forall c :: c in u.selections ==> c in u.values && g.At(c).Choice?
    ensures var a := Assigned(g, u, i, v);
      && a.values.Keys + a.selections.Keys == u.values.Keys + u.selections.Keys + {i}
      && forall c :: c in a.selections ==> c in a.values && g.At(c).Choice?
  {
    hide Normalized;
  }

  lemma AssignedSame(g: Graph, u: Users, w: Users, i: Id, v: UserValue, j: Id)
    ensures var a, b := Assigned(g, u, i, v), Assigned(g, w, i, v);
      && (if j in a.values && j !in u.values then j == i else true)
      && (j == i ==> j in a.values && ValueIn(a, j) == ValueIn(b, j))
      && (j != i ==> ValueIn(a, j) == ValueIn(u, j) && ValueIn(b, j) == ValueIn(w, j))
      && ((a.Selection(j) == u.Selection(j) && b.Selection(j) == w.Selection(j))
          || (j in a.selections && a.Selection(j) == b.Selection(j)))
  {
    hide Normalized;
  }

  lemma LoadingAssigned(g: Graph, start: Users, loaded: Users, now: Users, done: set<Id>, i: Id, v: UserValue)
    requires Loading(g, start, loaded, now, done)
    requires g.At(i).Symbol? && g.At(i).choice.Some? && Normalized(g.At(i).ty, v) == TriUser(2) ==>
      g.At(i).choice.value in loaded.values && g.At(g.At(i).choice.value).Choice?
    ensures Loading(g, start, Assigned(g, loaded, i, v), Assigned(g, now, i, v), done + {i})
  {
    hide Assigned, Normalized;
    var l, n := Assigned(g, loaded, i, v), Assigned(g, now, i, v);
    AssignedKeys(g, loaded, i, v);
    forall j
      ensures ValueIn(n, j) == if j in l.values then Some(l.values[j]) else ValueIn(start, j)
      ensures n.Selection(j) == if j in l.selections then Some(l.selections[j]) else start.Selection(j)
    {
      AssignedSame(g, loaded, now, i, v, j);
      assert ValueIn(now, j) == if j in loaded.values then Some(loaded.values[j]) else ValueIn(start, j);
      assert now.Selection(j) == if j in loaded.selections then Some(loaded.selections[j]) else start.Selection(j);
    }
  }

  /** load_config() with replacement: `syms` are the defined symbols and `choices` the choices. */
  method LoadConfig(k: Kconfig, lines: seq<Line>, syms: seq<Id>, choices: seq<Id>)
    requires k.Valid() && ChoicesOk(k.g)
    requires forall l :: l in lines ==> k.g.At(l.sym).Symbol?
    requires forall i :: i in syms ==> k.g.At(i).Symbol?
    requires forall c :: c in choices ==> k.g.At(c).Choice?
    requires forall i :: i in k.users.values ==> i in syms || i in choices
    requires forall c :: c in k.users.selections ==> c in choices
    modifies k
    ensures k.Valid() && k.users == Replaced(old(k.users), LoadAll(k.g, NOTHING, lines))
  {
    hide Inv, Ranked, Wired, UsersOk, Solution, Accepts, LineValue, Assigned, Loading;
    var wasSet := LoadLines(k, lines);
    ghost var loaded := LoadAll(k.g, NOTHING, lines);
    UnsetOthers(k, wasSet, syms, choices, old(k.users), loaded);
  }

  /** The lines, one after the other; `wasSet` are the symbols and choices they set. */
  method LoadLines(k: Kconfig, lines: seq<Line>) returns (wasSet: set<Id>)
    requires k.Valid() && ChoicesOk(k.g) && forall l :: l in lines ==> k.g.At(l.sym).Symbol?
    modifies k
    ensures k.Valid() && Loading(k.g, old(k.users), LoadAll(k.g, NOTHING, lines), k.users, wasSet)
  {
    hide Inv, Ranked, Wired, UsersOk, Solution, LineValue, Assigned, Loading;
    ghost var start, g := k.users, k.g;
    wasSet := {};
    LoadingStarts(g, start);
    for n := 0 to |lines|
      invariant k.Valid() && k.g == g && Loading(g, start, LoadAll(g, NOTHING, lines[..n]), k.users, wasSet)
    {
      assert lines[..n + 1][..n] == lines[..n] && lines[n] in lines;
      var more := LoadLine(k, lines[n], start, LoadAll(g, NOTHING, lines[..n]), wasSet);
      wasSet := wasSet + more;
    }
    assert lines[..|lines|] == lines;
  }

  lemma LoadingStarts(g: Graph, start: Users)
    ensures LoadAll(g, NOTHING, []) == NOTHING && Loading(g, start, NOTHING, start, {})
  {
  }

  method LoadLine(k: Kconfig, line: Line, ghost start: Users, ghost loaded: Users, wasSet: set<Id>)
    returns (more: set<Id>)
    requires k.Valid() && ChoicesOk(k.g) && k.g.At(line.sym).Symbol? && Loading(k.g, start, loaded, k.users, wasSet)
    modifies k
    ensures k.Valid() && Loading(k.g, start, Load(k.g, loaded, line), k.users, wasSet + more)
  {
    hide Inv, Ranked, Wired, UsersOk, Solution, LineValue, Assigned, Loading, Accepts;
    var i, v := line.sym, LineValue(k.g, line);
    var it := k.g.At(i);
    more := {};
    assert wasSet + {} == wasSet;
    if v.None? { return; }
    ghost var mid := loaded;
    if it.choice.Some? {
      MemberLine(k.g, line);
      if v.value != StrUser("n") {
        ghost var before := k.users;
        var ok := k.SetMode(it.choice.value, v.value);
        if ok {
          LoadingAssigned(k.g, start, loaded, before, wasSet, it.choice.value, v.value);
          mid := Assigned(k.g, loaded, it.choice.value, v.value);
          more := {it.choice.value};
          ModeAssigned(k.g, loaded, it.choice.value, v.value);
        }
      }
    }
    ghost var before := k.users;
    var ok := k.SetValue(i, v.value);
    if ok {
      LoadingAssigned(k.g, start, mid, before, wasSet + more, i, v.value);
      assert wasSet + more + {i} == wasSet + (more + {i});
      more := more + {i};
    }
  }

  lemma MemberLine(g: Graph, line: Line)
    requires ChoicesOk(g) && g.At(line.sym).Symbol? && g.At(line.sym).choice.Some? && LineValue(g, line).Some?
    ensures var c, v := g.At(line.sym).choice.value, LineValue(g, line).value;
      && IsLogic(g.At(line.sym).ty) && g.At(c).Choice? && c != line.sym
      && (Normalized(g.At(line.sym).ty, v) == TriUser(2) ==> v != StrUser("n") && Accepts(g, c, v))
  {
    hide LineValue;
    var c := g.At(line.sym).choice.value;
    assert ChoiceMembers(g, c);
    LogicLine(g, line);
    SameForChoice(g, c, LineValue(g, line).value);
  }

  lemma ModeAssigned(g: Graph, u: Users, c: Id, v: UserValue)
    requires g.At(c).Choice?
    ensures c in Assigned(g, u, c, v).values
  {
  }

  /** `now` is `was` without the assignments of items outside `kept`, of which those in `left` may still be
      there. */
  ghost predicate Unsetting(was: Users, now: Users, kept: set<Id>, left: set<Id>) {
    && (forall i :: ValueIn(now, i) == ValueIn(was, i) || (i !in kept && ValueIn(now, i) == None))
    && (forall c :: now.Selection(c) == was.Selection(c) || (c !in kept && now.Selection(c) == None))
    && (forall i :: i in now.values || i in now.selections ==> i in kept || i in left)
  }

  lemma UnsetStep(was: Users, now: Users, next: Users, kept: set<Id>, left: set<Id>, i: Id)
    requires Unsetting(was, now, kept, left)
    requires if i in kept then next == now else next == Users(now.values - {i}, now.selections - {i})
    ensures Unsetting(was, next, kept, left - {i})
  {
  }

  lemma UnsetDone(g: Graph, start: Users, loaded: Users, was: Users, now: Users, kept: set<Id>)
    requires Loading(g, start, loaded, was, kept) && Unsetting(was, now, kept, {})
    ensures now == Replaced(start, loaded)
  {
    var r := Replaced(start, loaded);
    forall i ensures ValueIn(now, i) == ValueIn(loaded, i) && now.Selection(i) == r.Selection(i) {
      UnsetAt(g, start, loaded, was, now, kept, i);
    }
    hide Loading, Unsetting, Replaced;
    SameMap(now.values, loaded.values);
    SameMap(now.selections, r.selections);
  }

  lemma UnsetAt(g: Graph, start: Users, loaded: Users, was: Users, now: Users, kept: set<Id>, i: Id)
    requires Loading(g, start, loaded, was, kept) && Unsetting(was, now, kept, {})
    ensures ValueIn(now, i) == ValueIn(loaded, i) && now.Selection(i) == Replaced(start, loaded).Selection(i)
  {
  }

  lemma SameMap<T>(a: map<Id, T>, b: map<Id, T>)
    requires forall i :: (i in a <==> i in b) && (i in a && i in b ==> a[i] == b[i])
    ensures a == b
  {
  }

  function Ids(s: seq<Id>): set<Id> { set i | i in s }

  /** The symbols and choices that were not set lose their assignments. */
  method UnsetOthers(k: Kconfig, wasSet: set<Id>, syms: seq<Id>, choices: seq<Id>, ghost start: Users,
                     ghost loaded: Users)
    requires k.Valid() && Loading(k.g, start, loaded, k.users, wasSet)
    requires forall i :: i in syms ==> k.g.At(i).Symbol?
    requires forall c :: c in choices ==> k.g.At(c).Choice?
    requires forall i :: i in start.values ==> i in syms || i in choices
    requires forall c :: c in start.selections ==> c in choices
    modifies k
    ensures k.Valid() && k.users == Replaced(start, loaded)
  {
    hide Inv, Ranked, Wired, UsersOk, Solution, Unsetting, Replaced;
    ghost var was, g := k.users, k.g;
    ghost var left := Ids(syms) + Ids(choices);
    assert Unsetting(was, k.users, wasSet, left) by { UnsetStart(g, start, loaded, was, wasSet, syms, choices); }
    for n := 0 to |syms|
      invariant k.Valid() && k.g == g && Unsetting(was, k.users, wasSet, left)
      invariant left <= Ids(syms[n..]) + Ids(choices)
    {
      ghost var before := k.users;
      NoSelection(k, syms[n]);
      if syms[n] !in wasSet { k.UnsetValue(syms[n]); }
      UnsetStep(was, before, k.users, wasSet, left, syms[n]);
      left := left - {syms[n]};
    }
    for n := 0 to |choices|
      invariant k.Valid() && k.g == g && Unsetting(was, k.users, wasSet, left)
      invariant left <= Ids(choices[n..])
    {
      ghost var before := k.users;
      if choices[n] !in wasSet { k.UnsetMode(choices[n]); }
      UnsetStep(was, before, k.users, wasSet, left, choices[n]);
      left := left - {choices[n]};
    }
    assert left == {};
    UnsetDone(g, start, loaded, was, k.users, wasSet);
  }

  lemma UnsetStart(g: Graph, start: Users, loaded: Users, was: Users, kept: set<Id>, syms: seq<Id>, choices: seq<Id>)
    requires Loading(g, start, loaded, was, kept)
    requires forall i :: i in start.values ==> i in syms || i in choices
    requires forall c :: c in start.selections ==> c in choices
    ensures Unsetting(was, was, kept, Ids(syms) + Ids(choices))
  {
    forall i | i in was.values ensures i in kept || i in Ids(syms) + Ids(choices) {
      assert ValueIn(was, i).Some?;
    }
    forall c | c in was.selections ensures c in kept || c in Ids(syms) + Ids(choices) {
      assert was.Selection(c).Some?;
    }
  }

  lemma NoSelection(k: Kconfig, i: Id)
    requires k.Valid() && !k.g.At(i).Choice?
    ensures k.users.selections - {i} == k.users.selections
  {
    hide Inv, Ranked, Wired, Solution;
    assert forall c :: c in k.users.selections ==> k.g.At(c).Choice?;
  }
}

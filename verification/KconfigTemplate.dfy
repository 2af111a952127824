/**
 What macro expansion means: a text is a template, with macro calls between plain pieces and templates
 as the arguments of calls, and its expansion is put together from the values of its parts.
 */
module KconfigTemplate {
  import opened Wrappers
  import opened KconfigMacro

  /** A piece of plain text; then the end, or a macro call and more. */
  datatype Template = End(text: string) | Then(text: string, call: Args, more: Template)

  /** The name and the arguments of a macro call. */
  datatype Args = Last(first: Template) | Comma(first: Template, others: Args)

  function Render(t: Template): string {
    match t
    case End(text) => text
    case Then(text, call, more) => text + ("$(" + (RenderArgs(call) + Render(more)))
  }

  function RenderArgs(a: Args): string {
    match a
    case Last(t) => Render(t) + ")"
    case Comma(t, others) => Render(t) + ("," + RenderArgs(others))
  }

  predicate NoCall(s: string) { forall p :: 0 <= p < |s| ==> !OpensAt(s, p) }

  /** Plain inside a call: no parenthesis that ends it and no comma either. */
  predicate Plain(s: string) { forall p :: 0 <= p < |s| ==> !SpecialAt(s, p) }

  predicate Outer(t: Template) {
    match t
    case End(text) => NoCall(text)
    case Then(text, call, more) => NoCall(text) && InnerArgs(call) && Outer(more)
  }

  predicate Inner(t: Template) {
    match t
    case End(text) => Plain(text)
    case Then(text, call, more) => Plain(text) && InnerArgs(call) && Inner(more)
  }

  predicate InnerArgs(a: Args) { Inner(a.first) && (a.Comma? ==> InnerArgs(a.others)) }

  // ---- every text whose calls are closed is one template ----------------------------------------

  datatype Parsed = Parsed(args: Args, rest: string)

  /** The template of a text; None if a call is not closed. */
  function Read(s: string): Option<Template>
    decreases |s|, 1
  {
    var p := FindOpen(s, 0);
    if p == |s| then Some(End(s))
    else match ReadArgs(s[p + 2..])
      case None => None
      case Some(c) =>
        match Read(c.rest)
        case None => None
        case Some(more) => Some(Then(s[..p], c.args, more))
  }

  function ReadArgs(s: string): (r: Option<Parsed>)
    ensures r.Some? ==> |r.value.rest| < |s|
    decreases |s|, 0
  {
    var p := FindSpecial(s, 0);
    if p == |s| then None
    else if s[p] == ')' then Some(Parsed(Last(End(s[..p])), s[p + 1..]))
    else if s[p] == ',' then
      match ReadArgs(s[p + 1..])
      case None => None
      case Some(c) => Some(Parsed(Comma(End(s[..p]), c.args), c.rest))
    else match ReadArgs(s[p + 2..])
      case None => None
      case Some(inner) =>
        match ReadArgs(inner.rest)
        case None => None
        case Some(c) => Some(Parsed(After(s[..p], inner.args, c.args), c.rest))
  }

  /** A piece of text and a call, put in front of the first argument. */
  function After(text: string, call: Args, a: Args): Args {
    match a
    case Last(t) => Last(Then(text, call, t))
    case Comma(t, others) => Comma(Then(text, call, t), others)
  }

  lemma ReadArgsUnfold(s: string)
    ensures var p, r := FindSpecial(s, 0), ReadArgs(s);
      if p == |s| then r.None?
      else if s[p] == ')' then r == Some(Parsed(Last(End(s[..p])), s[p + 1..]))
      else if s[p] == ',' then
        match ReadArgs(s[p + 1..])
        case None => r.None?
        case Some(c) => r == Some(Parsed(Comma(End(s[..p]), c.args), c.rest))
      else
        && p + 2 <= |s|
        && match ReadArgs(s[p + 2..])
           case None => r.None?
           case Some(inner) =>
             match ReadArgs(inner.rest)
             case None => r.None?
             case Some(c) => r == Some(Parsed(After(s[..p], inner.args, c.args), c.rest))
  {
    hide After;
  }

  lemma {:induction false} ReadIsText(s: string)
    requires Read(s).Some?
    ensures Render(Read(s).value) == s && Outer(Read(s).value)
    decreases |s|, 1
  {
    hide ReadArgs;
    var p := FindOpen(s, 0);
    if p < |s| {
      ReadArgsIsText(s[p + 2..]);
      ReadIsText(ReadArgs(s[p + 2..]).value.rest);
      assert forall q :: 0 <= q < p ==> (OpensAt(s[..p], q) ==> OpensAt(s, q));
      assert s == s[..p] + ("$(" + s[p + 2..]);
    }
  }

  lemma {:induction false} ReadArgsIsText(s: string)
    requires ReadArgs(s).Some?
    ensures var c := ReadArgs(s).value; s == RenderArgs(c.args) + c.rest && InnerArgs(c.args)
    decreases |s|, 0
  {
    hide FindSpecial, Plain, Inner, InnerArgs, RenderArgs, Render, After, ReadArgs, SpecialAt, OpensAt;
    var p := FindSpecial(s, 0);
    UpToSpecial(s);
    ReadArgsUnfold(s);
    var c := ReadArgs(s).value;
    if s[p] == ')' {
      LastText(s[..p], s[p + 1..]);
    } else if s[p] == ',' {
      ReadArgsIsText(s[p + 1..]);
      CommaText(s[..p], c.args.others, c.rest);
    } else {
      ReadArgsIsText(s[p + 2..]);
      var inner := ReadArgs(s[p + 2..]).value;
      ReadArgsIsText(inner.rest);
      AfterText(s[..p], inner.args, ReadArgs(inner.rest).value.args, c.rest);
    }
  }

  lemma UpToSpecial(s: string)
    ensures var p := FindSpecial(s, 0);
      && Plain(s[..p])
      && (p < |s| && (s[p] == ')' || s[p] == ',') ==> s == s[..p] + ([s[p]] + s[p + 1..]))
      && (p < |s| && s[p] != ')' && s[p] != ',' ==> OpensAt(s, p) && s == s[..p] + ("$(" + s[p + 2..]))
  {
    var p := FindSpecial(s, 0);
    PlainPrefix(s, p);
    hide FindSpecial, Plain, SpecialAt;
    if p < |s| { SplitAt(s, p); }
  }

  lemma PlainPrefix(s: string, p: nat)
    requires p <= |s| && forall q :: 0 <= q < p ==> !SpecialAt(s, q)
    ensures Plain(s[..p])
  {
    assert forall q :: 0 <= q < p ==> (SpecialAt(s[..p], q) ==> SpecialAt(s, q));
  }

  lemma SplitAt(s: string, p: nat)
    requires p < |s|
    ensures s == s[..p] + ([s[p]] + s[p + 1..])
    ensures OpensAt(s, p) ==> s == s[..p] + ("$(" + s[p + 2..])
  {
  }

  lemma LastText(text: string, rest: string)
    ensures RenderArgs(Last(End(text))) + rest == text + (")" + rest)
    ensures Plain(text) ==> InnerArgs(Last(End(text)))
  {
    assert RenderArgs(Last(End(text))) == text + ")";
  }

  lemma CommaText(text: string, a: Args, rest: string)
    ensures RenderArgs(Comma(End(text), a)) + rest == text + ("," + (RenderArgs(a) + rest))
    ensures Plain(text) && InnerArgs(a) ==> InnerArgs(Comma(End(text), a))
  {
    assert RenderArgs(Comma(End(text), a)) == text + ("," + RenderArgs(a));
  }

  lemma AfterText(text: string, call: Args, a: Args, rest: string)
    ensures RenderArgs(After(text, call, a)) + rest == text + ("$(" + (RenderArgs(call) + (RenderArgs(a) + rest)))
    ensures Plain(text) && InnerArgs(call) && InnerArgs(a) ==> InnerArgs(After(text, call, a))
  {
    assert RenderArgs(After(text, call, a)) == text + ("$(" + (RenderArgs(call) + RenderArgs(a))) by {
      var t := a.first;
      var end := if a.Last? then ")" else "," + RenderArgs(a.others);
      assert RenderArgs(a) == Render(t) + end;
      assert RenderArgs(After(text, call, a)) == text + ("$(" + (RenderArgs(call) + Render(t))) + end;
    }
  }

  function Size(t: Template): nat {
    match t
    case End(_) => 1
    case Then(_, call, more) => 1 + SizeArgs(call) + Size(more)
  }

  function SizeArgs(a: Args): nat {
    match a
    case Last(t) => 1 + Size(t)
    case Comma(t, others) => 1 + Size(t) + SizeArgs(others)
  }

  /** A template can be read back from its text. */
  lemma {:induction false} ReadRendered(t: Template)
    requires Outer(t)
    ensures Read(Render(t)) == Some(t)
  {
    hide ReadArgs;
    match t
    case End(text) =>
    case Then(text, call, more) =>
      var s, rest := Render(t), RenderArgs(call) + Render(more);
      assert s[|text|..] == "$(" + rest && s[|text| + 2..] == rest && s[..|text|] == text;
      assert OpensAt(s, |text|);
      assert forall q :: 0 <= q < |text| ==> !OpensAt(s, q) by {
        assert forall q :: 0 <= q < |text| && OpensAt(s, q) ==> OpensAt(text, q);
      }
      ReadArgsRendered(call, Render(more));
      ReadRendered(more);
  }

  /** Plain text up to a special character. */
  lemma PlainUpTo(text: string, rest: string)
    requires Plain(text) && rest != [] && (rest[0] == ')' || rest[0] == ',' || OpensAt(rest, 0))
    ensures var s := text + rest;
      FindSpecial(s, 0) == |text| && s[..|text|] == text && s[|text|] == rest[0]
      && s[|text| + 1..] == rest[1..] && (|rest| >= 2 ==> s[|text| + 2..] == rest[2..])
  {
    var s := text + rest;
    assert SpecialAt(s, |text|);
    assert forall q :: 0 <= q < |text| && SpecialAt(s, q) ==> SpecialAt(text, q);
  }

  lemma {:induction false} ReadArgsRendered(a: Args, tail: string)
    requires InnerArgs(a)
    ensures ReadArgs(RenderArgs(a) + tail) == Some(Parsed(a, tail))
    decreases SizeArgs(a)
  {
    match a.first
    case End(text) =>
      if a.Last? { LastRendered(text, tail); } else {
        ReadArgsRendered(a.others, tail);
        CommaRendered(text, a.others, tail);
      }
    case Then(text, call, more) =>
      var a' := if a.Last? then Last(more) else Comma(more, a.others);
      assert SizeArgs(a') < SizeArgs(a) && SizeArgs(call) < SizeArgs(a) && a == After(text, call, a');
      hide Plain, Render, RenderArgs, ReadArgs, SizeArgs, Size;
      ReadArgsRendered(call, RenderArgs(a') + tail);
      ReadArgsRendered(a', tail);
      AfterRendered(text, call, a', tail);
  }

  lemma LastRendered(text: string, tail: string)
    requires Plain(text)
    ensures ReadArgs(RenderArgs(Last(End(text))) + tail) == Some(Parsed(Last(End(text)), tail))
  {
    hide Plain, FindSpecial, RenderArgs;
    PlainUpTo(text, ")" + tail);
    LastText(text, tail);
  }

  lemma CommaRendered(text: string, a: Args, tail: string)
    requires Plain(text) && ReadArgs(RenderArgs(a) + tail) == Some(Parsed(a, tail))
    ensures ReadArgs(RenderArgs(Comma(End(text), a)) + tail) == Some(Parsed(Comma(End(text), a), tail))
  {
    hide Plain, FindSpecial, RenderArgs;
    var rest := RenderArgs(a) + tail;
    PlainUpTo(text, "," + rest);
    CommaText(text, a, tail);
    assert ("," + rest)[1..] == rest;
  }

  lemma AfterRendered(text: string, call: Args, a: Args, tail: string)
    requires Plain(text)
    requires ReadArgs(RenderArgs(call) + (RenderArgs(a) + tail)) == Some(Parsed(call, RenderArgs(a) + tail))
    requires ReadArgs(RenderArgs(a) + tail) == Some(Parsed(a, tail))
    ensures ReadArgs(RenderArgs(After(text, call, a)) + tail) == Some(Parsed(After(text, call, a), tail))
  {
    hide Plain, FindSpecial, RenderArgs, After;
    var rest := RenderArgs(call) + (RenderArgs(a) + tail);
    PlainUpTo(text, "$(" + rest);
    AfterText(text, call, a, tail);
    assert ("$(" + rest)[2..] == rest;
  }

  // ---- the value of a template -------------------------------------------------------------

  /** The argument with number `k`; negative numbers count from the end. */
  function Picked(args: seq<string>, k: int): Option<string> {
    var j := if k < 0 then |args| + k else k;
    if 0 <= j < |args| then Some(args[j]) else None
  }

  /** What a call stands for, within the body of a function that was called with `args`. */
  function Value(d: Definitions, n: Counts, call: seq<string>, args: seq<string>): Option<string>
    requires CountsOk(d, n) && call != []
    decreases Remaining(n), 0
  {
    var name, k := call[0], d.number(call[0]);
    if k.Some? && Picked(args, k.value).Some? then Picked(args, k.value)
    else if name !in d.variables then Known(d, call)
    else if n[name] > (if |call| == 1 then 0 else 100) || Read(d.variables[name]).None? then None
    else
      RemainingShrinks(n, name);
      Eval(d, n[name := n[name] + 1], Read(d.variables[name]).value, call)
  }

  /** Built-in functions, which check the number of their arguments, then the environment. */
  function Known(d: Definitions, call: seq<string>): Option<string>
    requires call != []
  {
    var name, given := call[0], |call| - 1;
    if name in d.functions then
      var f := d.functions[name];
      if f.minArgs <= given && (f.maxArgs.Some? ==> given <= f.maxArgs.value) then f.call(call) else None
    else Some(if name in d.environment then d.environment[name] else "")
  }

  function Eval(d: Definitions, n: Counts, t: Template, args: seq<string>): Option<string>
    requires CountsOk(d, n)
    decreases Remaining(n), 1, t
  {
    match t
    case End(text) => Some(text)
    case Then(text, call, more) =>
      match EvalArgs(d, n, call, args)
      case None => None
      case Some(c) =>
        var v, tail := Value(d, n, c, args), Eval(d, n, more, args);
        if v.Some? && tail.Some? then Some(text + v.value + tail.value) else None
  }

  function EvalArgs(d: Definitions, n: Counts, a: Args, args: seq<string>): (r: Option<seq<string>>)
    requires CountsOk(d, n)
    ensures r.Some? ==> r.value != []
    decreases Remaining(n), 1, a
  {
    match Eval(d, n, a.first, args)
    case None => None
    case Some(v) =>
      if a.Last? then Some([v])
      else match EvalArgs(d, n, a.others, args)
        case None => None
        case Some(vs) => Some([v] + vs)
  }

  // ---- expansion gives that value --------------------------------------------------------------

  /** The value of a text: of its template, and an error if a call is not closed. */
  function TextValue(d: Definitions, n: Counts, s: string, args: seq<string>): Option<string>
    requires CountsOk(d, n)
  {
    match Read(s) case None => None case Some(t) => Eval(d, n, t, args)
  }

  /** The value of a call, of which the arguments `done` and a part `cur` of the next are known. */
  function CallValue(d: Definitions, n: Counts, s: string, args: seq<string>, done: seq<string>,
                     cur: string): Option<Call>
    requires CountsOk(d, n)
  {
    match ReadArgs(s)
    case None => None
    case Some(c) => Completed(d, n, EvalArgs(d, n, c.args, args), args, done, cur, c.rest)
  }

  function Joined(done: seq<string>, cur: string, vs: seq<string>): (r: seq<string>)
    requires vs != []
    ensures r != []
  {
    done + [cur + vs[0]] + vs[1..]
  }

  lemma JoinedNone(vs: seq<string>)
    requires vs != []
    ensures Joined([], "", vs) == vs
  {
    assert "" + vs[0] == vs[0];
  }

  lemma JoinedOne(done: seq<string>, cur: string, text: string)
    ensures Joined(done, cur, [text]) == done + [cur + text]
  {
  }

  lemma JoinedComma(done: seq<string>, cur: string, text: string, vs: seq<string>)
    requires vs != []
    ensures Joined(done + [cur + text], "", vs) == Joined(done, cur, [text] + vs)
  {
    assert "" + vs[0] == vs[0] && [vs[0]] + vs[1..] == vs;
    assert ([text] + vs)[1..] == vs;
  }

  lemma JoinedAfter(done: seq<string>, cur: string, text: string, v: string, vs: seq<string>)
    requires vs != []
    ensures Joined(done, cur, [text + v + vs[0]] + vs[1..]) == Joined(done, cur + text + v, vs)
  {
    assert cur + (text + v + vs[0]) == cur + text + v + vs[0];
    assert ([text + v + vs[0]] + vs[1..])[1..] == vs[1..];
  }

  function Completed(d: Definitions, n: Counts, vs: Option<seq<string>>, args: seq<string>, done: seq<string>,
                     cur: string, rest: string): Option<Call>
    requires CountsOk(d, n) && (vs.Some? ==> vs.value != [])
  {
    if vs.None? then None
    else
      var v := Value(d, n, Joined(done, cur, vs.value), args);
      if v.Some? then Some(Call(v.value, rest)) else None
  }

  /** Expansion is the value of the template: of all texts, for all definitions and arguments. */
  lemma {:induction false} ExpansionMeaning(d: Definitions, n: Counts, s: string, args: seq<string>)
    requires CountsOk(d, n)
    ensures Whole(d, n, s, args) == TextValue(d, n, s, args)
    decreases Remaining(n), |s|, 2
  {
    hide Whole, Macro, FnVal, Remaining, Value, ReadArgs, EvalArgs, Joined;
    WholeUnfold(d, n, s, args);
    var p := FindOpen(s, 0);
    if p < |s| {
      CallMeaning(d, n, s[p + 2..], args, [], "");
      var c := ReadArgs(s[p + 2..]);
      if c.Some? {
        ExpansionMeaning(d, n, c.value.rest, args);
        var vs := EvalArgs(d, n, c.value.args, args);
        if vs.Some? { JoinedNone(vs.value); }
      }
    }
  }

  lemma {:induction false} CallMeaning(d: Definitions, n: Counts, s: string, args: seq<string>, done: seq<string>,
                                       cur: string)
    requires CountsOk(d, n)
    ensures Macro(d, n, s, args, done, cur) == CallValue(d, n, s, args, done, cur)
    decreases Remaining(n), |s|, 1
  {
    hide Whole, Macro, FnVal, Remaining, Value, ArgOf, Joined;
    MacroUnfold(d, n, s, args, done, cur);
    var p := FindSpecial(s, 0);
    if p < |s| {
      if s[p] == ')' {
        var call := done + [cur + s[..p]];
        ValueMeaning(d, n, call, args);
        JoinedOne(done, cur, s[..p]);
        EvalPlain(d, n, s[..p], Last(End("")), args);
      } else if s[p] == ',' {
        CallMeaning(d, n, s[p + 1..], args, done + [cur + s[..p]], "");
        CommaValue(d, n, s, p, args, done, cur);
      } else {
        CallMeaning(d, n, s[p + 2..], args, [], "");
        var inner := ReadArgs(s[p + 2..]);
        if inner.Some? {
          var v := CallValue(d, n, s[p + 2..], args, [], "");
          if v.Some? { CallMeaning(d, n, inner.value.rest, args, done, cur + s[..p] + v.value.value); }
          NestedValue(d, n, s, p, args, done, cur);
        }
      }
    }
  }

  lemma EvalPlain(d: Definitions, n: Counts, text: string, a: Args, args: seq<string>)
    requires CountsOk(d, n)
    ensures EvalArgs(d, n, Last(End(text)), args) == Some([text])
    ensures EvalArgs(d, n, Comma(End(text), a), args) ==
      match EvalArgs(d, n, a, args) case None => None case Some(vs) => Some([text] + vs)
  {
    assert Eval(d, n, End(text), args) == Some(text);
  }

  lemma CommaValue(d: Definitions, n: Counts, s: string, p: nat, args: seq<string>, done: seq<string>, cur: string)
    requires CountsOk(d, n) && p == FindSpecial(s, 0) && p < |s| && s[p] == ','
    ensures CallValue(d, n, s, args, done, cur) == CallValue(d, n, s[p + 1..], args, done + [cur + s[..p]], "")
  {
    hide Value, Remaining, Joined, FindSpecial, EvalArgs, ReadArgs;
    ReadArgsUnfold(s);
    var c := ReadArgs(s[p + 1..]);
    if c.Some? {
      EvalPlain(d, n, s[..p], c.value.args, args);
      var vs := EvalArgs(d, n, c.value.args, args);
      if vs.Some? { JoinedComma(done, cur, s[..p], vs.value); }
    }
  }

  lemma NestedValue(d: Definitions, n: Counts, s: string, p: nat, args: seq<string>, done: seq<string>, cur: string)
    requires CountsOk(d, n) && p == FindSpecial(s, 0) && p < |s| && s[p] != ')' && s[p] != ','
    requires ReadArgs(s[p + 2..]).Some?
    ensures var v := CallValue(d, n, s[p + 2..], args, [], ""); var inner := ReadArgs(s[p + 2..]).value;
      && (v.Some? ==> v.value.rest == inner.rest)
      && CallValue(d, n, s, args, done, cur) ==
         if v.None? then None else CallValue(d, n, inner.rest, args, done, cur + s[..p] + v.value.value)
  {
    hide Value, Remaining, Joined, FindSpecial, EvalArgs, After, ReadArgs;
    ReadArgsUnfold(s);
    var inner := ReadArgs(s[p + 2..]).value;
    var c := ReadArgs(inner.rest);
    var vs := EvalArgs(d, n, inner.args, args);
    if vs.Some? { JoinedNone(vs.value); }
    if c.Some? {
      AfterEval(d, n, s[..p], inner.args, c.value.args, args);
      var ws := EvalArgs(d, n, c.value.args, args);
      if vs.Some? && ws.Some? && Value(d, n, vs.value, args).Some? {
        var v := Value(d, n, vs.value, args).value;
        JoinedAfter(done, cur, s[..p], v, ws.value);
      }
    }
  }

  /** The value of a first argument with a piece of text and a call in front. */
  lemma AfterEval(d: Definitions, n: Counts, text: string, call: Args, a: Args, args: seq<string>)
    requires CountsOk(d, n)
    ensures var r, c := EvalArgs(d, n, After(text, call, a), args), EvalArgs(d, n, call, args);
      var vs := EvalArgs(d, n, a, args);
      if c.Some? && vs.Some? && Value(d, n, c.value, args).Some? then
        r == Some([text + Value(d, n, c.value, args).value + vs.value[0]] + vs.value[1..])
      else r.None?
  {
    hide Value, Remaining;
    var v, w := Eval(d, n, a.first, args), Eval(d, n, Then(text, call, a.first), args);
    assert After(text, call, a).first == Then(text, call, a.first);
    if v.Some? {
      if a.Comma? {
        var ws := EvalArgs(d, n, a.others, args);
        if ws.Some? {
          assert ([v.value] + ws.value)[0] == v.value && ([v.value] + ws.value)[1..] == ws.value;
        }
      } else {
        assert w.Some? ==> [w.value] + [v.value][1..] == [w.value];
      }
    }
  }

  lemma {:induction false} ValueMeaning(d: Definitions, n: Counts, call: seq<string>, args: seq<string>)
    requires CountsOk(d, n) && call != []
    ensures var arg := ArgOf(d, args, call[0]);
      Value(d, n, call, args) == if arg.Some? then arg else FnVal(d, n, call)
    decreases Remaining(n), 0, 0
  {
    hide Whole, Macro, Eval, Read, Remaining;
    var name := call[0];
    if name in d.variables && n[name] <= (if |call| == 1 then 0 else 100) {
      RemainingShrinks(n, name);
      ExpansionMeaning(d, n[name := n[name] + 1], d.variables[name], call);
    }
  }

  // ---- substitution ----------------------------------------------------------------------------

  /** The pieces with a call of each name between them. */
  function Holes(pieces: seq<string>, names: seq<string>): string
    requires |pieces| == |names| + 1
  {
    if names == [] then pieces[0] else pieces[0] + ("$(" + (names[0] + ")" + Holes(pieces[1..], names[1..])))
  }

  /** The pieces with the values between them. */
  function Put(pieces: seq<string>, values: seq<string>): string
    requires |pieces| == |values| + 1
  {
    if values == [] then pieces[0] else pieces[0] + values[0] + Put(pieces[1..], values[1..])
  }

  /** `name` is the number of an argument, from 0 or, if it is negative, from the end, and `v` that argument. */
  predicate IsArg(d: Definitions, args: seq<string>, name: string, v: string) {
    match d.number(name)
    case None => false
    case Some(k) => (0 <= k < |args| && v == args[k]) || (0 <= |args| + k < |args| && v == args[|args| + k])
  }

  predicate NoArg(d: Definitions, args: seq<string>, name: string) {
    match d.number(name) case None => true case Some(k) => k >= |args| || k < -|args|
  }

  /** A function body: pieces without calls, and the numbers of arguments between them. */
  predicate Body(d: Definitions, pieces: seq<string>, names: seq<string>, values: seq<string>, args: seq<string>) {
    && |pieces| == |names| + 1 == |values| + 1
    && (forall i :: 0 <= i < |pieces| ==> NoCall(pieces[i]))
    && forall i :: 0 <= i < |names| ==> Plain(names[i]) && IsArg(d, args, names[i], values[i])
  }

  function HolesTemplate(pieces: seq<string>, names: seq<string>): Template
    requires |pieces| == |names| + 1
  {
    if names == [] then End(pieces[0])
    else Then(pieces[0], Last(End(names[0])), HolesTemplate(pieces[1..], names[1..]))
  }

  lemma {:induction false} HolesAreTemplate(d: Definitions, pieces: seq<string>, names: seq<string>,
                                            values: seq<string>, args: seq<string>)
    requires Body(d, pieces, names, values, args)
    ensures var t := HolesTemplate(pieces, names); Render(t) == Holes(pieces, names) && Outer(t)
    decreases |names|
  {
    hide NoCall, Plain, IsArg;
    if names != [] {
      HolesAreTemplate(d, pieces[1..], names[1..], values[1..], args);
      LastText(names[0], Holes(pieces[1..], names[1..]));
    }
  }

  lemma {:induction false} PutIsValue(d: Definitions, n: Counts, pieces: seq<string>, names: seq<string>,
                                      values: seq<string>, args: seq<string>)
    requires CountsOk(d, n) && Body(d, pieces, names, values, args)
    ensures Eval(d, n, HolesTemplate(pieces, names), args) == Some(Put(pieces, values))
    decreases |names|
  {
    hide NoCall, Plain, Remaining;
    if names != [] {
      PutIsValue(d, n, pieces[1..], names[1..], values[1..], args);
      EvalPlain(d, n, names[0], Last(End("")), args);
      assert IsArg(d, args, names[0], values[0]);
      assert Value(d, n, [names[0]], args) == Some(values[0]);
    }
  }

  /** $(k) stands for the k-th argument, and the text around it stays as it is. */
  lemma Substitution(d: Definitions, n: Counts, pieces: seq<string>, names: seq<string>, values: seq<string>,
                     args: seq<string>)
    requires CountsOk(d, n) && Body(d, pieces, names, values, args)
    ensures Whole(d, n, Holes(pieces, names), args) == Some(Put(pieces, values))
  {
    hide Body, Whole, Eval, Read, Holes, Put, HolesTemplate, Remaining;
    BodyLengths(d, pieces, names, values, args);
    HolesAreTemplate(d, pieces, names, values, args);
    ReadRendered(HolesTemplate(pieces, names));
    PutIsValue(d, n, pieces, names, values, args);
    ExpansionMeaning(d, n, Holes(pieces, names), args);
  }

  lemma BodyLengths(d: Definitions, pieces: seq<string>, names: seq<string>, values: seq<string>, args: seq<string>)
    requires Body(d, pieces, names, values, args)
    ensures |pieces| == |names| + 1 == |values| + 1
  {
  }

  /** The text of a call after its opening parenthesis. */
  function Commas(call: seq<string>): string
    requires call != []
  {
    if |call| == 1 then call[0] + ")" else call[0] + ("," + Commas(call[1..]))
  }

  function PlainArgs(call: seq<string>): Args
    requires call != []
  {
    if |call| == 1 then Last(End(call[0])) else Comma(End(call[0]), PlainArgs(call[1..]))
  }

  lemma {:induction false} PlainCall(d: Definitions, n: Counts, call: seq<string>, args: seq<string>)
    requires CountsOk(d, n) && call != [] && forall i :: 0 <= i < |call| ==> Plain(call[i])
    ensures RenderArgs(PlainArgs(call)) == Commas(call) && InnerArgs(PlainArgs(call))
    ensures EvalArgs(d, n, PlainArgs(call), args) == Some(call)
    decreases |call|
  {
    hide Plain, Remaining, EvalArgs, RenderArgs;
    if |call| == 1 {
      EvalPlain(d, n, call[0], Last(End("")), args);
      LastText(call[0], "");
      assert call == [call[0]] && RenderArgs(PlainArgs(call)) + "" == RenderArgs(PlainArgs(call));
    } else {
      PlainCall(d, n, call[1..], args);
      EvalPlain(d, n, call[0], PlainArgs(call[1..]), args);
      CommaText(call[0], PlainArgs(call[1..]), "");
      assert call == [call[0]] + call[1..] && RenderArgs(PlainArgs(call)) + "" == RenderArgs(PlainArgs(call));
      assert RenderArgs(PlainArgs(call[1..])) + "" == RenderArgs(PlainArgs(call[1..]));
    }
  }

  /** A call with plain arguments in a text. */
  function CallIn(before: string, call: seq<string>, after: string): string
    requires call != []
  {
    before + ("$(" + (Commas(call) + after))
  }

  predicate PlainIn(before: string, call: seq<string>, after: string) {
    call != [] && (forall i :: 0 <= i < |call| ==> Plain(call[i])) && NoCall(before) && NoCall(after)
  }

  lemma CallInValue(d: Definitions, n: Counts, before: string, call: seq<string>, after: string, args: seq<string>)
    requires CountsOk(d, n) && PlainIn(before, call, after)
    ensures Whole(d, n, CallIn(before, call, after), args) ==
      match Value(d, n, call, args) case None => None case Some(v) => Some(before + v + after)
  {
    hide Whole, Read, Value, Remaining, EvalArgs, RenderArgs, InnerArgs, Plain, NoCall, Commas, PlainArgs;
    var t := Then(before, PlainArgs(call), End(after));
    PlainCall(d, n, call, args);
    assert Render(t) == CallIn(before, call, after) && Outer(t);
    ReadRendered(t);
    ExpansionMeaning(d, n, CallIn(before, call, after), args);
    assert Eval(d, n, End(after), args) == Some(after);
  }

  /** A call of a variable is replaced by the text of the variable with the arguments of the call put in;
      argument 0 is the name. A variable that is being expanded already is an error without arguments, and
      with arguments from the 101st time on. */
  lemma CallSubstitutes(d: Definitions, n: Counts, before: string, call: seq<string>, after: string,
                        pieces: seq<string>, names: seq<string>, values: seq<string>, args: seq<string>)
    requires CountsOk(d, n) && PlainIn(before, call, after) && NoArg(d, args, call[0])
    requires Body(d, pieces, names, values, call)
    requires call[0] in d.variables && d.variables[call[0]] == Holes(pieces, names)
    ensures Whole(d, n, CallIn(before, call, after), args) ==
      if n[call[0]] > (if |call| == 1 then 0 else 100) then None else Some(before + Put(pieces, values) + after)
  {
    hide Whole, Read, Eval, Remaining, Plain, NoCall, Body, Holes, Put, HolesTemplate, CallIn;
    CallInValue(d, n, before, call, after, args);
    BodyLengths(d, pieces, names, values, call);
    HolesAreTemplate(d, pieces, names, values, call);
    ReadRendered(HolesTemplate(pieces, names));
    if n[call[0]] <= (if |call| == 1 then 0 else 100) {
      PutIsValue(d, n[call[0] := n[call[0]] + 1], pieces, names, values, call);
    }
  }

  /** A name that is no variable: a built-in function if the number of arguments fits, else the
      environment, else nothing. */
  lemma CallOfOther(d: Definitions, n: Counts, before: string, call: seq<string>, after: string, args: seq<string>)
    requires CountsOk(d, n) && PlainIn(before, call, after) && NoArg(d, args, call[0]) && call[0] !in d.variables
    ensures var r := Whole(d, n, CallIn(before, call, after), args);
      if call[0] in d.functions then
        var f := d.functions[call[0]];
        var fits := f.minArgs + 1 <= |call| && (f.maxArgs.Some? ==> |call| <= f.maxArgs.value + 1);
        if !fits || f.call(call).None? then r.None? else r == Some(before + f.call(call).value + after)
      else if call[0] in d.environment then r == Some(before + d.environment[call[0]] + after)
      else r == Some(before + after)
  {
    hide Whole, Read, Eval, Remaining, Plain, NoCall, CallIn;
    CallInValue(d, n, before, call, after, args);
    assert before + "" + after == before + after;
  }
}

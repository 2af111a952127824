/**
 Macro expansion in the Kconfig preprocessor: $(name), $(name,arg,...) and $(1), expanded in
 place in a string, with counters that cut off runaway recursion.
 */
module KconfigMacro {
  import opened Wrappers

  /** A built-in function: total, but it may raise (None). */
  datatype Builtin = Builtin(call: seq<string> -> Option<string>, minArgs: nat, maxArgs: Option<nat>)

  /** Variables, built-in functions, environment, and Python's int() on strings (None where it
      raises ValueError). */
  datatype Definitions = Definitions(variables: map<string, string>, functions: map<string, Builtin>,
                                     environment: map<string, string>, number: string -> Option<int>)

  /** How often each variable is being expanded. */
  type Counts = map<string, nat>

  predicate CountsOk(d: Definitions, n: Counts) {
    n.Keys == d.variables.Keys && forall v :: v in n ==> n[v] <= 101
  }

  /** The expansions that the counters still allow. */
  function Remaining(n: Counts): set<(string, nat)> {
    set v, k | v in n.Keys && n[v] <= k <= 100 :: (v, k)
  }

  lemma RemainingShrinks(n: Counts, v: string)
    requires v in n && n[v] <= 100
    ensures Remaining(n[v := n[v] + 1]) < Remaining(n)
  {
    var n' := n[v := n[v] + 1];
    assert (v, n[v]) in Remaining(n) && (v, n[v]) !in Remaining(n');
    forall x | x in Remaining(n') ensures x in Remaining(n) {
      assert n'[x.0] <= x.1 <= 100;
    }
  }

  // ---- searching ---------------------------------------------------------------------

  predicate OpensAt(s: string, p: nat) { p + 1 < |s| && s[p] == '$' && s[p + 1] == '(' }

  /** A character that matters inside a macro call. */
  predicate SpecialAt(s: string, p: nat) { p < |s| && (s[p] == ')' || s[p] == ',' || OpensAt(s, p)) }

  /** Leftmost position from `i` on where a macro call opens; |s| if there is none. */
  function FindOpen(s: string, i: nat): (p: nat)
    requires i <= |s|
    ensures i <= p <= |s| && (p < |s| ==> OpensAt(s, p)) && forall q :: i <= q < p ==> !OpensAt(s, q)
    decreases |s| - i
  {
    if i == |s| || OpensAt(s, i) then i else FindOpen(s, i + 1)
  }

  function FindSpecial(s: string, i: nat): (p: nat)
    requires i <= |s|
    ensures i <= p <= |s| && (p < |s| ==> SpecialAt(s, p)) && forall q :: i <= q < p ==> !SpecialAt(s, q)
    decreases |s| - i
  {
    if i == |s| || SpecialAt(s, i) then i else FindSpecial(s, i + 1)
  }

  lemma FindFrom(s: string, i: nat)
    requires i <= |s|
    ensures FindOpen(s, i) == i + FindOpen(s[i..], 0) && FindSpecial(s, i) == i + FindSpecial(s[i..], 0)
  {
    var t := s[i..];
    assert forall q: nat :: q < |t| ==>
      (OpensAt(t, q) <==> OpensAt(s, i + q)) && (SpecialAt(t, q) <==> SpecialAt(s, i + q));
    var p, q := FindOpen(s, i), i + FindOpen(t, 0);
    assert p < |s| ==> OpensAt(t, p - i);
    var p', q' := FindSpecial(s, i), i + FindSpecial(t, 0);
    assert p' < |s| ==> SpecialAt(t, p' - i);
  }

  // ---- expansion by recursive descent --------------------------------------------------

  /** The value of a macro call and the text after it. */
  datatype Call = Call(value: string, rest: string)

  /** The argument that $(k) stands for, with negative k counting from the end. */
  function ArgOf(d: Definitions, args: seq<string>, name: string): Option<string> {
    var k := d.number(name);
    if k.Some? && 0 <= k.value < |args| then Some(args[k.value])
    else if k.Some? && -|args| <= k.value < 0 then Some(args[|args| + k.value])
    else None
  }

  function Whole(d: Definitions, n: Counts, t: string, args: seq<string>): Option<string>
    requires CountsOk(d, n)
    decreases Remaining(n), |t|, 2
  {
    var p := FindOpen(t, 0);
    if p == |t| then Some(t)
    else match Macro(d, n, t[p + 2..], args, [], "")
      case None => None
      case Some(c) =>
        match Whole(d, n, c.rest, args)
        case None => None
        case Some(tail) => Some(t[..p] + c.value + tail)
  }

  /** `t` is the text of a macro call after the arguments in `done` and the part `cur` of the
      current argument. */
  function Macro(d: Definitions, n: Counts, t: string, args: seq<string>, done: seq<string>,
                 cur: string): (r: Option<Call>)
    requires CountsOk(d, n)
    ensures r.Some? ==> |r.value.rest| < |t|
    decreases Remaining(n), |t|, 1
  {
    var p := FindSpecial(t, 0);
    if p == |t| then None
    else if t[p] == ')' then
      var call := done + [cur + t[..p]];
      var arg := ArgOf(d, args, call[0]);
      if arg.Some? then Some(Call(arg.value, t[p + 1..]))
      else match FnVal(d, n, call) case None => None case Some(v) => Some(Call(v, t[p + 1..]))
    else if t[p] == ',' then Macro(d, n, t[p + 1..], args, done + [cur + t[..p]], "")
    else match Macro(d, n, t[p + 2..], args, [], "")
      case None => None
      case Some(c) => Macro(d, n, c.rest, args, done, cur + t[..p] + c.value)
  }

  function FnVal(d: Definitions, n: Counts, args: seq<string>): Option<string>
    requires CountsOk(d, n) && args != []
    decreases Remaining(n), 0, 0
  {
    var fn := args[0];
    if fn in d.variables then
      if (if |args| == 1 then n[fn] != 0 else n[fn] > 100) then None
      else
        RemainingShrinks(n, fn);
        Whole(d, n[fn := n[fn] + 1], d.variables[fn], args)
    else if fn in d.functions then
      var b := d.functions[fn];
      if |args| - 1 < b.minArgs || (b.maxArgs.Some? && |args| - 1 > b.maxArgs.value) then None else b.call(args)
    else if fn in d.environment then Some(d.environment[fn])
    else Some("")
  }

  // ---- the descent, step by step, at a position in a longer text ------------------------

  function Prepend(head: string, tail: Option<string>): Option<string> {
    if tail.Some? then Some(head + tail.value) else None
  }

  lemma WholeStep(d: Definitions, n: Counts, t: string, i: nat, args: seq<string>)
    requires CountsOk(d, n) && i <= |t|
    ensures var p := FindOpen(t, i);
      Whole(d, n, t[i..], args) ==
      if p == |t| then Some(t[i..])
      else match Macro(d, n, t[p + 2..], args, [], "")
        case None => None
        case Some(c) => Prepend(t[i..p] + c.value, Whole(d, n, c.rest, args))
  {
    hide Whole, Macro, FnVal, Remaining;
    FindFrom(t, i);
    Slices(t, i, FindOpen(t, i));
    WholeUnfold(d, n, t[i..], args);
  }

  lemma WholeUnfold(d: Definitions, n: Counts, u: string, args: seq<string>)
    requires CountsOk(d, n)
    ensures var p := FindOpen(u, 0);
      Whole(d, n, u, args) ==
      if p == |u| then Some(u)
      else match Macro(d, n, u[p + 2..], args, [], "")
        case None => None
        case Some(c) => Prepend(u[..p] + c.value, Whole(d, n, c.rest, args))
  {
  }

  lemma MacroUnfold(d: Definitions, n: Counts, u: string, args: seq<string>, done: seq<string>, cur: string)
    requires CountsOk(d, n)
    ensures var p := FindSpecial(u, 0); var r := Macro(d, n, u, args, done, cur);
      if p == |u| then r.None?
      else if u[p] == ')' then
        var call := done + [cur + u[..p]];
        var v := if ArgOf(d, args, call[0]).Some? then ArgOf(d, args, call[0]) else FnVal(d, n, call);
        r == if v.Some? then Some(Call(v.value, u[p + 1..])) else None
      else if u[p] == ',' then r == Macro(d, n, u[p + 1..], args, done + [cur + u[..p]], "")
      else match Macro(d, n, u[p + 2..], args, [], "")
        case None => r.None?
        case Some(c) => r == Macro(d, n, c.rest, args, done, cur + u[..p] + c.value)
  {
  }

  lemma Slices(t: string, i: nat, p: nat)
    requires i <= p <= |t|
    ensures t[i..][..p - i] == t[i..p] && |t[i..]| == |t| - i
    ensures p + 1 <= |t| ==> t[i..][p - i + 1..] == t[p + 1..] && t[i..][p - i] == t[p]
    ensures p + 2 <= |t| ==> t[i..][p - i + 2..] == t[p + 2..]
  {
  }

  lemma MacroStep(d: Definitions, n: Counts, t: string, argStart: nat, i: nat, args: seq<string>, done: seq<string>)
    requires CountsOk(d, n) && argStart <= i <= |t|
    ensures var p := FindSpecial(t, i); var r := Macro(d, n, t[i..], args, done, t[argStart..i]);
      if p == |t| then r.None?
      else if t[p] == ')' then
        var call := done + [t[argStart..p]];
        var v := if ArgOf(d, args, call[0]).Some? then ArgOf(d, args, call[0]) else FnVal(d, n, call);
        r == if v.Some? then Some(Call(v.value, t[p + 1..])) else None
      else if t[p] == ',' then r == Macro(d, n, t[p + 1..], args, done + [t[argStart..p]], "")
      else match Macro(d, n, t[p + 2..], args, [], "")
        case None => r.None?
        case Some(c) => r == Macro(d, n, c.rest, args, done, t[argStart..p] + c.value)
  {
    hide Whole, Macro, FnVal, Remaining, ArgOf;
    FindFrom(t, i);
    Slices(t, i, FindSpecial(t, i));
    assert t[argStart..i] + t[i..FindSpecial(t, i)] == t[argStart..FindSpecial(t, i)];
    MacroUnfold(d, n, t[i..], args, done, t[argStart..i]);
  }

  // ---- the counters only cut expansion off -------------------------------------------------

  predicate Fewer(n1: Counts, n2: Counts) { n1.Keys == n2.Keys && forall v :: v in n1 ==> n1[v] <= n2[v] }

  /** What expands under higher counts expands to the same text under lower counts: the limit on
      recursion raises or does nothing. */
  lemma {:induction false} LimitOnlyCutsOff(d: Definitions, n1: Counts, n2: Counts, t: string, args: seq<string>)
    requires CountsOk(d, n1) && CountsOk(d, n2) && Fewer(n1, n2) && Whole(d, n2, t, args).Some?
    ensures Whole(d, n1, t, args) == Whole(d, n2, t, args)
    decreases Remaining(n2), |t|, 2
  {
    hide Whole, Macro, FnVal, Remaining;
    WholeUnfold(d, n1, t, args);
    WholeUnfold(d, n2, t, args);
    var p := FindOpen(t, 0);
    if p < |t| {
      MacroCutOff(d, n1, n2, t[p + 2..], args, [], "");
      LimitOnlyCutsOff(d, n1, n2, Macro(d, n2, t[p + 2..], args, [], "").value.rest, args);
    }
  }

  lemma {:induction false} MacroCutOff(d: Definitions, n1: Counts, n2: Counts, t: string, args: seq<string>,
                                       done: seq<string>, cur: string)
    requires CountsOk(d, n1) && CountsOk(d, n2) && Fewer(n1, n2) && Macro(d, n2, t, args, done, cur).Some?
    ensures Macro(d, n1, t, args, done, cur) == Macro(d, n2, t, args, done, cur)
    decreases Remaining(n2), |t|, 1
  {
    hide Whole, Macro, FnVal, Remaining, ArgOf;
    MacroUnfold(d, n1, t, args, done, cur);
    MacroUnfold(d, n2, t, args, done, cur);
    var p := FindSpecial(t, 0);
    if t[p] == ')' {
      var call := done + [cur + t[..p]];
      if ArgOf(d, args, call[0]).None? { FunctionCutOff(d, n1, n2, call); }
    } else if t[p] == ',' {
      MacroCutOff(d, n1, n2, t[p + 1..], args, done + [cur + t[..p]], "");
    } else {
      MacroCutOff(d, n1, n2, t[p + 2..], args, [], "");
      var c := Macro(d, n2, t[p + 2..], args, [], "").value;
      MacroCutOff(d, n1, n2, c.rest, args, done, cur + t[..p] + c.value);
    }
  }

  lemma {:induction false} FunctionCutOff(d: Definitions, n1: Counts, n2: Counts, args: seq<string>)
    requires CountsOk(d, n1) && CountsOk(d, n2) && Fewer(n1, n2) && args != [] && FnVal(d, n2, args).Some?
    ensures FnVal(d, n1, args) == FnVal(d, n2, args)
    decreases Remaining(n2), 0, 0
  {
    var fn := args[0];
    if fn in d.variables {
      RemainingShrinks(n2, fn);
      LimitOnlyCutsOff(d, n1[fn := n1[fn] + 1], n2[fn := n2[fn] + 1], d.variables[fn], args);
    }
  }

  // ---- expansion in place ---------------------------------------------------------------

  /** A string and the position in it where scanning goes on. */
  datatype Position = Position(text: string, next: nat)

  class Preprocessor {
    const d: Definitions
    var n: Counts

    ghost predicate Valid()
      reads this
    {
      CountsOk(d, n)
    }

    constructor (d: Definitions)
      ensures Valid() && this.d == d && n == map v | v in d.variables :: 0
    {
      this.d := d;
      n := map v | v in d.variables :: 0;
    }

    /** Rewrites `s` call by call. Terminates for every set of variables; on normal return the
        counters are back at their old values. */
    method ExpandWhole(s: string, args: seq<string>) returns (r: Option<string>)
      requires Valid()
      modifies this
      ensures r == Whole(d, old(n), s, args) && (r.Some? ==> Valid() && n == old(n))
      decreases Remaining(n), |s|, 3
    {
      hide Whole, Macro, FnVal, Remaining;
      var t, i := s, 0;
      assert t[0..] == s && t[..0] == "";
      assert Whole(d, n, s, args).Some? ==> "" + Whole(d, n, s, args).value == Whole(d, n, s, args).value;
      while true
        invariant i <= |t| && |t| - i <= |s| && Valid() && n == old(n)
        invariant Whole(d, n, s, args) == Prepend(t[..i], Whole(d, n, t[i..], args))
        decreases |t| - i
      {
        WholeStep(d, n, t, i, args);
        var p := FindOpen(t, i);
        if p == |t| {
          assert t[..i] + t[i..] == t;
          return Some(t);
        }
        ghost var t0, i0 := t, i;
        var m := ExpandMacro(t, p, args);
        if m.None? { return None; }
        t, i := m.value.text, m.value.next;
        ghost var c := Macro(d, n, t0[p + 2..], args, [], "").value;
        assert t[i..] == c.rest && t[..i] == t0[..i0] + (t0[i0..p] + c.value);
        PrependTwice(t0[..i0], t0[i0..p] + c.value, Whole(d, n, c.rest, args));
      }
    }

    lemma PrependTwice(a: string, b: string, tail: Option<string>)
      ensures Prepend(a, Prepend(b, tail)) == Prepend(a + b, tail)
    {
      if tail.Some? { assert a + (b + tail.value) == a + b + tail.value; }
    }

    /** Expands the call at `start`: the text before it stays, the call is replaced by its value, and
        scanning goes on after the value, which is not looked at again. */
    method ExpandMacro(s: string, start: nat, args: seq<string>) returns (r: Option<Position>)
      requires Valid() && OpensAt(s, start)
      modifies this
      ensures match Macro(d, old(n), s[start + 2..], args, [], "")
        case None => r.None?
        case Some(c) => r == Some(Position(s[..start] + c.value + c.rest, start + |c.value|)) && Valid() && n == old(n)
      decreases Remaining(n), |s| - start, 2
    {
      hide Whole, Macro, FnVal, Remaining;
      var t, i, argStart := s, start + 2, start + 2;
      var newArgs: seq<string> := [];
      assert t[argStart..i] == "";
      while true
        invariant start + 2 <= argStart <= i <= |t| && |t| - i <= |s| - start - 2 && Valid() && n == old(n)
        invariant t[..start] == s[..start]
        invariant Macro(d, n, t[i..], args, newArgs, t[argStart..i]) == Macro(d, n, s[start + 2..], args, [], "")
        decreases |t| - i
      {
        MacroStep(d, n, t, argStart, i, args, newArgs);
        var p := FindSpecial(t, i);
        if p == |t| { return None; }
        if t[p] == ')' {
          newArgs := newArgs + [t[argStart..p]];
          var arg := ArgOf(d, args, newArgs[0]);
          if arg.None? { arg := CallFunction(newArgs); }
          if arg.None? { return None; }
          return Some(Position(t[..start] + arg.value + t[p + 1..], start + |arg.value|));
        } else if t[p] == ',' {
          newArgs := newArgs + [t[argStart..p]];
          argStart, i := p + 1, p + 1;
          assert t[argStart..i] == "";
        } else {
          ghost var t0, c := t, Macro(d, n, t[p + 2..], args, [], "");
          var m := ExpandMacro(t, p, args);
          if m.None? { return None; }
          t, i := m.value.text, m.value.next;
          assert t[..start] == t0[..start] && t[i..] == c.value.rest;
          assert t[argStart..i] == t0[argStart..p] + c.value.value;
        }
      }
    }

    method CallFunction(args: seq<string>) returns (r: Option<string>)
      requires Valid() && args != []
      modifies this
      ensures r == FnVal(d, old(n), args) && (r.Some? ==> Valid() && n == old(n))
      decreases Remaining(n), 0, 1
    {
      var fn := args[0];
      if fn in d.variables {
        if |args| == 1 {
          if n[fn] != 0 { return None; }
        } else if n[fn] > 100 { return None; }
        RemainingShrinks(n, fn);
        n := n[fn := n[fn] + 1];
        r := ExpandWhole(d.variables[fn], args);
        if r.Some? { n := n[fn := n[fn] - 1]; }
        return;
      }
      if fn in d.functions {
        var b := d.functions[fn];
        if |args| - 1 < b.minArgs || (b.maxArgs.Some? && |args| - 1 > b.maxArgs.value) { return None; }
        return b.call(args);
      }
      r := if fn in d.environment then Some(d.environment[fn]) else Some("");
    }
  }
}

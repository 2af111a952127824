/**
 The Kconfig symbol graph as kconfiglib sees it after parsing, and the equations
 that give every symbol and choice its visibility, value, assignable set and
 selection.

 Each equation is written as a tracked evaluation: it returns the value together
 with the set of attributes it read. Because && and || short-circuit, and because
 lists of defaults stop at the first active entry, the set read depends on the
 values; it is usually smaller than the set of items the property mentions.
 */
module KconfigModel {
  import opened Wrappers

  /** Index of a symbol or choice in the graph. */
  type Id = nat

  /** n, m and y, in that order. */
  type Tri = t: int | 0 <= t <= 2

  datatype Type = Unknown | Bool | Tristate | String | Int | Hex

  datatype Relation = Equal | Unequal | Less | LessEqual | Greater | GreaterEqual

  datatype Expr =
    | Ref(id: Id)
    | And(left: Expr, right: Expr)
    | Or(left: Expr, right: Expr)
    | Not(operand: Expr)
    | Compare(rel: Relation, a: Id, b: Id)

  datatype Default = Default(value: Expr, cond: Expr)
  datatype Range = Range(low: Id, high: Id, cond: Expr)
  datatype Selectable = Selectable(sym: Id, cond: Expr)

  /** `Lit` is one of the constant symbols n, m and y. Other constant symbols and
      undefined symbols are `Symbol`s of unknown type without properties. `auto` marks
      symbols with an environment variable and the defconfig_list symbol. */
  datatype Item =
    | Lit(value: Tri)
    | Symbol(name: string, ty: Type, prompts: seq<Expr>, defaults: seq<Default>, ranges: seq<Range>,
             revDep: Expr, weakRevDep: Expr, directDep: Expr, choice: Option<Id>, auto: bool)
    | Choice(ty: Type, prompts: seq<Expr>, picks: seq<Selectable>, syms: seq<Id>, optional: bool)

  const UNDEFINED := Symbol("", Unknown, [], [], [], Ref(0), Ref(0), Ref(0), None, false)

  /** `num(s, base)` stands for Python's int(s, base), None where it raises ValueError, and
      `fmt` for str() and hex(). */
  datatype Graph = Graph(items: seq<Item>, modules: Id,
                         num: (string, nat) -> Option<int>, fmt: (int, Type) -> string)
  {
    function At(i: Id): Item { if i < |items| then items[i] else UNDEFINED }
  }

  datatype UserValue = TriUser(t: Tri) | StrUser(s: string)

  /** What the user has assigned: symbol values and choice modes, and choice selections. */
  datatype Users = Users(values: map<Id, UserValue>, selections: map<Id, Id>)
  {
    function Tri(i: Id): Option<Tri> {
      if i in values && values[i].TriUser? then Some(values[i].t) else None
    }
    function Str(i: Id): Option<string> {
      if i in values && values[i].StrUser? then Some(values[i].s) else None
    }
    function Selection(i: Id): Option<Id> {
      if i in selections then Some(selections[i]) else None
    }
  }

  /** The attributes of an item that have a value of their own. */
  datatype Node = Vis(i: Id) | Val(i: Id) | Str(i: Id) | Sel(i: Id) | Asg(i: Id)

  /** Values carry the flag that decides whether the symbol gets a .config entry. */
  datatype V = TriV(t: Tri, write: bool) | StrV(s: string, write: bool) | SelV(sel: Option<Id>) | AsgV(asg: seq<Tri>)

  type Env = imap<Node, V>

  function Look(env: Env, n: Node): Option<V> { if n in env then Some(env[n]) else None }

  function TriOf(env: Env, n: Node): Tri {
    var v := Look(env, n); if v.Some? && v.value.TriV? then v.value.t else 0
  }
  function StrOf(env: Env, n: Node): string {
    var v := Look(env, n); if v.Some? && v.value.StrV? then v.value.s else ""
  }
  function SelOf(env: Env, n: Node): Option<Id> {
    var v := Look(env, n); if v.Some? && v.value.SelV? then v.value.sel else None
  }
  function WriteOf(env: Env, n: Node): bool {
    var v := Look(env, n); v.Some? && ((v.value.TriV? && v.value.write) || (v.value.StrV? && v.value.write))
  }

  /** A value and the attributes read to get it. */
  datatype Tracked<+T> = Tracked(v: T, used: set<Node>)

  function Min(a: Tri, b: Tri): Tri { if a < b then a else b }
  function Max(a: Tri, b: Tri): Tri { if a < b then b else a }
  function Truth(b: bool): Tri { if b then 2 else 0 }
  function TriStr(t: Tri): string { if t == 0 then "n" else if t == 1 then "m" else "y" }
  predicate IsLogic(ty: Type) { ty == Bool || ty == Tristate }
  predicate IsNumber(ty: Type) { ty == Int || ty == Hex }
  function Base(ty: Type): nat { match ty case Hex => 16 case Int => 10 case _ => 0 }

  function TypeOf(it: Item): Type {
    match it
    case Lit(_) => Tristate
    case Symbol(_, ty, _, _, _, _, _, _, _, _) => ty
    case Choice(ty, _, _, _, _) => ty
  }
  function Prompts(it: Item): seq<Expr> {
    match it
    case Lit(_) => []
    case Symbol(_, _, ps, _, _, _, _, _, _, _) => ps
    case Choice(_, ps, _, _, _) => ps
  }

  // ---- expression evaluation -------------------------------------------------

  /** -1, 0 or 1, comparing code points left to right. */
  function StrCmp(s: string, t: string): int {
    if s == [] && t == [] then 0
    else if s == [] then -1
    else if t == [] then 1
    else if s[0] < t[0] then -1
    else if t[0] < s[0] then 1
    else StrCmp(s[1..], t[1..])
  }

  /** A symbol as a number; None where the conversion raises ValueError. */
  function NumR(g: Graph, env: Env, i: Id): Tracked<Option<int>> {
    var ty := TypeOf(g.At(i));
    if IsLogic(ty) then Tracked(Some(TriOf(env, Val(i)) as int), {Val(i)})
    else Tracked(g.num(StrOf(env, Str(i)), Base(ty)), {Str(i)})
  }

  function CompareR(g: Graph, env: Env, a: Id, b: Id): Tracked<int> {
    var strs := Tracked(StrCmp(StrOf(env, Str(a)), StrOf(env, Str(b))), {Str(a), Str(b)});
    if TypeOf(g.At(a)) == String && TypeOf(g.At(b)) == String then strs
    else
      var x := NumR(g, env, a);
      if x.v.None? then Tracked(strs.v, x.used + strs.used)
      else
        var y := NumR(g, env, b);
        if y.v.None? then Tracked(strs.v, x.used + y.used + strs.used)
        else Tracked(x.v.value - y.v.value, x.used + y.used)
  }

  function Holds(rel: Relation, c: int): bool {
    match rel
    case Equal => c == 0
    case Unequal => c != 0
    case Less => c < 0
    case LessEqual => c <= 0
    case Greater => c > 0
    case GreaterEqual => c >= 0
  }

  function ExprR(g: Graph, env: Env, e: Expr): Tracked<Tri> {
    match e
    case Ref(i) => Tracked(TriOf(env, Val(i)), {Val(i)})
    case And(l, r) =>
      var x := ExprR(g, env, l);
      if x.v == 0 then x
      else var y := ExprR(g, env, r); Tracked(Min(x.v, y.v), x.used + y.used)
    case Or(l, r) =>
      var x := ExprR(g, env, l);
      if x.v == 2 then x
      else var y := ExprR(g, env, r); Tracked(Max(x.v, y.v), x.used + y.used)
    case Not(f) =>
      var x := ExprR(g, env, f); Tracked(2 - x.v, x.used)
    case Compare(rel, a, b) =>
      var c := CompareR(g, env, a, b); Tracked(Truth(Holds(rel, c.v)), c.used)
  }

  // ---- types, visibility, modes ----------------------------------------------

  /** The type after taking the choice mode and MODULES into account. */
  function TypeR(g: Graph, env: Env, i: Id): Tracked<Type> {
    var it := g.At(i);
    if it.Lit? || TypeOf(it) != Tristate then Tracked(TypeOf(it), {})
    else
      var plain := Tracked(if TriOf(env, Val(g.modules)) == 0 then Bool else Tristate, {Val(g.modules)});
      if it.Symbol? && it.choice.Some? then
        if TriOf(env, Val(it.choice.value)) == 2 then Tracked(Bool, {Val(it.choice.value)})
        else Tracked(plain.v, plain.used + {Val(it.choice.value)})
      else plain
  }

  function PromptsR(g: Graph, env: Env, ps: seq<Expr>, k: nat): Tracked<Tri>
    requires k <= |ps|
    decreases |ps| - k
  {
    if k == |ps| then Tracked(0, {})
    else
      var x := ExprR(g, env, ps[k]);
      var rest := PromptsR(g, env, ps, k + 1);
      Tracked(Max(x.v, rest.v), x.used + rest.used)
  }

  /** What the choice a symbol is in makes of the visibility its prompts give. */
  function ChoiceLimitR(g: Graph, env: Env, i: Id, vis: Tri): Tracked<bool> {
    var it := g.At(i);
    if !it.Symbol? || it.choice.None? then Tracked(false, {})
    else
      var c := it.choice.value;
      var mode := TriOf(env, Val(c));
      if TypeOf(g.At(c)) == Tristate && it.ty != Tristate then Tracked(mode != 2, {Val(c)})
      else if it.ty == Tristate && vis == 1 then Tracked(mode == 2, {Val(c)})
      else Tracked(false, {})
  }

  function VisR(g: Graph, env: Env, i: Id): Tracked<Tri> {
    var p := PromptsR(g, env, Prompts(g.At(i)), 0);
    var hidden := ChoiceLimitR(g, env, i, p.v);
    if hidden.v then Tracked(0, p.used + hidden.used)
    else if p.v != 1 then Tracked(p.v, p.used + hidden.used)
    else
      var ty := TypeR(g, env, i);
      Tracked(if ty.v != Tristate then 2 else 1, p.used + hidden.used + ty.used)
  }

  /** The mode of a choice. */
  function ModeR(g: Graph, u: Users, env: Env, i: Id): Tracked<Tri>
    requires g.At(i).Choice?
  {
    var low: Tri := if g.At(i).optional then 0 else 1;
    var asked := if u.Tri(i).Some? then Max(low, u.Tri(i).value) else low;
    var val := Min(asked, TriOf(env, Vis(i)));
    if val == 1 then
      var ty := TypeR(g, env, i);
      Tracked(if ty.v == Bool then 2 else 1, {Vis(i)} + ty.used)
    else Tracked(val, {Vis(i)})
  }

  // ---- selections ------------------------------------------------------------

  function PickR(g: Graph, env: Env, ps: seq<Selectable>, k: nat): Tracked<Option<Id>>
    requires k <= |ps|
    decreases |ps| - k
  {
    if k == |ps| then Tracked(None, {})
    else
      var x := ExprR(g, env, ps[k].cond);
      if x.v != 0 && TriOf(env, Vis(ps[k].sym)) != 0 then Tracked(Some(ps[k].sym), x.used + {Vis(ps[k].sym)})
      else
        var rest := PickR(g, env, ps, k + 1);
        Tracked(rest.v, x.used + (if x.v != 0 then {Vis(ps[k].sym)} else {}) + rest.used)
  }

  function FirstVisibleR(env: Env, syms: seq<Id>, k: nat): Tracked<Option<Id>>
    requires k <= |syms|
    decreases |syms| - k
  {
    if k == |syms| then Tracked(None, {})
    else if TriOf(env, Vis(syms[k])) != 0 then Tracked(Some(syms[k]), {Vis(syms[k])})
    else var rest := FirstVisibleR(env, syms, k + 1); Tracked(rest.v, {Vis(syms[k])} + rest.used)
  }

  function DefaultSelectionR(g: Graph, env: Env, i: Id): Tracked<Option<Id>>
    requires g.At(i).Choice?
  {
    var p := PickR(g, env, g.At(i).picks, 0);
    if p.v.Some? then p
    else var f := FirstVisibleR(env, g.At(i).syms, 0); Tracked(f.v, p.used + f.used)
  }

  function SelR(g: Graph, u: Users, env: Env, i: Id): Tracked<Option<Id>>
    requires g.At(i).Choice?
  {
    var user := u.Selection(i);
    if TriOf(env, Val(i)) != 2 then Tracked(None, {Val(i)})
    else if user.Some? && TriOf(env, Vis(user.value)) != 0 then Tracked(user, {Val(i), Vis(user.value)})
    else
      var d := DefaultSelectionR(g, env, i);
      Tracked(d.v, {Val(i)} + (if user.Some? then {Vis(user.value)} else {}) + d.used)
  }

  // ---- symbol values ---------------------------------------------------------

  function TriDefaultR(g: Graph, env: Env, ds: seq<Default>, k: nat): Tracked<Tri>
    requires k <= |ds|
    decreases |ds| - k
  {
    if k == |ds| then Tracked(0, {})
    else
      var c := ExprR(g, env, ds[k].cond);
      if c.v != 0 then var d := ExprR(g, env, ds[k].value); Tracked(Min(d.v, c.v), c.used + d.used)
      else var rest := TriDefaultR(g, env, ds, k + 1); Tracked(rest.v, c.used + rest.used)
  }

  /** A tristate value with its .config flag. */
  datatype Written = Written(t: Tri, write: bool)

  /** The value a non-choice symbol gets from the user, or from defaults and implies. */
  function BaseR(g: Graph, u: Users, env: Env, i: Id): Tracked<Written>
    requires g.At(i).Symbol?
  {
    var it := g.At(i);
    var vis := TriOf(env, Vis(i));
    if vis != 0 && u.Tri(i).Some? then Tracked(Written(Min(u.Tri(i).value, vis), true), {Vis(i)})
    else
      var d := TriDefaultR(g, env, it.defaults, 0);
      var write := vis != 0 || d.v != 0;
      var w := ExprR(g, env, it.weakRevDep);
      if w.v == 0 then Tracked(Written(d.v, write), {Vis(i)} + d.used + w.used)
      else
        var dep := ExprR(g, env, it.directDep);
        var used := {Vis(i)} + d.used + w.used + dep.used;
        if dep.v == 0 then Tracked(Written(d.v, write), used)
        else Tracked(Written(Max(w.v, d.v), true), used)
  }

  /** `BaseR` raised by the reverse dependencies of the symbol. */
  function SelectedR(g: Graph, u: Users, env: Env, i: Id): Tracked<Written>
    requires g.At(i).Symbol?
  {
    var b := BaseR(g, u, env, i);
    var r := ExprR(g, env, g.At(i).revDep);
    if r.v == 0 then Tracked(b.v, b.used + r.used)
    else
      var dep := ExprR(g, env, g.At(i).directDep);
      Tracked(Written(Max(r.v, b.v.t), true), b.used + r.used + dep.used)
  }

  /** Promotion of m to y, for bool symbols and for symbols implied to y. */
  function PromotedR(g: Graph, env: Env, i: Id, t: Tri): Tracked<Tri>
    requires g.At(i).Symbol?
  {
    if t != 1 then Tracked(t, {})
    else
      var ty := TypeR(g, env, i);
      if ty.v == Bool then Tracked(2, ty.used)
      else
        var w := ExprR(g, env, g.At(i).weakRevDep);
        Tracked(if w.v == 2 then 2 else 1, ty.used + w.used)
  }

  function SymbolValR(g: Graph, u: Users, env: Env, i: Id): Tracked<Written>
    requires g.At(i).Symbol?
  {
    var it := g.At(i);
    var vis := TriOf(env, Vis(i));
    if !IsLogic(it.ty) then Tracked(Written(0, false), {})
    else if it.choice.None? then
      var s := SelectedR(g, u, env, i);
      var p := PromotedR(g, env, i, s.v.t);
      Tracked(Written(p.v, s.v.write), s.used + p.used)
    else if vis == 2 then
      Tracked(Written(Truth(SelOf(env, Sel(it.choice.value)) == Some(i)), true), {Vis(i), Sel(it.choice.value)})
    else
      Tracked(Written(if vis != 0 && u.Tri(i).Some? && u.Tri(i).value != 0 then 1 else 0, vis != 0), {Vis(i)})
  }

  // ---- string values ---------------------------------------------------------

  function StrDefaultR(g: Graph, env: Env, ds: seq<Default>, k: nat): Tracked<Option<string>>
    requires k <= |ds|
    decreases |ds| - k
  {
    if k == |ds| then Tracked(None, {})
    else
      var c := ExprR(g, env, ds[k].cond);
      if c.v != 0 then
        // the parser rejects anything but a symbol here
        if ds[k].value.Ref? then Tracked(Some(StrOf(env, Str(ds[k].value.id))), c.used + {Str(ds[k].value.id)})
        else Tracked(Some(""), c.used)
      else var rest := StrDefaultR(g, env, ds, k + 1); Tracked(rest.v, c.used + rest.used)
  }

  datatype Bounds = Bounds(low: int, high: int)

  /** strtoll() on a string that is not a number gives 0. */
  function NumOr0(g: Graph, s: string, base: nat): int {
    var n := g.num(s, base); if n.Some? then n.value else 0
  }

  function RangeR(g: Graph, env: Env, rs: seq<Range>, base: nat, k: nat): Tracked<Option<Bounds>>
    requires k <= |rs|
    decreases |rs| - k
  {
    if k == |rs| then Tracked(None, {})
    else
      var c := ExprR(g, env, rs[k].cond);
      if c.v != 0 then
        Tracked(Some(Bounds(NumOr0(g, StrOf(env, Str(rs[k].low)), base), NumOr0(g, StrOf(env, Str(rs[k].high)), base))),
                c.used + {Str(rs[k].low), Str(rs[k].high)})
      else var rest := RangeR(g, env, rs, base, k + 1); Tracked(rest.v, c.used + rest.used)
  }

  predicate InRange(r: Option<Bounds>, n: int) { r.Some? ==> r.value.low <= n <= r.value.high }

  /** The default of an int or hex symbol, clamped to the active range. */
  function Clamped(g: Graph, ty: Type, r: Option<Bounds>, d: Option<string>): string {
    var val := if d.Some? then d.value else "";
    var n := NumOr0(g, val, Base(ty));
    if r.Some? && n < r.value.low then g.fmt(r.value.low, ty)
    else if r.Some? && n > r.value.high then g.fmt(r.value.high, ty)
    else val
  }

  datatype WrittenStr = WrittenStr(s: string, write: bool)

  function NumberStrR(g: Graph, u: Users, env: Env, i: Id): Tracked<WrittenStr>
    requires g.At(i).Symbol?
  {
    var it := g.At(i);
    var vis := TriOf(env, Vis(i));
    var r := RangeR(g, env, it.ranges, Base(it.ty), 0);
    var user := u.Str(i);
    if vis != 0 && user.Some? && user.value != "" && InRange(r.v, NumOr0(g, user.value, Base(it.ty))) then
      Tracked(WrittenStr(user.value, true), {Vis(i)} + r.used)
    else
      var d := StrDefaultR(g, env, it.defaults, 0);
      Tracked(WrittenStr(Clamped(g, it.ty, r.v, d.v), vis != 0 || d.v.Some?), {Vis(i)} + r.used + d.used)
  }

  function StringStrR(g: Graph, u: Users, env: Env, i: Id): Tracked<WrittenStr>
    requires g.At(i).Symbol?
  {
    var vis := TriOf(env, Vis(i));
    if vis != 0 && u.Str(i).Some? then Tracked(WrittenStr(u.Str(i).value, true), {Vis(i)})
    else
      var d := StrDefaultR(g, env, g.At(i).defaults, 0);
      Tracked(WrittenStr(if d.v.Some? then d.v.value else "", vis != 0 || d.v.Some?), {Vis(i)} + d.used)
  }

  function StrR(g: Graph, u: Users, env: Env, i: Id): Tracked<WrittenStr> {
    var it := g.At(i);
    match it
    case Lit(t) => Tracked(WrittenStr(TriStr(t), false), {})
    case Choice(_, _, _, _, _) => Tracked(WrittenStr(TriStr(TriOf(env, Val(i))), false), {Val(i)})
    case Symbol(name, ty, _, _, _, _, _, _, _, auto) =>
      if IsLogic(ty) then Tracked(WrittenStr(TriStr(TriOf(env, Val(i))), WriteOf(env, Val(i))), {Val(i)})
      else if ty == Unknown then Tracked(WrittenStr(name, false), {})
      else
        var s := if IsNumber(ty) then NumberStrR(g, u, env, i) else StringStrR(g, u, env, i);
        Tracked(WrittenStr(s.v.s, s.v.write && !auto), s.used)
  }

  // ---- assignable values -----------------------------------------------------

  /** Whether m is promoted to y, as `assignable` asks it. */
  function PromotesR(g: Graph, env: Env, i: Id): Tracked<bool>
    requires g.At(i).Symbol?
  {
    var ty := TypeR(g, env, i);
    if ty.v == Bool then Tracked(true, ty.used)
    else var w := ExprR(g, env, g.At(i).weakRevDep); Tracked(w.v == 2, ty.used + w.used)
  }

  function SymbolAsgR(g: Graph, env: Env, i: Id): Tracked<seq<Tri>>
    requires g.At(i).Symbol?
  {
    var it := g.At(i);
    var vis := TriOf(env, Vis(i));
    if !IsLogic(it.ty) then Tracked([], {})
    else if vis == 0 then Tracked([], {Vis(i)})
    else
      var r := ExprR(g, env, it.revDep);
      var used := {Vis(i)} + r.used;
      if vis == 2 && it.choice.Some? then Tracked([2], used)
      else if r.v == 2 then Tracked([2], used)
      else if vis == 2 then
        var p := PromotesR(g, env, i);
        Tracked(if p.v then (if r.v == 0 then [0, 2] else [2]) else (if r.v == 0 then [0, 1, 2] else [1, 2]),
                used + p.used)
      else if r.v == 0 then
        var w := ExprR(g, env, it.weakRevDep);
        Tracked(if w.v != 2 then [0, 1] else [0, 2], used + w.used)
      else Tracked([1], used)
  }

  function ChoiceAsgR(g: Graph, env: Env, i: Id): Tracked<seq<Tri>>
    requires g.At(i).Choice?
  {
    var vis := TriOf(env, Vis(i));
    var optional := g.At(i).optional;
    if vis == 0 then Tracked([], {Vis(i)})
    else if vis == 2 then
      var ty := TypeR(g, env, i);
      Tracked(if !optional then (if ty.v == Bool then [2] else [1, 2])
              else (if ty.v == Bool then [0, 2] else [0, 1, 2]), {Vis(i)} + ty.used)
    else Tracked(if optional then [0, 1] else [1], {Vis(i)})
  }

  // ---- one step of evaluation ------------------------------------------------

  function StepR(g: Graph, u: Users, env: Env, n: Node): Tracked<V> {
    var it := g.At(n.i);
    match n
    case Vis(i) => var r := VisR(g, env, i); Tracked(TriV(r.v, false), r.used)
    case Val(i) => (
      match it
      case Lit(t) => Tracked(TriV(t, false), {})
      case Symbol(_, _, _, _, _, _, _, _, _, _) =>
        var r := SymbolValR(g, u, env, i); Tracked(TriV(r.v.t, r.v.write), r.used)
      case Choice(_, _, _, _, _) => var r := ModeR(g, u, env, i); Tracked(TriV(r.v, false), r.used))
    case Str(i) => var r := StrR(g, u, env, i); Tracked(StrV(r.v.s, r.v.write), r.used)
    case Sel(i) =>
      if it.Choice? then var r := SelR(g, u, env, i); Tracked(SelV(r.v), r.used) else Tracked(SelV(None), {})
    case Asg(i) => (
      match it
      case Lit(_) => Tracked(AsgV([]), {})
      case Symbol(_, _, _, _, _, _, _, _, _, _) => var r := SymbolAsgR(g, env, i); Tracked(AsgV(r.v), r.used)
      case Choice(_, _, _, _, _) => var r := ChoiceAsgR(g, env, i); Tracked(AsgV(r.v), r.used))
  }
}

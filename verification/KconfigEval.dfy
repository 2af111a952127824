/**
 Evaluation from scratch: the static dependencies of the equations in KconfigModel,
 the values they determine, and what a value depends on.
 */
module KconfigEval {
  import opened Wrappers
  import opened KconfigModel

  // ---- what the equations can read -------------------------------------------

  function ExprItems(e: Expr): set<Id> {
    match e
    case Ref(i) => {i}
    case And(l, r) => ExprItems(l) + ExprItems(r)
    case Or(l, r) => ExprItems(l) + ExprItems(r)
    case Not(f) => ExprItems(f)
    case Compare(_, a, b) => {a, b}
  }

  function PromptItems(it: Item): set<Id> { set e, i | e in Prompts(it) && i in ExprItems(e) :: i }

  function DefaultIds(d: Default): set<Id> { ExprItems(d.value) + ExprItems(d.cond) }
  function RangeIds(r: Range): set<Id> { {r.low, r.high} + ExprItems(r.cond) }

  /** The items mentioned in the properties of an item, as the dependency builder collects them. */
  function PropItems(it: Item): set<Id> {
    match it
    case Lit(_) => {}
    case Symbol(_, _, _, ds, rs, rev, weak, direct, _, _) =>
      PromptItems(it)
      + (set d, i | d in ds && i in DefaultIds(d) :: i)
      + ExprItems(rev) + ExprItems(weak) + ExprItems(direct)
      + (set r, i | r in rs && i in RangeIds(r) :: i)
    case Choice(_, _, ps, _, _) =>
      PromptItems(it) + (set p, i | p in ps && i in ExprItems(p.cond) :: i)
  }

  lemma OnePrompt(it: Item, e: Expr)
    requires !it.Lit? && it.prompts == [e]
    ensures PromptItems(it) == ExprItems(e)
  {
    assert e in it.prompts;
  }

  lemma PlainItems(it: Item)
    requires it.Symbol? && it.defaults == [] && it.ranges == []
    ensures PropItems(it) == PromptItems(it) + ExprItems(it.revDep) + ExprItems(it.weakRevDep) + ExprItems(it.directDep)
  {
  }

  lemma OneDefaultItems(it: Item, d: Default)
    requires it.Symbol? && it.defaults == [d] && it.ranges == []
    ensures PropItems(it) == PromptItems(it) + DefaultIds(d)
                             + ExprItems(it.revDep) + ExprItems(it.weakRevDep) + ExprItems(it.directDep)
  {
    assert d in it.defaults;
  }

  lemma PicklessItems(it: Item)
    requires it.Choice? && it.picks == []
    ensures PropItems(it) == PromptItems(it)
  {
  }

  lemma ConstantItems(it: Item)
    requires it.Lit? || (it.Symbol? && it.prompts == [])
    ensures PromptItems(it) == {} && (it.Lit? ==> PropItems(it) == {})
  {
  }

  /** Reading an item in an expression reads its tristate or its string value. */
  function Operands(ids: set<Id>): set<Node> { (set i | i in ids :: Val(i)) + (set i | i in ids :: Str(i)) }

  function ChoiceDeps(it: Item): set<Node> {
    if it.Symbol? && it.choice.Some? then {Val(it.choice.value), Sel(it.choice.value)} else {}
  }

  function TypeDeps(g: Graph, it: Item): set<Node> {
    if !it.Lit? && TypeOf(it) == Tristate then {Val(g.modules)} else {}
  }

  function VisChoice(it: Item): set<Node> {
    if it.Symbol? && it.choice.Some? then {Val(it.choice.value)} else {}
  }

  /** The attributes that the equation of `n` can read under some assignment. */
  function Deps(g: Graph, n: Node): set<Node> {
    var it := g.At(n.i);
    match n
    case Vis(i) => Operands(PromptItems(it)) + VisChoice(it) + TypeDeps(g, it)
    case Val(i) =>
      if it.Lit? || (it.Symbol? && !IsLogic(it.ty)) then {}
      else if it.Choice? then {Vis(i)} + TypeDeps(g, it)
      else {Vis(i)} + Operands(PropItems(it)) + ChoiceDeps(it) + TypeDeps(g, it)
    case Str(i) =>
      if it.Lit? || (it.Symbol? && it.ty == Unknown) then {}
      else if it.Choice? || IsLogic(TypeOf(it)) then {Val(i)}
      else {Vis(i)} + Operands(PropItems(it))
    case Sel(i) =>
      if !it.Choice? then {}
      else {Val(i)} + Operands(PropItems(it))
           + (set s | s in it.syms :: Vis(s)) + (set p | p in it.picks :: Vis(p.sym))
    case Asg(i) =>
      if it.Lit? || (it.Symbol? && !IsLogic(it.ty)) then {}
      else {Vis(i)} + Operands(PropItems(it)) + VisChoice(it) + TypeDeps(g, it)
  }

  /** Whether `set_value` accepts a value for an item; y, m and n may also be given as strings. */
  predicate Accepts(g: Graph, i: Id, v: UserValue) {
    var ty := TypeOf(g.At(i));
    var t := Normalized(ty, v);
    if t.TriUser? then ty == Tristate || (ty == Bool && t.t != 1)
    else
      g.At(i).Symbol? &&
      (ty == String
       || (ty == Int && g.num(t.s, 10).Some?)
       || (ty == Hex && g.num(t.s, 16).Some? && g.num(t.s, 16).value >= 0))
  }

  function Normalized(ty: Type, v: UserValue): UserValue {
    if IsLogic(ty) && v.StrUser? && v.s == "y" then TriUser(2)
    else if IsLogic(ty) && v.StrUser? && v.s == "m" then TriUser(1)
    else if IsLogic(ty) && v.StrUser? && v.s == "n" then TriUser(0)
    else v
  }

  /** Assigned values are accepted ones in normal form, and user selections name a symbol of the
      choice. */
  ghost predicate UsersOk(g: Graph, u: Users) {
    && (forall i :: i in u.values ==>
          Accepts(g, i, u.values[i]) && Normalized(TypeOf(g.At(i)), u.values[i]) == u.values[i])
    && (forall c :: c in u.selections ==> g.At(c).Choice? && u.selections[c] in g.At(c).syms)
  }

  /** `rank` orders the attributes so that every equation reads attributes of lower rank. */
  ghost predicate Ranked(g: Graph, rank: Node -> nat) {
    forall n, r :: r in Deps(g, n) ==> rank(r) < rank(n)
  }

  // ---- reads stay within the static dependencies -----------------------------

  lemma ExprUsed(g: Graph, env: Env, e: Expr)
    ensures ExprR(g, env, e).used <= Operands(ExprItems(e))
  {
  }

  lemma PromptsUsed(g: Graph, env: Env, it: Item, k: nat)
    requires k <= |Prompts(it)|
    ensures PromptsR(g, env, Prompts(it), k).used <= Operands(PromptItems(it))
    decreases |Prompts(it)| - k
  {
    if k < |Prompts(it)| {
      ExprUsed(g, env, Prompts(it)[k]);
      assert ExprItems(Prompts(it)[k]) <= PromptItems(it);
      PromptsUsed(g, env, it, k + 1);
    }
  }

  lemma PickUsed(g: Graph, env: Env, it: Item, k: nat)
    requires it.Choice? && k <= |it.picks|
    ensures PickR(g, env, it.picks, k).used <= Operands(PropItems(it)) + (set p | p in it.picks :: Vis(p.sym))
    decreases |it.picks| - k
  {
    if k < |it.picks| {
      ExprUsed(g, env, it.picks[k].cond);
      assert it.picks[k] in it.picks;
      assert ExprItems(it.picks[k].cond) <= PropItems(it);
      PickUsed(g, env, it, k + 1);
    }
  }

  lemma FirstVisibleUsed(env: Env, syms: seq<Id>, k: nat)
    requires k <= |syms|
    ensures FirstVisibleR(env, syms, k).used <= set s | s in syms :: Vis(s)
    decreases |syms| - k
  {
  }

  lemma DefaultItems(it: Item, d: Default)
    requires it.Symbol? && d in it.defaults
    ensures ExprItems(d.value) <= PropItems(it) && ExprItems(d.cond) <= PropItems(it)
  {
    assert DefaultIds(d) <= PropItems(it);
  }

  lemma TriDefaultUsed(g: Graph, env: Env, it: Item, k: nat)
    requires it.Symbol? && k <= |it.defaults|
    ensures TriDefaultR(g, env, it.defaults, k).used <= Operands(PropItems(it))
    decreases |it.defaults| - k
  {
    if k < |it.defaults| {
      DefaultItems(it, it.defaults[k]);
      ExprUsed(g, env, it.defaults[k].value);
      ExprUsed(g, env, it.defaults[k].cond);
      TriDefaultUsed(g, env, it, k + 1);
    }
  }

  lemma StrDefaultUsed(g: Graph, env: Env, it: Item, k: nat)
    requires it.Symbol? && k <= |it.defaults|
    ensures StrDefaultR(g, env, it.defaults, k).used <= Operands(PropItems(it))
    decreases |it.defaults| - k
  {
    if k < |it.defaults| {
      DefaultItems(it, it.defaults[k]);
      ExprUsed(g, env, it.defaults[k].value);
      ExprUsed(g, env, it.defaults[k].cond);
      StrDefaultUsed(g, env, it, k + 1);
    }
  }

  lemma RangeItems(it: Item, r: Range)
    requires it.Symbol? && r in it.ranges
    ensures r.low in PropItems(it) && r.high in PropItems(it) && ExprItems(r.cond) <= PropItems(it)
  {
    assert RangeIds(r) <= PropItems(it);
  }

  lemma RangeUsed(g: Graph, env: Env, it: Item, k: nat)
    requires it.Symbol? && k <= |it.ranges|
    ensures RangeR(g, env, it.ranges, Base(it.ty), k).used <= Operands(PropItems(it))
    decreases |it.ranges| - k
  {
    if k < |it.ranges| {
      RangeItems(it, it.ranges[k]);
      ExprUsed(g, env, it.ranges[k].cond);
      RangeUsed(g, env, it, k + 1);
    }
  }

  lemma SymbolExprsUsed(g: Graph, env: Env, it: Item)
    requires it.Symbol?
    ensures ExprR(g, env, it.revDep).used <= Operands(PropItems(it))
    ensures ExprR(g, env, it.weakRevDep).used <= Operands(PropItems(it))
    ensures ExprR(g, env, it.directDep).used <= Operands(PropItems(it))
    ensures TriDefaultR(g, env, it.defaults, 0).used <= Operands(PropItems(it))
    ensures StrDefaultR(g, env, it.defaults, 0).used <= Operands(PropItems(it))
    ensures RangeR(g, env, it.ranges, Base(it.ty), 0).used <= Operands(PropItems(it))
  {
    ExprUsed(g, env, it.revDep);
    ExprUsed(g, env, it.weakRevDep);
    ExprUsed(g, env, it.directDep);
    TriDefaultUsed(g, env, it, 0);
    StrDefaultUsed(g, env, it, 0);
    RangeUsed(g, env, it, 0);
  }

  lemma VisUsed(g: Graph, env: Env, i: Id)
    ensures VisR(g, env, i).used <= Deps(g, Vis(i))
  {
    PromptsUsed(g, env, g.At(i), 0);
  }

  lemma SymbolValUsed(g: Graph, u: Users, env: Env, i: Id)
    requires g.At(i).Symbol?
    ensures SymbolValR(g, u, env, i).used <= Deps(g, Val(i))
  {
    SymbolExprsUsed(g, env, g.At(i));
    var ops := Operands(PropItems(g.At(i)));
    assert BaseR(g, u, env, i).used <= {Vis(i)} + ops;
    assert SelectedR(g, u, env, i).used <= {Vis(i)} + ops;
  }

  lemma StrUsed(g: Graph, u: Users, env: Env, i: Id)
    ensures StrR(g, u, env, i).used <= Deps(g, Str(i))
  {
    if g.At(i).Symbol? { SymbolExprsUsed(g, env, g.At(i)); }
  }

  lemma SelUsed(g: Graph, u: Users, env: Env, i: Id)
    requires UsersOk(g, u) && g.At(i).Choice?
    ensures SelR(g, u, env, i).used <= Deps(g, Sel(i))
  {
    PickUsed(g, env, g.At(i), 0);
    FirstVisibleUsed(env, g.At(i).syms, 0);
  }

  lemma AsgUsed(g: Graph, env: Env, i: Id)
    requires g.At(i).Symbol?
    ensures SymbolAsgR(g, env, i).used <= Deps(g, Asg(i))
  {
    SymbolExprsUsed(g, env, g.At(i));
  }

  /** Whatever the assignment, an equation reads only its static dependencies. */
  lemma UsedInDeps(g: Graph, u: Users, env: Env, n: Node)
    requires UsersOk(g, u)
    ensures StepR(g, u, env, n).used <= Deps(g, n)
  {
    match n
    case Vis(i) => VisUsed(g, env, i);
    case Val(i) => if g.At(i).Symbol? { SymbolValUsed(g, u, env, i); }
    case Str(i) => StrUsed(g, u, env, i);
    case Sel(i) => if g.At(i).Choice? { SelUsed(g, u, env, i); }
    case Asg(i) => if g.At(i).Symbol? { AsgUsed(g, env, i); }
  }

  // ---- an equation depends only on what it reads -----------------------------

  ghost predicate Agree(e1: Env, e2: Env, s: set<Node>) {
    forall n :: n in s ==> Look(e1, n) == Look(e2, n)
  }

  lemma CompareFrame(g: Graph, e1: Env, e2: Env, a: Id, b: Id)
    requires Agree(e1, e2, CompareR(g, e1, a, b).used)
    ensures CompareR(g, e2, a, b) == CompareR(g, e1, a, b)
  {
    hide StrCmp;
  }

  lemma {:induction false} ExprFrame(g: Graph, e1: Env, e2: Env, e: Expr)
    requires Agree(e1, e2, ExprR(g, e1, e).used)
    ensures ExprR(g, e2, e) == ExprR(g, e1, e)
  {
    hide CompareR;
    match e
    case Ref(i) =>
    case And(l, r) =>
      ExprFrame(g, e1, e2, l);
      if ExprR(g, e1, l).v != 0 { ExprFrame(g, e1, e2, r); }
    case Or(l, r) =>
      ExprFrame(g, e1, e2, l);
      if ExprR(g, e1, l).v != 2 { ExprFrame(g, e1, e2, r); }
    case Not(f) => ExprFrame(g, e1, e2, f);
    case Compare(_, a, b) => CompareFrame(g, e1, e2, a, b);
  }

  lemma {:induction false} PromptsFrame(g: Graph, e1: Env, e2: Env, ps: seq<Expr>, k: nat)
    requires k <= |ps| && Agree(e1, e2, PromptsR(g, e1, ps, k).used)
    ensures PromptsR(g, e2, ps, k) == PromptsR(g, e1, ps, k)
    decreases |ps| - k
  {
    if k < |ps| {
      ExprFrame(g, e1, e2, ps[k]);
      PromptsFrame(g, e1, e2, ps, k + 1);
    }
  }

  lemma {:induction false} PickFrame(g: Graph, e1: Env, e2: Env, ps: seq<Selectable>, k: nat)
    requires k <= |ps| && Agree(e1, e2, PickR(g, e1, ps, k).used)
    ensures PickR(g, e2, ps, k) == PickR(g, e1, ps, k)
    decreases |ps| - k
  {
    if k < |ps| {
      var x := ExprR(g, e1, ps[k].cond);
      ExprFrame(g, e1, e2, ps[k].cond);
      if x.v != 0 { assert Vis(ps[k].sym) in PickR(g, e1, ps, k).used; }
      if x.v == 0 || TriOf(e1, Vis(ps[k].sym)) == 0 { PickFrame(g, e1, e2, ps, k + 1); }
    }
  }

  lemma {:induction false} FirstVisibleFrame(e1: Env, e2: Env, syms: seq<Id>, k: nat)
    requires k <= |syms| && Agree(e1, e2, FirstVisibleR(e1, syms, k).used)
    ensures FirstVisibleR(e2, syms, k) == FirstVisibleR(e1, syms, k)
    decreases |syms| - k
  {
    if k < |syms| {
      assert Vis(syms[k]) in FirstVisibleR(e1, syms, k).used;
      if TriOf(e1, Vis(syms[k])) == 0 { FirstVisibleFrame(e1, e2, syms, k + 1); }
    }
  }

  lemma {:induction false} TriDefaultFrame(g: Graph, e1: Env, e2: Env, ds: seq<Default>, k: nat)
    requires k <= |ds| && Agree(e1, e2, TriDefaultR(g, e1, ds, k).used)
    ensures TriDefaultR(g, e2, ds, k) == TriDefaultR(g, e1, ds, k)
    decreases |ds| - k
  {
    if k < |ds| {
      ExprFrame(g, e1, e2, ds[k].cond);
      if ExprR(g, e1, ds[k].cond).v != 0 { ExprFrame(g, e1, e2, ds[k].value); }
      else { TriDefaultFrame(g, e1, e2, ds, k + 1); }
    }
  }

  lemma {:induction false} StrDefaultFrame(g: Graph, e1: Env, e2: Env, ds: seq<Default>, k: nat)
    requires k <= |ds| && Agree(e1, e2, StrDefaultR(g, e1, ds, k).used)
    ensures StrDefaultR(g, e2, ds, k) == StrDefaultR(g, e1, ds, k)
    decreases |ds| - k
  {
    if k < |ds| {
      ExprFrame(g, e1, e2, ds[k].cond);
      if ExprR(g, e1, ds[k].cond).v == 0 { StrDefaultFrame(g, e1, e2, ds, k + 1); }
      else if ds[k].value.Ref? { assert Str(ds[k].value.id) in StrDefaultR(g, e1, ds, k).used; }
    }
  }

  lemma {:induction false} RangeFrame(g: Graph, e1: Env, e2: Env, rs: seq<Range>, base: nat, k: nat)
    requires k <= |rs| && Agree(e1, e2, RangeR(g, e1, rs, base, k).used)
    ensures RangeR(g, e2, rs, base, k) == RangeR(g, e1, rs, base, k)
    decreases |rs| - k
  {
    if k < |rs| {
      ExprFrame(g, e1, e2, rs[k].cond);
      if ExprR(g, e1, rs[k].cond).v == 0 { RangeFrame(g, e1, e2, rs, base, k + 1); }
      else {
        assert {Str(rs[k].low), Str(rs[k].high)} <= RangeR(g, e1, rs, base, k).used;
      }
    }
  }

  /** The user's assignments matter to an item only where the two agree on that item, or
      where the item has no prompt and so is never visible. */
  ghost predicate SameUser(g: Graph, u1: Users, u2: Users, i: Id) {
    || (u1.Tri(i) == u2.Tri(i) && u1.Str(i) == u2.Str(i) && u1.Selection(i) == u2.Selection(i))
    || (!g.At(i).Choice? && Prompts(g.At(i)) == [])
  }

  lemma VisFrame(g: Graph, e1: Env, e2: Env, i: Id)
    requires Agree(e1, e2, VisR(g, e1, i).used)
    ensures VisR(g, e2, i) == VisR(g, e1, i)
  {
    PromptsFrame(g, e1, e2, Prompts(g.At(i)), 0);
  }

  lemma SelFrame(g: Graph, u: Users, e1: Env, e2: Env, i: Id)
    requires g.At(i).Choice? && Agree(e1, e2, SelR(g, u, e1, i).used)
    ensures SelR(g, u, e2, i) == SelR(g, u, e1, i)
  {
    var user := u.Selection(i);
    assert Val(i) in SelR(g, u, e1, i).used;
    if TriOf(e1, Val(i)) == 2 {
      if user.Some? { assert Vis(user.value) in SelR(g, u, e1, i).used; }
      if user.None? || TriOf(e1, Vis(user.value)) == 0 {
        PickFrame(g, e1, e2, g.At(i).picks, 0);
        if PickR(g, e1, g.At(i).picks, 0).v.None? { FirstVisibleFrame(e1, e2, g.At(i).syms, 0); }
      }
    }
  }

  lemma BaseFrame(g: Graph, u: Users, e1: Env, e2: Env, i: Id)
    requires g.At(i).Symbol? && Agree(e1, e2, BaseR(g, u, e1, i).used)
    ensures BaseR(g, u, e2, i) == BaseR(g, u, e1, i)
  {
    var it := g.At(i);
    assert Vis(i) in BaseR(g, u, e1, i).used;
    if TriOf(e1, Vis(i)) == 0 || u.Tri(i).None? {
      TriDefaultFrame(g, e1, e2, it.defaults, 0);
      ExprFrame(g, e1, e2, it.weakRevDep);
      if ExprR(g, e1, it.weakRevDep).v != 0 { ExprFrame(g, e1, e2, it.directDep); }
    }
  }

  lemma SymbolValFrame(g: Graph, u: Users, e1: Env, e2: Env, i: Id)
    requires g.At(i).Symbol? && Agree(e1, e2, SymbolValR(g, u, e1, i).used)
    ensures SymbolValR(g, u, e2, i) == SymbolValR(g, u, e1, i)
  {
    var it := g.At(i);
    if IsLogic(it.ty) {
      if it.choice.None? {
        BaseFrame(g, u, e1, e2, i);
        ExprFrame(g, e1, e2, it.revDep);
        if ExprR(g, e1, it.revDep).v != 0 { ExprFrame(g, e1, e2, it.directDep); }
        assert SelectedR(g, u, e2, i) == SelectedR(g, u, e1, i);
        PromotedFrame(g, e1, e2, i, SelectedR(g, u, e1, i).v.t);
      } else {
        assert Vis(i) in SymbolValR(g, u, e1, i).used;
      }
    }
  }

  lemma PromotedFrame(g: Graph, e1: Env, e2: Env, i: Id, t: Tri)
    requires g.At(i).Symbol? && Agree(e1, e2, PromotedR(g, e1, i, t).used)
    ensures PromotedR(g, e2, i, t) == PromotedR(g, e1, i, t)
  {
    if t == 1 && TypeR(g, e1, i).v != Bool { ExprFrame(g, e1, e2, g.At(i).weakRevDep); }
  }

  lemma StrFrame(g: Graph, u: Users, e1: Env, e2: Env, i: Id)
    requires Agree(e1, e2, StrR(g, u, e1, i).used)
    ensures StrR(g, u, e2, i) == StrR(g, u, e1, i)
  {
    var it := g.At(i);
    if it.Symbol? && IsNumber(it.ty) {
      NumberStrFrame(g, u, e1, e2, i);
    } else if it.Symbol? && it.ty == String {
      assert Vis(i) in StringStrR(g, u, e1, i).used;
      if TriOf(e1, Vis(i)) == 0 || u.Str(i).None? { StrDefaultFrame(g, e1, e2, it.defaults, 0); }
    }
  }

  lemma NumberStrFrame(g: Graph, u: Users, e1: Env, e2: Env, i: Id)
    requires g.At(i).Symbol? && Agree(e1, e2, NumberStrR(g, u, e1, i).used)
    ensures NumberStrR(g, u, e2, i) == NumberStrR(g, u, e1, i)
  {
    var it := g.At(i);
    var user := u.Str(i);
    assert Vis(i) in NumberStrR(g, u, e1, i).used;
    RangeFrame(g, e1, e2, it.ranges, Base(it.ty), 0);
    var r := RangeR(g, e1, it.ranges, Base(it.ty), 0);
    if !(TriOf(e1, Vis(i)) != 0 && user.Some? && user.value != "" && InRange(r.v, NumOr0(g, user.value, Base(it.ty)))) {
      StrDefaultFrame(g, e1, e2, it.defaults, 0);
    }
  }

  lemma SymbolAsgFrame(g: Graph, e1: Env, e2: Env, i: Id)
    requires g.At(i).Symbol? && Agree(e1, e2, SymbolAsgR(g, e1, i).used)
    ensures SymbolAsgR(g, e2, i) == SymbolAsgR(g, e1, i)
  {
    var it := g.At(i);
    if IsLogic(it.ty) {
      assert Vis(i) in SymbolAsgR(g, e1, i).used;
      var vis := TriOf(e1, Vis(i));
      if vis != 0 {
        ExprFrame(g, e1, e2, it.revDep);
        var r := ExprR(g, e1, it.revDep).v;
        if r != 2 && !(vis == 2 && it.choice.Some?) {
          if vis == 2 {
            if TypeR(g, e1, i).v != Bool { ExprFrame(g, e1, e2, it.weakRevDep); }
          } else if r == 0 { ExprFrame(g, e1, e2, it.weakRevDep); }
        }
      }
    }
  }

  /** Two environments that agree on what an equation read give it the same result, and it
      reads the same attributes. */
  lemma EnvFrame(g: Graph, u: Users, e1: Env, e2: Env, n: Node)
    requires Agree(e1, e2, StepR(g, u, e1, n).used)
    ensures StepR(g, u, e2, n) == StepR(g, u, e1, n)
  {
    match n
    case Vis(i) => VisFrame(g, e1, e2, i);
    case Val(i) => if g.At(i).Symbol? { SymbolValFrame(g, u, e1, e2, i); }
    case Str(i) => StrFrame(g, u, e1, e2, i);
    case Sel(i) => if g.At(i).Choice? { SelFrame(g, u, e1, e2, i); }
    case Asg(i) => if g.At(i).Symbol? { SymbolAsgFrame(g, e1, e2, i); }
  }

  /** Assignments enter an equation only through its own item, and visibility and assignable
      sets not at all. */
  lemma OwnUser(g: Graph, u1: Users, u2: Users, env: Env, n: Node)
    requires || n.Vis? || n.Asg?
             || (u1.Tri(n.i) == u2.Tri(n.i) && u1.Str(n.i) == u2.Str(n.i) && u1.Selection(n.i) == u2.Selection(n.i))
    ensures StepR(g, u1, env, n) == StepR(g, u2, env, n)
  {
  }

  // ---- values from scratch ---------------------------------------------------

  /** The value of an attribute computed from the user's assignments alone. */
  ghost function Value(g: Graph, u: Users, rank: Node -> nat, n: Node): V
    requires Ranked(g, rank)
    decreases rank(n)
  {
    StepR(g, u, imap r | r in Deps(g, n) :: Value(g, u, rank, r), n).v
  }

  /** All values at once. */
  ghost function Solution(g: Graph, u: Users, rank: Node -> nat): Env
    requires Ranked(g, rank)
  {
    imap n: Node | true :: Value(g, u, rank, n)
  }

  /** An environment that satisfies every equation. */
  ghost predicate IsSolution(g: Graph, u: Users, env: Env) {
    forall n: Node :: n in env && env[n] == StepR(g, u, env, n).v
  }

  lemma SolutionStep(g: Graph, u: Users, rank: Node -> nat, n: Node)
    requires Ranked(g, rank) && UsersOk(g, u)
    ensures Value(g, u, rank, n) == StepR(g, u, Solution(g, u, rank), n).v
  {
    var local := imap r | r in Deps(g, n) :: Value(g, u, rank, r);
    UsedInDeps(g, u, local, n);
    EnvFrame(g, u, local, Solution(g, u, rank), n);
  }

  /** The constants n, m and y have their values. */
  ghost predicate LitsHold(g: Graph, env: Env) { forall i :: g.At(i).Lit? ==> TriOf(env, Val(i)) == g.At(i).value }

  lemma SolutionLits(g: Graph, u: Users, rank: Node -> nat)
    requires Ranked(g, rank) && UsersOk(g, u)
    ensures LitsHold(g, Solution(g, u, rank))
  {
    hide Ranked, UsersOk, Value, Deps;
    forall i | g.At(i).Lit?
      ensures TriOf(Solution(g, u, rank), Val(i)) == g.At(i).value
    {
      SolutionStep(g, u, rank, Val(i));
    }
  }

  lemma SolutionIsSolution(g: Graph, u: Users, rank: Node -> nat)
    requires Ranked(g, rank) && UsersOk(g, u)
    ensures IsSolution(g, u, Solution(g, u, rank))
  {
    forall n: Node ensures Solution(g, u, rank)[n] == StepR(g, u, Solution(g, u, rank), n).v {
      SolutionStep(g, u, rank, n);
    }
  }

  /** The equations have one solution. */
  lemma {:induction false} SolutionUnique(g: Graph, u: Users, rank: Node -> nat, env: Env, n: Node)
    requires Ranked(g, rank) && UsersOk(g, u) && IsSolution(g, u, env)
    ensures env[n] == Value(g, u, rank, n)
    decreases rank(n)
  {
    var local := imap r | r in Deps(g, n) :: Value(g, u, rank, r);
    UsedInDeps(g, u, local, n);
    forall r | r in Deps(g, n) ensures Look(local, r) == Look(env, r) {
      SolutionUnique(g, u, rank, env, r);
    }
    EnvFrame(g, u, local, env, n);
  }
}

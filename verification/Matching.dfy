/** Matching the receiver pattern of an impl against a type. */
module Matching {
  import opened Options
  import opened HirTypes

  /** What is remembered of a struct or enum that instantiates a template. */
  datatype Info = Info(template: Option<string>, args: seq<HType>)
  datatype SymTab = SymTab(structs: seq<Info>, enums: seq<Info>)

  const NO_INFO := Info(None, [])

  function StructInfo(sym: SymTab, id: nat): Info {
    if id < |sym.structs| then sym.structs[id] else NO_INFO
  }

  function EnumInfo(sym: SymTab, id: nat): Info {
    if id < |sym.enums| then sym.enums[id] else NO_INFO
  }

  /** The arguments a concrete type gives to the template of a generic pattern. */
  function GenericArgs(pat: HType, actual: HType, sym: SymTab): Option<seq<HType>>
    requires pat.GenericPattern?
  {
    match actual
    case Struct(id) =>
      var info := StructInfo(sym, id);
      if !pat.isEnum && info.template == Some(pat.template) && |info.args| == |pat.args| then Some(info.args) else None
    case Enum(id) =>
      var info := EnumInfo(sym, id);
      if pat.isEnum && info.template == Some(pat.template) && |info.args| == |pat.args| then Some(info.args) else None
    case GenericPattern(n, args, e) =>
      if n == pat.template && e == pat.isEnum && |args| == |pat.args| then Some(args) else None
    case _ => None
  }

  /** The constructors that match themselves and nothing else. */
  predicate Leaf(t: HType) {
    || t.Int? || t.Bool? || t.Char? || t.Float? || t.Str? || t.Unit?
    || t.SizedInt? || t.Struct? || t.Enum?
  }

  /** What is left to compare when both types are the same kind of pointer, slice, array
      or vector. */
  function Inside(p: HType, a: HType): (r: Option<(HType, HType)>)
    ensures r.Some? ==> r.value.0 < p
  {
    match p
    case Ref(m, i) => if a.Ref? && m == a.mutable then Some((i, a.inner)) else None
    case Ptr(m, i) => if a.Ptr? && m == a.mutable then Some((i, a.inner)) else None
    case RawPtr(m, i) => if a.RawPtr? && m == a.mutable then Some((i, a.inner)) else None
    case OwnPtr(m, i) => if a.OwnPtr? && m == a.mutable then Some((i, a.inner)) else None
    case Heap(i) => if a.Heap? then Some((i, a.inner)) else None
    case Slice(m, e) => if a.Slice? && m == a.mutable then Some((e, a.elem)) else None
    case Array(n, e) => if a.Array? && n == a.len then Some((e, a.elem)) else None
    case Vec(e) => if a.Vec? then Some((e, a.elem)) else None
    case _ => None
  }

  /** The receiver unification: the bindings found so far go in and out. */
  function Go(pat: HType, actual: HType, vars: set<string>, env: Env, sym: Option<SymTab>): Option<Env>
    decreases pat
  {
    if pat.TyVar? then
      if pat.name !in vars then None
      else if pat.name in env then (if env[pat.name] == actual then Some(env) else None)
      else Some(env[pat.name := actual])
    else if pat.GenericPattern? then
      if sym.None? then None
      else
        match GenericArgs(pat, actual, sym.value)
        case None => None
        case Some(given) => GoAll(pat.args, given, vars, env, sym)
    else if Leaf(pat) then (if actual == pat then Some(env) else None)
    else
      match Inside(pat, actual)
      case None => None
      case Some((p, a)) => Go(p, a, vars, env, sym)
  }

  function GoAll(pats: seq<HType>, actuals: seq<HType>, vars: set<string>, env: Env, sym: Option<SymTab>): Option<Env>
    requires |pats| == |actuals|
    decreases pats
  {
    if |pats| == 0 then Some(env)
    else match Go(pats[0], actuals[0], vars, env, sym)
      case None => None
      case Some(next) => GoAll(pats[1..], actuals[1..], vars, next, sym)
  }

  /** `receiver_unify_with_sym`; without a symbol table, `receiver_unify`. */
  function Unify(pat: HType, actual: HType, vars: set<string>, sym: Option<SymTab>): Option<Env> {
    Go(pat, actual, vars, map[], sym)
  }

  // -------------------------------------------------------------- the same, uniformly

  /** The constructors a pattern may use outside its variables. */
  predicate Handles(t: HType) {
    match t
    case SizedFloat(_) => false
    case NullT => false
    case Dyn(_, _) => false
    case FnPtr(_, _) => false
    case TyVar(_) => false
    case AssocType(_, _, _) => false
    case RustOpaque(_) => false
    case _ => true
  }

  /** Seen through the head of `t`, the parts of `a`: the template arguments when `t` is
      a generic pattern, the components when the heads agree. */
  function Parts(t: HType, a: HType, sym: Option<SymTab>): (r: Option<seq<HType>>)
    ensures r.Some? ==> |r.value| == |Kids(t)|
  {
    if !Handles(t) then None
    else if t.GenericPattern? then (if sym.None? then None else GenericArgs(t, a, sym.value))
    else if Bare(t) == Bare(a) then Some(Kids(a))
    else None
  }

  function GoParts(pats: seq<HType>, given: Option<seq<HType>>, vars: set<string>, env: Env, sym: Option<SymTab>): Option<Env>
    requires given.Some? ==> |given.value| == |pats|
  {
    if given.None? then None else GoAll(pats, given.value, vars, env, sym)
  }

  lemma GoIsLeaf(pat: HType, actual: HType, vars: set<string>, env: Env, sym: Option<SymTab>)
    requires Leaf(pat)
    ensures Go(pat, actual, vars, env, sym) == GoParts(Kids(pat), Parts(pat, actual, sym), vars, env, sym)
  {
    LeafParts(pat, actual);
    assert Go(pat, actual, vars, env, sym) == if actual == pat then Some(env) else None;
  }

  lemma GoIsInside(pat: HType, actual: HType, vars: set<string>, env: Env, sym: Option<SymTab>)
    requires !Leaf(pat) && !pat.GenericPattern? && !pat.TyVar?
    ensures Go(pat, actual, vars, env, sym) == GoParts(Kids(pat), Parts(pat, actual, sym), vars, env, sym)
  {
    InsideParts(pat, actual);
    if Inside(pat, actual).Some? {
      var (p, a) := Inside(pat, actual).value;
      GoOne(p, a, vars, env, sym);
      assert Go(pat, actual, vars, env, sym) == Go(p, a, vars, env, sym);
    }
  }

  /** The unifier, uniformly over the constructors. */
  lemma GoIs(pat: HType, actual: HType, vars: set<string>, env: Env, sym: Option<SymTab>)
    requires !pat.TyVar?
    ensures Go(pat, actual, vars, env, sym) == GoParts(Kids(pat), Parts(pat, actual, sym), vars, env, sym)
  {
    if Leaf(pat) { GoIsLeaf(pat, actual, vars, env, sym); }
    else if !pat.GenericPattern? { GoIsInside(pat, actual, vars, env, sym); }
  }

  lemma LeafParts(t: HType, a: HType)
    requires Leaf(t)
    ensures Kids(t) == [] && Handles(t) && !t.GenericPattern?
    ensures Bare(t) == Bare(a) <==> t == a
  {
  }

  lemma InsideParts(t: HType, a: HType)
    requires !Leaf(t) && !t.GenericPattern?
    ensures Inside(t, a).Some? <==> Handles(t) && Bare(t) == Bare(a)
    ensures Inside(t, a).Some? ==> Kids(t) == [Inside(t, a).value.0] && Kids(a) == [Inside(t, a).value.1]
  {
  }

  lemma GoOne(pat: HType, actual: HType, vars: set<string>, env: Env, sym: Option<SymTab>)
    ensures GoAll([pat], [actual], vars, env, sym) == Go(pat, actual, vars, env, sym)
  {
    assert [pat][1..] == [] && [actual][1..] == [];
  }

  // ------------------------------------------------------------- what matching means

  /** `a` is an instance of `t`: the same type, where a generic pattern in `t` may stand
      for a struct or enum that records the template and instances of the arguments. */
  predicate Instance(t: HType, a: HType, sym: SymTab)
    decreases Size(t)
  {
    KidsSmaller(t);
    t == a || (Parts(t, a, Some(sym)).Some? && InstanceAll(Kids(t), Parts(t, a, Some(sym)).value, sym))
  }

  predicate InstanceAll(ts: seq<HType>, given: seq<HType>, sym: SymTab)
    requires |ts| == |given|
    decreases Sizes(ts)
  {
    |ts| == 0 || (Instance(ts[0], given[0], sym) && InstanceAll(ts[1..], given[1..], sym))
  }

  /** `a` is a struct or enum made from the template with these arguments, as the table
      records it, or the generic pattern itself. */
  predicate MadeFrom(a: HType, template: string, isEnum: bool, args: seq<HType>, sym: SymTab) {
    || (a.Struct? && !isEnum && a.id < |sym.structs| && sym.structs[a.id] == Info(Some(template), args))
    || (a.Enum? && isEnum && a.id < |sym.enums| && sym.enums[a.id] == Info(Some(template), args))
    || a == GenericPattern(template, args, isEnum)
  }

  lemma GenericArgsExactly(pat: HType, a: HType, sym: SymTab, args: seq<HType>)
    requires pat.GenericPattern?
    ensures GenericArgs(pat, a, sym) == Some(args) <==> MadeFrom(a, pat.template, pat.isEnum, args, sym) && |args| == |pat.args|
  {
  }

  lemma {:induction false} InstanceEach(ts: seq<HType>, given: seq<HType>, sym: SymTab)
    requires |ts| == |given|
    ensures InstanceAll(ts, given, sym) <==> forall i | 0 <= i < |ts| :: Instance(ts[i], given[i], sym)
    decreases |ts|
  {
    if |ts| > 0 {
      InstanceEach(ts[1..], given[1..], sym);
      if InstanceAll(ts, given, sym) {
        forall i | 0 <= i < |ts| ensures Instance(ts[i], given[i], sym) {
          if i > 0 { assert ts[i] == ts[1..][i - 1] && given[i] == given[1..][i - 1]; }
        }
      } else if forall i | 0 <= i < |ts| :: Instance(ts[i], given[i], sym) {
        forall i | 0 <= i < |ts| - 1 ensures Instance(ts[1..][i], given[1..][i], sym) {
          assert Instance(ts[i + 1], given[i + 1], sym);
        }
      }
    }
  }

  lemma GenericUnfolds(t: HType, a: HType, sym: SymTab)
    requires t.GenericPattern?
    ensures var parts := GenericArgs(t, a, sym);
            Instance(t, a, sym) <==> t == a || (parts.Some? && InstanceAll(t.args, parts.value, sym))
  {
  }

  /** What being an instance of a generic pattern means, */
  lemma GenericInstance(t: HType, a: HType, sym: SymTab)
    requires t.GenericPattern?
    ensures Instance(t, a, sym) <==>
            t == a || exists args :: MadeFrom(a, t.template, t.isEnum, args, sym) && |args| == |t.args| &&
                                     forall i | 0 <= i < |args| :: Instance(t.args[i], args[i], sym)
  {
    hide Instance, InstanceAll, GenericArgs, MadeFrom;
    var parts := GenericArgs(t, a, sym);
    GenericUnfolds(t, a, sym);
    if parts.Some? {
      GenericArgsExactly(t, a, sym, parts.value);
      InstanceEach(t.args, parts.value, sym);
    }
    forall args | MadeFrom(a, t.template, t.isEnum, args, sym) && |args| == |t.args| ensures parts == Some(args) {
      GenericArgsExactly(t, a, sym, args);
    }
  }

  /** of a type with one component, which must be of the same kind, */
  lemma InnerInstance(t: HType, a: HType, sym: SymTab)
    requires t.Ref? || t.Ptr? || t.RawPtr? || t.OwnPtr? || t.Heap?
    ensures Instance(t, a, sym) <==>
            && (if t.Ref? then a.Ref? && a.mutable == t.mutable else if t.Ptr? then a.Ptr? && a.mutable == t.mutable
                else if t.RawPtr? then a.RawPtr? && a.mutable == t.mutable
                else if t.OwnPtr? then a.OwnPtr? && a.mutable == t.mutable else a.Heap?)
            && Instance(t.inner, a.inner, sym)
  {
    if Bare(t) == Bare(a) { InstanceEach(Kids(t), Kids(a), sym); }
  }

  lemma ElementInstance(t: HType, a: HType, sym: SymTab)
    requires t.Array? || t.Slice? || t.Vec?
    ensures Instance(t, a, sym) <==>
            && (if t.Array? then a.Array? && a.len == t.len else if t.Slice? then a.Slice? && a.mutable == t.mutable else a.Vec?)
            && Instance(t.elem, a.elem, sym)
  {
    if Bare(t) == Bare(a) { InstanceEach(Kids(t), Kids(a), sym); }
  }

  /** and of any other type: being that type. */
  lemma OtherInstance(t: HType, a: HType, sym: SymTab)
    requires !t.GenericPattern? && !t.Ref? && !t.Ptr? && !t.RawPtr? && !t.OwnPtr? && !t.Heap? && !t.Array? && !t.Slice? && !t.Vec?
    ensures Instance(t, a, sym) <==> t == a
  {
  }

  /** All of `pat` is within the unifier's reach. */
  predicate Handled(pat: HType, vars: set<string>)
    decreases Size(pat)
  {
    KidsSmaller(pat);
    if pat.TyVar? then pat.name in vars else Handles(pat) && HandledAll(Kids(pat), vars)
  }

  predicate HandledAll(pats: seq<HType>, vars: set<string>)
    decreases Sizes(pats)
  {
    |pats| == 0 || (Handled(pats[0], vars) && HandledAll(pats[1..], vars))
  }

  predicate Extends(big: Env, small: Env) {
    forall n | n in small :: n in big && big[n] == small[n]
  }

  // ------------------------------------------------------------------ what is bound

  /** A match binds exactly the variables of the pattern, and keeps earlier bindings. */
  lemma {:induction false} GoBinds(pat: HType, actual: HType, vars: set<string>, env: Env, sym: Option<SymTab>)
    requires Go(pat, actual, vars, env, sym).Some?
    ensures var r := Go(pat, actual, vars, env, sym).value;
            Extends(r, env) && r.Keys == env.Keys + VarsOf(pat)
    ensures Handled(pat, vars)
    decreases Size(pat)
  {
    if !pat.TyVar? {
      GoIs(pat, actual, vars, env, sym);
      KidsSmaller(pat);
      GoAllBinds(Kids(pat), Parts(pat, actual, sym).value, vars, env, sym);
    }
  }

  lemma {:induction false} GoAllBinds(pats: seq<HType>, actuals: seq<HType>, vars: set<string>, env: Env, sym: Option<SymTab>)
    requires |pats| == |actuals| && GoAll(pats, actuals, vars, env, sym).Some?
    ensures var r := GoAll(pats, actuals, vars, env, sym).value;
            Extends(r, env) && r.Keys == env.Keys + VarsOfAll(pats)
    ensures HandledAll(pats, vars)
    decreases Sizes(pats)
  {
    if |pats| > 0 {
      GoBinds(pats[0], actuals[0], vars, env, sym);
      var next := Go(pats[0], actuals[0], vars, env, sym).value;
      GoAllBinds(pats[1..], actuals[1..], vars, next, sym);
    }
  }

  // -------------------------------------------------------------------- it is sound

  lemma {:induction false} GoSound(pat: HType, actual: HType, vars: set<string>, env: Env, sym: SymTab, full: Env)
    requires var r := Go(pat, actual, vars, env, Some(sym)); r.Some? && Extends(full, r.value)
    ensures Instance(Subst(pat, full), actual, sym)
    decreases Size(pat)
  {
    if !pat.TyVar? {
      GoIs(pat, actual, vars, env, Some(sym));
      KidsSmaller(pat);
      SubstParts(pat, full);
      var given := Parts(pat, actual, Some(sym)).value;
      SubstSees(pat, actual, full, Some(sym));
      GoAllSound(Kids(pat), given, vars, env, sym, full);
    }
  }

  /** A pattern and its substitution see the same parts. */
  lemma SubstSees(pat: HType, actual: HType, full: Env, sym: Option<SymTab>)
    requires !pat.TyVar?
    ensures Parts(Subst(pat, full), actual, sym) == Parts(pat, actual, sym)
  {
    SubstParts(pat, full);
    SameHeadSees(pat, Subst(pat, full), actual, sym);
  }

  lemma SameHeadSees(a: HType, b: HType, t: HType, sym: Option<SymTab>)
    requires Bare(a) == Bare(b) && |Kids(a)| == |Kids(b)|
    ensures Parts(a, t, sym) == Parts(b, t, sym)
  {
    SameHead(a, b);
  }

  lemma SameHead(a: HType, b: HType)
    requires Bare(a) == Bare(b)
    ensures Handles(a) == Handles(b) && a.GenericPattern? == b.GenericPattern?
    ensures a.GenericPattern? ==> a.template == b.template && a.isEnum == b.isEnum
  {
  }

  lemma {:induction false} GoAllSound(pats: seq<HType>, actuals: seq<HType>, vars: set<string>, env: Env, sym: SymTab, full: Env)
    requires |pats| == |actuals|
    requires var r := GoAll(pats, actuals, vars, env, Some(sym)); r.Some? && Extends(full, r.value)
    ensures InstanceAll(SubstAll(pats, full), actuals, sym)
    decreases Sizes(pats)
  {
    if |pats| > 0 {
      var next := Go(pats[0], actuals[0], vars, env, Some(sym)).value;
      GoAllBinds(pats[1..], actuals[1..], vars, next, Some(sym));
      GoSound(pats[0], actuals[0], vars, env, sym, full);
      GoAllSound(pats[1..], actuals[1..], vars, next, sym, full);
      assert SubstAll(pats, full)[1..] == SubstAll(pats[1..], full);
    }
  }

  // ----------------------------------------------------------------- it is complete

  /** A type without generic patterns is an instance of nothing but itself. */
  lemma {:induction false} PlainInstance(t: HType, a: HType, sym: SymTab)
    requires Plain(t) && Instance(t, a, sym)
    ensures t == a
    decreases Size(t)
  {
    if t != a {
      KidsSmaller(t);
      PlainInstances(Kids(t), Kids(a), sym);
      SameParts(t, a);
    }
  }

  lemma {:induction false} PlainInstances(ts: seq<HType>, given: seq<HType>, sym: SymTab)
    requires |ts| == |given| && PlainAll(ts) && InstanceAll(ts, given, sym)
    ensures ts == given
    decreases Sizes(ts)
  {
    if |ts| > 0 {
      PlainInstance(ts[0], given[0], sym);
      PlainInstances(ts[1..], given[1..], sym);
      assert ts == [ts[0]] + ts[1..] && given == [given[0]] + given[1..];
    }
  }

  lemma SeesItself(t: HType, sym: SymTab)
    requires Handles(t)
    ensures Parts(t, t, Some(sym)) == Some(Kids(t))
  {
  }

  lemma {:induction false} AllInstancesOfThemselves(ts: seq<HType>, sym: SymTab)
    ensures InstanceAll(ts, ts, sym)
    decreases |ts|
  {
    if |ts| > 0 { AllInstancesOfThemselves(ts[1..], sym); }
  }

  /** An instance of a type with a head is one part by part. */
  lemma InstanceParts(t: HType, a: HType, sym: SymTab)
    requires Handles(t) && Instance(t, a, sym)
    ensures Parts(t, a, Some(sym)).Some? && InstanceAll(Kids(t), Parts(t, a, Some(sym)).value, sym)
  {
    if t == a {
      SeesItself(t, sym);
      AllInstancesOfThemselves(Kids(t), sym);
    }
  }

  lemma {:induction false} GoComplete(pat: HType, actual: HType, vars: set<string>, env: Env, sym: SymTab, full: Env)
    requires Handled(pat, vars) && PlainEnv(full) && VarsOf(pat) <= full.Keys && Extends(full, env)
    requires Instance(Subst(pat, full), actual, sym)
    ensures var r := Go(pat, actual, vars, env, Some(sym)); r.Some? && Extends(full, r.value)
    decreases Size(pat)
  {
    if pat.TyVar? {
      PlainInstance(full[pat.name], actual, sym);
    } else {
      GoIs(pat, actual, vars, env, Some(sym));
      KidsSmaller(pat);
      SubstParts(pat, full);
      SubstSees(pat, actual, full, Some(sym));
      HandlesSubst(pat, full);
      InstanceParts(Subst(pat, full), actual, sym);
      GoAllComplete(Kids(pat), Parts(pat, actual, Some(sym)).value, vars, env, sym, full);
    }
  }

  lemma HandlesSubst(pat: HType, full: Env)
    requires Handles(pat)
    ensures Handles(Subst(pat, full))
  {
  }

  lemma {:induction false} GoAllComplete(pats: seq<HType>, actuals: seq<HType>, vars: set<string>, env: Env, sym: SymTab, full: Env)
    requires |pats| == |actuals|
    requires HandledAll(pats, vars) && PlainEnv(full) && VarsOfAll(pats) <= full.Keys && Extends(full, env)
    requires InstanceAll(SubstAll(pats, full), actuals, sym)
    ensures var r := GoAll(pats, actuals, vars, env, Some(sym)); r.Some? && Extends(full, r.value)
    decreases Sizes(pats)
  {
    if |pats| > 0 {
      assert SubstAll(pats, full)[1..] == SubstAll(pats[1..], full);
      GoComplete(pats[0], actuals[0], vars, env, sym, full);
      var next := Go(pats[0], actuals[0], vars, env, Some(sym)).value;
      GoAllComplete(pats[1..], actuals[1..], vars, next, sym, full);
    }
  }

  // --------------------------------------------------------------- bindings are plain

  predicate PlainTable(sym: SymTab) {
    && (forall i | 0 <= i < |sym.structs| :: PlainAll(sym.structs[i].args))
    && (forall i | 0 <= i < |sym.enums| :: PlainAll(sym.enums[i].args))
  }

  lemma PlainParts(t: HType, a: HType, sym: SymTab)
    requires Plain(a) && PlainTable(sym) && Parts(t, a, Some(sym)).Some?
    ensures PlainAll(Parts(t, a, Some(sym)).value)
  {
  }

  lemma {:induction false} GoPlain(pat: HType, actual: HType, vars: set<string>, env: Env, sym: SymTab)
    requires Plain(actual) && PlainTable(sym) && PlainEnv(env) && Go(pat, actual, vars, env, Some(sym)).Some?
    ensures PlainEnv(Go(pat, actual, vars, env, Some(sym)).value)
    decreases Size(pat)
  {
    if !pat.TyVar? {
      GoIs(pat, actual, vars, env, Some(sym));
      KidsSmaller(pat);
      PlainParts(pat, actual, sym);
      GoAllPlain(Kids(pat), Parts(pat, actual, Some(sym)).value, vars, env, sym);
    }
  }

  lemma {:induction false} GoAllPlain(pats: seq<HType>, actuals: seq<HType>, vars: set<string>, env: Env, sym: SymTab)
    requires |pats| == |actuals| && PlainAll(actuals) && PlainTable(sym) && PlainEnv(env)
    requires GoAll(pats, actuals, vars, env, Some(sym)).Some?
    ensures PlainEnv(GoAll(pats, actuals, vars, env, Some(sym)).value)
    decreases Sizes(pats)
  {
    if |pats| > 0 {
      GoPlain(pats[0], actuals[0], vars, env, sym);
      GoAllPlain(pats[1..], actuals[1..], vars, Go(pats[0], actuals[0], vars, env, Some(sym)).value, sym);
    }
  }

  // -------------------------------------------------------------------- main results

  /** A substitution of the pattern's variables, by plain types, under which `actual` is
      an instance of the pattern. */
  ghost predicate Solves(full: Env, pat: HType, actual: HType, sym: SymTab) {
    full.Keys == VarsOf(pat) && PlainEnv(full) && Instance(Subst(pat, full), actual, sym)
  }

  /** Matching a program type finds the one substitution there is, and fails only when
      there is none. */
  lemma UnifyExactly(pat: HType, actual: HType, vars: set<string>, sym: SymTab)
    requires Plain(actual) && PlainTable(sym)
    ensures var r := Unify(pat, actual, vars, Some(sym));
            && (r.Some? ==> Handled(pat, vars) && Solves(r.value, pat, actual, sym))
            && (forall full | Handled(pat, vars) && Solves(full, pat, actual, sym) :: r == Some(full))
  {
    var r := Unify(pat, actual, vars, Some(sym));
    if r.Some? {
      GoBinds(pat, actual, vars, map[], Some(sym));
      GoPlain(pat, actual, vars, map[], sym);
      GoSound(pat, actual, vars, map[], sym, r.value);
    }
    forall full | Handled(pat, vars) && Solves(full, pat, actual, sym) ensures r == Some(full) {
      GoComplete(pat, actual, vars, map[], sym, full);
      GoBinds(pat, actual, vars, map[], Some(sym));
      assert r.value == full;
    }
  }

  /** On a pattern without templates, substituting what was found gives the type back. */
  lemma {:induction false} GoReproduces(pat: HType, actual: HType, vars: set<string>, env: Env, sym: Option<SymTab>, full: Env)
    requires Plain(pat)
    requires var r := Go(pat, actual, vars, env, sym); r.Some? && Extends(full, r.value)
    ensures Subst(pat, full) == actual
    decreases Size(pat)
  {
    if !pat.TyVar? {
      GoIs(pat, actual, vars, env, sym);
      KidsSmaller(pat);
      SubstParts(pat, full);
      GoAllReproduces(Kids(pat), Kids(actual), vars, env, sym, full);
      SameParts(Subst(pat, full), actual);
    }
  }

  lemma {:induction false} GoAllReproduces(pats: seq<HType>, actuals: seq<HType>, vars: set<string>, env: Env, sym: Option<SymTab>, full: Env)
    requires |pats| == |actuals| && PlainAll(pats)
    requires var r := GoAll(pats, actuals, vars, env, sym); r.Some? && Extends(full, r.value)
    ensures SubstAll(pats, full) == actuals
    decreases Sizes(pats)
  {
    if |pats| > 0 {
      var next := Go(pats[0], actuals[0], vars, env, sym).value;
      GoAllBinds(pats[1..], actuals[1..], vars, next, sym);
      GoReproduces(pats[0], actuals[0], vars, env, sym, full);
      GoAllReproduces(pats[1..], actuals[1..], vars, next, sym, full);
      var first, rest := actuals[0], actuals[1..];
      assert actuals == [first] + rest;
      assert SubstAll(pats, full) == [first] + rest;
    }
  }

  lemma UnifyReproduces(pat: HType, actual: HType, vars: set<string>, sym: Option<SymTab>)
    requires Plain(pat) && Unify(pat, actual, vars, sym).Some?
    ensures Subst(pat, Unify(pat, actual, vars, sym).value) == actual
  {
    GoReproduces(pat, actual, vars, map[], sym, Unify(pat, actual, vars, sym).value);
  }

  // --------------------------------------------------------------- the unifier itself

  /** The unifier as it runs, filling in one environment. */
  class Matcher {
    const vars: set<string>
    const sym: Option<SymTab>
    var env: Env

    constructor (vars: set<string>, sym: Option<SymTab>)
      ensures this.vars == vars && this.sym == sym && env == map[]
    {
      this.vars, this.sym, env := vars, sym, map[];
    }

    method Run(pat: HType, actual: HType) returns (r: Option<Env>)
      modifies this`env
      ensures r == Go(pat, actual, vars, old(env), sym)
    {
      var ok := Match(pat, actual);
      r := if ok then Some(env) else None;
    }

    method Bind(n: string, actual: HType) returns (ok: bool)
      modifies this`env
      ensures Go(TyVar(n), actual, vars, old(env), sym) == if ok then Some(env) else None
    {
      if n !in vars { return false; }
      if n in env { return env[n] == actual; }
      env := env[n := actual];
      ok := true;
    }

    method Match(pat: HType, actual: HType) returns (ok: bool)
      modifies this`env
      ensures Go(pat, actual, vars, old(env), sym) == if ok then Some(env) else None
      decreases pat, 1
    {
      if pat.TyVar? {
        ok := Bind(pat.name, actual);
        return;
      }
      if pat.GenericPattern? {
        ok := MatchTemplate(pat, actual);
        return;
      }
      if Leaf(pat) { return actual == pat; }
      ok := MatchInside(pat, actual);
    }

    method MatchInside(pat: HType, actual: HType) returns (ok: bool)
      requires !pat.TyVar? && !pat.GenericPattern? && !Leaf(pat)
      modifies this`env
      ensures Go(pat, actual, vars, old(env), sym) == if ok then Some(env) else None
      decreases pat, 0
    {
      var inside := Inside(pat, actual);
      if inside.None? { return false; }
      ok := Match(inside.value.0, inside.value.1);
    }

    method MatchTemplate(pat: HType, actual: HType) returns (ok: bool)
      requires pat.GenericPattern?
      modifies this`env
      ensures Go(pat, actual, vars, old(env), sym) == if ok then Some(env) else None
      decreases pat, 0
    {
      if sym.None? { return false; }
      var given := GenericArgs(pat, actual, sym.value);
      if given.None? { return false; }
      ok := MatchAll(pat.args, given.value);
    }

    method MatchAll(pats: seq<HType>, actuals: seq<HType>) returns (ok: bool)
      requires |pats| == |actuals|
      modifies this`env
      ensures GoAll(pats, actuals, vars, old(env), sym) == if ok then Some(env) else None
      decreases pats
    {
      var i := 0;
      while i < |pats|
        invariant i <= |pats|
        invariant GoAll(pats, actuals, vars, old(env), sym) == GoAll(pats[i..], actuals[i..], vars, env, sym)
      {
        ok := Match(pats[i], actuals[i]);
        if !ok { return; }
        assert pats[i..][1..] == pats[i + 1..] && actuals[i..][1..] == actuals[i + 1..];
        i := i + 1;
      }
      ok := true;
    }
  }

  method ReceiverUnify(pat: HType, actual: HType, vars: set<string>, sym: Option<SymTab>) returns (r: Option<Env>)
    ensures r == Unify(pat, actual, vars, sym)
  {
    var m := new Matcher(vars, sym);
    r := m.Run(pat, actual);
  }
}

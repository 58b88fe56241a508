/** Resolved types, and substitution of type variables in them. */
module HirTypes {
  import opened Options

  datatype HType =
    | Int | Float | Bool | Char | Unit | Str | NullT
    | SizedFloat(bits: nat)
    | SizedInt(signed: bool, bits: nat)
    | Struct(id: nat)
    | Enum(id: nat)
    | Ref(mutable: bool, inner: HType)
    | Ptr(mutable: bool, inner: HType)
    | RawPtr(mutable: bool, inner: HType)
    | OwnPtr(mutable: bool, inner: HType)
    | Heap(inner: HType)
    | Array(len: int, elem: HType)
    | Slice(mutable: bool, elem: HType)
    | Vec(elem: HType)
    | Dyn(traits: seq<string>, locked: bool)
    | FnPtr(ret: HType, params: seq<HType>)
    | TyVar(name: string)
    | GenericPattern(template: string, args: seq<HType>, isEnum: bool)
    | AssocType(on: HType, segment: string, attrHint: Option<string>)
    | RustOpaque(rustName: string)

  type Env = map<string, HType>

  function Subst(t: HType, env: Env): HType
  {
    match t
    case TyVar(n) => if n in env then env[n] else t
    case Ref(m, i) => Ref(m, Subst(i, env))
    case Ptr(m, i) => Ptr(m, Subst(i, env))
    case RawPtr(m, i) => RawPtr(m, Subst(i, env))
    case OwnPtr(m, i) => OwnPtr(m, Subst(i, env))
    case Heap(i) => Heap(Subst(i, env))
    case Array(n, e) => Array(n, Subst(e, env))
    case Slice(m, e) => Slice(m, Subst(e, env))
    case Vec(e) => Vec(Subst(e, env))
    case AssocType(on, segment, hint) => AssocType(Subst(on, env), segment, hint)
    case GenericPattern(n, args, e) => GenericPattern(n, SubstAll(args, env), e)
    case FnPtr(ret, params) => FnPtr(Subst(ret, env), SubstAll(params, env))
    case _ => t
  }

  function SubstAll(ts: seq<HType>, env: Env): (r: seq<HType>)
    ensures |r| == |ts|
    ensures forall i | 0 <= i < |ts| :: r[i] == Subst(ts[i], env)
  {
    if |ts| == 0 then [] else [Subst(ts[0], env)] + SubstAll(ts[1..], env)
  }

  // ------------------------------------------------------------ a type and its parts

  /** The types a type is made of. */
  function Kids(t: HType): seq<HType> {
    match t
    case Ref(_, i) => [i]
    case Ptr(_, i) => [i]
    case RawPtr(_, i) => [i]
    case OwnPtr(_, i) => [i]
    case Heap(i) => [i]
    case Array(_, e) => [e]
    case Slice(_, e) => [e]
    case Vec(e) => [e]
    case AssocType(on, _, _) => [on]
    case GenericPattern(_, args, _) => args
    case FnPtr(ret, params) => [ret] + params
    case _ => []
  }

  /** The type without its parts. */
  function Bare(t: HType): HType {
    match t
    case Ref(m, _) => Ref(m, Unit)
    case Ptr(m, _) => Ptr(m, Unit)
    case RawPtr(m, _) => RawPtr(m, Unit)
    case OwnPtr(m, _) => OwnPtr(m, Unit)
    case Heap(_) => Heap(Unit)
    case Array(n, _) => Array(n, Unit)
    case Slice(m, _) => Slice(m, Unit)
    case Vec(_) => Vec(Unit)
    case AssocType(_, segment, hint) => AssocType(Unit, segment, hint)
    case GenericPattern(n, _, e) => GenericPattern(n, [], e)
    case FnPtr(_, _) => FnPtr(Unit, [])
    case _ => t
  }

  lemma SameParts(a: HType, b: HType)
    requires Bare(a) == Bare(b) && Kids(a) == Kids(b)
    ensures a == b
  {
    if a.FnPtr? {
      assert a.params == Kids(a)[1..] && b.params == Kids(b)[1..];
      assert a.ret == Kids(a)[0] && b.ret == Kids(b)[0];
    } else if |Kids(a)| == 1 && !a.GenericPattern? {
      assert Kids(a)[0] == Kids(b)[0];
    }
  }

  function Size(t: HType): nat {
    match t
    case Ref(_, i) => 2 + Size(i)
    case Ptr(_, i) => 2 + Size(i)
    case RawPtr(_, i) => 2 + Size(i)
    case OwnPtr(_, i) => 2 + Size(i)
    case Heap(i) => 2 + Size(i)
    case Array(_, e) => 2 + Size(e)
    case Slice(_, e) => 2 + Size(e)
    case Vec(e) => 2 + Size(e)
    case AssocType(on, _, _) => 2 + Size(on)
    case GenericPattern(_, args, _) => 1 + Sizes(args)
    case FnPtr(ret, params) => 2 + Size(ret) + Sizes(params)
    case _ => 1
  }

  function Sizes(ts: seq<HType>): nat {
    if |ts| == 0 then 0 else 1 + Size(ts[0]) + Sizes(ts[1..])
  }

  lemma KidsSmaller(t: HType)
    ensures Sizes(Kids(t)) < Size(t)
  {
    if t.FnPtr? {
      assert ([t.ret] + t.params)[1..] == t.params;
    } else if |Kids(t)| == 1 && !t.GenericPattern? {
      assert Kids(t)[1..] == [];
    }
  }

  lemma {:induction false} KidSmaller(ts: seq<HType>, i: nat)
    requires i < |ts|
    ensures Size(ts[i]) < Sizes(ts)
    decreases |ts|
  {
    if i > 0 { KidSmaller(ts[1..], i - 1); }
  }

  lemma SubstFnParts(t: HType, env: Env)
    requires t.FnPtr?
    ensures Kids(Subst(t, env)) == SubstAll(Kids(t), env)
  {
    assert ([t.ret] + t.params)[1..] == t.params;
  }

  lemma SubstPointerParts(t: HType, env: Env)
    requires t.Ref? || t.Ptr? || t.RawPtr? || t.OwnPtr?
    ensures Bare(Subst(t, env)) == Bare(t) && Kids(Subst(t, env)) == SubstAll(Kids(t), env)
  {
    SubstOne(t.inner, env);
    assert Kids(t) == [t.inner];
  }

  lemma SubstListParts(t: HType, env: Env)
    requires t.Array? || t.Slice? || t.Vec?
    ensures Bare(Subst(t, env)) == Bare(t) && Kids(Subst(t, env)) == SubstAll(Kids(t), env)
  {
    SubstOne(t.elem, env);
    assert Kids(t) == [t.elem];
  }

  /** Substitution goes down to the variables and changes nothing on the way. */
  lemma SubstParts(t: HType, env: Env)
    requires !t.TyVar?
    ensures Bare(Subst(t, env)) == Bare(t) && Kids(Subst(t, env)) == SubstAll(Kids(t), env)
  {
    if t.FnPtr? { SubstFnParts(t, env); }
    else if t.Ref? || t.Ptr? || t.RawPtr? || t.OwnPtr? { SubstPointerParts(t, env); }
    else if t.Array? || t.Slice? || t.Vec? { SubstListParts(t, env); }
    else if t.Heap? { SubstOne(t.inner, env); }
    else if t.AssocType? { SubstOne(t.on, env); }
  }

  lemma SubstOne(t: HType, env: Env)
    ensures SubstAll([t], env) == [Subst(t, env)]
  {
    assert [t][1..] == [];
  }

  /** No generic pattern anywhere: a type as it occurs in a program. */
  predicate Plain(t: HType)
    decreases Size(t)
  {
    KidsSmaller(t);
    !t.GenericPattern? && PlainAll(Kids(t))
  }

  predicate PlainAll(ts: seq<HType>)
    decreases Sizes(ts)
  {
    |ts| == 0 || (Plain(ts[0]) && PlainAll(ts[1..]))
  }

  predicate PlainEnv(env: Env) {
    forall n | n in env :: Plain(env[n])
  }

  /** The type variables of `t`. */
  function VarsOf(t: HType): set<string>
    decreases Size(t)
  {
    KidsSmaller(t);
    if t.TyVar? then {t.name} else VarsOfAll(Kids(t))
  }

  function VarsOfAll(ts: seq<HType>): set<string>
    decreases Sizes(ts)
  {
    if |ts| == 0 then {} else VarsOf(ts[0]) + VarsOfAll(ts[1..])
  }
}

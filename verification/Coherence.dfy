/** Coherence of impls: the overlap test against what two patterns can both match. */
module Coherence {
  import opened Options
  import opened HirTypes
  import opened Matching

  datatype Envs = Envs(l: Env, r: Env)

  /** The overlap test: a variable on either side binds to what stands on the other. */
  function Over(l: HType, lv: set<string>, r: HType, rv: set<string>, envs: Envs): Option<Envs>
    decreases l
  {
    if IsVar(l, lv) then
      if l.name in envs.l then (if envs.l[l.name] == r then Some(envs) else None)
      else Some(envs.(l := envs.l[l.name := r]))
    else if IsVar(r, rv) then
      if r.name in envs.r then (if envs.r[r.name] == l then Some(envs) else None)
      else Some(envs.(r := envs.r[r.name := l]))
    else if l.GenericPattern? then
      if r.GenericPattern? && l.template == r.template && l.isEnum == r.isEnum && |l.args| == |r.args| then
        OverAll(l.args, lv, r.args, rv, envs)
      else None
    else if Leaf(l) then (if r == l then Some(envs) else None)
    else
      match Inside(l, r)
      case None => None
      case Some((p, q)) => Over(p, lv, q, rv, envs)
  }

  predicate IsVar(t: HType, vars: set<string>) {
    t.TyVar? && t.name in vars
  }

  function OverAll(ls: seq<HType>, lv: set<string>, rs: seq<HType>, rv: set<string>, envs: Envs): Option<Envs>
    requires |ls| == |rs|
    decreases ls
  {
    if |ls| == 0 then Some(envs)
    else match Over(ls[0], lv, rs[0], rv, envs)
      case None => None
      case Some(next) => OverAll(ls[1..], lv, rs[1..], rv, next)
  }

  /** `patterns_overlap`. */
  predicate Overlap(l: HType, lv: set<string>, r: HType, rv: set<string>) {
    Over(l, lv, r, rv, Envs(map[], map[])).Some?
  }

  // ---------------------------------------------------------------- the same, uniformly

  predicate SameHeads(l: HType, r: HType) {
    Handles(l) && Bare(l) == Bare(r) && |Kids(l)| == |Kids(r)|
  }

  function OverParts(l: HType, lv: set<string>, r: HType, rv: set<string>, envs: Envs): Option<Envs> {
    if SameHeads(l, r) then OverAll(Kids(l), lv, Kids(r), rv, envs) else None
  }

  lemma OverOne(l: HType, lv: set<string>, r: HType, rv: set<string>, envs: Envs)
    ensures OverAll([l], lv, [r], rv, envs) == Over(l, lv, r, rv, envs)
  {
    assert [l][1..] == [] && [r][1..] == [];
  }

  lemma OverIsLeaf(l: HType, lv: set<string>, r: HType, rv: set<string>, envs: Envs)
    requires !IsVar(l, lv) && !IsVar(r, rv) && Leaf(l)
    ensures Over(l, lv, r, rv, envs) == OverParts(l, lv, r, rv, envs)
  {
    LeafParts(l, r);
    assert Over(l, lv, r, rv, envs) == if r == l then Some(envs) else None;
  }

  lemma OverIsInside(l: HType, lv: set<string>, r: HType, rv: set<string>, envs: Envs)
    requires !IsVar(l, lv) && !IsVar(r, rv) && !Leaf(l) && !l.GenericPattern?
    ensures Over(l, lv, r, rv, envs) == OverParts(l, lv, r, rv, envs)
  {
    InsideParts(l, r);
    if Inside(l, r).Some? {
      var (p, q) := Inside(l, r).value;
      OverOne(p, lv, q, rv, envs);
      assert Over(l, lv, r, rv, envs) == Over(p, lv, q, rv, envs);
    }
  }

  /** The overlap test, uniformly over the constructors. */
  lemma OverIs(l: HType, lv: set<string>, r: HType, rv: set<string>, envs: Envs)
    requires !IsVar(l, lv) && !IsVar(r, rv)
    ensures Over(l, lv, r, rv, envs) == OverParts(l, lv, r, rv, envs)
    ensures SameHeads(l, r) ==> !l.TyVar? && !r.TyVar?
  {
    if Leaf(l) { OverIsLeaf(l, lv, r, rv, envs); }
    else if !l.GenericPattern? { OverIsInside(l, lv, r, rv, envs); }
  }

  // ------------------------------------------------------------------ linear patterns

  /** No variable occurs twice. */
  predicate Linear(t: HType)
    decreases Size(t)
  {
    KidsSmaller(t);
    LinearAll(Kids(t))
  }

  predicate LinearAll(ts: seq<HType>)
    decreases Sizes(ts)
  {
    |ts| == 0 || (Linear(ts[0]) && LinearAll(ts[1..]) && VarsOf(ts[0]) !! VarsOfAll(ts[1..]))
  }

  /** Overlap without looking at bindings. */
  predicate Meets(l: HType, lv: set<string>, r: HType, rv: set<string>)
    decreases Size(l)
  {
    KidsSmaller(l);
    IsVar(l, lv) || IsVar(r, rv) || (SameHeads(l, r) && MeetAll(Kids(l), lv, Kids(r), rv))
  }

  predicate MeetAll(ls: seq<HType>, lv: set<string>, rs: seq<HType>, rv: set<string>)
    requires |ls| == |rs|
    decreases Sizes(ls)
  {
    |ls| == 0 || (Meets(ls[0], lv, rs[0], rv) && MeetAll(ls[1..], lv, rs[1..], rv))
  }

  ghost predicate Within(after: Envs, before: Envs, ls: set<string>, rs: set<string>) {
    after.l.Keys <= before.l.Keys + ls && after.r.Keys <= before.r.Keys + rs
  }

  /** A variable that has no binding yet accepts anything. */
  lemma OverVar(l: HType, lv: set<string>, r: HType, rv: set<string>, envs: Envs)
    requires IsVar(l, lv) || IsVar(r, rv)
    requires envs.l.Keys !! VarsOf(l) && envs.r.Keys !! VarsOf(r)
    ensures Over(l, lv, r, rv, envs).Some? && Within(Over(l, lv, r, rv, envs).value, envs, VarsOf(l), VarsOf(r))
  {
    if IsVar(l, lv) {
      assert l.name in VarsOf(l) && l.name !in envs.l;
    } else {
      assert r.name in VarsOf(r) && r.name !in envs.r;
    }
  }

  lemma VarsOfParts(t: HType)
    requires !t.TyVar?
    ensures VarsOf(t) == VarsOfAll(Kids(t)) && (Linear(t) ==> LinearAll(Kids(t)))
  {
  }

  lemma {:induction false} OverLinear(l: HType, lv: set<string>, r: HType, rv: set<string>, envs: Envs)
    requires Linear(l) && Linear(r) && envs.l.Keys !! VarsOf(l) && envs.r.Keys !! VarsOf(r)
    ensures var o := Over(l, lv, r, rv, envs);
            && (o.Some? <==> Meets(l, lv, r, rv))
            && (o.Some? ==> Within(o.value, envs, VarsOf(l), VarsOf(r)))
    decreases Size(l), 1
  {
    if IsVar(l, lv) || IsVar(r, rv) {
      OverVar(l, lv, r, rv, envs);
    } else {
      OverIs(l, lv, r, rv, envs);
      PartsLinear(l, lv, r, rv, envs, Over(l, lv, r, rv, envs));
    }
  }

  lemma {:induction false} PartsLinear(l: HType, lv: set<string>, r: HType, rv: set<string>, envs: Envs, o: Option<Envs>)
    requires !IsVar(l, lv) && !IsVar(r, rv) && (SameHeads(l, r) ==> !l.TyVar? && !r.TyVar?)
    requires Linear(l) && Linear(r) && envs.l.Keys !! VarsOf(l) && envs.r.Keys !! VarsOf(r)
    requires o == OverParts(l, lv, r, rv, envs)
    ensures o.Some? <==> Meets(l, lv, r, rv)
    ensures o.Some? ==> Within(o.value, envs, VarsOf(l), VarsOf(r))
    decreases Size(l), 0
  {
    if SameHeads(l, r) {
      KidsSmaller(l);
      VarsOfParts(l);
      VarsOfParts(r);
      OverAllLinear(Kids(l), lv, Kids(r), rv, envs);
    }
  }

  lemma {:induction false} OverAllLinear(ls: seq<HType>, lv: set<string>, rs: seq<HType>, rv: set<string>, envs: Envs)
    requires |ls| == |rs| && LinearAll(ls) && LinearAll(rs)
    requires envs.l.Keys !! VarsOfAll(ls) && envs.r.Keys !! VarsOfAll(rs)
    ensures OverAll(ls, lv, rs, rv, envs).Some? <==> MeetAll(ls, lv, rs, rv)
    ensures OverAll(ls, lv, rs, rv, envs).Some? ==>
              Within(OverAll(ls, lv, rs, rv, envs).value, envs, VarsOfAll(ls), VarsOfAll(rs))
    decreases Sizes(ls)
  {
    if |ls| > 0 {
      OverLinear(ls[0], lv, rs[0], rv, envs);
      var next := Over(ls[0], lv, rs[0], rv, envs);
      if next.Some? { OverAllLinear(ls[1..], lv, rs[1..], rv, next.value); }
    }
  }

  // ------------------------------------------------------------- matching, structurally

  /** `t` has the shape of `pat`, whatever the variables stand for. */
  predicate Fits(pat: HType, vars: set<string>, t: HType, sym: SymTab)
    decreases Size(pat)
  {
    KidsSmaller(pat);
    if pat.TyVar? then pat.name in vars
    else Parts(pat, t, Some(sym)).Some? && FitsAll(Kids(pat), vars, Parts(pat, t, Some(sym)).value, sym)
  }

  predicate FitsAll(pats: seq<HType>, vars: set<string>, ts: seq<HType>, sym: SymTab)
    requires |pats| == |ts|
    decreases Sizes(pats)
  {
    |pats| == 0 || (Fits(pats[0], vars, ts[0], sym) && FitsAll(pats[1..], vars, ts[1..], sym))
  }

  lemma {:induction false} GoFits(pat: HType, t: HType, vars: set<string>, env: Env, sym: SymTab)
    ensures Go(pat, t, vars, env, Some(sym)).Some? ==> Fits(pat, vars, t, sym)
    ensures Linear(pat) && env.Keys !! VarsOf(pat) && Fits(pat, vars, t, sym) ==> Go(pat, t, vars, env, Some(sym)).Some?
    decreases Size(pat), 1
  {
    if !pat.TyVar? {
      GoIs(pat, t, vars, env, Some(sym));
      PartsFit(pat, t, vars, env, sym, Go(pat, t, vars, env, Some(sym)));
    }
  }

  lemma {:induction false} PartsFit(pat: HType, t: HType, vars: set<string>, env: Env, sym: SymTab, o: Option<Env>)
    requires !pat.TyVar? && o == GoParts(Kids(pat), Parts(pat, t, Some(sym)), vars, env, Some(sym))
    ensures o.Some? ==> Fits(pat, vars, t, sym)
    ensures Linear(pat) && env.Keys !! VarsOf(pat) && Fits(pat, vars, t, sym) ==> o.Some?
    decreases Size(pat), 0
  {
    KidsSmaller(pat);
    VarsOfParts(pat);
    if Parts(pat, t, Some(sym)).Some? {
      GoAllFits(Kids(pat), Parts(pat, t, Some(sym)).value, vars, env, sym);
    }
  }

  lemma {:induction false} GoAllFits(pats: seq<HType>, ts: seq<HType>, vars: set<string>, env: Env, sym: SymTab)
    requires |pats| == |ts|
    ensures GoAll(pats, ts, vars, env, Some(sym)).Some? ==> FitsAll(pats, vars, ts, sym)
    ensures LinearAll(pats) && env.Keys !! VarsOfAll(pats) && FitsAll(pats, vars, ts, sym) ==>
              GoAll(pats, ts, vars, env, Some(sym)).Some?
    decreases Sizes(pats)
  {
    if |pats| > 0 {
      GoFits(pats[0], ts[0], vars, env, sym);
      var next := Go(pats[0], ts[0], vars, env, Some(sym));
      if next.Some? {
        GoBinds(pats[0], ts[0], vars, env, Some(sym));
        GoAllFits(pats[1..], ts[1..], vars, next.value, sym);
      }
    }
  }

  // -------------------------------------------------------------------------- coherence

  /** No struct or enum id in `t` stands for an instance of a template. */
  predicate Templateless(t: HType, sym: SymTab)
    decreases Size(t)
  {
    KidsSmaller(t);
    && (t.Struct? ==> StructInfo(sym, t.id).template == None)
    && (t.Enum? ==> EnumInfo(sym, t.id).template == None)
    && TemplatelessAll(Kids(t), sym)
  }

  predicate TemplatelessAll(ts: seq<HType>, sym: SymTab)
    decreases Sizes(ts)
  {
    |ts| == 0 || (Templateless(ts[0], sym) && TemplatelessAll(ts[1..], sym))
  }

  lemma MixedHeads(l: HType, r: HType, t: HType, sym: SymTab)
    requires l.GenericPattern? && !r.GenericPattern? && Templateless(r, sym) && Parts(l, t, Some(sym)).Some?
    ensures Parts(r, t, Some(sym)) == None
  {
    assert t.Struct? && Bare(r) == Bare(t) ==> r == t;
    assert t.Enum? && Bare(r) == Bare(t) ==> r == t;
  }

  /** Two heads that see parts of the same type are the same head, and see the same. */
  lemma PartsAgree(l: HType, r: HType, t: HType, sym: SymTab)
    requires Templateless(l, sym) && Templateless(r, sym)
    requires Parts(l, t, Some(sym)).Some? && Parts(r, t, Some(sym)).Some?
    ensures SameHeads(l, r) && Parts(l, t, Some(sym)) == Parts(r, t, Some(sym))
  {
    if l.GenericPattern? && !r.GenericPattern? { MixedHeads(l, r, t, sym); }
    if r.GenericPattern? && !l.GenericPattern? { MixedHeads(r, l, t, sym); }
  }

  lemma {:induction false} FitsMeet(l: HType, lv: set<string>, r: HType, rv: set<string>, t: HType, sym: SymTab)
    requires Templateless(l, sym) && Templateless(r, sym)
    requires Fits(l, lv, t, sym) && Fits(r, rv, t, sym)
    ensures Meets(l, lv, r, rv)
    decreases Size(l)
  {
    if !IsVar(l, lv) && !IsVar(r, rv) {
      KidsSmaller(l);
      PartsAgree(l, r, t, sym);
      FitAllMeet(Kids(l), lv, Kids(r), rv, Parts(l, t, Some(sym)).value, sym);
    }
  }

  lemma {:induction false} FitAllMeet(ls: seq<HType>, lv: set<string>, rs: seq<HType>, rv: set<string>, ts: seq<HType>, sym: SymTab)
    requires |ls| == |rs| == |ts| && TemplatelessAll(ls, sym) && TemplatelessAll(rs, sym)
    requires FitsAll(ls, lv, ts, sym) && FitsAll(rs, rv, ts, sym)
    ensures MeetAll(ls, lv, rs, rv)
    decreases Sizes(ls)
  {
    if |ls| > 0 {
      FitsMeet(ls[0], lv, rs[0], rv, ts[0], sym);
      FitAllMeet(ls[1..], lv, rs[1..], rv, ts[1..], sym);
    }
  }

  ghost predicate BothMatch(l: HType, lv: set<string>, r: HType, rv: set<string>, t: HType, sym: SymTab) {
    Unify(l, t, lv, Some(sym)).Some? && Unify(r, t, rv, Some(sym)).Some?
  }

  /** Two patterns the test lets pass never match the same type. */
  lemma Coherent(l: HType, lv: set<string>, r: HType, rv: set<string>, t: HType, sym: SymTab)
    requires Linear(l) && Linear(r) && Templateless(l, sym) && Templateless(r, sym)
    requires !Overlap(l, lv, r, rv)
    ensures Unify(l, t, lv, Some(sym)).None? || Unify(r, t, rv, Some(sym)).None?
  {
    OverLinear(l, lv, r, rv, Envs(map[], map[]));
    if BothMatch(l, lv, r, rv, t, sym) { MatchesMeet(l, lv, r, rv, t, sym); }
  }

  lemma MatchesMeet(l: HType, lv: set<string>, r: HType, rv: set<string>, t: HType, sym: SymTab)
    requires Templateless(l, sym) && Templateless(r, sym) && BothMatch(l, lv, r, rv, t, sym)
    ensures Meets(l, lv, r, rv)
  {
    GoFits(l, t, lv, map[], sym);
    GoFits(r, t, rv, map[], sym);
    FitsMeet(l, lv, r, rv, t, sym);
  }

  // ------------------------------------------------------------- and overlap is no alarm

  /** `t` with other parts. */
  function WithKids(t: HType, kids: seq<HType>): (r: HType)
    requires |kids| == |Kids(t)| && Handles(t)
  {
    match t
    case Ref(m, _) => Ref(m, kids[0])
    case Ptr(m, _) => Ptr(m, kids[0])
    case RawPtr(m, _) => RawPtr(m, kids[0])
    case OwnPtr(m, _) => OwnPtr(m, kids[0])
    case Heap(_) => Heap(kids[0])
    case Array(n, _) => Array(n, kids[0])
    case Slice(m, _) => Slice(m, kids[0])
    case Vec(_) => Vec(kids[0])
    case GenericPattern(n, _, e) => GenericPattern(n, kids, e)
    case _ => t
  }

  lemma WithKidsHas(t: HType, kids: seq<HType>)
    requires |kids| == |Kids(t)| && Handles(t)
    ensures Bare(WithKids(t, kids)) == Bare(t) && Kids(WithKids(t, kids)) == kids
  {
  }

  lemma WithKidsSeen(p: HType, t: HType, kids: seq<HType>, sym: SymTab)
    requires |kids| == |Kids(t)| && SameHeads(p, t)
    ensures Handles(t) && Parts(p, WithKids(t, kids), Some(sym)) == Some(kids)
  {
    SameHead(p, t);
    WithKidsHas(t, kids);
  }

  /** A type, generic instances written with their template, that both patterns match:
      where one has a variable, the other with its own variables set to unit. */
  function Common(l: HType, lv: set<string>, r: HType, rv: set<string>): HType
    requires Meets(l, lv, r, rv)
    decreases Size(l)
  {
    KidsSmaller(l);
    if IsVar(l, lv) then Filled(r, rv)
    else if IsVar(r, rv) then Filled(l, lv)
    else WithKids(l, CommonAll(Kids(l), lv, Kids(r), rv))
  }

  function CommonAll(ls: seq<HType>, lv: set<string>, rs: seq<HType>, rv: set<string>): (r: seq<HType>)
    requires |ls| == |rs| && MeetAll(ls, lv, rs, rv)
    ensures |r| == |ls|
    decreases Sizes(ls)
  {
    if |ls| == 0 then [] else [Common(ls[0], lv, rs[0], rv)] + CommonAll(ls[1..], lv, rs[1..], rv)
  }

  function Filled(t: HType, vars: set<string>): HType
    decreases Size(t)
  {
    KidsSmaller(t);
    if IsVar(t, vars) then Unit
    else if Handles(t) then WithKids(t, FilledAll(Kids(t), vars))
    else t
  }

  function FilledAll(ts: seq<HType>, vars: set<string>): (r: seq<HType>)
    ensures |r| == |ts|
    decreases Sizes(ts)
  {
    if |ts| == 0 then [] else [Filled(ts[0], vars)] + FilledAll(ts[1..], vars)
  }

  lemma {:induction false} FilledFits(t: HType, vars: set<string>, sym: SymTab)
    requires Handled(t, vars)
    ensures Fits(t, vars, Filled(t, vars), sym)
    decreases Size(t)
  {
    if !t.TyVar? {
      KidsSmaller(t);
      WithKidsSeen(t, t, FilledAll(Kids(t), vars), sym);
      FilledAllFit(Kids(t), vars, sym);
    }
  }

  lemma {:induction false} FilledAllFit(ts: seq<HType>, vars: set<string>, sym: SymTab)
    requires HandledAll(ts, vars)
    ensures FitsAll(ts, vars, FilledAll(ts, vars), sym)
    decreases Sizes(ts)
  {
    if |ts| > 0 {
      FilledFits(ts[0], vars, sym);
      FilledAllFit(ts[1..], vars, sym);
      assert FilledAll(ts, vars)[1..] == FilledAll(ts[1..], vars);
    }
  }

  lemma {:induction false} CommonFits(l: HType, lv: set<string>, r: HType, rv: set<string>, sym: SymTab)
    requires Meets(l, lv, r, rv) && Handled(l, lv) && Handled(r, rv)
    ensures Fits(l, lv, Common(l, lv, r, rv), sym) && Fits(r, rv, Common(l, lv, r, rv), sym)
    decreases Size(l)
  {
    if IsVar(l, lv) {
      FilledFits(r, rv, sym);
    } else if IsVar(r, rv) {
      FilledFits(l, lv, sym);
    } else {
      KidsSmaller(l);
      var kids := CommonAll(Kids(l), lv, Kids(r), rv);
      SameHead(l, r);
      WithKidsSeen(l, l, kids, sym);
      WithKidsSeen(r, l, kids, sym);
      CommonAllFit(Kids(l), lv, Kids(r), rv, sym);
    }
  }

  lemma {:induction false} CommonAllFit(ls: seq<HType>, lv: set<string>, rs: seq<HType>, rv: set<string>, sym: SymTab)
    requires |ls| == |rs| && MeetAll(ls, lv, rs, rv) && HandledAll(ls, lv) && HandledAll(rs, rv)
    ensures FitsAll(ls, lv, CommonAll(ls, lv, rs, rv), sym) && FitsAll(rs, rv, CommonAll(ls, lv, rs, rv), sym)
    decreases Sizes(ls)
  {
    if |ls| > 0 {
      CommonFits(ls[0], lv, rs[0], rv, sym);
      CommonAllFit(ls[1..], lv, rs[1..], rv, sym);
      assert CommonAll(ls, lv, rs, rv)[1..] == CommonAll(ls[1..], lv, rs[1..], rv);
    }
  }

  lemma OverlapHasInstance(l: HType, lv: set<string>, r: HType, rv: set<string>, sym: SymTab) returns (t: HType)
    requires Linear(l) && Linear(r) && Handled(l, lv) && Handled(r, rv) && Overlap(l, lv, r, rv)
    ensures BothMatch(l, lv, r, rv, t, sym)
  {
    OverLinear(l, lv, r, rv, Envs(map[], map[]));
    t := Common(l, lv, r, rv);
    CommonFits(l, lv, r, rv, sym);
    GoFits(l, t, lv, map[], sym);
    GoFits(r, t, rv, map[], sym);
  }

  /** On patterns within the unifier's reach, overlap is reported exactly when there is a
      common instance. */
  lemma OverlapExactly(l: HType, lv: set<string>, r: HType, rv: set<string>, sym: SymTab)
    requires Linear(l) && Linear(r) && Templateless(l, sym) && Templateless(r, sym)
    requires Handled(l, lv) && Handled(r, rv)
    ensures Overlap(l, lv, r, rv) <==> exists t :: BothMatch(l, lv, r, rv, t, sym)
  {
    if Overlap(l, lv, r, rv) {
      var t := OverlapHasInstance(l, lv, r, rv, sym);
    } else {
      forall t ensures !BothMatch(l, lv, r, rv, t, sym) {
        Coherent(l, lv, r, rv, t, sym);
      }
    }
  }

  // ------------------------------------------------------------------ the three holes

  lemma GoTwo(p: HType, q: HType, a: HType, b: HType, vars: set<string>, sym: SymTab)
    ensures GoAll([p, q], [a, b], vars, map[], Some(sym)) ==
            if Go(p, a, vars, map[], Some(sym)).None? then None
            else Go(q, b, vars, Go(p, a, vars, map[], Some(sym)).value, Some(sym))
  {
    assert [p, q][1..] == [q] && [a, b][1..] == [b];
    if Go(p, a, vars, map[], Some(sym)).Some? {
      GoOne(q, b, vars, Go(p, a, vars, map[], Some(sym)).value, Some(sym));
    }
  }

  lemma OverTwo(p: HType, q: HType, lv: set<string>, a: HType, b: HType, rv: set<string>, envs: Envs)
    ensures OverAll([p, q], lv, [a, b], rv, envs) ==
            if Over(p, lv, a, rv, envs).None? then None
            else Over(q, lv, b, rv, Over(p, lv, a, rv, envs).value)
  {
    assert [p, q][1..] == [q] && [a, b][1..] == [b];
    if Over(p, lv, a, rv, envs).Some? { OverOne(q, lv, b, rv, Over(p, lv, a, rv, envs).value); }
  }

  function Pair(a: HType, b: HType): HType {
    GenericPattern("Pair", [a, b], false)
  }

  /** A variable used twice: bindings are compared as written, so `Pair<A, A>` and
      `Pair<B, int>` pass although `Pair<int, int>` is both. */
  lemma NonLinearHole(a: HType, b: HType, sym: SymTab)
    requires a == TyVar("A") && b == TyVar("B")
    ensures !Overlap(Pair(a, a), {"A"}, Pair(b, Int), {"B"})
    ensures BothMatch(Pair(a, a), {"A"}, Pair(b, Int), {"B"}, Pair(Int, Int), sym)
  {
    OverTwo(a, a, {"A"}, b, Int, {"B"}, Envs(map[], map[]));
    GoTwo(a, a, Int, Int, {"A"}, sym);
    GoTwo(b, Int, Int, Int, {"B"}, sym);
  }

  /** An instance below the head is compared by its id: `*Box<int>` and `*Box<A>` pass,
      although the first is an instance of the second. */
  lemma NestedInstanceHole(a: HType, sym: SymTab)
    requires a == TyVar("A") && sym.structs == [Info(Some("Box"), [Int])]
    ensures var l, r := Ptr(false, Struct(0)), Ptr(false, GenericPattern("Box", [a], false));
            !Overlap(l, {}, r, {"A"}) && BothMatch(l, {}, r, {"A"}, l, sym)
  {
    var box := GenericPattern("Box", [a], false);
    GoOne(a, Int, {"A"}, map[], Some(sym));
    assert Go(box, Struct(0), {"A"}, map[], Some(sym)) == GoAll([a], [Int], {"A"}, map[], Some(sym));
    assert Over(Struct(0), {}, box, {"A"}, Envs(map[], map[])) == None;
  }

  /** How the caller writes a receiver before the test: an instance at the head becomes
      its template. */
  function Normalized(t: HType, sym: SymTab): HType {
    match t
    case Struct(id) =>
      var info := StructInfo(sym, id);
      if info.template.Some? then GenericPattern(info.template.value, info.args, false) else t
    case Enum(id) =>
      var info := EnumInfo(sym, id);
      if info.template.Some? then GenericPattern(info.template.value, info.args, true) else t
    case _ => t
  }

  /** Normalizing replaces a struct or enum that records a template by the pattern of that
      template and its arguments, and nothing else. */
  lemma NormalizedExactly(t: HType, sym: SymTab)
    ensures forall n, e, args | MadeFrom(t, n, e, args, sym) :: Normalized(t, sym) == GenericPattern(n, args, e)
    ensures Normalized(t, sym) == t || exists n, e, args :: MadeFrom(t, n, e, args, sym)
  {
    if Normalized(t, sym) != t {
      var info := if t.Struct? then StructInfo(sym, t.id) else EnumInfo(sym, t.id);
      assert MadeFrom(t, info.template.value, t.Enum?, info.args, sym);
    }
  }

  /** Sized floats are outside the test's reach: two impls for `Box<f32>` both pass. */
  lemma SizedFloatHole(t: HType, sym: SymTab)
    requires t == Struct(0) && sym.structs == [Info(Some("Box"), [SizedFloat(32)])]
    ensures !Overlap(Normalized(t, sym), {}, Normalized(t, sym), {}) && BothMatch(t, {}, t, {}, t, sym)
  {
    var f := SizedFloat(32);
    OverOne(f, {}, f, {}, Envs(map[], map[]));
    assert Normalized(t, sym) == GenericPattern("Box", [f], false);
  }

  lemma {:induction false} FitsItself(t: HType, vars: set<string>, sym: SymTab)
    requires Handled(t, vars)
    ensures Fits(t, vars, t, sym)
    decreases Size(t)
  {
    if !t.TyVar? {
      KidsSmaller(t);
      FitAllThemselves(Kids(t), vars, sym);
    }
  }

  lemma {:induction false} FitAllThemselves(ts: seq<HType>, vars: set<string>, sym: SymTab)
    requires HandledAll(ts, vars)
    ensures FitsAll(ts, vars, ts, sym)
    decreases Sizes(ts)
  {
    if |ts| > 0 {
      FitsItself(ts[0], vars, sym);
      FitAllThemselves(ts[1..], vars, sym);
    }
  }

  lemma NormalizedFits(t: HType, vars: set<string>, a: HType, sym: SymTab)
    requires Handled(Normalized(t, sym), vars) && Unify(t, a, vars, Some(sym)).Some?
    ensures Fits(Normalized(t, sym), vars, a, sym)
  {
    GoFits(t, a, vars, map[], sym);
    var n := Normalized(t, sym);
    if n != t {
      assert a == t;
      assert Parts(n, t, Some(sym)) == Some(n.args) && Kids(n) == n.args;
      FitAllThemselves(n.args, vars, sym);
    }
  }

  /** With the normalization, impls for instances of templates are covered as well. */
  lemma NormalizedCoherent(l: HType, lv: set<string>, r: HType, rv: set<string>, t: HType, sym: SymTab)
    requires var nl, nr := Normalized(l, sym), Normalized(r, sym);
             && Linear(nl) && Linear(nr) && Templateless(nl, sym) && Templateless(nr, sym)
             && Handled(nl, lv) && Handled(nr, rv) && !Overlap(nl, lv, nr, rv)
    ensures !BothMatch(l, lv, r, rv, t, sym)
  {
    var nl, nr := Normalized(l, sym), Normalized(r, sym);
    OverLinear(nl, lv, nr, rv, Envs(map[], map[]));
    if BothMatch(l, lv, r, rv, t, sym) {
      NormalizedFits(l, lv, t, sym);
      NormalizedFits(r, rv, t, sym);
      FitsMeet(nl, lv, nr, rv, t, sym);
    }
  }
}

/** The language server's analysis cache, as a protocol.  Handlers run concurrently;
    every access to the shared documents, version counter and cache is one atomic step,
    and the steps of different handlers interleave in any order. */
module AnalysisCache {
  import opened Options

  datatype Uri = File(path: nat) | Other(id: nat)
  type Docs = map<Uri, string>

  /** What an analysis is computed from: its own text, and the open file buffers. */
  datatype Input = Input(own: string, open: map<nat, string>)

  datatype Entry = Entry(ver: nat, input: Input)

  type Tid = nat

  /** Where a handler stands. */
  datatype Handler =
    | Writing(uri: Uri, text: string)          // did_open, did_change
    | Closing(uri: Uri)                        // did_close
    | Uncaching(uri: Uri, index: nat)          // the document is gone, its cache entry not yet
    | Bumping(uri: Uri, index: nat, publish: bool)
    | Loading(uri: Uri)                        // analyze
    | Looking(uri: Uri, ver: nat)
    | ReadingOwn(uri: Uri, ver: nat)
    | Collecting(uri: Uri, ver: nat, own: string, open: map<nat, string>, seen: set<Uri>)
    | Storing(uri: Uri, ver: nat, input: Input)
    | Returned(uri: Uri, ver: nat, input: Input)
    | Ended

  /** `history` lists the document states, one per write, and `marks[v]` how many writes
      there had been when the version became `v`; no handler reads either. */
  datatype State = State(
    docs: Docs,
    version: nat,
    cache: map<Uri, Entry>,
    handlers: map<Tid, Handler>,
    history: seq<Docs>,
    marks: seq<nat>)

  const INIT := State(map[], 0, map[], map[], [map[]], [0])

  datatype Step =
    | Arrive(t: Tid, h: Handler)     // a request: an edit, a close or an analysis
    | Advance(t: Tid)
    | Visit(t: Tid, uri: Uri)        // the collecting handler looks at one document
    | Collected(t: Tid)

  function Lookup<K, V>(m: map<K, V>, k: K): Option<V> {
    if k in m then Some(m[k]) else None
  }

  function OwnText(docs: Docs, uri: Uri): string {
    if uri in docs then docs[uri] else ""
  }

  predicate Enabled(s: State, step: Step) {
    match step
    case Arrive(t, h) => t !in s.handlers && (h.Writing? || h.Closing? || h.Loading?)
    case Advance(t) => t in s.handlers && !s.handlers[t].Collecting? && !s.handlers[t].Returned? && !s.handlers[t].Ended?
    case Visit(t, u) => t in s.handlers && s.handlers[t].Collecting? && u !in s.handlers[t].seen
    case Collected(t) => t in s.handlers && s.handlers[t].Collecting? && s.docs.Keys <= s.handlers[t].seen
  }

  function At(s: State, t: Tid, h: Handler): State {
    s.(handlers := s.handlers[t := h])
  }

  /** A write of the document map; the version follows later. */
  function Write(s: State, docs: Docs): State {
    s.(docs := docs, history := s.history + [docs])
  }

  function NextAdvance(s: State, t: Tid): State
    requires Enabled(s, Advance(t))
  {
    match s.handlers[t]
    case Writing(u, text) => At(Write(s, s.docs[u := text]), t, Bumping(u, |s.history|, true))
    case Closing(u) => At(Write(s, s.docs - {u}), t, Uncaching(u, |s.history|))
    case Uncaching(u, k) => At(s.(cache := s.cache - {u}), t, Bumping(u, k, false))
    case Bumping(u, k, publish) =>
      At(s.(version := s.version + 1, marks := s.marks + [if |s.history| > 0 then |s.history| - 1 else 0]), t,
         if publish then Loading(u) else Ended)
    case Loading(u) => At(s, t, Looking(u, s.version))
    case Looking(u, ver) =>
      if u in s.cache && s.cache[u].ver == ver then At(s, t, Returned(u, ver, s.cache[u].input))
      else At(s, t, ReadingOwn(u, ver))
    case ReadingOwn(u, ver) => At(s, t, Collecting(u, ver, OwnText(s.docs, u), map[], {}))
    case Storing(u, ver, input) => At(s.(cache := s.cache[u := Entry(ver, input)]), t, Returned(u, ver, input))
  }

  function Next(s: State, step: Step): State
    requires Enabled(s, step)
  {
    match step
    case Arrive(t, h) => At(s, t, h)
    case Advance(t) => NextAdvance(s, t)
    case Visit(t, u) =>
      var h := s.handlers[t];
      var open := if u.File? && u in s.docs then h.open[u.path := s.docs[u]] else h.open;
      At(s, t, h.(open := open, seen := h.seen + {u}))
    case Collected(t) =>
      var h := s.handlers[t];
      At(s, t, Storing(h.uri, h.ver, Input(h.own, h.open)))
  }

  /** Steps that can be taken one after the other. */
  predicate Legal(s: State, steps: seq<Step>)
    decreases |steps|
  {
    |steps| == 0 || (Enabled(s, steps[0]) && Legal(Next(s, steps[0]), steps[1..]))
  }

  function Run(s: State, steps: seq<Step>): State
    requires Legal(s, steps)
    decreases |steps|
  {
    if |steps| == 0 then s else Run(Next(s, steps[0]), steps[1..])
  }

  ghost predicate Reachable(s: State) {
    exists steps | Legal(INIT, steps) :: Run(INIT, steps) == s
  }

  // ------------------------------------------------------------------- what to expect

  /** The input an analysis of `uri` has when it sees the documents all at once. */
  function InputOf(docs: Docs, uri: Uri): Input {
    Input(OwnText(docs, uri), OpenFiles(docs))
  }

  function OpenFiles(docs: Docs): map<nat, string> {
    map u | u in docs && u.File? :: u.path := docs[u]
  }

  /** An edit that has written its document but not yet bumped the version. */
  predicate Pending(h: Handler, index: nat) {
    (h.Uncaching? || h.Bumping?) && h.index == index
  }

  predicate Quiet(s: State) {
    forall t | t in s.handlers :: !s.handlers[t].Uncaching? && !s.handlers[t].Bumping?
  }

  /** `v` is what `docs` says about document `u` at some point from write `since` on. */
  predicate OwnSince(history: seq<Docs>, since: nat, u: Uri, v: string) {
    exists w | since <= w < |history| :: OwnText(history[w], u) == v
  }

  predicate OpenSince(history: seq<Docs>, since: nat, p: nat, v: Option<string>) {
    exists w | since <= w < |history| :: Lookup(history[w], File(p)) == v
  }

  /** Every document an analysis used was current at some point from `since` on. */
  ghost predicate InputSince(history: seq<Docs>, since: nat, u: Uri, input: Input) {
    && OwnSince(history, since, u, input.own)
    && forall p :: OpenSince(history, since, p, Lookup(input.open, p))
  }

  /** The number of writes made when the version became `ver`. */
  function Mark(s: State, ver: nat): nat {
    if ver < |s.marks| then s.marks[ver] else 0
  }

  // ----------------------------------------------------------------------- invariant

  predicate Clocks(s: State) {
    && |s.history| > 0 && s.history[|s.history| - 1] == s.docs
    && |s.marks| == s.version + 1
    && (forall i | 0 <= i < |s.marks| :: s.marks[i] < |s.history|)
    && (forall i, j | 0 <= i <= j < |s.marks| :: s.marks[i] <= s.marks[j])
  }

  predicate UnderWay(s: State, index: nat) {
    exists t | t in s.handlers :: Pending(s.handlers[t], index)
  }

  /** Every write the current version does not cover is by an edit still under way. */
  ghost predicate Covered(s: State) {
    forall k | Mark(s, s.version) < k < |s.history| :: UnderWay(s, k)
  }

  ghost predicate HandlerOk(s: State, h: Handler) {
    match h
    case Looking(u, ver) => ver <= s.version
    case ReadingOwn(u, ver) => ver <= s.version
    case Collecting(u, ver, own, open, seen) =>
      && ver <= s.version
      && OwnSince(s.history, Mark(s, ver), u, own)
      && (forall p | File(p) in seen :: OpenSince(s.history, Mark(s, ver), p, Lookup(open, p)))
      && (forall p | p in open :: File(p) in seen)
    case Storing(u, ver, input) => ver <= s.version && InputSince(s.history, Mark(s, ver), u, input)
    case Returned(u, ver, input) => ver <= s.version && InputSince(s.history, Mark(s, ver), u, input)
    case _ => true
  }

  ghost predicate Inv(s: State) {
    && Clocks(s)
    && Covered(s)
    && (forall t | t in s.handlers :: HandlerOk(s, s.handlers[t]))
    && (forall u | u in s.cache :: EntryOk(s, u, s.cache[u]))
  }

  ghost predicate EntryOk(s: State, u: Uri, e: Entry) {
    e.ver <= s.version && InputSince(s.history, Mark(s, e.ver), u, e.input)
  }

  /** `b` is `a` some steps later, as far as the clocks go. */
  predicate Grows(a: State, b: State) {
    && Clocks(a) && Clocks(b)
    && a.version <= b.version
    && a.marks == b.marks[..|a.marks|]
    && |a.history| <= |b.history| && a.history == b.history[..|a.history|]
  }

  lemma InputGrows(a: seq<Docs>, b: seq<Docs>, since: nat, u: Uri, input: Input)
    requires |a| <= |b| && a == b[..|a|] && InputSince(a, since, u, input)
    ensures InputSince(b, since, u, input)
  {
    OwnGrows(a, b, since, u, input.own);
    forall p ensures OpenSince(b, since, p, Lookup(input.open, p)) {
      OpenGrows(a, b, since, p, Lookup(input.open, p));
    }
  }

  lemma OwnGrows(a: seq<Docs>, b: seq<Docs>, since: nat, u: Uri, v: string)
    requires |a| <= |b| && a == b[..|a|] && OwnSince(a, since, u, v)
    ensures OwnSince(b, since, u, v)
  {
    var w :| since <= w < |a| && OwnText(a[w], u) == v;
    assert OwnText(b[w], u) == v;
  }

  lemma OpenGrows(a: seq<Docs>, b: seq<Docs>, since: nat, p: nat, v: Option<string>)
    requires |a| <= |b| && a == b[..|a|] && OpenSince(a, since, p, v)
    ensures OpenSince(b, since, p, v)
  {
    var w :| since <= w < |a| && Lookup(a[w], File(p)) == v;
    assert Lookup(b[w], File(p)) == v;
  }

  lemma HandlerGrows(a: State, b: State, h: Handler)
    requires Grows(a, b) && HandlerOk(a, h)
    ensures HandlerOk(b, h)
  {
    match h
    case Collecting(u, ver, own, open, seen) =>
      assert Mark(a, ver) == Mark(b, ver);
      OwnGrows(a.history, b.history, Mark(a, ver), u, own);
      forall p | File(p) in seen ensures OpenSince(b.history, Mark(b, ver), p, Lookup(open, p)) {
        OpenGrows(a.history, b.history, Mark(a, ver), p, Lookup(open, p));
      }
    case Storing(u, ver, input) => InputGrows(a.history, b.history, Mark(a, ver), u, input);
    case Returned(u, ver, input) => InputGrows(a.history, b.history, Mark(a, ver), u, input);
    case _ =>
  }

  lemma EntryGrows(a: State, b: State, u: Uri, e: Entry)
    requires Grows(a, b) && EntryOk(a, u, e)
    ensures EntryOk(b, u, e)
  {
    InputGrows(a.history, b.history, Mark(a, e.ver), u, e.input);
  }

  /** A step by one handler keeps what holds of all the others. */
  lemma OthersKept(a: State, b: State, t: Tid)
    requires Inv(a) && Grows(a, b) && t in b.handlers && HandlerOk(b, b.handlers[t])
    requires forall x | x in b.handlers && x != t :: x in a.handlers && a.handlers[x] == b.handlers[x]
    requires forall u | u in b.cache :: (u in a.cache && a.cache[u] == b.cache[u]) || EntryOk(b, u, b.cache[u])
    requires Covered(b)
    ensures Inv(b)
  {
    forall x | x in b.handlers ensures HandlerOk(b, b.handlers[x]) {
      if x != t { HandlerGrows(a, b, a.handlers[x]); }
    }
    forall u | u in b.cache ensures EntryOk(b, u, b.cache[u]) {
      if u in a.cache && a.cache[u] == b.cache[u] { EntryGrows(a, b, u, a.cache[u]); }
    }
  }

  /** Edits other than `t`'s stay under way. */
  lemma CoveredKept(a: State, b: State, t: Tid, index: nat)
    requires UnderWay(a, index) && !(t in a.handlers && Pending(a.handlers[t], index))
    requires forall x | x in a.handlers && x != t :: x in b.handlers && b.handlers[x] == a.handlers[x]
    ensures UnderWay(b, index)
  {
    var x :| x in a.handlers && Pending(a.handlers[x], index);
    assert x in b.handlers && Pending(b.handlers[x], index);
  }

  predicate OnlyMoves(a: State, b: State, t: Tid, h: Handler) {
    b.handlers == a.handlers[t := h]
  }

  /** A step that writes no document and bumps no version. */
  lemma KeptQuietly(a: State, b: State, t: Tid, h: Handler)
    requires Inv(a) && OnlyMoves(a, b, t, h) && HandlerOk(b, h)
    requires b.docs == a.docs && b.version == a.version && b.history == a.history && b.marks == a.marks
    requires forall u | u in b.cache :: (u in a.cache && a.cache[u] == b.cache[u]) || EntryOk(b, u, b.cache[u])
    requires forall k | t in a.handlers && Pending(a.handlers[t], k) :: Pending(h, k)
    ensures Inv(b)
  {
    assert a.history == b.history[..|a.history|] && a.marks == b.marks[..|a.marks|];
    forall k | Mark(b, b.version) < k < |b.history| ensures UnderWay(b, k) {
      assert UnderWay(a, k);
      if t in a.handlers && Pending(a.handlers[t], k) {
        assert t in b.handlers && Pending(b.handlers[t], k);
      } else {
        CoveredKept(a, b, t, k);
      }
    }
    OthersKept(a, b, t);
  }

  lemma KeptByWrite(a: State, docs: Docs, t: Tid, h: Handler)
    requires Inv(a) && t in a.handlers && (a.handlers[t].Writing? || a.handlers[t].Closing?)
    requires Pending(h, |a.history|)
    ensures Inv(At(Write(a, docs), t, h))
  {
    var b := At(Write(a, docs), t, h);
    assert a.history == b.history[..|a.history|] && a.marks == b.marks[..|a.marks|];
    forall k | Mark(b, b.version) < k < |b.history| ensures UnderWay(b, k) {
      if k == |a.history| {
        assert t in b.handlers && Pending(b.handlers[t], k);
      } else {
        assert UnderWay(a, k);
        CoveredKept(a, b, t, k);
      }
    }
    OthersKept(a, b, t);
  }

  lemma KeptByBump(a: State, t: Tid)
    requires Inv(a) && t in a.handlers && a.handlers[t].Bumping?
    ensures Inv(NextAdvance(a, t))
  {
    var b := NextAdvance(a, t);
    assert a.history == b.history[..|a.history|] && a.marks == b.marks[..|a.marks|];
    OthersKept(a, b, t);
  }

  lemma KeptByVisit(a: State, t: Tid, u: Uri)
    requires Inv(a) && Enabled(a, Visit(t, u))
    ensures Inv(Next(a, Visit(t, u)))
  {
    var b := Next(a, Visit(t, u));
    var h, h' := a.handlers[t], b.handlers[t];
    assert HandlerOk(a, h);
    forall p | File(p) in h'.seen ensures OpenSince(b.history, Mark(b, h.ver), p, Lookup(h'.open, p)) {
      if u == File(p) {
        var w := |b.history| - 1;
        assert p !in h.open;
        assert Lookup(b.history[w], u) == Lookup(h'.open, p);
      } else {
        assert Lookup(h'.open, p) == Lookup(h.open, p);
      }
    }
    KeptQuietly(a, b, t, h');
  }

  lemma KeptByCollected(a: State, t: Tid)
    requires Inv(a) && Enabled(a, Collected(t))
    ensures Inv(Next(a, Collected(t)))
  {
    var b := Next(a, Collected(t));
    var h := a.handlers[t];
    assert HandlerOk(a, h);
    forall p ensures OpenSince(a.history, Mark(a, h.ver), p, Lookup(h.open, p)) {
      if File(p) !in h.seen {
        assert Lookup(a.history[|a.history| - 1], File(p)) == None == Lookup(h.open, p);
      }
    }
    KeptQuietly(a, b, t, b.handlers[t]);
  }

  lemma KeptByAdvance(a: State, t: Tid)
    requires Inv(a) && Enabled(a, Advance(t))
    ensures Inv(NextAdvance(a, t))
  {
    var b := NextAdvance(a, t);
    assert HandlerOk(a, a.handlers[t]);
    match a.handlers[t]
    case Writing(u, text) => KeptByWrite(a, a.docs[u := text], t, Bumping(u, |a.history|, true));
    case Closing(u) => KeptByWrite(a, a.docs - {u}, t, Uncaching(u, |a.history|));
    case Bumping(_, _, _) => KeptByBump(a, t);
    case ReadingOwn(u, ver) =>
      assert OwnText(a.history[|a.history| - 1], u) == OwnText(a.docs, u);
      KeptQuietly(a, b, t, b.handlers[t]);
    case Looking(u, ver) =>
      if u in a.cache { assert EntryOk(a, u, a.cache[u]); }
      KeptQuietly(a, b, t, b.handlers[t]);
    case Uncaching(_, _) => KeptQuietly(a, b, t, b.handlers[t]);
    case Loading(_) => KeptQuietly(a, b, t, b.handlers[t]);
    case Storing(_, _, _) => KeptQuietly(a, b, t, b.handlers[t]);
  }

  lemma StepKeeps(a: State, step: Step)
    requires Inv(a) && Enabled(a, step)
    ensures Inv(Next(a, step))
  {
    match step
    case Arrive(t, h) => KeptQuietly(a, Next(a, step), t, h);
    case Advance(t) => KeptByAdvance(a, t);
    case Visit(t, u) => KeptByVisit(a, t, u);
    case Collected(t) => KeptByCollected(a, t);
  }

  lemma {:induction false} RunKeeps(s: State, steps: seq<Step>)
    requires Inv(s) && Legal(s, steps)
    ensures Inv(Run(s, steps))
    decreases |steps|
  {
    if |steps| > 0 {
      StepKeeps(s, steps[0]);
      RunKeeps(Next(s, steps[0]), steps[1..]);
    }
  }

  lemma ReachableInv(s: State)
    requires Reachable(s)
    ensures Inv(s)
  {
    var steps :| Legal(INIT, steps) && Run(INIT, steps) == s;
    RunKeeps(INIT, steps);
  }

  // --------------------------------------------------------------------- main results

  /** When no edit is under way, a cache entry tagged with the current version was
      computed from exactly the current documents. */
  lemma CacheCoherent(s: State, u: Uri)
    requires Reachable(s) && Quiet(s) && u in s.cache && s.cache[u].ver == s.version
    ensures s.cache[u].input == InputOf(s.docs, u)
  {
    ReachableInv(s);
    assert EntryOk(s, u, s.cache[u]);
    CurrentInput(s, u, s.cache[u].input);
  }

  /** Likewise for what an analysis returns. */
  lemma ResultCoherent(s: State, t: Tid)
    requires Reachable(s) && Quiet(s) && t in s.handlers
    requires s.handlers[t].Returned? && s.handlers[t].ver == s.version
    ensures s.handlers[t].input == InputOf(s.docs, s.handlers[t].uri)
  {
    ReachableInv(s);
    assert HandlerOk(s, s.handlers[t]);
    CurrentInput(s, s.handlers[t].uri, s.handlers[t].input);
  }

  lemma CurrentInput(s: State, u: Uri, input: Input)
    requires Inv(s) && Quiet(s) && InputSince(s.history, Mark(s, s.version), u, input)
    ensures input == InputOf(s.docs, u)
  {
    var last := |s.history| - 1;
    assert !UnderWay(s, last);
    assert Mark(s, s.version) >= last;
    forall p ensures Lookup(input.open, p) == Lookup(OpenFiles(s.docs), p) {
      assert OpenSince(s.history, last, p, Lookup(input.open, p));
      assert Lookup(s.docs, File(p)) == Lookup(OpenFiles(s.docs), p);
    }
    SameMap(input.open, OpenFiles(s.docs));
  }

  lemma SameMap(a: map<nat, string>, b: map<nat, string>)
    requires forall p :: Lookup(a, p) == Lookup(b, p)
    ensures a == b
  {
    forall p ensures p in a <==> p in b {
      assert Lookup(a, p) == Lookup(b, p);
    }
    forall p | p in a ensures a[p] == b[p] {
      assert Lookup(a, p) == Lookup(b, p);
    }
  }

  lemma StepExtends(a: State, step: Step)
    requires Enabled(a, step)
    ensures var b := Next(a, step);
            && a.version <= b.version
            && |a.marks| <= |b.marks| && a.marks == b.marks[..|a.marks|]
            && |a.history| <= |b.history| && a.history == b.history[..|a.history|]
  {
    var b := Next(a, step);
    assert b.history == a.history || b.history == a.history + [b.docs];
    assert b.marks == a.marks || |b.marks| == |a.marks| + 1;
  }

  lemma StepGrows(a: State, step: Step)
    requires Inv(a) && Enabled(a, step)
    ensures Grows(a, Next(a, step)) && Inv(Next(a, step))
  {
    StepKeeps(a, step);
    StepExtends(a, step);
  }

  lemma GrowsFurther(a: State, b: State, c: State)
    requires Grows(a, b) && Grows(b, c)
    ensures Grows(a, c)
  {
    assert b.history[..|a.history|] == c.history[..|b.history|][..|a.history|] == c.history[..|a.history|];
    assert b.marks[..|a.marks|] == c.marks[..|b.marks|][..|a.marks|] == c.marks[..|a.marks|];
  }

  /** An analysis of `u` that has yet to load the version, or loaded `since` or later. */
  predicate CallSince(h: Handler, u: Uri, since: nat) {
    match h
    case Loading(v) => u == v
    case Looking(v, ver) => u == v && ver >= since
    case ReadingOwn(v, ver) => u == v && ver >= since
    case Collecting(v, ver, _, _, _) => u == v && ver >= since
    case Storing(v, ver, _) => u == v && ver >= since
    case Returned(v, ver, _) => u == v && ver >= since
    case _ => false
  }

  lemma CallSteps(s: State, step: Step, t: Tid, u: Uri, since: nat)
    requires Enabled(s, step) && since <= s.version
    requires t in s.handlers && CallSince(s.handlers[t], u, since)
    ensures var n := Next(s, step);
            t in n.handlers && CallSince(n.handlers[t], u, since)
  {
  }

  lemma {:induction false} CallRuns(s: State, steps: seq<Step>, t: Tid, u: Uri, since: nat)
    requires Inv(s) && Legal(s, steps) && since <= s.version
    requires t in s.handlers && CallSince(s.handlers[t], u, since)
    ensures var e := Run(s, steps);
            Inv(e) && Grows(s, e) && t in e.handlers && CallSince(e.handlers[t], u, since)
    decreases |steps|
  {
    if |steps| == 0 {
      assert s.history == s.history[..|s.history|] && s.marks == s.marks[..|s.marks|];
    } else {
      var n := Next(s, steps[0]);
      StepGrows(s, steps[0]);
      CallSteps(s, steps[0], t, u, since);
      CallRuns(n, steps[1..], t, u, since);
      GrowsFurther(s, n, Run(n, steps[1..]));
    }
  }

  /** Whatever runs beside it, an analysis that starts after an edit has finished never
      uses an older text of any document, from the cache or not. */
  lemma CallSeesFinishedEdits(s: State, steps: seq<Step>, t: Tid, index: nat)
    requires Reachable(s) && Legal(s, steps) && t in s.handlers && s.handlers[t].Loading?
    requires index < |s.history| && !UnderWay(s, index)
    ensures var e := Run(s, steps);
            t in e.handlers && (e.handlers[t].Returned? ==>
              && e.handlers[t].uri == s.handlers[t].uri
              && InputSince(e.history, index, e.handlers[t].uri, e.handlers[t].input))
  {
    ReachableInv(s);
    var e := Run(s, steps);
    CallRuns(s, steps, t, s.handlers[t].uri, s.version);
    if e.handlers[t].Returned? {
      var h := e.handlers[t];
      assert HandlerOk(e, h);
      assert Mark(s, s.version) == Mark(e, s.version) <= Mark(e, h.ver);
      assert index <= Mark(s, s.version);
      SinceEarlier(e.history, index, Mark(e, h.ver), h.uri, h.input);
    }
  }

  lemma SinceEarlier(history: seq<Docs>, early: nat, late: nat, u: Uri, input: Input)
    requires early <= late && InputSince(history, late, u, input)
    ensures InputSince(history, early, u, input)
  {
    var w :| late <= w < |history| && OwnText(history[w], u) == input.own;
    forall p ensures OpenSince(history, early, p, Lookup(input.open, p)) {
      assert OpenSince(history, late, p, Lookup(input.open, p));
      var v :| late <= v < |history| && Lookup(history[v], File(p)) == Lookup(input.open, p);
    }
  }

  // ------------------------------------------------ why an edit under way is excluded

  lemma ReachOn(s: State, step: Step) returns (n: State)
    requires Reachable(s) && Enabled(s, step)
    ensures n == Next(s, step) && Reachable(n)
  {
    n := Next(s, step);
    var steps :| Legal(INIT, steps) && Run(INIT, steps) == s;
    RunOn(INIT, steps, step);
  }

  lemma {:induction false} RunOn(s: State, steps: seq<Step>, step: Step)
    requires Legal(s, steps) && Enabled(Run(s, steps), step)
    ensures Legal(s, steps + [step]) && Run(s, steps + [step]) == Next(Run(s, steps), step)
    decreases |steps|
  {
    var all := steps + [step];
    if |steps| == 0 {
      assert all[1..] == [];
    } else {
      assert all[1..] == steps[1..] + [step];
      RunOn(Next(s, steps[0]), steps[1..], step);
    }
  }

  /** The initial state with one analysis handler in it. */
  function Alone(h: Handler): State {
    INIT.(handlers := map[0 := h])
  }

  lemma ReachAlone(h: Handler, step: Step, next: Handler)
    requires Reachable(Alone(h)) && Enabled(Alone(h), step) && Next(Alone(h), step) == Alone(next)
    ensures Reachable(Alone(next))
  {
    var n := ReachOn(Alone(h), step);
  }

  /** An analysis of a document nobody has opened, as far as its reads. */
  lemma CollectedEmpty(u: Uri)
    ensures Reachable(Alone(Storing(u, 0, Input("", map[]))))
  {
    assert Legal(INIT, []) && Run(INIT, []) == INIT;
    var s := ReachOn(INIT, Arrive(0, Loading(u)));
    assert s == Alone(Loading(u));
    ReachAlone(Loading(u), Advance(0), Looking(u, 0));
    ReachAlone(Looking(u, 0), Advance(0), ReadingOwn(u, 0));
    ReachAlone(ReadingOwn(u, 0), Advance(0), Collecting(u, 0, "", map[], {}));
    ReachAlone(Collecting(u, 0, "", map[], {}), Collected(0), Storing(u, 0, Input("", map[])));
  }

  /** Between an edit's write and its bump, an entry tagged with the current version can
      be out of date. */
  lemma StaleDuringEdit() returns (s: State)
    ensures Reachable(s) && File(0) in s.cache
    ensures s.cache[File(0)].ver == s.version && s.cache[File(0)].input != InputOf(s.docs, File(0))
  {
    CollectedEmpty(File(0));
    s := ReachOn(Alone(Storing(File(0), 0, Input("", map[]))), Advance(0));
    s := ReachOn(s, Arrive(1, Writing(File(0), "x")));
    s := ReachOn(s, Advance(1));
    assert s.cache[File(0)].input.own == "" && OwnText(s.docs, File(0)) == "x";
  }
}

/** Which globals a function can write, through whatever it calls: the fixpoint, and the
    report of threads that race on one. */
module GlobalRaces {
  import opened CallGraph
  import opened Sorting

  type Writes = map<nat, set<nat>>

  /** Some function that `f` reaches writes `global` itself. */
  ghost predicate CanWrite(direct: Writes, calls: Graph, f: nat, global: nat) {
    exists h :: h in direct && global in direct[h] && Reaches(calls, f, h)
  }

  /** Every set holds only what can be written, and at least what is written directly. */
  ghost predicate Sound(direct: Writes, calls: Graph, writes: Writes) {
    && writes.Keys == direct.Keys
    && (forall f | f in direct :: direct[f] <= writes[f])
    && (forall f, w | f in writes && w in writes[f] :: CanWrite(direct, calls, f, w))
  }

  /** Whatever a callee writes its caller has. */
  predicate ClosedAt(calls: Graph, writes: Writes, f: nat) {
    f in writes && f in calls ==> forall c | c in calls[f] && c in writes :: writes[c] <= writes[f]
  }

  ghost predicate Closed(calls: Graph, writes: Writes) {
    forall f :: ClosedAt(calls, writes, f)
  }

  lemma CanWriteThrough(direct: Writes, calls: Graph, f: nat, c: nat, w: nat)
    requires Edge(calls, f, c) && CanWrite(direct, calls, c, w)
    ensures CanWrite(direct, calls, f, w)
  {
    var h :| h in direct && w in direct[h] && Reaches(calls, c, h);
    ReachesBefore(calls, f, c, h);
  }

  lemma {:induction false} ClosedAlong(direct: Writes, calls: Graph, writes: Writes, p: seq<nat>, h: nat)
    requires calls.Keys == direct.Keys && Sound(direct, calls, writes) && Closed(calls, writes)
    requires IsPath(calls, p) && p[|p| - 1] == h && h in direct
    ensures p[0] in writes && direct[h] <= writes[p[0]]
    decreases |p|
  {
    if |p| > 1 {
      assert Edge(calls, p[0], p[1]);
      var q := p[1..];
      forall i | 0 <= i < |q| - 1 ensures Edge(calls, q[i], q[i + 1]) {
        assert Edge(calls, p[i + 1], p[i + 2]);
      }
      ClosedAlong(direct, calls, writes, q, h);
      assert ClosedAt(calls, writes, p[0]);
    }
  }

  /** Sound and closed sets are exact. */
  lemma ExactWhenClosed(direct: Writes, calls: Graph, writes: Writes)
    requires calls.Keys == direct.Keys && Sound(direct, calls, writes) && Closed(calls, writes)
    ensures forall f, w | f in writes :: w in writes[f] <==> CanWrite(direct, calls, f, w)
  {
    forall f, w | f in writes && CanWrite(direct, calls, f, w) ensures w in writes[f] {
      var h :| h in direct && w in direct[h] && Reaches(calls, f, h);
      var p :| PathFrom(calls, p, f, h);
      ClosedAlong(direct, calls, writes, p, h);
    }
  }

  /** What the callees of `f` are known to write. */
  function CalleeWrites(calls: Graph, writes: Writes, f: nat): set<nat>
    requires f in calls
  {
    set c, w | c in calls[f] && c in writes && w in writes[c] :: w
  }

  /** All the globals anything writes. */
  function AllWrites(direct: Writes): set<nat> {
    set f, w | f in direct && w in direct[f] :: w
  }

  function Missing(direct: Writes, writes: Writes): set<(nat, nat)> {
    set f, w | f in direct && w in AllWrites(direct) && !(f in writes && w in writes[f]) :: (f, w)
  }

  lemma CanWriteKnown(direct: Writes, calls: Graph, f: nat, w: nat)
    requires CanWrite(direct, calls, f, w)
    ensures w in AllWrites(direct)
  {
  }

  lemma AbsorbSound(direct: Writes, calls: Graph, writes: Writes, f: nat, more: set<nat>)
    requires calls.Keys == direct.Keys && Sound(direct, calls, writes) && f in calls
    requires more == CalleeWrites(calls, writes, f)
    ensures Sound(direct, calls, writes[f := writes[f] + more])
    ensures forall w | w in more :: CanWrite(direct, calls, f, w)
  {
    forall w | w in more ensures CanWrite(direct, calls, f, w) {
      var c :| c in calls[f] && c in writes && w in writes[c];
      assert Edge(calls, f, c);
      CanWriteThrough(direct, calls, f, c, w);
    }
  }

  lemma MissingShrinks(direct: Writes, writes: Writes, f: nat, more: set<nat>, w: nat)
    requires writes.Keys == direct.Keys && f in writes && w in more && w !in writes[f] && w in AllWrites(direct)
    ensures Missing(direct, writes[f := writes[f] + more]) < Missing(direct, writes)
  {
    var after := writes[f := writes[f] + more];
    assert (f, w) in Missing(direct, writes) && (f, w) !in Missing(direct, after);
  }

  /** One function of a pass: take over what the callees write. */
  method Absorb(calls: Graph, ghost direct: Writes, writes: Writes, f: nat) returns (after: Writes, changed: bool)
    requires calls.Keys == direct.Keys && Sound(direct, calls, writes) && f in calls
    ensures Sound(direct, calls, after)
    ensures !changed ==> after == writes && ClosedAt(calls, after, f)
    ensures changed ==> Missing(direct, after) < Missing(direct, writes)
  {
    var more := CalleeWrites(calls, writes, f);
    changed := !(more <= writes[f]);
    AbsorbSound(direct, calls, writes, f, more);
    after := writes;
    if changed {
      ghost var w :| w in more && w !in writes[f];
      CanWriteKnown(direct, calls, f, w);
      MissingShrinks(direct, writes, f, more, w);
      after := writes[f := writes[f] + more];
    }
  }

  /** One pass over all functions. */
  method Pass(ghost direct: Writes, calls: Graph, order: seq<nat>, start: Writes) returns (writes: Writes, changed: bool)
    requires calls.Keys == direct.Keys && (set f | f in order) == calls.Keys && Sound(direct, calls, start)
    ensures Sound(direct, calls, writes)
    ensures !changed ==> writes == start && Closed(calls, writes)
    ensures changed ==> Missing(direct, writes) < Missing(direct, start)
  {
    hide Sound, Missing, CanWrite;
    writes, changed := start, false;
    for i := 0 to |order|
      invariant Sound(direct, calls, writes)
      invariant !changed ==> writes == start && forall k | 0 <= k < i :: ClosedAt(calls, start, order[k])
      invariant changed ==> Missing(direct, writes) < Missing(direct, start)
    {
      assert order[i] in calls.Keys;
      var grew: bool;
      writes, grew := Absorb(calls, direct, writes, order[i]);
      changed := changed || grew;
    }
    forall f | !changed ensures ClosedAt(calls, writes, f) {
      if f in calls { assert f in order; }
    }
  }

  lemma DirectIsSound(direct: Writes, calls: Graph)
    ensures Sound(direct, calls, direct)
  {
    forall f, w | f in direct && w in direct[f] ensures CanWrite(direct, calls, f, w) {
      ReachesItself(calls, f);
    }
  }

  /** The fixpoint; `order` is the order in which a pass visits the functions. */
  method TransitiveWrites(direct: Writes, calls: Graph, order: seq<nat>) returns (writes: Writes)
    requires calls.Keys == direct.Keys && (set f | f in order) == calls.Keys
    ensures writes.Keys == direct.Keys
    ensures forall f, w | f in writes :: w in writes[f] <==> CanWrite(direct, calls, f, w)
  {
    writes := direct;
    DirectIsSound(direct, calls);
    var changed := true;
    while changed
      invariant Sound(direct, calls, writes)
      invariant !changed ==> Closed(calls, writes)
      decreases Missing(direct, writes), changed
    {
      writes, changed := Pass(direct, calls, order, writes);
    }
    ExactWhenClosed(direct, calls, writes);
  }

  // --------------------------------------------------------------------- the report

  datatype Race = Race(spawn: nat, global: nat)

  /** The thread body of spawn `i` can write the mutable global `w`. */
  ghost predicate Races(direct: Writes, calls: Graph, mutables: set<nat>, spawns: seq<nat>, i: nat, w: nat) {
    i < |spawns| && w in mutables && spawns[i] in direct && CanWrite(direct, calls, spawns[i], w)
  }

  /** Each global any thread body can write is reported once, at the first spawn whose
      body can; nothing else is. */
  ghost predicate ReportedUpTo(direct: Writes, calls: Graph, mutables: set<nat>, spawns: seq<nat>, n: nat, races: seq<Race>) {
    && (forall r | r in races :: r.spawn < n && Races(direct, calls, mutables, spawns, r.spawn, r.global)
                                 && forall i | 0 <= i < r.spawn :: !Races(direct, calls, mutables, spawns, i, r.global))
    && (forall i, w | 0 <= i < n && Races(direct, calls, mutables, spawns, i, w) :: exists r :: r in races && r.global == w)
    && (forall a, b | 0 <= a < b < |races| :: races[a].global != races[b].global)
  }

  method ReportRaces(direct: Writes, calls: Graph, order: seq<nat>, mutables: set<nat>, spawns: seq<nat>) returns (races: seq<Race>)
    requires calls.Keys == direct.Keys && (set f | f in order) == calls.Keys
    ensures ReportedUpTo(direct, calls, mutables, spawns, |spawns|, races)
  {
    var writes := TransitiveWrites(direct, calls, order);
    races := [];
    var reported: set<nat> := {};
    for i := 0 to |spawns|
      invariant ReportedUpTo(direct, calls, mutables, spawns, i, races) && Names(reported, races)
    {
      if spawns[i] in writes {
        ghost var before, seen := races, reported;
        races, reported := ReportSpawn(mutables, i, writes[spawns[i]], races, reported);
        ReportGrows(direct, calls, mutables, spawns, i, writes[spawns[i]], before, seen, races, reported);
      }
    }
  }

  /** The races of the spawn just looked at come on top of those reported before. */
  ghost predicate Adds(mutables: set<nat>, i: nat, globals: set<nat>, before: seq<Race>, races: seq<Race>) {
    && |before| <= |races| && before == races[..|before|]
    && (forall k | |before| <= k < |races| ::
          races[k].spawn == i && races[k].global in globals && races[k].global in mutables)
    && (forall a, b | 0 <= a < b < |races| :: races[a].global != races[b].global)
  }

  ghost predicate Names(reported: set<nat>, races: seq<Race>) {
    forall w :: w in reported <==> exists r :: r in races && r.global == w
  }

  /** One spawn: report the mutable globals it can write that are not reported yet. */
  method ReportSpawn(mutables: set<nat>, i: nat, globals: set<nat>, before: seq<Race>, seen: set<nat>)
    returns (races: seq<Race>, reported: set<nat>)
    requires Names(seen, before) && forall a, b | 0 <= a < b < |before| :: before[a].global != before[b].global
    ensures Names(reported, races) && Adds(mutables, i, globals, before, races)
    ensures globals * mutables <= reported
  {
    races, reported := before, seen;
    var gids := Sorted(globals);
    SortedIs(globals);
    for k := 0 to |gids|
      invariant Names(reported, races) && Adds(mutables, i, globals, before, races)
      invariant forall j | 0 <= j < k && gids[j] in mutables :: gids[j] in reported
    {
      var gid := gids[k];
      assert gid in globals;
      if gid in mutables && gid !in reported {
        Named(reported, races, Race(i, gid));
        races, reported := races + [Race(i, gid)], reported + {gid};
      }
    }
  }

  lemma Named(reported: set<nat>, races: seq<Race>, r: Race)
    requires Names(reported, races) && r.global !in reported
    ensures Names(reported + {r.global}, races + [r])
    ensures forall k | 0 <= k < |races| :: races[k].global != r.global
  {
    forall w ensures w in reported + {r.global} <==> exists x :: x in races + [r] && x.global == w {
      if w == r.global { assert r in races + [r]; }
      if x :| x in races && x.global == w { assert x in races + [r]; }
    }
    forall k | 0 <= k < |races| ensures races[k].global != r.global { assert races[k] in races; }
  }

  lemma ReportGrows(direct: Writes, calls: Graph, mutables: set<nat>, spawns: seq<nat>, i: nat, globals: set<nat>,
                    before: seq<Race>, seen: set<nat>, races: seq<Race>, reported: set<nat>)
    requires i < |spawns| && spawns[i] in direct
    requires forall w :: w in globals <==> CanWrite(direct, calls, spawns[i], w)
    requires ReportedUpTo(direct, calls, mutables, spawns, i, before) && Names(seen, before)
    requires Names(reported, races) && Adds(mutables, i, globals, before, races) && globals * mutables <= reported
    ensures ReportedUpTo(direct, calls, mutables, spawns, i + 1, races)
  {
    forall r | r in races
      ensures r.spawn < i + 1 && Races(direct, calls, mutables, spawns, r.spawn, r.global)
      ensures forall j | 0 <= j < r.spawn :: !Races(direct, calls, mutables, spawns, j, r.global)
    {
      var k :| 0 <= k < |races| && races[k] == r;
      if k < |before| {
        assert r == before[k];
      } else {
        forall j | 0 <= j < r.spawn ensures !Races(direct, calls, mutables, spawns, j, r.global) {
          NotBefore(direct, calls, mutables, spawns, i, before, races, k, j);
        }
      }
    }
    forall j, w | 0 <= j < i + 1 && Races(direct, calls, mutables, spawns, j, w) ensures exists r :: r in races && r.global == w {
      if j < i {
        var r :| r in before && r.global == w;
        assert r in races;
      } else {
        assert w in reported;
      }
    }
  }

  /** A race reported now was not there for an earlier spawn. */
  lemma NotBefore(direct: Writes, calls: Graph, mutables: set<nat>, spawns: seq<nat>, i: nat,
                  before: seq<Race>, races: seq<Race>, k: nat, j: nat)
    requires ReportedUpTo(direct, calls, mutables, spawns, i, before) && j < i
    requires |before| <= k < |races| && before == races[..|before|]
    requires forall a, b | 0 <= a < b < |races| :: races[a].global != races[b].global
    ensures !Races(direct, calls, mutables, spawns, j, races[k].global)
  {
    forall r | r in before ensures r.global != races[k].global {
      var m :| 0 <= m < |before| && before[m] == r;
      assert races[m] == r;
    }
  }
}

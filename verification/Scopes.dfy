/** Scope chains as sets of visible owning locals, and what the drop lists built
    from them contain. */
module Scopes {
  import opened Options
  import opened Hir
  import opened Sorting
  import opened Ownership
  import opened Paths
  import opened DropPass

  function Flat(chain: seq<seq<Local>>): seq<Local> {
    if |chain| == 0 then [] else chain[0] + Flat(chain[1..])
  }

  function Vis(chain: seq<seq<Local>>): set<Local> {
    Elems(Flat(chain))
  }

  lemma {:induction false} FlatConcat(a: seq<seq<Local>>, b: seq<seq<Local>>)
    ensures Flat(a + b) == Flat(a) + Flat(b)
    decreases |a|
  {
    if |a| == 0 {
      assert a + b == b;
    } else {
      assert (a + b)[1..] == a[1..] + b;
      FlatConcat(a[1..], b);
    }
  }

  lemma FlatSnoc(outer: seq<seq<Local>>, scope: seq<Local>)
    ensures Flat(outer + [scope]) == Flat(outer) + scope
  {
    FlatConcat(outer, [scope]);
    assert Flat([scope]) == scope + [];
  }

  /** No local is declared twice, so an inner scope shares nothing with the rest. */
  lemma NoDupSplit(a: seq<Local>, b: seq<Local>)
    requires NoDup(a + b)
    ensures NoDup(a) && NoDup(b) && Elems(a) !! Elems(b)
    ensures Elems(a + b) == Elems(a) + Elems(b)
  {
    forall i, j | 0 <= i < j < |b| ensures b[i] != b[j] {
      assert (a + b)[|a| + i] == b[i] && (a + b)[|a| + j] == b[j];
    }
    forall i, j | 0 <= i < j < |a| ensures a[i] != a[j] {
      assert (a + b)[i] == a[i] && (a + b)[j] == a[j];
    }
    forall i, j | 0 <= i < |a| && 0 <= j < |b| ensures a[i] != b[j] {
      assert (a + b)[i] == a[i] && (a + b)[|a| + j] == b[j];
    }
  }

  lemma NoDupJoin(a: seq<Local>, b: seq<Local>)
    requires NoDup(a) && NoDup(b) && Elems(a) !! Elems(b)
    ensures NoDup(a + b) && Elems(a + b) == Elems(a) + Elems(b)
  {
    forall i, j | 0 <= i < j < |a + b| ensures (a + b)[i] != (a + b)[j] {
      if i < |a| <= j { assert a[i] in Elems(a) && b[j - |a|] in Elems(b); }
    }
  }

  lemma NoDupSnoc(xs: seq<Local>, x: Local)
    requires NoDup(xs) && x !in xs
    ensures NoDup(xs + [x]) && Elems(xs + [x]) == Elems(xs) + {x}
  {
  }

  lemma {:induction false} SurvivorsAre(scope: seq<Local>, skip: set<Local>)
    requires NoDup(scope)
    ensures NoDup(Survivors(scope, skip)) && Elems(Survivors(scope, skip)) == Elems(scope) - skip
    decreases |scope|
  {
    if |scope| > 0 {
      assert scope == [scope[0]] + scope[1..];
      NoDupSplit([scope[0]], scope[1..]);
      SurvivorsAre(scope[1..], skip);
      NoDupJoin(Survivors(scope[1..], skip), if scope[0] in skip then [] else [scope[0]]);
    }
  }

  lemma {:induction false} ExitDropsAre(chain: seq<seq<Local>>, skip: set<Local>)
    requires NoDup(Flat(chain))
    ensures NoDup(ExitDrops(chain, skip)) && Elems(ExitDrops(chain, skip)) == Vis(chain) - skip
    decreases |chain|
  {
    if |chain| > 0 {
      NoDupSplit(chain[0], Flat(chain[1..]));
      SurvivorsAre(chain[0], skip);
      ExitDropsAre(chain[1..], skip);
      NoDupJoin(Survivors(chain[0], skip), ExitDrops(chain[1..], skip));
    }
  }

  lemma {:induction false} JumpDropsAre(chain: seq<seq<Local>>, skip: set<Local>)
    requires NoDup(Flat(chain))
    ensures NoDup(JumpDrops(chain, skip)) && Elems(JumpDrops(chain, skip)) == Vis(chain) - skip
    decreases |chain|
  {
    if |chain| > 0 {
      NoDupSplit(chain[0], Flat(chain[1..]));
      SurvivorsAre(chain[0], skip);
      JumpDropsAre(chain[1..], skip);
      NoDupJoin(JumpDrops(chain[1..], skip), Survivors(chain[0], skip));
    }
  }

  /** Dropping distinct owned locals takes exactly those away. */
  lemma {:induction false} FollowDrops(own: set<Local>, xs: seq<Local>)
    requires NoDup(xs) && Elems(xs) <= own
    ensures Follow(own, DropEvents(xs)) == Some(own - Elems(xs))
    decreases |xs|
  {
    if |xs| > 0 {
      assert xs == [xs[0]] + xs[1..];
      NoDupSplit([xs[0]], xs[1..]);
      assert DropEvents(xs)[1..] == DropEvents(xs[1..]);
      assert xs[0] in Elems(xs);
      FollowDrops(own - {xs[0]}, xs[1..]);
      assert own - {xs[0]} - Elems(xs[1..]) == own - Elems(xs);
    } else {
      assert own - Elems(xs) == own;
    }
  }

  lemma DropEventsConcat(a: seq<Local>, b: seq<Local>)
    ensures DropEvents(a + b) == DropEvents(a) + DropEvents(b)
  {
  }
}

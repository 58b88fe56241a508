/** What the generated code does to memory.  Every owned value is a numbered heap
    cell; a slot keeps its bits after a move, so a misplaced free or a read of a
    moved local hits the old cell.  `released` counts how often each cell was
    freed here or transferred out of the function. */
module Memory {
  import opened Options
  import opened Hir
  import opened Ownership
  import opened Paths
  import opened Audit

  type Cell = nat

  datatype Mem = Mem(slot: map<Local, Cell>, next: Cell, released: multiset<Cell>, misuse: bool)

  const EMPTY := Mem(map[], 0, multiset{}, false)

  predicate LiveAt(m: Mem, x: Local) {
    x in m.slot && m.released[m.slot[x]] == 0
  }

  function Touch(m: Mem, x: Local): Mem {
    m.(misuse := m.misuse || !LiveAt(m, x))
  }

  function Release(m: Mem, x: Local): Mem {
    if x !in m.slot then m.(misuse := true)
    else Touch(m, x).(released := m.released + multiset{m.slot[x]})
  }

  function Perform(m: Mem, e: Event): Mem {
    match e
    case Read(x) => Touch(m, x)
    case GiveAway(x) => Release(m, x)
    case Drop(x) => Release(m, x)
    case Fresh(x) => m.(slot := m.slot[x := m.next], next := m.next + 1)
    case Hand(y, x) =>
      if y !in m.slot then m.(misuse := true)
      else Touch(m, y).(slot := m.slot[x := m.slot[y]])
    case Temp => m.(next := m.next + 1, released := m.released + multiset{m.next})
  }

  function Execute(m: Mem, es: seq<Event>): Mem
    decreases |es|
  {
    if |es| == 0 then m else Execute(Perform(m, es[0]), es[1..])
  }

  /** No read of a dead cell and no double release so far; and a run that has
      come to an end has released every cell it made exactly once. */
  predicate RunIsSafe(p: Path) {
    var m := Execute(EMPTY, p.events);
    && !m.misuse
    && p.flow in {Falls, Returned, Pending}
    && (forall c | c in m.released :: m.released[c] == 1)
    && (p.flow != Pending ==> forall c: Cell | c < m.next :: m.released[c] == 1)
  }

  ghost predicate AllRunsSafe(body: Block) {
    forall ch: seq<bool> :: RunIsSafe(RunBlock(body, ch))
  }

  ghost predicate Held(m: Mem, own: set<Local>, c: Cell) {
    exists x :: x in own && x in m.slot && m.slot[x] == c
  }

  /** Memory and the discipline tell the same story: a cell is unreleased exactly
      when some owning local holds it, and no two owners hold the same cell. */
  ghost predicate Linked(m: Mem, own: set<Local>) {
    && !m.misuse
    && own <= m.slot.Keys
    && (forall x | x in own :: m.slot[x] < m.next)
    && (forall x, y | x in own && y in own && m.slot[x] == m.slot[y] :: x == y)
    && (forall c: Cell :: m.released[c] == if c < m.next && !Held(m, own, c) then 1 else 0)
  }

  lemma ReleaseKeepsLinked(m: Mem, own: set<Local>, x: Local)
    requires Linked(m, own) && x in own
    ensures Linked(Release(m, x), own - {x})
  {
    var n := Release(m, x);
    assert Held(m, own, m.slot[x]);
    forall c: Cell
      ensures n.released[c] == if c < n.next && !Held(n, own - {x}, c) then 1 else 0
    {
      if c != m.slot[x] && Held(m, own, c) {
        var y :| y in own && y in m.slot && m.slot[y] == c;
        assert y in own - {x};
      }
    }
  }

  lemma HandKeepsLinked(m: Mem, own: set<Local>, y: Local, x: Local)
    requires Linked(m, own) && y in own && x !in own - {y}
    ensures Linked(Perform(m, Hand(y, x)), own - {y} + {x})
  {
    var n := Perform(m, Hand(y, x));
    var after := own - {y} + {x};
    assert Held(m, own, m.slot[y]);
    forall c: Cell
      ensures n.released[c] == if c < n.next && !Held(n, after, c) then 1 else 0
    {
      if Held(m, own, c) {
        var z :| z in own && z in m.slot && m.slot[z] == c;
        if z == y { assert n.slot[x] == c && x in after; } else { assert n.slot[z] == c && z in after; }
      }
      if Held(n, after, c) {
        var z :| z in after && z in n.slot && n.slot[z] == c;
        assert (if z == x then y else z) in own;
      }
    }
  }

  lemma FreshKeepsLinked(m: Mem, own: set<Local>, x: Local)
    requires Linked(m, own) && x !in own
    ensures Linked(Perform(m, Fresh(x)), own + {x})
  {
    var n := Perform(m, Fresh(x));
    forall c: Cell
      ensures n.released[c] == if c < n.next && !Held(n, own + {x}, c) then 1 else 0
    {
      if Held(m, own, c) {
        var z :| z in own && z in m.slot && m.slot[z] == c;
        assert n.slot[z] == c && z in own + {x};
      }
      if c == m.next { assert n.slot[x] == c; }
    }
  }

  lemma TempKeepsLinked(m: Mem, own: set<Local>)
    requires Linked(m, own)
    ensures Linked(Perform(m, Temp), own)
  {
    var n := Perform(m, Temp);
    assert forall c: Cell :: Held(n, own, c) == Held(m, own, c);
  }

  lemma PerformKeepsLinked(m: Mem, own: set<Local>, e: Event)
    requires Linked(m, own) && Step(own, e).Some?
    ensures Linked(Perform(m, e), Step(own, e).value)
  {
    match e
    case Read(x) =>
      assert Held(m, own, m.slot[x]);
      assert Touch(m, x) == m;
    case GiveAway(x) => ReleaseKeepsLinked(m, own, x);
    case Drop(x) => ReleaseKeepsLinked(m, own, x);
    case Fresh(x) => FreshKeepsLinked(m, own, x);
    case Hand(y, x) => HandKeepsLinked(m, own, y, x);
    case Temp => TempKeepsLinked(m, own);
  }

  lemma {:induction false} ExecuteKeepsLinked(m: Mem, own: set<Local>, es: seq<Event>)
    requires Linked(m, own) && Follow(own, es).Some?
    ensures Linked(Execute(m, es), Follow(own, es).value)
    decreases |es|
  {
    if |es| > 0 {
      PerformKeepsLinked(m, own, es[0]);
      ExecuteKeepsLinked(Perform(m, es[0]), Step(own, es[0]).value, es[1..]);
    }
  }

  /** Following the discipline is safe on the real heap. */
  lemma DisciplinedRunsAreSafe(body: Block)
    requires Disciplined(body)
    ensures AllRunsSafe(body)
  {
    forall ch: seq<bool> ensures RunIsSafe(RunBlock(body, ch)) {
      var p := RunBlock(body, ch);
      assert Respects(p, {}, Some({}), None, None);
      assert Linked(EMPTY, {});
      ExecuteKeepsLinked(EMPTY, {}, p.events);
      var m := Execute(EMPTY, p.events);
      if p.flow != Pending {
        assert forall c: Cell :: !Held(m, {}, c);
      }
    }
  }
}

/** What an execution does to owned values, one event at a time, and the
    discipline an event sequence has to follow: `own` is the set of locals that
    currently own a value. */
module Ownership {
  import opened Options
  import opened Hir

  datatype Event =
    | Read(x: Local)                // a read or a borrow
    | GiveAway(x: Local)            // moved into a callee or out to the caller
    | Drop(x: Local)                // a generated free
    | Fresh(x: Local)               // a new value is stored in x
    | Hand(src: Local, dst: Local)  // `dst = src`: the same value changes owner
    | Temp                          // a call result consumed on the spot

  /** One step of the discipline; None is a violation. */
  function Step(own: set<Local>, e: Event): Option<set<Local>> {
    match e
    case Read(x) => if x in own then Some(own) else None
    case GiveAway(x) => if x in own then Some(own - {x}) else None
    case Drop(x) => if x in own then Some(own - {x}) else None
    case Fresh(x) => if x in own then None else Some(own + {x})
    case Hand(y, x) =>
      if y in own && x !in own - {y} then Some(own - {y} + {x}) else None
    case Temp => Some(own)
  }

  function Follow(own: set<Local>, es: seq<Event>): Option<set<Local>>
    decreases |es|
  {
    if |es| == 0 then Some(own)
    else match Step(own, es[0])
      case None => None
      case Some(next) => Follow(next, es[1..])
  }

  lemma {:induction false} FollowConcat(own: set<Local>, a: seq<Event>, b: seq<Event>)
    ensures Follow(own, a + b) == if Follow(own, a).None? then None else Follow(Follow(own, a).value, b)
    decreases |a|
  {
    if |a| == 0 {
      assert a + b == b;
    } else {
      assert (a + b)[1..] == a[1..] + b;
      if Step(own, a[0]).Some? {
        FollowConcat(Step(own, a[0]).value, a[1..], b);
      }
    }
  }

  lemma StepInjective(a: set<Local>, b: set<Local>, e: Event)
    requires Step(a, e).Some? && Step(a, e) == Step(b, e)
    ensures a == b
  {
    match e
    case Read(_) =>
    case GiveAway(x) => assert a == a - {x} + {x} && b == b - {x} + {x};
    case Drop(x) => assert a == a - {x} + {x} && b == b - {x} + {x};
    case Fresh(x) => assert a == a + {x} - {x} && b == b + {x} - {x};
    case Hand(y, x) =>
      assert a - {y} == a - {y} + {x} - {x} && b - {y} == b - {y} + {x} - {x};
      assert a == a - {y} + {y} && b == b - {y} + {y};
    case Temp =>
  }

  /** The discipline never forgets: two different ownership states cannot be
      brought together by the same events. */
  lemma {:induction false} FollowInjective(a: set<Local>, b: set<Local>, es: seq<Event>)
    requires Follow(a, es).Some? && Follow(a, es) == Follow(b, es)
    ensures a == b
    decreases |es|
  {
    if |es| > 0 {
      FollowInjective(Step(a, es[0]).value, Step(b, es[0]).value, es[1..]);
      StepInjective(a, b, es[0]);
    }
  }
}

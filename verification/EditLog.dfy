/** What the documents and the version are after any interleaving, read off the steps taken:
    the edits and closes in the order in which their handlers first went ahead, the number of
    them that went ahead often enough to be done, and the results stored and taken out. */
module EditLog {
  import opened Options
  import opened AnalysisCache

  /** The request handler `t` was started for. */
  function Request(steps: seq<Step>, t: Tid): Option<Handler> {
    if |steps| == 0 then None
    else if steps[|steps| - 1].Arrive? && steps[|steps| - 1].t == t then Some(steps[|steps| - 1].h)
    else Request(steps[..|steps| - 1], t)
  }

  /** How often handler `t` has gone ahead. */
  function Turns(steps: seq<Step>, t: Tid): nat {
    if |steps| == 0 then 0
    else Turns(steps[..|steps| - 1], t) + if steps[|steps| - 1] == Advance(t) then 1 else 0
  }

  /** What one request makes of the documents. */
  function Edited(docs: Docs, request: Option<Handler>): Docs {
    match request
    case Some(Writing(uri, text)) => docs[uri := text]
    case Some(Closing(uri)) => map u | u in docs && u != uri :: docs[u]
    case _ => docs
  }

  /** The edits and closes among the steps, applied in the order of their first turns. */
  function DocsAfter(steps: seq<Step>): Docs {
    if |steps| == 0 then map[]
    else
      var before, step := steps[..|steps| - 1], steps[|steps| - 1];
      if step.Advance? && Turns(before, step.t) == 0 then Edited(DocsAfter(before), Request(before, step.t))
      else DocsAfter(before)
  }

  /** The turns an edit, or a close, needs until it is done. */
  function Needed(request: Option<Handler>): nat {
    match request
    case Some(Writing(_, _)) => 2
    case Some(Closing(_)) => 3
    case _ => 0
  }

  /** The number of edits and closes that are done. */
  function EditsDone(steps: seq<Step>): nat {
    if |steps| == 0 then 0
    else
      var before, step := steps[..|steps| - 1], steps[|steps| - 1];
      EditsDone(before) +
        if step.Advance? && Turns(before, step.t) + 1 == Needed(Request(before, step.t)) then 1 else 0
  }

  /** Has the analysis of handler `t` collected its input, but not stored its result yet? */
  predicate Done(steps: seq<Step>, t: Tid) {
    |steps| > 0 &&
    if steps[|steps| - 1].t == t then steps[|steps| - 1].Collected? else Done(steps[..|steps| - 1], t)
  }

  function AskedFor(request: Option<Handler>): Option<Uri> {
    match request
    case Some(Writing(uri, _)) => Some(uri)
    case Some(Closing(uri)) => Some(uri)
    case Some(Loading(uri)) => Some(uri)
    case _ => None
  }

  /** The documents with a cache entry: results are stored by the turn after collecting, and
      the second turn of a close takes them out. */
  function CachedAfter(steps: seq<Step>): set<Uri> {
    if |steps| == 0 then {}
    else
      var before, step := steps[..|steps| - 1], steps[|steps| - 1];
      var cached, request := CachedAfter(before), Request(before, step.t);
      if !step.Advance? || AskedFor(request).None? then cached
      else if request.value.Closing? then
        (if Turns(before, step.t) == 1 then cached - {AskedFor(request).value} else cached)
      else if Done(before, step.t) then cached + {AskedFor(request).value}
      else cached
  }

  /** An analysis of `u`. */
  predicate Analysing(h: Handler, u: Uri) {
    (h.Loading? || h.Looking? || h.ReadingOwn? || h.Collecting? || h.Storing? || h.Returned?) && h.uri == u
  }

  /** Where a handler stands after so many turns. */
  predicate Stands(h: Handler, request: Handler, turns: nat) {
    match request
    case Writing(u, _) =>
      if turns == 0 then h == request else if turns == 1 then h.Bumping? && h.publish && h.uri == u else Analysing(h, u)
    case Closing(u) =>
      if turns == 0 then h == request
      else if turns == 1 then h.Uncaching? && h.uri == u
      else if turns == 2 then h.Bumping? && !h.publish
      else h == Ended
    case Loading(u) => Analysing(h, u)
    case _ => false
  }

  /** Handler `t` is where its turns have brought it. */
  predicate InPlace(s: State, steps: seq<Step>, t: Tid) {
    && (t in s.handlers <==> Request(steps, t).Some?)
    && (t !in s.handlers ==> Turns(steps, t) == 0)
    && (t in s.handlers ==> Stands(s.handlers[t], Request(steps, t).value, Turns(steps, t)))
    && (Done(steps, t) <==> t in s.handlers && s.handlers[t].Storing?)
  }

  ghost predicate Told(s: State, steps: seq<Step>) {
    && s.docs == DocsAfter(steps) && s.version == EditsDone(steps) && s.cache.Keys == CachedAfter(steps)
    && forall t :: InPlace(s, steps, t)
  }

  lemma InPlaceFurther(s: State, steps: seq<Step>, step: Step, t: Tid)
    requires InPlace(s, steps, t) && Enabled(s, step)
    ensures InPlace(Next(s, step), steps + [step], t)
  {
    assert (steps + [step])[..|steps|] == steps;
    if t != step.t { assert Lookup(Next(s, step).handlers, t) == Lookup(s.handlers, t); }
  }

  lemma CacheFurther(s: State, steps: seq<Step>, step: Step)
    requires InPlace(s, steps, step.t) && s.cache.Keys == CachedAfter(steps) && Enabled(s, step)
    ensures Next(s, step).cache.Keys == CachedAfter(steps + [step])
  {
    assert (steps + [step])[..|steps|] == steps;
  }

  lemma ToldFurther(s: State, steps: seq<Step>, step: Step)
    requires Told(s, steps) && Enabled(s, step)
    ensures Told(Next(s, step), steps + [step])
  {
    hide CachedAfter, Done;
    assert (steps + [step])[..|steps|] == steps;
    forall t ensures InPlace(Next(s, step), steps + [step], t) {
      InPlaceFurther(s, steps, step, t);
    }
    assert InPlace(s, steps, step.t);
    CacheFurther(s, steps, step);
  }

  /** After any legal steps, the documents are those the edits and closes leave when applied
      in the order of their writes, the version counts the ones that are done, and the cache
      has an entry for each document analysed and not closed since. */
  lemma {:induction false} DocsAreEdits(steps: seq<Step>)
    requires Legal(INIT, steps)
    ensures Run(INIT, steps).docs == DocsAfter(steps)
    ensures Run(INIT, steps).version == EditsDone(steps)
    ensures Run(INIT, steps).cache.Keys == CachedAfter(steps)
  {
    RunTold(steps);
  }

  lemma {:induction false} RunTold(steps: seq<Step>)
    requires Legal(INIT, steps)
    ensures Told(Run(INIT, steps), steps)
    decreases |steps|
  {
    if |steps| > 0 {
      var before := steps[..|steps| - 1];
      LegalBefore(INIT, steps);
      RunTold(before);
      ToldFurther(Run(INIT, before), before, steps[|steps| - 1]);
      assert before + [steps[|steps| - 1]] == steps;
    }
  }

  lemma {:induction false} LegalBefore(s: State, steps: seq<Step>)
    requires |steps| > 0 && Legal(s, steps)
    ensures var before := steps[..|steps| - 1];
            && Legal(s, before) && Enabled(Run(s, before), steps[|steps| - 1])
            && Run(s, steps) == Next(Run(s, before), steps[|steps| - 1])
    decreases |steps|
  {
    var before := steps[..|steps| - 1];
    if |steps| > 1 {
      LegalBefore(Next(s, steps[0]), steps[1..]);
      assert before[1..] == steps[1..][..|steps| - 2];
    } else {
      assert steps[1..] == [];
    }
  }
}

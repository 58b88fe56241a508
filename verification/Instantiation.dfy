/** Draining instantiation requests: one function per template and argument list. */
module Instantiation {
  import opened HirTypes
  import opened TypeKeys

  datatype Request = Request(template: nat, args: seq<HType>)

  class Instances {
    var table: map<(nat, string), nat>
    var next: nat
    /** What each function was made for. */
    ghost var made: map<nat, Request>

    ghost predicate Valid()
      reads this
    {
      && (forall id | id in made :: id < next && KeyedAll(made[id].args))
      && (forall id | id in made :: KeyOf(made[id]) in table && table[KeyOf(made[id])] == id)
      && (forall k | k in table :: table[k] in made && KeyOf(made[table[k]]) == k)
    }

    constructor (next: nat)
      ensures Valid() && made == map[] && this.next == next
    {
      table, this.next, made := map[], next, map[];
    }

    /** The function for one request: the one already made, or a new one. */
    method Instantiate(req: Request) returns (id: nat)
      requires Valid() && KeyedAll(req.args)
      modifies this
      ensures Valid() && id in made && made[id] == req
      ensures forall i | i in old(made) :: i in made && made[i] == old(made)[i]
    {
      var key := (req.template, ArgsKey(req.args));
      if key in table {
        id := table[key];
        ArgsKeyInjective(made[id].args, req.args);
        return;
      }
      id := next;
      table, next, made := table[key := id], next + 1, made[id := req];
    }

    /** Two requests get the same function exactly when they are the same request. */
    method Drain(reqs: seq<Request>) returns (mapping: seq<nat>)
      requires Valid() && forall r | r in reqs :: KeyedAll(r.args)
      modifies this
      ensures Valid() && |mapping| == |reqs|
      ensures forall i | 0 <= i < |reqs| :: mapping[i] in made && made[mapping[i]] == reqs[i]
      ensures forall i, j | 0 <= i < |reqs| && 0 <= j < |reqs| :: mapping[i] == mapping[j] <==> reqs[i] == reqs[j]
    {
      mapping := [];
      for k := 0 to |reqs|
        invariant Valid() && |mapping| == k
        invariant forall i | 0 <= i < k :: mapping[i] in made && made[mapping[i]] == reqs[i]
      {
        var id := Instantiate(reqs[k]);
        mapping := mapping + [id];
      }
      forall i, j | 0 <= i < |reqs| && 0 <= j < |reqs| ensures mapping[i] == mapping[j] <==> reqs[i] == reqs[j] {
        assert KeyOf(made[mapping[i]]) in table && KeyOf(made[mapping[j]]) in table;
      }
    }
  }

  function KeyOf(req: Request): (nat, string) {
    (req.template, ArgsKey(req.args))
  }
}

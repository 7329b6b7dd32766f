/** The chain of publish requests in flight for each public key. */
module PkarrInflight {
  import opened Bytes
  import opened PkarrPackets
  import opened PkarrPublish

  datatype Request = Request(body: Body, cas: Option<nat>, tally: Tally)

  /** Requests by number, and for each public key the numbers in flight. */
  datatype Publishing = Publishing(requests: seq<Request>, inflight: map<Bytes, seq<nat>>)

  datatype Started = Started(id: nat) | Rejected(error: PublishError)

  function ListOf(p: Publishing, key: Bytes): seq<nat> {
    if key in p.inflight then p.inflight[key] else []
  }

  /** The first request in flight with the given signature. */
  function SameSignature(p: Publishing, ids: seq<nat>, signature: Bytes): Option<nat> {
    if ids == [] then None
    else if ids[0] < |p.requests| && p.requests[ids[0]].body.signature == signature then Some(ids[0])
    else SameSignature(p, ids[1..], signature)
  }

  /** `#startPublish`: why a new packet may not follow the latest one in flight. */
  function Objection(p: Publishing, ids: seq<nat>, body: Body, cas: Option<nat>): Option<PublishError> {
    if ids == [] || ids[|ids| - 1] >= |p.requests| then None
    else
      var latest := p.requests[ids[|ids| - 1]].body;
      if !MoreRecent(body, latest) then Some(NotMostRecent)
      else if cas.None? then Some(ConflictRisk)
      else if cas.value != latest.timestamp then Some(CasFailed)
      else None
  }

  datatype StartResult = StartResult(p: Publishing, started: Started)

  function Start(p: Publishing, body: Body, cas: Option<nat>): StartResult {
    var ids := ListOf(p, body.publicKey);
    var known := SameSignature(p, ids, body.signature);
    if known.Some? then StartResult(p, Started(known.value))
    else
      var objection := Objection(p, ids, body, cas);
      if objection.Some? then StartResult(p, Rejected(objection.value))
      else
        StartResult(Publishing(p.requests + [Request(body, cas, Fresh())],
                               p.inflight[body.publicKey := ids + [|p.requests|]]),
                    Started(|p.requests|))
  }

  function RemoveFirst(ids: seq<nat>, id: nat): seq<nat> {
    if ids == [] then [] else if ids[0] == id then ids[1..] else [ids[0]] + RemoveFirst(ids[1..], id)
  }

  /** `#clearInflight` */
  function Clear(p: Publishing, id: nat): Publishing
    requires id < |p.requests|
  {
    var key := p.requests[id].body.publicKey;
    if key !in p.inflight then p
    else
      var left := RemoveFirst(p.inflight[key], id);
      p.(inflight := if left == [] then p.inflight - {key} else p.inflight[key := left])
  }

  /** A relay answers: the counters change, and a settled request is cleared. */
  function Receive(n: nat, p: Publishing, id: nat, a: Answer): Publishing {
    if id >= |p.requests| || !p.requests[id].tally.status.Pending? then p
    else
      var tally := Count(n, p.requests[id].tally, a);
      var q := p.(requests := p.requests[id := p.requests[id].(tally := tally)]);
      if tally.status.Pending? then q else Clear(q, id)
  }

  // ---------------------------------------------------------------- the object

  class PublishClient {
    const relays: nat
    var requests: seq<Request>
    var inflight: map<Bytes, seq<nat>>

    ghost function Model(): Publishing
      reads this
    {
      Publishing(requests, inflight)
    }

    constructor (count: nat)
      requires count >= 1
      ensures relays == count && Model() == Publishing([], map[])
    {
      relays := count;
      requests, inflight := [], map[];
    }

    method StartPublish(body: Body, cas: Option<nat>) returns (started: Started)
      requires forall key :: key in inflight ==> forall id :: id in inflight[key] ==> id < |requests|
      modifies this
      ensures StartResult(Model(), started) == Start(old(Model()), body, cas)
    {
      hide MoreRecent;
      var ids := if body.publicKey in inflight then inflight[body.publicKey] else [];
      assert ids[0..] == ids;
      for i := 0 to |ids|
        invariant SameSignature(Model(), ids, body.signature) == SameSignature(Model(), ids[i..], body.signature)
      {
        assert ids[i..][1..] == ids[i + 1..];
        assert ids[i] in ids;
        if requests[ids[i]].body.signature == body.signature {
          return Started(ids[i]);
        }
      }
      if ids != [] {
        assert ids[|ids| - 1] in ids;
        var latest := requests[ids[|ids| - 1]].body;
        if !MoreRecent(body, latest) {
          return Rejected(NotMostRecent);
        }
        if cas.None? {
          return Rejected(ConflictRisk);
        }
        if cas.value != latest.timestamp {
          return Rejected(CasFailed);
        }
      }
      started := Started(|requests|);
      inflight := inflight[body.publicKey := ids + [|requests|]];
      requests := requests + [Request(body, cas, Fresh())];
    }

    method ReceiveAnswer(id: nat, a: Answer)
      requires id < |requests|
      modifies this
      ensures Model() == Receive(relays, old(Model()), id, a)
    {
      hide Count;
      if !requests[id].tally.status.Pending? {
        return;
      }
      var tally := Count(relays, requests[id].tally, a);
      requests := requests[id := requests[id].(tally := tally)];
      if !tally.status.Pending? {
        ClearInflight(id);
      }
    }

    method ClearInflight(id: nat)
      requires id < |requests|
      modifies `inflight
      ensures Model() == Clear(old(Model()), id)
    {
      var key := requests[id].body.publicKey;
      if key !in inflight {
        return;
      }
      var ids := inflight[key];
      var index := IndexOf(ids, id);
      if index < |ids| {
        ids := ids[..index] + ids[index + 1..];
      }
      inflight := if ids == [] then inflight - {key} else inflight[key := ids];
    }
  }

  method IndexOf(ids: seq<nat>, id: nat) returns (index: nat)
    ensures index <= |ids|
    ensures RemoveFirst(ids, id) == if index < |ids| then ids[..index] + ids[index + 1..] else ids
  {
    index := 0;
    assert ids[..0] + RemoveFirst(ids[0..], id) == RemoveFirst(ids, id) by { assert ids[0..] == ids; }
    while index < |ids| && ids[index] != id
      invariant index <= |ids|
      invariant RemoveFirst(ids, id) == ids[..index] + RemoveFirst(ids[index..], id)
    {
      assert ids[index..][1..] == ids[index + 1..];
      assert ids[..index] + ([ids[index]] + RemoveFirst(ids[index + 1..], id))
             == ids[..index + 1] + RemoveFirst(ids[index + 1..], id);
      index := index + 1;
    }
  }

  // -------------------------------------------------------------------- chains

  /** The packets in flight for a key get strictly more recent. */
  ghost predicate Increasing(requests: seq<Request>, ids: seq<nat>) {
    && (forall i :: 0 <= i < |ids| ==> ids[i] < |requests|)
    && (forall i, j :: 0 <= i < j < |ids| ==> MoreRecent(requests[ids[j]].body, requests[ids[i]].body))
  }

  ghost predicate OfKey(requests: seq<Request>, key: Bytes, ids: seq<nat>) {
    forall i :: 0 <= i < |ids| ==> ids[i] < |requests| && requests[ids[i]].body.publicKey == key
  }

  ghost predicate InList(p: Publishing, id: nat) {
    id < |p.requests| && id in ListOf(p, p.requests[id].body.publicKey)
  }

  /** Lists are non-empty, increasing and of one key; exactly the pending
      requests are in flight. */
  ghost predicate Chains(p: Publishing) {
    && (forall key :: key in p.inflight ==> p.inflight[key] != [] && Increasing(p.requests, p.inflight[key]))
    && (forall key :: key in p.inflight ==> OfKey(p.requests, key, p.inflight[key]))
    && (forall id :: 0 <= id < |p.requests| ==> (p.requests[id].tally.status.Pending? <==> InList(p, id)))
  }

  lemma AppendIncreasing(requests: seq<Request>, ids: seq<nat>, r: Request)
    requires Increasing(requests, ids)
    requires ids != [] ==> MoreRecent(r.body, requests[ids[|ids| - 1]].body)
    ensures Increasing(requests + [r], ids + [|requests|])
  {
    var all, longer := requests + [r], ids + [|requests|];
    forall i, j | 0 <= i < j < |longer| ensures MoreRecent(all[longer[j]].body, all[longer[i]].body) {
      if j == |ids| {
        var last := requests[ids[|ids| - 1]].body;
        if i < |ids| - 1 { RecencyChains(r.body, last, requests[ids[i]].body); }
      }
    }
  }

  lemma StartChains(p: Publishing, body: Body, cas: Option<nat>)
    requires Chains(p)
    ensures Chains(Start(p, body, cas).p)
  {
    hide MoreRecent, SameSignature;
    var s := Start(p, body, cas);
    if s.p != p {
      var ids := ListOf(p, body.publicKey);
      var r := Request(body, cas, Fresh());
      AppendIncreasing(p.requests, ids, r);
      forall key | key in s.p.inflight && key != body.publicKey ensures Increasing(s.p.requests, s.p.inflight[key]) {
        MoreRequests(p.requests, r, p.inflight[key]);
      }
      forall id | 0 <= id < |s.p.requests| ensures s.p.requests[id].tally.status.Pending? <==> InList(s.p, id) {
        if id < |p.requests| {
          assert s.p.requests[id] == p.requests[id];
          assert InList(s.p, id) <==> InList(p, id);
        }
      }
    }
  }

  lemma MoreRequests(requests: seq<Request>, r: Request, ids: seq<nat>)
    requires Increasing(requests, ids)
    ensures Increasing(requests + [r], ids)
  {
    hide MoreRecent;
  }

  lemma {:induction false} Removed(requests: seq<Request>, ids: seq<nat>, id: nat)
    requires Increasing(requests, ids)
    ensures Increasing(requests, RemoveFirst(ids, id))
    ensures forall x :: x in RemoveFirst(ids, id) <==> x in ids && x != id
    decreases |ids|
  {
    hide MoreRecent;
    if ids != [] {
      var rest := ids[1..];
      assert ids == [ids[0]] + rest;
      Removed(requests, rest, id);
      var left := RemoveFirst(rest, id);
      if ids[0] == id {
        if id in rest {
          var j :| 0 <= j < |rest| && rest[j] == id;
          assert MoreRecent(requests[ids[j + 1]].body, requests[ids[0]].body);
          RecencyTotal(requests[id].body, requests[id].body);
        }
      } else {
        forall j | 0 <= j < |left| ensures MoreRecent(requests[left[j]].body, requests[ids[0]].body) {
          assert left[j] in rest;
          var k :| 0 <= k < |rest| && rest[k] == left[j];
          assert ids[k + 1] == left[j];
        }
      }
    }
  }

  lemma SameBodies(requests: seq<Request>, others: seq<Request>, ids: seq<nat>)
    requires |requests| == |others| && forall i :: 0 <= i < |requests| ==> requests[i].body == others[i].body
    requires Increasing(requests, ids)
    ensures Increasing(others, ids)
  {
    hide MoreRecent;
  }

  lemma ReceiveChains(n: nat, p: Publishing, id: nat, a: Answer)
    requires Chains(p) && id < |p.requests|
    ensures Chains(Receive(n, p, id, a))
    ensures !Receive(n, p, id, a).requests[id].tally.status.Pending? ==> !InList(Receive(n, p, id, a), id)
  {
    hide MoreRecent, Count, Increasing, RemoveFirst;
    assert p.requests[id].tally.status.Pending? <==> InList(p, id);
    if p.requests[id].tally.status.Pending? {
      var tally := Count(n, p.requests[id].tally, a);
      var q := p.(requests := p.requests[id := p.requests[id].(tally := tally)]);
      forall key | key in q.inflight ensures Increasing(q.requests, q.inflight[key]) {
        SameBodies(p.requests, q.requests, p.inflight[key]);
      }
      forall x | 0 <= x < |q.requests|
        ensures InList(q, x) <==> InList(p, x)
        ensures x != id ==> (q.requests[x].tally.status.Pending? <==> InList(q, x))
      {
        assert q.requests[x].body == p.requests[x].body;
        assert x != id ==> q.requests[x] == p.requests[x];
        assert p.requests[x].tally.status.Pending? <==> InList(p, x);
      }
      forall key | key in q.inflight ensures OfKey(q.requests, key, q.inflight[key]) {
        assert OfKey(p.requests, key, p.inflight[key]);
      }
      if !tally.status.Pending? {
        ClearChains(q, id);
      }
    }
  }

  lemma ClearChains(q: Publishing, id: nat)
    requires forall key :: key in q.inflight ==> q.inflight[key] != [] && Increasing(q.requests, q.inflight[key])
    requires forall key :: key in q.inflight ==> OfKey(q.requests, key, q.inflight[key])
    requires id < |q.requests| && !q.requests[id].tally.status.Pending? && InList(q, id)
    requires forall x :: 0 <= x < |q.requests| && x != id ==> (q.requests[x].tally.status.Pending? <==> InList(q, x))
    ensures Chains(Clear(q, id)) && !InList(Clear(q, id), id)
  {
    hide MoreRecent, Increasing, RemoveFirst;
    var key := q.requests[id].body.publicKey;
    Removed(q.requests, q.inflight[key], id);
    var r := Clear(q, id);
    forall k | k in r.inflight ensures r.inflight[k] != [] && Increasing(r.requests, r.inflight[k]) {
      if k != key { assert r.inflight[k] == q.inflight[k]; }
    }
    forall k | k in r.inflight ensures OfKey(r.requests, k, r.inflight[k]) {
      assert OfKey(q.requests, k, q.inflight[k]);
      forall i | 0 <= i < |r.inflight[k]|
        ensures r.inflight[k][i] < |r.requests| && r.requests[r.inflight[k][i]].body.publicKey == k
      {
        assert r.inflight[k][i] in r.inflight[k];
        assert r.inflight[k][i] in q.inflight[k];
      }
    }
    forall x | 0 <= x < |q.requests|
      ensures InList(r, x) <==> InList(q, x) && x != id
      ensures r.requests[x].tally.status.Pending? <==> InList(r, x)
    {
      assert x != id ==> (q.requests[x].tally.status.Pending? <==> InList(q, x));
      var k := q.requests[x].body.publicKey;
      assert k != key ==> ListOf(r, k) == ListOf(q, k);
      assert forall y :: y in ListOf(r, key) <==> y in ListOf(q, key) && y != id;
    }
  }

  // --------------------------------------------------------------------- runs

  datatype Step = Begin(body: Body, cas: Option<nat>) | Hear(id: nat, answer: Answer)

  ghost function Apply(n: nat, p: Publishing, s: Step): Publishing {
    match s case Begin(body, cas) => Start(p, body, cas).p case Hear(id, a) => Receive(n, p, id, a)
  }

  ghost function RunSteps(n: nat, steps: seq<Step>): Publishing {
    if steps == [] then Publishing([], map[]) else Apply(n, RunSteps(n, steps[..|steps| - 1]), steps[|steps| - 1])
  }

  /** Relays answer only requests that exist. */
  ghost predicate Possible(n: nat, steps: seq<Step>) {
    steps == [] ||
    (&& Possible(n, steps[..|steps| - 1])
     && (steps[|steps| - 1].Hear? ==> steps[|steps| - 1].id < |RunSteps(n, steps[..|steps| - 1]).requests|))
  }

  /** The answers to one request so far. */
  ghost function Heard(steps: seq<Step>, id: nat): seq<Answer> {
    if steps == [] then []
    else
      var last := steps[|steps| - 1];
      Heard(steps[..|steps| - 1], id) + if last.Hear? && last.id == id then [last.answer] else []
  }

  lemma {:induction false} RunChains(n: nat, steps: seq<Step>)
    requires Possible(n, steps)
    ensures Chains(RunSteps(n, steps))
    decreases |steps|
  {
    hide Start, Receive, Chains;
    if steps == [] {
      NoneInFlight();
    } else {
      var init, last := steps[..|steps| - 1], steps[|steps| - 1];
      RunChains(n, init);
      match last
      case Begin(body, cas) => StartChains(RunSteps(n, init), body, cas);
      case Hear(id, a) => ReceiveChains(n, RunSteps(n, init), id, a);
    }
  }

  lemma NoneInFlight()
    ensures Chains(Publishing([], map[]))
  {
  }

  /** A request's counters are those of the answers it was given. */
  lemma {:induction false} RunTally(n: nat, steps: seq<Step>, id: nat)
    requires Possible(n, steps)
    ensures id < |RunSteps(n, steps).requests| ==> RunSteps(n, steps).requests[id].tally == CountAll(n, Heard(steps, id))
    ensures id >= |RunSteps(n, steps).requests| ==> Heard(steps, id) == []
    decreases |steps|
  {
    hide Count, MoreRecent, SameSignature;
    if steps != [] {
      var init, last := steps[..|steps| - 1], steps[|steps| - 1];
      RunTally(n, init, id);
      var heard := Heard(init, id);
      if last.Hear? && last.id == id {
        assert (heard + [last.answer])[..|heard|] == heard;
        assert Heard(steps, id) == heard + [last.answer];
        CountSettled(n, CountAll(n, heard), last.answer);
      } else {
        assert Heard(steps, id) == heard + [] == heard;
        assert CountAll(n, []) == Fresh();
      }
    }
  }

  lemma CountSettled(n: nat, t: Tally, a: Answer)
    ensures !t.status.Pending? ==> Count(n, t, a) == t
  {
  }

  /** In every run: the packets in flight for each key get strictly more recent,
      and a request that all n relays have answered is settled and out of the
      list, having succeeded exactly under the condition of `SucceedsIff`. */
  lemma RunInflight(n: nat, steps: seq<Step>, id: nat)
    requires n >= 1 && Possible(n, steps) && id < |RunSteps(n, steps).requests|
    ensures var p := RunSteps(n, steps);
            var heard := Heard(steps, id);
            && (forall key :: key in p.inflight ==> Increasing(p.requests, p.inflight[key]))
            && (|heard| >= n ==> !p.requests[id].tally.status.Pending?)
            && (p.requests[id].tally.status.Pending? <==> InList(p, id))
            && (|heard| == n ==> (p.requests[id].tally.status.Done? <==>
                  Accepts(heard) >= Majority(n) && !(Split(n, heard) && heard[n - 1].Accepted?)))
  {
    hide RunSteps, Possible, Heard, Increasing, CountAll, Split, Majority, Accepts;
    RunChains(n, steps);
    RunTally(n, steps, id);
    var heard := Heard(steps, id);
    if |heard| >= n { SettlesInTime(n, heard); }
    if |heard| == n { SucceedsIff(n, heard); }
  }
}

/** Publishing to the relays: when a request settles and how the answers decide it. */
module PkarrPublish {
  import opened Bytes

  datatype PublishError = BadRequest | Timeout | CasFailed | ConflictRisk | NotMostRecent | Unexpected

  datatype Answer = Accepted | Refused(error: PublishError)

  datatype Counted = Counted(error: PublishError, count: nat)

  datatype Status = Pending | Done | Failed(error: PublishError)

  /** A request's counters; `errors` is in order of first arrival. */
  datatype Tally = Tally(ok: nat, errors: seq<Counted>, status: Status)

  /** `relayMajority` */
  function Majority(n: nat): nat { n / 2 + n % 2 }

  predicate Fatal(e: PublishError) { e.NotMostRecent? || e.CasFailed? }

  function CountOf(errors: seq<Counted>, e: PublishError): nat {
    if errors == [] then 0 else if errors[0].error == e then errors[0].count else CountOf(errors[1..], e)
  }

  function Bump(errors: seq<Counted>, e: PublishError): seq<Counted> {
    if errors == [] then [Counted(e, 1)]
    else if errors[0].error == e then [Counted(e, errors[0].count + 1)] + errors[1..]
    else [errors[0]] + Bump(errors[1..], e)
  }

  function Total(errors: seq<Counted>): nat {
    if errors == [] then 0 else errors[0].count + Total(errors[1..])
  }

  /** `mostCommonPublishError`, with `best` the most common so far. */
  function MostCommonFrom(best: Option<Counted>, errors: seq<Counted>): PublishError
    decreases |errors|
  {
    if errors == [] then (if best.None? then Unexpected else best.value.error)
    else MostCommonFrom(if best.None? || errors[0].count > best.value.count then Some(errors[0]) else best, errors[1..])
  }

  function AddSuccess(n: nat, t: Tally): Tally {
    var u := t.(ok := t.ok + 1);
    if u.ok >= Majority(n) then u.(status := Done)
    else if Total(u.errors) + u.ok >= n then u.(status := Failed(MostCommonFrom(None, u.errors)))
    else u
  }

  function AddError(n: nat, t: Tally, e: PublishError): Tally {
    var u := t.(errors := Bump(t.errors, e));
    if CountOf(u.errors, e) >= Majority(n) && Fatal(e) then u.(status := Failed(e))
    else if Total(u.errors) + u.ok < n then u
    else if u.ok >= Majority(n) then u.(status := Done)
    else u.(status := Failed(MostCommonFrom(None, u.errors)))
  }

  /** A settled request takes no notice of later answers. */
  function Count(n: nat, t: Tally, a: Answer): Tally {
    if !t.status.Pending? then t
    else match a case Accepted => AddSuccess(n, t) case Refused(e) => AddError(n, t, e)
  }

  function Fresh(): Tally { Tally(0, [], Pending) }

  function CountAll(n: nat, answers: seq<Answer>): Tally {
    if answers == [] then Fresh() else Count(n, CountAll(n, answers[..|answers| - 1]), answers[|answers| - 1])
  }

  // ----------------------------------------------------------------- counting

  ghost function Accepts(answers: seq<Answer>): nat {
    if answers == [] then 0
    else Accepts(answers[..|answers| - 1]) + if answers[|answers| - 1].Accepted? then 1 else 0
  }

  ghost function Refusals(answers: seq<Answer>, e: PublishError): nat {
    if answers == [] then 0
    else Refusals(answers[..|answers| - 1], e) + if answers[|answers| - 1] == Refused(e) then 1 else 0
  }

  lemma {:induction false} BumpCounts(errors: seq<Counted>, e: PublishError, f: PublishError)
    ensures CountOf(Bump(errors, e), f) == CountOf(errors, f) + if f == e then 1 else 0
    ensures Total(Bump(errors, e)) == Total(errors) + 1
    decreases |errors|
  {
    var b := Bump(errors, e);
    if errors == [] {
      var none := b[1..];
      assert none == [];
    } else if errors[0].error == e {
      assert b[1..] == errors[1..];
    } else {
      assert b[1..] == Bump(errors[1..], e);
      BumpCounts(errors[1..], e, f);
    }
  }

  /** A pending request's counters are those of the answers so far; no majority
      has accepted, and no fatal error has reached a majority. */
  ghost predicate Counts(n: nat, t: Tally, answers: seq<Answer>) {
    && t.ok == Accepts(answers) && t.ok < Majority(n)
    && Total(t.errors) + t.ok == |answers| && |answers| < n
    && (forall e :: CountOf(t.errors, e) == Refusals(answers, e))
    && (forall e :: Fatal(e) ==> Refusals(answers, e) < Majority(n))
  }

  lemma StepCounts(n: nat, t: Tally, answers: seq<Answer>, a: Answer)
    requires t.status.Pending? && Counts(n, t, answers)
    ensures var u := Count(n, t, a);
            var all := answers + [a];
            && (u.status.Pending? ==> Counts(n, u, all))
            && (|all| == n ==> !u.status.Pending?)
            && (u.status.Done? ==> Accepts(all) >= Majority(n) && a.Accepted?)
            && (u.status.Failed? ==> Accepts(all) < Majority(n))
            && (u.status.Failed? && |all| < n ==>
                  Fatal(u.status.error) && Refusals(all, u.status.error) >= Majority(n) && a == Refused(u.status.error))
  {
    var all := answers + [a];
    assert all[..|answers|] == answers && all[|answers|] == a;
    if a.Refused? {
      forall f ensures CountOf(Bump(t.errors, a.error), f) == CountOf(t.errors, f) + if f == a.error then 1 else 0 {
        BumpCounts(t.errors, a.error, f);
      }
      BumpCounts(t.errors, a.error, a.error);
    }
    hide Bump, CountOf, Total, MostCommonFrom;
    forall e ensures Refusals(all, e) == Refusals(answers, e) + if a == Refused(e) then 1 else 0 {}
  }

  /** Accepts, and refusals of any one kind, share the answers between them. */
  lemma {:induction false} Shares(answers: seq<Answer>, e: PublishError)
    ensures Accepts(answers) + Refusals(answers, e) <= |answers|
    decreases |answers|
  {
    if answers != [] { Shares(answers[..|answers| - 1], e); }
  }

  // ------------------------------------------------------------ what decides

  lemma {:induction false} CountAllCounts(n: nat, answers: seq<Answer>)
    requires n >= 1 && CountAll(n, answers).status.Pending?
    ensures Counts(n, CountAll(n, answers), answers)
    decreases |answers|
  {
    if answers != [] {
      var init, a := answers[..|answers| - 1], answers[|answers| - 1];
      assert answers == init + [a];
      CountAllCounts(n, init);
      StepCounts(n, CountAll(n, init), init, a);
    }
  }

  /** Every request settles by the n-th answer at the latest. */
  lemma SettlesInTime(n: nat, answers: seq<Answer>)
    requires n >= 1 && |answers| >= n
    ensures !CountAll(n, answers).status.Pending?
  {
    if CountAll(n, answers).status.Pending? { CountAllCounts(n, answers); }
  }

  /** The only case in which order matters: exactly half accept and the other
      half all report the same fatal error. */
  ghost predicate Split(n: nat, answers: seq<Answer>) {
    n % 2 == 0 && Accepts(answers) == n / 2 && exists e :: Fatal(e) && Refusals(answers, e) == n / 2
  }

  /** The answer that settles a request; later ones change nothing. */
  lemma {:induction false} SettlePoint(n: nat, answers: seq<Answer>) returns (k: nat)
    requires !CountAll(n, answers).status.Pending?
    ensures 0 < k <= |answers| && CountAll(n, answers[..k - 1]).status.Pending?
    ensures CountAll(n, answers[..k]) == CountAll(n, answers)
    decreases |answers|
  {
    var init := answers[..|answers| - 1];
    if CountAll(n, init).status.Pending? {
      k := |answers|;
      assert answers[..k] == answers;
    } else {
      k := SettlePoint(n, init);
      assert answers[..k] == init[..k] && answers[..k - 1] == init[..k - 1];
    }
  }

  lemma {:induction false} Grows(answers: seq<Answer>, k: nat, e: PublishError)
    requires k <= |answers|
    ensures Accepts(answers[..k]) <= Accepts(answers) && Refusals(answers[..k], e) <= Refusals(answers, e)
    decreases |answers|
  {
    if k == |answers| {
      assert answers[..k] == answers;
    } else {
      var init := answers[..|answers| - 1];
      assert answers[..k] == init[..k];
      Grows(init, k, e);
    }
  }

  lemma AcceptedFirst(n: nat, answers: seq<Answer>, k: nat)
    requires |answers| == n && 0 < k <= n
    requires Accepts(answers[..k]) >= Majority(n) && forall e :: Fatal(e) ==> Refusals(answers[..k - 1], e) < Majority(n)
    ensures Accepts(answers) >= Majority(n) && !(Split(n, answers) && answers[n - 1].Accepted?)
  {
    Grows(answers, k, Unexpected);
    var init := answers[..n - 1];
    if k < n {
      assert init[..k] == answers[..k];
      Grows(init, k, Unexpected);
    }
  }

  lemma RefusedFirst(n: nat, answers: seq<Answer>, k: nat, e: PublishError)
    requires |answers| == n && 0 < k < n && Fatal(e) && Refusals(answers[..k], e) >= Majority(n)
    ensures Accepts(answers) < Majority(n) || (Split(n, answers) && answers[n - 1].Accepted?)
  {
    var init := answers[..n - 1];
    Grows(answers, k, e);
    assert init[..k] == answers[..k];
    Grows(init, k, e);
    Shares(answers, e);
    Shares(init, e);
  }

  /** Of n answers, a request succeeds if and only if a majority accepts and it
      is not an even split that ends with an acceptance: then the fatal half
      was complete first. */
  lemma SucceedsIff(n: nat, answers: seq<Answer>)
    requires n >= 1 && |answers| == n
    ensures !CountAll(n, answers).status.Pending?
    ensures CountAll(n, answers).status.Done? <==>
            Accepts(answers) >= Majority(n) && !(Split(n, answers) && answers[n - 1].Accepted?)
  {
    hide Split, Majority;
    SettlesInTime(n, answers);
    var k := SettlePoint(n, answers);
    var all, init, a := answers[..k], answers[..k - 1], answers[k - 1];
    assert all == init + [a] && all[..k - 1] == init;
    CountAllCounts(n, init);
    StepCounts(n, CountAll(n, init), init, a);
    if CountAll(n, all).status.Done? {
      AcceptedFirst(n, answers, k);
    } else if k < n {
      RefusedFirst(n, answers, k, CountAll(n, all).status.error);
    } else {
      assert all == answers;
    }
  }

  lemma {:induction false} CountsOfMultiset(answers: seq<Answer>, e: PublishError)
    ensures Accepts(answers) == multiset(answers)[Accepted]
    ensures Refusals(answers, e) == multiset(answers)[Refused(e)]
    decreases |answers|
  {
    if answers != [] {
      CountsOfMultiset(answers[..|answers| - 1], e);
      assert answers == answers[..|answers| - 1] + [answers[|answers| - 1]];
    }
  }

  /** Success does not depend on the order of the answers, but for an even
      split between acceptances and one fatal error. */
  lemma OrderIrrelevant(n: nat, answers: seq<Answer>, others: seq<Answer>)
    requires n >= 1 && |answers| == n && multiset(answers) == multiset(others)
    requires !Split(n, answers)
    ensures CountAll(n, answers).status.Done? <==> CountAll(n, others).status.Done?
  {
    hide CountAll, Majority, Accepts, Refusals;
    assert |multiset(answers)| == |multiset(others)|;
    forall e ensures Refusals(answers, e) == Refusals(others, e) {
      CountsOfMultiset(answers, e);
      CountsOfMultiset(others, e);
    }
    CountsOfMultiset(answers, Unexpected);
    CountsOfMultiset(others, Unexpected);
    SucceedsIff(n, answers);
    SucceedsIff(n, others);
  }

  /** In an even split the last answer decides: success comes last, failure was first. */
  lemma SplitDecidedByOrder(n: nat, answers: seq<Answer>)
    requires n >= 1 && |answers| == n && Split(n, answers)
    ensures CountAll(n, answers).status.Done? <==> answers[n - 1].Refused?
  {
    SucceedsIff(n, answers);
  }

  /** When all answers are in, the error reported is a most common one. */
  lemma {:induction false} MostCommonIs(best: Option<Counted>, errors: seq<Counted>)
    requires best.Some? || errors != []
    ensures exists c :: (c in errors || best == Some(c)) && c.error == MostCommonFrom(best, errors)
              && (forall d :: d in errors ==> d.count <= c.count) && (best.Some? ==> best.value.count <= c.count)
    decreases |errors|
  {
    if errors == [] {
      assert best == Some(best.value);
    } else {
      var better := if best.None? || errors[0].count > best.value.count then Some(errors[0]) else best;
      MostCommonIs(better, errors[1..]);
      var c :| (c in errors[1..] || better == Some(c)) && c.error == MostCommonFrom(better, errors[1..])
               && (forall d :: d in errors[1..] ==> d.count <= c.count) && better.value.count <= c.count;
      assert errors == [errors[0]] + errors[1..];
      assert c in errors || best == Some(c);
    }
  }
}

/** Shared-seed slots: the versions each endpoint keeps, the relay that stores
    one value a slot, and the merge of several transports' answers. */
module Slots {
  import opened Bytes
  import opened ByteOrder

  const MAX_U64 := 0xffff_ffff_ffff_ffff

  type Name = string

  // ------------------------------------------------------- endpoint's versions

  /** `InMemoryInner`'s two maps: the last version issued and the highest seen. */
  datatype Versions = Versions(local: map<Name, nat>, seen: map<Name, nat>)

  function At(m: map<Name, nat>, slot: Name): nat { if slot in m then m[slot] else 0 }

  function Floor(v: Versions, slot: Name): nat {
    if At(v.local, slot) > At(v.seen, slot) then At(v.local, slot) else At(v.seen, slot)
  }

  /** `next_local_slot_version`; a counter that would overflow panics. */
  function Next(v: Versions, slot: Name): Result<nat> {
    if Floor(v, slot) >= MAX_U64 then Err else Ok(Floor(v, slot) + 1)
  }

  function Issued(v: Versions, slot: Name): Versions {
    if Next(v, slot).Ok? then v.(local := v.local[slot := Floor(v, slot) + 1]) else v
  }

  /** `record_seen_slot_version` */
  function Recorded(v: Versions, slot: Name, version: nat): Versions {
    if slot in v.seen && version <= v.seen[slot] then v else v.(seen := v.seen[slot := version])
  }

  class SlotVersions {
    var local: map<Name, nat>
    var seen: map<Name, nat>

    ghost function Model(): Versions
      reads this
    {
      Versions(local, seen)
    }

    constructor ()
      ensures Model() == Versions(map[], map[])
    {
      local, seen := map[], map[];
    }

    method NextLocalSlotVersion(slot: Name) returns (next: Result<nat>)
      modifies `local
      ensures next == Next(old(Model()), slot) && Model() == Issued(old(Model()), slot)
      ensures next.Ok? ==> next.value > At(seen, slot) && next.value > At(old(local), slot)
    {
      var observed := At(seen, slot);
      var entry := At(local, slot);
      var floor := if entry > observed then entry else observed;
      if floor >= MAX_U64 {
        return Err;
      }
      local := local[slot := floor + 1];
      next := Ok(floor + 1);
    }

    method RecordSeenSlotVersion(slot: Name, version: nat) returns (advanced: bool)
      modifies `seen
      ensures Model() == Recorded(old(Model()), slot, version)
      ensures advanced <==> !(slot in old(seen) && version <= old(seen)[slot])
    {
      if slot in seen && version <= seen[slot] {
        return false;
      }
      seen := seen[slot := version];
      advanced := true;
    }
  }

  // ------------------------------------------------------------------- relay

  datatype SlotEntry = SlotEntry(version: nat, sealed: Bytes, expires: int)

  predicate Expired(e: SlotEntry, now: int) { now >= e.expires }

  predicate Blocks(slots: map<Name, SlotEntry>, id: Name, version: nat, now: int) {
    id in slots && !Expired(slots[id], now) && slots[id].version >= version
  }

  class Relay {
    var slots: map<Name, SlotEntry>

    constructor ()
      ensures slots == map[]
    {
      slots := map[];
    }

    /** `put_slot`: `false` is a stale write. */
    method PutSlot(id: Name, slot: SlotEntry, now: int) returns (stored: bool)
      modifies this
      ensures stored <==> !Blocks(old(slots), id, slot.version, now)
      ensures slots == PutInto(old(slots), id, slot, now)
    {
      if id in slots && !Expired(slots[id], now) && slots[id].version >= slot.version {
        return false;
      }
      slots := slots[id := slot];
      stored := true;
    }

    /** `get_slot_newer` */
    method GetSlotNewer(id: Name, since: nat, now: int) returns (slot: Option<SlotEntry>)
      modifies this
      ensures slots == GetFrom(old(slots), id, now)
      ensures slot == if id in slots && slots[id].version > since then Some(slots[id]) else None
      ensures id in slots ==> !Expired(slots[id], now)
    {
      if id !in slots {
        return None;
      }
      if Expired(slots[id], now) {
        slots := slots - {id};
        return None;
      }
      slot := if slots[id].version > since then Some(slots[id]) else None;
    }
  }

  function PutInto(slots: map<Name, SlotEntry>, id: Name, slot: SlotEntry, now: int): map<Name, SlotEntry> {
    if Blocks(slots, id, slot.version, now) then slots else slots[id := slot]
  }

  function GetFrom(slots: map<Name, SlotEntry>, id: Name, now: int): map<Name, SlotEntry> {
    if id in slots && Expired(slots[id], now) then slots - {id} else slots
  }

  // ---------------------------------------------------- merging the transports

  /** What one transport answers to a get. */
  datatype Answer = Empty | Value(sealed: Bytes) | Failure

  /** A value that could be opened, with the version inside. */
  datatype Candidate = Candidate(version: nat, sealed: Bytes)

  /** `slot_pair_is_newer` */
  predicate Newer(a: Candidate, b: Candidate) {
    a.version > b.version || (a.version == b.version && Compare(a.sealed, b.sealed) > 0)
  }

  /** The candidate in an answer, if it holds one that opens to a versioned value. */
  function CandidateOf(open: Bytes -> Option<nat>, a: Answer): Option<Candidate> {
    if a.Value? && open(a.sealed).Some? then Some(Candidate(open(a.sealed).value, a.sealed)) else None
  }

  ghost predicate Offers(open: Bytes -> Option<nat>, answers: seq<Answer>, c: Candidate) {
    exists a :: a in answers && CandidateOf(open, a) == Some(c)
  }

  /** What a get has to give: an error if every transport failed, else the
      newest candidate of all answers. */
  ghost predicate Merged(open: Bytes -> Option<nat>, answers: seq<Answer>, r: Result<Option<Candidate>>) {
    match r
    case Err => answers != [] && forall a :: a in answers ==> a.Failure?
    case Ok(best) =>
      && (answers == [] || exists a :: a in answers && !a.Failure?)
      && (best.None? ==> forall c :: !Offers(open, answers, c))
      && (best.Some? ==> Offers(open, answers, best.value)
                         && forall c :: Offers(open, answers, c) ==> !Newer(c, best.value))
  }

  lemma NewerTotal(a: Candidate, b: Candidate)
    ensures !(Newer(a, b) && Newer(b, a))
    ensures a == b <==> !Newer(a, b) && !Newer(b, a)
  {
    CompareFlips(a.sealed, b.sealed);
    CompareSame(a.sealed, b.sealed);
  }

  lemma NewerChains(a: Candidate, b: Candidate, c: Candidate)
    requires !Newer(b, a) && !Newer(c, b)
    ensures !Newer(c, a)
  {
    if a.version == b.version == c.version {
      CompareFlips(a.sealed, b.sealed);
      CompareFlips(b.sealed, c.sealed);
      CompareFlips(a.sealed, c.sealed);
      CompareChains(a.sealed, b.sealed, c.sealed);
    }
  }

  /** `slot_get`'s loop over the transports in order of completion. */
  method SlotGet(open: Bytes -> Option<nat>, answers: seq<Answer>) returns (r: Result<Option<Candidate>>)
    ensures Merged(open, answers, r)
  {
    hide Newer;
    var okCount, failures := 0, 0;
    var best: Option<Candidate> := None;
    for i := 0 to |answers|
      invariant okCount + failures == i && okCount >= 0 && failures >= 0
      invariant okCount == 0 <==> forall j :: 0 <= j < i ==> answers[j].Failure?
      invariant best.None? ==> forall j :: 0 <= j < i ==> CandidateOf(open, answers[j]).None?
      invariant best.Some? ==> exists j :: 0 <= j < i && CandidateOf(open, answers[j]) == best
      invariant best.Some? ==> forall j :: 0 <= j < i && CandidateOf(open, answers[j]).Some? ==>
                  !Newer(CandidateOf(open, answers[j]).value, best.value)
    {
      ghost var before := best;
      var found := CandidateOf(open, answers[i]);
      if answers[i].Failure? { failures := failures + 1; } else { okCount := okCount + 1; }
      if found.Some? {
        NewerTotal(found.value, found.value);
        if best.None? || Newer(found.value, best.value) {
          best := found;
          assert CandidateOf(open, answers[i]) == best;
        }
      }
      forall j | 0 <= j < i && best.Some? && CandidateOf(open, answers[j]).Some?
        ensures !Newer(CandidateOf(open, answers[j]).value, best.value)
      {
        if before.Some? {
          NewerTotal(before.value, best.value);
          NewerChains(best.value, before.value, CandidateOf(open, answers[j]).value);
        }
      }
    }
    if okCount == 0 && failures > 0 {
      return Err;
    }
    r := Ok(best);
    if answers != [] { assert exists j :: 0 <= j < |answers| && !answers[j].Failure?; }
  }

  /** Whatever the order of completion, the result is the same. */
  lemma CompletionOrderIrrelevant(
      open: Bytes -> Option<nat>, answers: seq<Answer>, others: seq<Answer>,
      r: Result<Option<Candidate>>, s: Result<Option<Candidate>>)
    requires forall a :: a in answers <==> a in others
    requires Merged(open, answers, r) && Merged(open, others, s)
    ensures r == s
  {
    hide Newer;
    if answers != [] { assert answers[0] in others; }
    if others != [] { assert others[0] in answers; }
    SameOffers(open, answers, others);
    SameOffers(open, others, answers);
    if r.Ok? && s.Ok? && r.value.Some? && s.value.Some? { NewerTotal(r.value.value, s.value.value); }
  }

  lemma SameOffers(open: Bytes -> Option<nat>, answers: seq<Answer>, others: seq<Answer>)
    requires forall a :: a in answers ==> a in others
    ensures forall c :: Offers(open, answers, c) ==> Offers(open, others, c)
  {
    forall c | Offers(open, answers, c) ensures Offers(open, others, c) {
      var a :| a in answers && CandidateOf(open, a) == Some(c);
      assert a in others;
    }
  }
}

/** Runs of any number of shared-seed endpoints and one relay. Writes and
    answers take their time on the way, overtake each other and may be lost. */
module SlotRuns {
  import opened Bytes
  import opened Slots

  /** Sealing and opening, shared by all endpoints. */
  datatype Codec = Codec(seal: (nat, Name, nat, Bytes) -> Bytes, open: Bytes -> Option<nat>)

  /** Every endpoint can open every value, and finds the version inside. */
  ghost predicate Openable(c: Codec) {
    forall e: nat, name: Name, version: nat, payload: Bytes ::
      c.open(c.seal(e, name, version, payload)) == Some(version)
  }

  datatype Write = Write(endpoint: nat, name: Name, version: nat, sealed: Bytes)
  datatype Reply = Reply(endpoint: nat, name: Name, sealed: Bytes)
  datatype Event = Issue(endpoint: nat, name: Name, version: nat) | Seen(endpoint: nat, name: Name, version: nat)

  datatype World = World(
    endpoints: map<nat, Versions>, slots: map<Name, SlotEntry>, writes: seq<Write>, replies: seq<Reply>,
    log: seq<Event>)

  datatype Action =
    | Put(endpoint: nat, name: Name, payload: Bytes)
    | Arrive(write: Write, expires: int, now: int)
    | Get(endpoint: nat, name: Name, now: int)
    | Hear(reply: Reply)

  function VersionsOf(w: World, e: nat): Versions {
    if e in w.endpoints then w.endpoints[e] else Versions(map[], map[])
  }

  /** One action. A write or reply in flight may arrive late, never, or, when
      a request is repeated, more than once. */
  ghost function Act(c: Codec, w: World, a: Action): World {
    match a
    case Put(e, name, payload) =>
      var v := VersionsOf(w, e);
      var next := Next(v, name);
      if next.Err? then w
      else
        w.(endpoints := w.endpoints[e := Issued(v, name)],
           writes := w.writes + [Write(e, name, next.value, c.seal(e, name, next.value, payload))],
           log := w.log + [Issue(e, name, next.value)])
    case Arrive(m, expires, now) =>
      if m !in w.writes then w
      else w.(slots := PutInto(w.slots, m.name, SlotEntry(m.version, m.sealed, expires), now))
    case Get(e, name, now) =>
      var slots := GetFrom(w.slots, name, now);
      w.(slots := slots,
         replies := if name in slots && slots[name].version > 0
                    then w.replies + [Reply(e, name, slots[name].sealed)] else w.replies)
    case Hear(r) =>
      if r !in w.replies || c.open(r.sealed).None? then w
      else
        var version := c.open(r.sealed).value;
        w.(endpoints := w.endpoints[r.endpoint := Recorded(VersionsOf(w, r.endpoint), r.name, version)],
           log := w.log + [Seen(r.endpoint, r.name, version)])
  }

  ghost function Run(c: Codec, w: World, actions: seq<Action>): World {
    if actions == [] then w else Act(c, Run(c, w, actions[..|actions| - 1]), actions[|actions| - 1])
  }

  // ------------------------------------------------------ versions of endpoints

  /** An endpoint's maps have kept up with all it issued and saw. */
  ghost predicate KeptUp(w: World) {
    forall i :: 0 <= i < |w.log| ==> Known(w, w.log[i])
  }

  ghost predicate Known(w: World, event: Event) {
    match event
    case Issue(e, name, version) => version <= At(VersionsOf(w, e).local, name)
    case Seen(e, name, version) => version <= At(VersionsOf(w, e).seen, name)
  }

  /** Each version issued is above all that its endpoint issued or saw before. */
  ghost predicate Above(log: seq<Event>) {
    forall i, j :: 0 <= i < j < |log| && SameSlot(log[i], log[j]) ==> log[i].version < log[j].version
  }

  /** `later` issues a version for the slot and endpoint of `earlier`. */
  ghost predicate SameSlot(earlier: Event, later: Event) {
    later.Issue? && earlier.endpoint == later.endpoint && earlier.name == later.name
  }

  lemma ActKnown(c: Codec, w: World, a: Action, event: Event)
    requires Known(w, event)
    ensures Known(Act(c, w, a), event)
  {
  }

  lemma ActVersions(c: Codec, w: World, a: Action)
    requires KeptUp(w) && Above(w.log)
    ensures KeptUp(Act(c, w, a)) && Above(Act(c, w, a).log)
  {
    var u := Act(c, w, a);
    forall i | 0 <= i < |u.log| ensures Known(u, u.log[i]) {
      if i < |w.log| {
        assert u.log[i] == w.log[i];
        ActKnown(c, w, a, w.log[i]);
      }
    }
    forall i, j | 0 <= i < j < |u.log| && SameSlot(u.log[i], u.log[j])
      ensures u.log[i].version < u.log[j].version
    {
      assert u.log[i] == w.log[i];
      assert Known(w, w.log[i]);
      if j < |w.log| { assert u.log[j] == w.log[j]; }
    }
  }

  /** Nobody has done anything yet. */
  ghost function Nothing(): World { World(map[], map[], [], [], []) }

  /** In every run, the versions an endpoint issues for a slot strictly increase
      and exceed every version it has recorded as seen. */
  lemma {:induction false} RunVersions(c: Codec, actions: seq<Action>)
    ensures KeptUp(Run(c, Nothing(), actions)) && Above(Run(c, Nothing(), actions).log)
    decreases |actions|
  {
    hide Act;
    if actions != [] {
      var init := actions[..|actions| - 1];
      RunVersions(c, init);
      ActVersions(c, Run(c, Nothing(), init), actions[|actions| - 1]);
    }
  }

  // --------------------------------------------------------------- the relay

  /** The time of an action at the relay is before `limit`. */
  ghost predicate Before(a: Action, limit: int) {
    (a.Arrive? || a.Get?) ==> a.now < limit
  }

  /** In every run, until it expires, an entry stays or gives way to one of a
      strictly higher version. */
  lemma {:induction false} RelayIncreases(c: Codec, w: World, actions: seq<Action>, name: Name)
    requires name in w.slots
    requires forall i :: 0 <= i < |actions| ==> Unexpired(c, w, actions, i, name)
    ensures var end := Run(c, w, actions);
            name in end.slots && (end.slots[name] == w.slots[name] || end.slots[name].version > w.slots[name].version)
    decreases |actions|
  {
    if actions != [] {
      var init, a := actions[..|actions| - 1], actions[|actions| - 1];
      forall i | 0 <= i < |init| ensures Unexpired(c, w, init, i, name) {
        assert Unexpired(c, w, actions, i, name);
        assert init[..i] == actions[..i];
      }
      RelayIncreases(c, w, init, name);
      assert Unexpired(c, w, actions, |init|, name);
    }
  }

  /** Before its i-th action, the slot's entry is not expired at that action's time. */
  ghost predicate Unexpired(c: Codec, w: World, actions: seq<Action>, i: nat, name: Name)
    requires i < |actions|
  {
    var slots := Run(c, w, actions[..i]).slots;
    name in slots ==> Before(actions[i], slots[name].expires)
  }

  // ---------------------------------------------------------------- get, put

  /** What is at the relay or on the way can be opened to its own version. */
  ghost predicate Honest(c: Codec, w: World) {
    && (forall name :: name in w.slots ==> c.open(w.slots[name].sealed) == Some(w.slots[name].version))
    && (forall m :: m in w.writes ==> c.open(m.sealed) == Some(m.version))
  }

  lemma ActHonest(c: Codec, w: World, a: Action)
    requires Openable(c) && Honest(c, w)
    ensures Honest(c, Act(c, w, a))
  {
  }

  /** No write to `name` takes effect. */
  ghost predicate NoWrite(c: Codec, w: World, actions: seq<Action>, name: Name) {
    actions == [] ||
    (var before := Run(c, w, actions[..|actions| - 1]);
     var a := actions[|actions| - 1];
     && NoWrite(c, w, actions[..|actions| - 1], name)
     && (a.Arrive? && a.write in before.writes && a.write.name == name ==>
           Blocks(before.slots, name, a.write.version, a.now)))
  }

  /** Without a write, a slot keeps its entry or loses it by expiry. */
  lemma {:induction false} NoWriteKeeps(c: Codec, w: World, actions: seq<Action>, name: Name)
    requires NoWrite(c, w, actions, name)
    ensures name in Run(c, w, actions).slots ==>
              name in w.slots && Run(c, w, actions).slots[name] == w.slots[name]
    decreases |actions|
  {
    if actions != [] { NoWriteKeeps(c, w, actions[..|actions| - 1], name); }
  }

  lemma {:induction false} SeenGrows(c: Codec, w: World, actions: seq<Action>, e: nat, name: Name)
    ensures At(VersionsOf(w, e).seen, name) <= At(VersionsOf(Run(c, w, actions), e).seen, name)
    decreases |actions|
  {
    if actions != [] { SeenGrows(c, w, actions[..|actions| - 1], e, name); }
  }

  lemma {:induction false} RunHonest(c: Codec, actions: seq<Action>)
    requires Openable(c)
    ensures Honest(c, Run(c, Nothing(), actions))
    decreases |actions|
  {
    hide Act;
    if actions != [] {
      var init := actions[..|actions| - 1];
      RunHonest(c, init);
      ActHonest(c, Run(c, Nothing(), init), actions[|actions| - 1]);
    }
  }

  lemma {:induction false} MessagesStay(c: Codec, w: World, actions: seq<Action>)
    ensures forall r :: r in w.replies ==> r in Run(c, w, actions).replies
    ensures forall m :: m in w.writes ==> m in Run(c, w, actions).writes
    decreases |actions|
  {
    if actions != [] { MessagesStay(c, w, actions[..|actions| - 1]); }
  }

  /** The endpoint hears the answer to a get made at `got`; there is none when
      the slot held nothing. */
  ghost function Heard(c: Codec, got: World, w: World, e: nat, name: Name): World {
    if name in got.slots && got.slots[name].version > 0
    then Act(c, w, Hear(Reply(e, name, got.slots[name].sealed))) else w
  }

  /** Hearing records at least the version that the slot held. */
  lemma HeardRecords(c: Codec, w: World, e: nat, name: Name, now: int, first: seq<Action>)
    requires Openable(c) && Honest(c, w)
    ensures var got := Act(c, w, Get(e, name, now));
            name in got.slots ==>
              At(VersionsOf(Heard(c, got, Run(c, got, first), e, name), e).seen, name) >= got.slots[name].version
  {
    hide Run;
    var got := Act(c, w, Get(e, name, now));
    ActHonest(c, w, Get(e, name, now));
    MessagesStay(c, got, first);
  }

  /** In every run: an endpoint gets a slot, hears the answer and later puts to
      it; unless another write to the slot took effect since the get, the put is
      stored whenever it arrives, whatever else happens in between. */
  lemma GetThenPut(
      c: Codec, before: seq<Action>, e: nat, name: Name, now: int, first: seq<Action>, second: seq<Action>,
      payload: Bytes, third: seq<Action>, expires: int, later: int)
    requires Openable(c)
    requires var got := Act(c, Run(c, Nothing(), before), Get(e, name, now));
             && NoWrite(c, got, first, name)
             && var heard := Heard(c, got, Run(c, got, first), e, name);
             && NoWrite(c, heard, second, name)
             && var ready := Run(c, heard, second);
             && Next(VersionsOf(ready, e), name).Ok?
             && NoWrite(c, Act(c, ready, Put(e, name, payload)), third, name)
    ensures var got := Act(c, Run(c, Nothing(), before), Get(e, name, now));
            var ready := Run(c, Heard(c, got, Run(c, got, first), e, name), second);
            var put := Act(c, ready, Put(e, name, payload));
            var m := put.writes[|put.writes| - 1];
            var end := Act(c, Run(c, put, third), Arrive(m, expires, later));
            && m.endpoint == e && m.name == name
            && name in end.slots && end.slots[name] == SlotEntry(m.version, m.sealed, expires)
  {
    hide Run, NoWrite, Honest, Openable;
    var w := Run(c, Nothing(), before);
    RunHonest(c, before);
    var got := Act(c, w, Get(e, name, now));
    NoWriteKeeps(c, got, first, name);
    HeardRecords(c, w, e, name, now, first);
    var heard := Heard(c, got, Run(c, got, first), e, name);
    NoWriteKeeps(c, heard, second, name);
    SeenGrows(c, heard, second, e, name);
    var ready := Run(c, heard, second);
    var put := Act(c, ready, Put(e, name, payload));
    NoWriteKeeps(c, put, third, name);
    MessagesStay(c, put, third);
    assert put.writes[|put.writes| - 1] in put.writes;
  }
}

/** What a topic remembers of broadcast messages: the source queues of missing
    ids with their graft timers, the seen set and the cache, over every step. */
module GossipMemory {
  import opened Bytes
  import opened GossipTypes
  import opened GossipTopic
  import opened GossipViews

  // ------------------------------------------------------------------ counts

  /** The timers that a list of outputs starts. */
  ghost function Scheduled(out: seq<Out>): multiset<Timer> {
    if out == [] then multiset{}
    else (if out[0].Schedule? then multiset{out[0].timer} else multiset{}) + Scheduled(out[1..])
  }

  lemma {:induction false} ScheduledConcat(a: seq<Out>, b: seq<Out>)
    ensures Scheduled(a + b) == Scheduled(a) + Scheduled(b)
    decreases |a|
  {
    if a == [] {
      assert a + b == b;
    } else {
      assert (a + b)[1..] == a[1..] + b;
      ScheduledConcat(a[1..], b);
    }
  }

  /** The GRAFTs for `id` among a list of outputs. */
  ghost function Grafts(out: seq<Out>, id: Id): nat {
    if out == [] then 0
    else (if out[0].Send? && out[0].message.Graft? && out[0].message.wanted == Some(id) then 1 else 0)
         + Grafts(out[1..], id)
  }

  lemma {:induction false} GraftsConcat(a: seq<Out>, b: seq<Out>, id: Id)
    ensures Grafts(a + b, id) == Grafts(a, id) + Grafts(b, id)
    decreases |a|
  {
    if a == [] {
      assert a + b == b;
    } else {
      assert (a + b)[1..] == a[1..] + b;
      GraftsConcat(a[1..], b, id);
    }
  }

  ghost predicate NoGraft(out: seq<Out>) {
    forall o :: o in out ==> !(o.Send? && o.message.Graft?)
  }

  lemma {:induction false} NoGraftCount(out: seq<Out>, id: Id)
    requires NoGraft(out)
    ensures Grafts(out, id) == 0
    decreases |out|
  {
    if out != [] {
      assert out[0] in out;
      NoGraftCount(out[1..], id);
    }
  }

  ghost function Listed(entries: seq<Entry>, id: Id): nat {
    if entries == [] then 0 else (if entries[0].id == id then 1 else 0) + Listed(entries[1..], id)
  }

  /** The announcements of `id` that an event brings. */
  ghost function Announced(event: Event, id: Id): nat {
    if event.Recv? && event.message.IHave? then Listed(event.message.entries, id) else 0
  }

  // ----------------------------------------------------- missing and grafting

  /** Every missing id has a source, and unless this node broadcast it itself
      it is not seen and a graft timer runs for it. */
  ghost predicate Sourced(
      missing: map<Id, seq<Source>>, seen: map<Id, int>, scheduled: set<Id>, timers: multiset<Timer>, own: set<Id>)
  {
    && (forall id :: id in missing ==> missing[id] != [])
    && (forall id :: id in missing && id !in own ==> SendGraft(id) in timers && id !in seen)
    && (forall id :: id in scheduled ==> SendGraft(id) in timers)
  }

  ghost predicate GraftInv(t: Topic, timers: multiset<Timer>, own: set<Id>) {
    Sourced(t.missing, t.seen, t.graftScheduled, timers, own)
  }

  /** Queued sources plus GRAFTs sent grow by no more than the announcements. */
  ghost predicate Paid(t: Topic, s: Step, id: Id, announced: nat) {
    Grafts(s.out, id) + |QueueOf(s.t.missing, id)| <= |QueueOf(t.missing, id)| + announced
  }

  lemma MoreTimers(t: Topic, timers: multiset<Timer>, more: multiset<Timer>, own: set<Id>)
    requires GraftInv(t, timers, own)
    ensures GraftInv(t, timers + more, own)
  {
    assert forall id :: SendGraft(id) in timers ==> SendGraft(id) in timers + more;
  }

  lemma CalmGraft(t: Topic, s: Step, timers: multiset<Timer>, own: set<Id>, id: Id)
    requires GraftInv(t, timers, own) && Calm(t, s)
    ensures GraftInv(s.t, timers, own) && Paid(t, s, id, 0)
  {
    hide Grafts;
    NoGraftCount(s.out, id);
  }

  lemma One(o: Out, id: Id)
    ensures Scheduled([o]) == (if o.Schedule? then multiset{o.timer} else multiset{})
    ensures Grafts([o], id) == if o.Send? && o.message.Graft? && o.message.wanted == Some(id) then 1 else 0
  {
    assert [o][1..] == [];
  }

  lemma EnqueueSourced(
      missing: map<Id, seq<Source>>, seen: map<Id, int>, scheduled: set<Id>, timers: multiset<Timer>, own: set<Id>,
      id: Id, source: Source)
    requires Sourced(missing, seen, scheduled, timers, own) && id !in seen && SendGraft(id) in timers
    ensures Sourced(Enqueue(missing, id, source), seen, scheduled + {id}, timers, own)
  {
  }

  lemma AnnounceGraft(t: Topic, peer: Id, entry: Entry, now: int, timers: multiset<Timer>, own: set<Id>)
    requires GraftInv(t, timers, own)
    ensures var s := Announce(t, peer, entry, now); GraftInv(s.t, timers + Scheduled(s.out), own)
  {
    hide Sourced, Scheduled, Enqueue;
    var s := Announce(t, peer, entry, now);
    var after := timers + Scheduled(s.out);
    if HasSeen(t, entry.id, now) {
      ScheduledNone(timers);
    } else {
      if entry.id in t.graftScheduled {
        ScheduledNone(timers);
        Running(t, timers, own, entry.id);
      } else {
        One(s.out[0], entry.id);
      }
      var u := DropExpired(t, entry.id, now);
      MoreTimers(t, timers, Scheduled(s.out), own);
      FewerSeen(t, u, after, own);
      EnqueueSourced(u.missing, u.seen, u.graftScheduled, after, own, entry.id, Source(peer, entry.round));
    }
  }

  lemma AnnouncePays(t: Topic, peer: Id, entry: Entry, now: int, id: Id)
    ensures Paid(t, Announce(t, peer, entry, now), id, Listed([entry], id))
  {
    hide Grafts, Listed;
    NoGraftCount(Announce(t, peer, entry, now).out, id);
    ListedOne(entry, id);
  }

  lemma ListedOne(entry: Entry, id: Id)
    ensures Listed([entry], id) == if entry.id == id then 1 else 0
  {
    assert [entry][1..] == [];
  }

  lemma ScheduledNone(timers: multiset<Timer>)
    ensures timers + Scheduled([]) == timers
  {
  }

  lemma Running(t: Topic, timers: multiset<Timer>, own: set<Id>, id: Id)
    requires GraftInv(t, timers, own) && id in t.graftScheduled
    ensures SendGraft(id) in timers
  {
  }

  lemma FewerSeen(t: Topic, u: Topic, timers: multiset<Timer>, own: set<Id>)
    requires GraftInv(t, timers, own)
    requires u.missing == t.missing && u.graftScheduled <= t.graftScheduled && u.seen.Keys <= t.seen.Keys
    ensures GraftInv(u, timers, own)
  {
  }

  lemma {:induction false} IHaveGraft(
      t: Topic, peer: Id, entries: seq<Entry>, now: int, timers: multiset<Timer>, own: set<Id>, id: Id)
    requires GraftInv(t, timers, own)
    ensures var s := HandleIHave(t, peer, entries, now);
            GraftInv(s.t, timers + Scheduled(s.out), own) && Paid(t, s, id, Listed(entries, id))
    decreases |entries|
  {
    hide GraftInv, Announce, QueueOf;
    if entries == [] {
      assert timers + multiset{} == timers;
    } else {
      var s := Announce(t, peer, entries[0], now);
      var rest := HandleIHave(s.t, peer, entries[1..], now);
      AnnounceGraft(t, peer, entries[0], now, timers, own);
      AnnouncePays(t, peer, entries[0], now, id);
      IHaveGraft(s.t, peer, entries[1..], now, timers + Scheduled(s.out), own, id);
      ScheduledConcat(s.out, rest.out);
      GraftsConcat(s.out, rest.out, id);
      assert timers + Scheduled(s.out) + Scheduled(rest.out) == timers + Scheduled(s.out + rest.out);
      ListedOne(entries[0], id);
    }
  }

  lemma ShiftSourced(
      missing: map<Id, seq<Source>>, seen: map<Id, int>, scheduled: set<Id>, timers: multiset<Timer>,
      after: multiset<Timer>, own: set<Id>, id: Id)
    requires Sourced(missing, seen, scheduled, timers, own)
    requires forall other :: other != id && SendGraft(other) in timers ==> SendGraft(other) in after
    requires |QueueOf(missing, id)| > 1 ==> SendGraft(id) in after
    ensures Sourced(Shift(missing, id), seen, scheduled - {id}, after, own)
  {
  }

  lemma EagerFrame(t: Topic, peer: Id)
    ensures SameGossip(t, AddEager(t, peer))
  {
    hide Without, With, DropQueue;
  }

  /** What the timer of an unseen id does to the fields at stake. */
  lemma GraftTimerShape(t: Topic, id: Id, now: int)
    requires !HasSeen(t, id, now)
    ensures var s := HandleGraftTimer(t, id, now);
            && s.t.missing == Shift(t.missing, id) && s.t.graftScheduled == t.graftScheduled - {id}
            && s.t.seen == DropExpired(t, id, now).seen
            && (QueueOf(t.missing, id) == [] ==> s.out == [])
            && (QueueOf(t.missing, id) != [] ==>
                  && |s.out| == 2 && s.out[1] == Schedule(RETRY_GRAFT_TIMEOUT, SendGraft(id))
                  && s.out[0].Send? && s.out[0].message.Graft? && s.out[0].message.wanted == Some(id))
  {
    hide AddEager, Shift;
    var v := DropExpired(t.(graftScheduled := t.graftScheduled - {id}), id, now);
    var queue := QueueOf(v.missing, id);
    if queue != [] { EagerFrame(v.(missing := Shift(v.missing, id)), queue[0].peer); }
  }

  lemma GraftTimerSeen(t: Topic, id: Id, now: int)
    requires HasSeen(t, id, now)
    ensures HandleGraftTimer(t, id, now) == Step(t.(graftScheduled := t.graftScheduled - {id}), [])
  {
  }

  lemma GraftTimerKeeps(t: Topic, id: Id, now: int, timers: multiset<Timer>, own: set<Id>)
    requires GraftInv(t, timers, own)
    ensures var s := HandleGraftTimer(t, id, now);
            GraftInv(s.t, (timers - multiset{SendGraft(id)}) + Scheduled(s.out), own)
  {
    hide Scheduled, Sourced, HandleGraftTimer, Shift;
    var s := HandleGraftTimer(t, id, now);
    var left := timers - multiset{SendGraft(id)};
    if HasSeen(t, id, now) {
      GraftTimerSeen(t, id, now);
      ScheduledNone(left);
      SeenSourced(t.missing, t.seen, t.graftScheduled, timers, own, id);
    } else {
      GraftTimerShape(t, id, now);
      if s.out == [] {
        ScheduledNone(left);
      } else {
        ScheduledConcat([s.out[0]], [s.out[1]]);
        One(s.out[0], id);
        One(s.out[1], id);
        assert s.out == [s.out[0]] + [s.out[1]];
      }
      FewerSeen(t, DropExpired(t, id, now), timers, own);
      ShiftSourced(t.missing, s.t.seen, t.graftScheduled, timers, left + Scheduled(s.out), own, id);
    }
  }

  /** The timer of a seen id does nothing: it was missing only if broadcast here. */
  lemma SeenSourced(
      missing: map<Id, seq<Source>>, seen: map<Id, int>, scheduled: set<Id>, timers: multiset<Timer>, own: set<Id>,
      id: Id)
    requires Sourced(missing, seen, scheduled, timers, own) && id in seen
    ensures Sourced(missing, seen, scheduled - {id}, timers - multiset{SendGraft(id)}, own)
  {
  }

  lemma GraftTimerPays(t: Topic, id: Id, now: int, other: Id)
    ensures Paid(t, HandleGraftTimer(t, id, now), other, 0)
  {
    hide Grafts, HandleGraftTimer;
    var s := HandleGraftTimer(t, id, now);
    if HasSeen(t, id, now) {
      GraftTimerSeen(t, id, now);
      NoGraftCount([], other);
    } else {
      GraftTimerShape(t, id, now);
      if s.out == [] {
        NoGraftCount([], other);
      } else {
        GraftsConcat([s.out[0]], [s.out[1]], other);
        One(s.out[0], other);
        One(s.out[1], other);
        assert s.out == [s.out[0]] + [s.out[1]];
      }
    }
  }

  // ------------------------------------------------------------- new messages

  lemma LazyFrame(t: Topic, id: Id, round: nat, sender: Id)
    ensures var s := LazyPush(t, id, round, sender);
            SameGossip(t, s.t) && Silent(s.out) && forall o :: o in s.out ==> o == Schedule(5, DispatchLazyPush)
  {
    hide PushEach;
  }

  /** What a broadcast message that is not yet known does to the fields at stake. */
  lemma NewsShape(c: Config, t: Topic, peer: Id, message: Broadcast, now: int)
    requires message.id == c.hash(message.content) && !HasSeen(t, message.id, now) && message.scope.Swarm?
    ensures var s := HandleGossip(c, t, peer, message, now);
            && s.t.missing == t.missing - {message.id} && s.t.graftScheduled == t.graftScheduled - {message.id}
            && s.t.seen == t.seen[message.id := now + ID_RETENTION]
            && s.t.cache == t.cache[message.id := Cached(message.(scope := Swarm(message.scope.round + 1)),
                                                         now + CACHE_RETENTION)]
            && NoGraft(s.out)
            && forall o :: o in s.out && o.Emit? ==> o.event.Received? && o.event.id == message.id
  {
    hide LazyPush, EagerPush;
    var u := DropExpired(t, message.id, now);
    var news := message.(scope := Swarm(message.scope.round + 1));
    var stored := Store(u, news, now);
    var known := stored.(graftScheduled := stored.graftScheduled - {news.id}, missing := stored.missing - {news.id});
    LazyFrame(known, news.id, news.scope.round, peer);
    EagerPlain(known, news, peer);
  }

  lemma OldNewsShape(c: Config, t: Topic, peer: Id, message: Broadcast, now: int)
    requires message.id != c.hash(message.content) || HasSeen(t, message.id, now) || message.scope.Neighbors?
    ensures var s := HandleGossip(c, t, peer, message, now);
            && s.t.missing == t.missing && s.t.graftScheduled == t.graftScheduled && s.t.cache == t.cache
            && (s.t.seen == t.seen || s.t.seen == DropExpired(t, message.id, now).seen)
            && NoGraft(s.out)
            && forall o :: o in s.out && o.Emit? && o.event.Received? ==>
                 o.event.id == message.id && !HasSeen(t, message.id, now) && o.event.scope.Neighbors?
  {
    hide Without, With;
  }

  lemma GossipGraft(
      c: Config, t: Topic, peer: Id, message: Broadcast, now: int, timers: multiset<Timer>, own: set<Id>, id: Id)
    requires GraftInv(t, timers, own)
    ensures var s := HandleGossip(c, t, peer, message, now);
            GraftInv(s.t, timers, own) && Paid(t, s, id, 0)
  {
    hide HandleGossip, Grafts;
    if message.id != c.hash(message.content) || HasSeen(t, message.id, now) || message.scope.Neighbors? {
      OldNewsShape(c, t, peer, message, now);
    } else {
      NewsShape(c, t, peer, message, now);
    }
    NoGraftCount(HandleGossip(c, t, peer, message, now).out, id);
  }

  lemma BroadcastShape(c: Config, t: Topic, payload: Bytes, swarm: bool, now: int)
    ensures var s := HandleBroadcast(c, t, payload, swarm, now);
            && s.t.missing == t.missing && s.t.graftScheduled == t.graftScheduled && Silent(s.out)
            && s.t.seen == (if swarm then t.seen[c.hash(payload) := now + ID_RETENTION] else t.seen)
            && s.t.cache == if swarm
                 then t.cache[c.hash(payload) := Cached(Gossip(c.hash(payload), payload, Swarm(0)),
                                                        now + CACHE_RETENTION)]
                 else t.cache
  {
    hide LazyPush, EagerPush;
    if swarm {
      var message := Gossip(c.hash(payload), payload, Swarm(0));
      var stored := Store(t, message, now);
      LazyFrame(stored, message.id, 0, c.me);
      EagerPlain(LazyPush(stored, message.id, 0, c.me).t, message, c.me);
    } else {
      EagerPlain(t, Gossip(c.hash(payload), payload, Neighbors), c.me);
    }
  }

  /** The ids this node has broadcast to the swarm once `event` is handled. */
  function OwnAfter(c: Config, own: set<Id>, event: Event): set<Id> {
    if event.CommandBroadcast? && event.swarm then own + {c.hash(event.payload)} else own
  }

  lemma BroadcastGraft(
      c: Config, t: Topic, payload: Bytes, swarm: bool, now: int, timers: multiset<Timer>, own: set<Id>, id: Id)
    requires GraftInv(t, timers, own)
    ensures var s := HandleBroadcast(c, t, payload, swarm, now);
            GraftInv(s.t, timers, OwnAfter(c, own, CommandBroadcast(payload, swarm))) && Paid(t, s, id, 0)
  {
    hide HandleBroadcast, Grafts;
    BroadcastShape(c, t, payload, swarm, now);
    NoGraftCount(HandleBroadcast(c, t, payload, swarm, now).out, id);
  }

  /** The outstanding timers once `event` is handled with outputs `out`. */
  ghost function TimersAfter(timers: multiset<Timer>, event: Event, out: seq<Out>): multiset<Timer> {
    (if event.TimerExpired? then timers - multiset{event.timer} else timers) + Scheduled(out)
  }

  lemma OtherTimers(t: Topic, timers: multiset<Timer>, timer: Timer, own: set<Id>)
    requires GraftInv(t, timers, own) && !timer.SendGraft?
    ensures GraftInv(t, timers - multiset{timer}, own)
  {
    assert forall id :: SendGraft(id) in timers ==> SendGraft(id) in timers - multiset{timer};
  }

  lemma DispatchGraft(
      c: Config, t: Topic, event: Event, now: int, timers: multiset<Timer>, own: set<Id>, id: Id)
    requires ValidConfig(c) && event != CommandQuit && GraftInv(t, timers, own)
    ensures var s := Dispatch(c, t, event, now);
            && GraftInv(s.t, TimersAfter(timers, event, s.out), OwnAfter(c, own, event))
            && Paid(t, s, id, Announced(event, id))
  {
    var s := Dispatch(c, t, event, now);
    if !Learning(event) {
      hide GraftInv, Dispatch, Paid, Scheduled, Calm, Good;
      GoodDispatched(c, t, event, now);
      var left := if event.TimerExpired? then timers - multiset{event.timer} else timers;
      if event.TimerExpired? { OtherTimers(t, timers, event.timer, own); }
      CalmGraft(t, s, left, own, id);
      MoreTimers(s.t, left, Scheduled(s.out), own);
    } else {
      hide GraftInv, Paid, Scheduled, HandleGossip, HandleIHave, HandleBroadcast, HandleGraftTimer;
      match event
      case Recv(peer, Gossip(_, _, _)) =>
        GossipGraft(c, t, peer, event.message, now, timers, own, id);
        MoreTimers(s.t, timers, Scheduled(s.out), own);
      case Recv(peer, IHave(entries)) => IHaveGraft(t, peer, entries, now, timers, own, id);
      case CommandBroadcast(payload, swarm) =>
        BroadcastGraft(c, t, payload, swarm, now, timers, own, id);
        MoreTimers(s.t, timers, Scheduled(s.out), OwnAfter(c, own, event));
      case TimerExpired(SendGraft(wanted)) =>
        GraftTimerKeeps(t, wanted, now, timers, own);
        GraftTimerPays(t, wanted, now, id);
    }
  }

  /** Every step but quitting keeps the sources and graft timers of missing
      ids, and sends no GRAFT that no announcement has paid for. */
  lemma HandleGrafts(
      c: Config, t: Topic, event: Event, now: int, timers: multiset<Timer>, own: set<Id>, id: Id)
    requires ValidConfig(c) && event != CommandQuit && GraftInv(t, timers, own)
    ensures var s := Handle(c, t, event, now);
            && GraftInv(s.t, TimersAfter(timers, event, s.out), OwnAfter(c, own, event))
            && Paid(t, s, id, Announced(event, id))
  {
    hide Dispatch, Scheduled, Grafts, Sourced;
    var u := Expire(t, now);
    FewerSeen(t, u, timers, own);
    DispatchGraft(c, u, event, now, timers, own, id);
    var s := Dispatch(c, u, event, now);
    var more := [ScheduleShuffle()];
    ScheduledConcat(s.out, more);
    GraftsConcat(s.out, more, id);
    NoGraftCount(more, id);
    MoreTimers(s.t, TimersAfter(timers, event, s.out), Scheduled(more), OwnAfter(c, own, event));
    var left := if event.TimerExpired? then timers - multiset{event.timer} else timers;
    assert left + Scheduled(s.out) + Scheduled(more) == left + (Scheduled(s.out) + Scheduled(more));
  }

  // ------------------------------------------------------- seen and cached ids

  /** A cached body hashes to its id, and its id stays seen 60 s longer. */
  ghost predicate CacheOk(c: Config, t: Topic) {
    forall id :: id in t.cache ==>
      var message := t.cache[id].message;
      && message.id == id && c.hash(message.content) == id
      && id in t.seen && t.seen[id] == t.cache[id].expires + (ID_RETENTION - CACHE_RETENTION)
  }

  /** Nothing in the seen set has run out. */
  ghost predicate Unexpired(t: Topic, now: int) {
    forall id :: id in t.seen ==> t.seen[id] > now
  }

  /** No step forgets a seen id or delivers it again; what it delivers to the
      swarm it has seen for the full time. */
  ghost predicate Remembers(c: Config, t: Topic, s: Step, now: int) {
    && (forall id :: id in t.seen ==> id in s.t.seen)
    && (forall id :: id in s.t.seen ==>
          s.t.seen[id] == now + ID_RETENTION || (id in t.seen && s.t.seen[id] == t.seen[id]))
    && (forall o :: o in s.out && o.Emit? && o.event.Received? ==>
          && o.event.id !in t.seen
          && (o.event.scope.Swarm? ==> o.event.id in s.t.seen && s.t.seen[o.event.id] == now + ID_RETENTION))
    && (CacheOk(c, t) ==> CacheOk(c, s.t))
  }

  lemma StoreCached(c: Config, t: Topic, u: Topic, message: Broadcast, now: int)
    requires CacheOk(c, t) && c.hash(message.content) == message.id
    requires u.seen == t.seen[message.id := now + ID_RETENTION]
    requires u.cache == t.cache[message.id := Cached(message, now + CACHE_RETENTION)]
    ensures CacheOk(c, u)
  {
  }

  lemma SameRemembers(c: Config, t: Topic, s: Step, now: int)
    requires s.t.seen == t.seen && s.t.cache == t.cache
    requires forall o :: o in s.out && o.Emit? && o.event.Received? ==> o.event.id !in t.seen && o.event.scope.Neighbors?
    ensures Remembers(c, t, s, now)
  {
  }

  lemma GossipRemembers(c: Config, t: Topic, peer: Id, message: Broadcast, now: int)
    requires Unexpired(t, now)
    ensures Remembers(c, t, HandleGossip(c, t, peer, message, now), now)
  {
    hide HandleGossip, CacheOk;
    var s := HandleGossip(c, t, peer, message, now);
    if message.id != c.hash(message.content) || HasSeen(t, message.id, now) || message.scope.Neighbors? {
      OldNewsShape(c, t, peer, message, now);
      SameRemembers(c, t, s, now);
    } else {
      NewsShape(c, t, peer, message, now);
      if CacheOk(c, t) { StoreCached(c, t, s.t, message.(scope := Swarm(message.scope.round + 1)), now); }
    }
  }

  lemma BroadcastRemembers(c: Config, t: Topic, payload: Bytes, swarm: bool, now: int)
    ensures Remembers(c, t, HandleBroadcast(c, t, payload, swarm, now), now)
    ensures swarm ==>
              var s := HandleBroadcast(c, t, payload, swarm, now);
              c.hash(payload) in s.t.seen && s.t.seen[c.hash(payload)] == now + ID_RETENTION
  {
    hide HandleBroadcast, CacheOk;
    var s := HandleBroadcast(c, t, payload, swarm, now);
    BroadcastShape(c, t, payload, swarm, now);
    if !swarm {
      SameRemembers(c, t, s, now);
    } else if CacheOk(c, t) {
      StoreCached(c, t, s.t, Gossip(c.hash(payload), payload, Swarm(0)), now);
    }
  }

  lemma {:induction false} IHaveSame(t: Topic, peer: Id, entries: seq<Entry>, now: int)
    requires Unexpired(t, now)
    ensures var s := HandleIHave(t, peer, entries, now);
            s.t.seen == t.seen && s.t.cache == t.cache && forall o :: o in s.out ==> o.Schedule?
    decreases |entries|
  {
    hide Enqueue;
    if entries != [] {
      var s := Announce(t, peer, entries[0], now);
      assert s.t.seen == t.seen && s.t.cache == t.cache && forall o :: o in s.out ==> o.Schedule?;
      hide Announce;
      IHaveSame(s.t, peer, entries[1..], now);
    }
  }

  lemma GraftTimerSame(t: Topic, id: Id, now: int)
    requires Unexpired(t, now)
    ensures var s := HandleGraftTimer(t, id, now);
            s.t.seen == t.seen && s.t.cache == t.cache && forall o :: o in s.out ==> !o.Emit?
  {
    hide AddEager, Shift;
    var u := t.(graftScheduled := t.graftScheduled - {id});
    var queue := QueueOf(u.missing, id);
    if queue != [] { EagerFrame(u.(missing := Shift(u.missing, id)), queue[0].peer); }
  }

  lemma DispatchRemembers(c: Config, t: Topic, event: Event, now: int)
    requires ValidConfig(c) && event != CommandQuit && Unexpired(t, now)
    ensures Remembers(c, t, Dispatch(c, t, event, now), now)
    ensures event.CommandBroadcast? && event.swarm ==>
              var s := Dispatch(c, t, event, now);
              c.hash(event.payload) in s.t.seen && s.t.seen[c.hash(event.payload)] == now + ID_RETENTION
  {
    var s := Dispatch(c, t, event, now);
    if !Learning(event) {
      hide Dispatch, Good, Remembers;
      GoodDispatched(c, t, event, now);
      SameRemembers(c, t, s, now);
    } else {
      hide Remembers, HandleGossip, HandleIHave, HandleBroadcast, HandleGraftTimer;
      match event
      case Recv(peer, Gossip(_, _, _)) => GossipRemembers(c, t, peer, event.message, now);
      case Recv(peer, IHave(entries)) =>
        IHaveSame(t, peer, entries, now);
        SameRemembers(c, t, s, now);
      case CommandBroadcast(payload, swarm) => BroadcastRemembers(c, t, payload, swarm, now);
      case TimerExpired(SendGraft(wanted)) =>
        GraftTimerSame(t, wanted, now);
        SameRemembers(c, t, s, now);
    }
  }

  /** Expiry at `now` keeps cached ids seen, since bodies run out first. */
  lemma ExpireCached(c: Config, t: Topic, now: int)
    requires CacheOk(c, t)
    ensures CacheOk(c, Expire(t, now))
  {
  }

  lemma HandleRemembers(c: Config, t: Topic, event: Event, now: int)
    requires ValidConfig(c) && event != CommandQuit
    ensures Remembers(c, Expire(t, now), Handle(c, t, event, now), now)
    ensures CacheOk(c, t) ==> CacheOk(c, Handle(c, t, event, now).t)
    ensures event.CommandBroadcast? && event.swarm ==>
              var s := Handle(c, t, event, now);
              c.hash(event.payload) in s.t.seen && s.t.seen[c.hash(event.payload)] == now + ID_RETENTION
  {
    hide Dispatch;
    var u := Expire(t, now);
    if CacheOk(c, t) { ExpireCached(c, t, now); }
    DispatchRemembers(c, u, event, now);
  }
}

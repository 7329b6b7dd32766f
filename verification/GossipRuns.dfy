/** Whole runs of a topic, up to its quitting: events in any order, the clock
    never going back, and each started timer firing when it likes. */
module GossipRuns {
  import opened Bytes
  import opened GossipTypes
  import opened GossipTopic
  import opened GossipViews
  import opened GossipMemory

  /** An event, its time, and how often the shared random source was drawn from before it. */
  datatype Input = Input(event: Event, now: int, draws: nat)
  datatype Record = Record(event: Event, now: int, out: seq<Out>)

  /** A topic, the timers still to fire, the clock and what happened so far. */
  datatype World = World(t: Topic, timers: multiset<Timer>, clock: int, log: seq<Record>)

  /** Timers of an earlier topic of the same name may still be outstanding. */
  ghost predicate Start(w: World, data: Option<Bytes>) {
    w.t == NewTopic(data) && w.log == []
  }

  ghost predicate Enabled(w: World, i: Input) {
    && i.event != CommandQuit && i.now >= w.clock
    && (i.event.TimerExpired? ==> i.event.timer in w.timers)
  }

  ghost function Before(w: World, i: Input): Topic { w.t.(draws := i.draws) }

  ghost function Next(c: Config, w: World, i: Input): World {
    var s := Handle(c, Before(w, i), i.event, i.now);
    World(s.t, TimersAfter(w.timers, i.event, s.out), i.now, w.log + [Record(i.event, i.now, s.out)])
  }

  ghost predicate CanRun(c: Config, w: World, inputs: seq<Input>)
    decreases |inputs|
  {
    inputs == [] || (Enabled(w, inputs[0]) && CanRun(c, Next(c, w, inputs[0]), inputs[1..]))
  }

  ghost function Run(c: Config, w: World, inputs: seq<Input>): World
    decreases |inputs|
  {
    if inputs == [] then w else Run(c, Next(c, w, inputs[0]), inputs[1..])
  }

  // ---------------------------------------------------------------- histories

  ghost function AllOut(log: seq<Record>): seq<Out> {
    if log == [] then [] else AllOut(log[..|log| - 1]) + log[|log| - 1].out
  }

  ghost function AllAnnounced(log: seq<Record>, id: Id): nat {
    if log == [] then 0 else AllAnnounced(log[..|log| - 1], id) + Announced(log[|log| - 1].event, id)
  }

  /** The ids this node has broadcast to the swarm. */
  ghost function Own(c: Config, log: seq<Record>): set<Id> {
    if log == [] then {} else OwnAfter(c, Own(c, log[..|log| - 1]), log[|log| - 1].event)
  }

  ghost predicate Delivers(r: Record, id: Id) {
    exists o :: o in r.out && o.Emit? && o.event.Received? && o.event.id == id
  }

  /** A record in which `id` is delivered or broadcast at swarm scope. */
  ghost predicate Learns(c: Config, r: Record, id: Id) {
    || (r.event.CommandBroadcast? && r.event.swarm && c.hash(r.event.payload) == id)
    || (exists o :: o in r.out && o.Emit? && o.event.Received? && o.event.id == id && o.event.scope.Swarm?)
  }

  /** Within 90 s of learning an id, no record delivers it. */
  ghost predicate NoRepeat(c: Config, log: seq<Record>) {
    forall i, j, id :: 0 <= i < j < |log| && Learns(c, log[i], id) && Delivers(log[j], id) ==>
      log[j].now >= log[i].now + ID_RETENTION
  }

  /** Ids learnt less than 90 s ago are seen, and nothing is seen for longer. */
  ghost predicate Recalls(c: Config, w: World) {
    && (forall id :: id in w.t.seen ==> w.t.seen[id] <= w.clock + ID_RETENTION)
    && (forall i, id :: 0 <= i < |w.log| && Learns(c, w.log[i], id) && w.clock < w.log[i].now + ID_RETENTION ==>
          id in w.t.seen && w.t.seen[id] >= w.log[i].now + ID_RETENTION)
  }

  ghost predicate Balanced(w: World) {
    forall id :: Grafts(AllOut(w.log), id) + |QueueOf(w.t.missing, id)| <= AllAnnounced(w.log, id)
  }

  ghost predicate RunInv(c: Config, w: World) {
    && ViewInv(c, w.t)
    && Replay({}, AllOut(w.log)) == Some(Members(w.t.neighbors))
    && GraftInv(w.t, w.timers, Own(c, w.log))
    && Balanced(w)
    && CacheOk(c, w.t)
    && Recalls(c, w)
    && NoRepeat(c, w.log)
  }

  // --------------------------------------------------------------- one step

  lemma Extend(log: seq<Record>, r: Record)
    ensures (log + [r])[..|log|] == log && (log + [r])[|log|] == r
  {
  }

  lemma NextViews(c: Config, w: World, i: Input)
    requires ValidConfig(c) && Enabled(w, i)
    requires ViewInv(c, w.t) && Replay({}, AllOut(w.log)) == Some(Members(w.t.neighbors))
    ensures ViewInv(c, Next(c, w, i).t)
    ensures Replay({}, AllOut(Next(c, w, i).log)) == Some(Members(Next(c, w, i).t.neighbors))
  {
    hide ViewInv, Handle, Replay, TimersAfter;
    SameInv(c, w.t, Before(w, i));
    GoodHandle(c, Before(w, i), i.event, i.now);
    var s := Handle(c, Before(w, i), i.event, i.now);
    var r := Record(i.event, i.now, s.out);
    Extend(w.log, r);
    ReplayConcat({}, AllOut(w.log), s.out);
  }

  lemma NextGrafts(c: Config, w: World, i: Input)
    requires ValidConfig(c) && Enabled(w, i)
    requires GraftInv(w.t, w.timers, Own(c, w.log)) && Balanced(w)
    ensures GraftInv(Next(c, w, i).t, Next(c, w, i).timers, Own(c, Next(c, w, i).log)) && Balanced(Next(c, w, i))
  {
    hide Sourced, Handle, Grafts, TimersAfter, Announced, OwnAfter, QueueOf;
    var s := Handle(c, Before(w, i), i.event, i.now);
    var r := Record(i.event, i.now, s.out);
    Extend(w.log, r);
    var u := Next(c, w, i);
    forall id ensures Grafts(AllOut(u.log), id) + |QueueOf(u.t.missing, id)| <= AllAnnounced(u.log, id) {
      HandleGrafts(c, Before(w, i), i.event, i.now, w.timers, Own(c, w.log), id);
      GraftsConcat(AllOut(w.log), s.out, id);
    }
    HandleGrafts(c, Before(w, i), i.event, i.now, w.timers, Own(c, w.log), seq(32, _ => 0));
  }

  /** What a step learns is seen for the full time afterwards. */
  lemma LearntSeen(c: Config, t: Topic, event: Event, now: int, id: Id)
    requires ValidConfig(c) && event != CommandQuit
    requires Learns(c, Record(event, now, Handle(c, t, event, now).out), id)
    ensures var s := Handle(c, t, event, now); id in s.t.seen && s.t.seen[id] == now + ID_RETENTION
  {
    hide Handle;
    HandleRemembers(c, t, event, now);
  }

  lemma NextRecalls(c: Config, w: World, i: Input)
    requires ValidConfig(c) && Enabled(w, i) && Recalls(c, w)
    ensures Recalls(c, Next(c, w, i))
  {
    hide Handle, Learns, TimersAfter, CacheOk;
    var s := Handle(c, Before(w, i), i.event, i.now);
    var u := Next(c, w, i);
    HandleRemembers(c, Before(w, i), i.event, i.now);
    Extend(w.log, u.log[|w.log|]);
    forall k, id | 0 <= k < |u.log| && Learns(c, u.log[k], id) && u.clock < u.log[k].now + ID_RETENTION
      ensures id in s.t.seen && s.t.seen[id] >= u.log[k].now + ID_RETENTION
    {
      if k == |w.log| {
        LearntSeen(c, Before(w, i), i.event, i.now, id);
      } else {
        assert u.log[k] == w.log[k];
      }
    }
  }

  lemma NextNoRepeat(c: Config, w: World, i: Input)
    requires ValidConfig(c) && Enabled(w, i) && Recalls(c, w) && NoRepeat(c, w.log)
    ensures NoRepeat(c, Next(c, w, i).log)
  {
    hide Handle, Learns, TimersAfter, CacheOk;
    var u := Next(c, w, i);
    HandleRemembers(c, Before(w, i), i.event, i.now);
    forall k, j, id | 0 <= k < j < |u.log| && Learns(c, u.log[k], id) && Delivers(u.log[j], id)
      ensures u.log[j].now >= u.log[k].now + ID_RETENTION
    {
      assert u.log[k] == w.log[k];
      if j < |w.log| {
        assert u.log[j] == w.log[j];
      }
    }
  }

  lemma NextInv(c: Config, w: World, i: Input)
    requires ValidConfig(c) && Enabled(w, i) && RunInv(c, w)
    ensures RunInv(c, Next(c, w, i))
  {
    NextViews(c, w, i);
    NextGrafts(c, w, i);
    NextRecalls(c, w, i);
    NextNoRepeat(c, w, i);
    HandleRemembers(c, Before(w, i), i.event, i.now);
    hide Handle, ViewInv, Replay, GraftInv, Balanced, CacheOk, Recalls, NoRepeat, AllOut, Own, TimersAfter, Remembers;
  }

  lemma {:induction false} RunKeeps(c: Config, w: World, inputs: seq<Input>)
    requires ValidConfig(c) && RunInv(c, w) && CanRun(c, w, inputs)
    ensures RunInv(c, Run(c, w, inputs))
    decreases |inputs|
  {
    hide RunInv, Next, Enabled;
    if inputs != [] {
      NextInv(c, w, inputs[0]);
      RunKeeps(c, Next(c, w, inputs[0]), inputs[1..]);
    }
  }

  lemma StartInv(c: Config, w: World, data: Option<Bytes>)
    requires Start(w, data)
    ensures RunInv(c, w)
  {
    assert Members(w.t.neighbors) == {};
  }

  // ------------------------------------------------------------ main results

  /** In every run: views within capacity, disjoint and without this node;
      every neighbour in exactly one push set; queues for lazy peers only; and
      the emitted neighbour events replay, up and down alternating, to the
      active view. */
  lemma RunViews(c: Config, w: World, data: Option<Bytes>, inputs: seq<Input>)
    requires ValidConfig(c) && Start(w, data) && CanRun(c, w, inputs)
    ensures var end := Run(c, w, inputs);
            && |end.t.neighbors| <= c.activeCapacity && |end.t.passive| <= c.passiveCapacity
            && NoDup(end.t.neighbors) && NoDup(end.t.passive)
            && c.me !in end.t.neighbors && c.me !in end.t.passive
            && (forall p :: p in end.t.neighbors ==> p !in end.t.passive)
            && (forall p :: p in end.t.neighbors ==> (p in end.t.eager <==> p !in end.t.lazy))
            && (forall p :: p in end.t.eager ==> p !in end.t.lazy)
            && (forall q :: q in end.t.lazyQueue ==> q.peer in end.t.lazy)
            && Replay({}, AllOut(end.log)) == Some(Members(end.t.neighbors))
  {
    hide Run, Replay, NoDup, AllOut;
    StartInv(c, w, data);
    RunKeeps(c, w, inputs);
  }

  /** In every run: a missing id has a source, and unless this node broadcast it
      a graft timer is outstanding for it; GRAFTs never outnumber announcements. */
  lemma RunGrafts(c: Config, w: World, data: Option<Bytes>, inputs: seq<Input>, id: Id)
    requires ValidConfig(c) && Start(w, data) && CanRun(c, w, inputs)
    ensures var end := Run(c, w, inputs);
            && (id in end.t.missing ==> end.t.missing[id] != [])
            && (id in end.t.missing && id !in Own(c, end.log) ==> SendGraft(id) in end.timers && id !in end.t.seen)
            && Grafts(AllOut(end.log), id) <= AllAnnounced(end.log, id)
  {
    hide Run, Grafts, AllOut, AllAnnounced, Own;
    StartInv(c, w, data);
    RunKeeps(c, w, inputs);
  }

  /** In every run: once an id is delivered or broadcast at swarm scope, no
      later record within 90 s delivers it. */
  lemma RunNoRepeat(c: Config, w: World, data: Option<Bytes>, inputs: seq<Input>, i: nat, j: nat, id: Id)
    requires ValidConfig(c) && Start(w, data) && CanRun(c, w, inputs)
    requires i < j < |Run(c, w, inputs).log|
    requires Learns(c, Run(c, w, inputs).log[i], id)
    requires Run(c, w, inputs).log[j].now < Run(c, w, inputs).log[i].now + ID_RETENTION
    ensures !Delivers(Run(c, w, inputs).log[j], id)
  {
    hide Run, Learns, Delivers;
    StartInv(c, w, data);
    RunKeeps(c, w, inputs);
  }

  /** In every run: a cached body hashes to its id, and the id stays seen for
      exactly 60 s after the body runs out. */
  lemma RunCache(c: Config, w: World, data: Option<Bytes>, inputs: seq<Input>, id: Id)
    requires ValidConfig(c) && Start(w, data) && CanRun(c, w, inputs)
    requires id in Run(c, w, inputs).t.cache
    ensures var t := Run(c, w, inputs).t;
            && c.hash(t.cache[id].message.content) == id == t.cache[id].message.id
            && id in t.seen && t.seen[id] == t.cache[id].expires + 60_000
  {
    hide Run;
    StartInv(c, w, data);
    RunKeeps(c, w, inputs);
  }
}

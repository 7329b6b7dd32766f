/** One gossip topic as a pure step: the state, an event and the clock give the
    next state and the events it emits. Maps that the program iterates over are
    sequences in insertion order. */
module GossipTopic {
  import opened Bytes
  import opened GossipTypes
  import opened GossipChunks

  const GRAFT_TIMEOUT := 80
  const RETRY_GRAFT_TIMEOUT := 40
  const LAZY_DISPATCH_DELAY := 5
  const CACHE_RETENTION := 30_000
  const ID_RETENTION := 90_000
  const ACTIVE_WALK := 6
  const PASSIVE_WALK := 3
  const SHUFFLE_WALK := 6
  const SHUFFLE_ACTIVE := 3
  const SHUFFLE_PASSIVE := 4
  const SHUFFLE_INTERVAL := 60_000
  const PENDING_TIMEOUT := 500

  /** What does not change in a topic's life. `rng` is the random source: its
      k-th draw below n is `rng(k) % n`. */
  datatype Config = Config(
    me: Id, activeCapacity: nat, passiveCapacity: nat, maxSize: nat,
    hash: Bytes -> Id, rng: nat -> nat)

  predicate ValidConfig(c: Config) {
    c.activeCapacity >= 1 && c.passiveCapacity >= 1 && c.maxSize >= MIN_MAX_SIZE
  }

  datatype Timer = DispatchLazyPush | PendingNeighbor(peer: Id) | SendGraft(id: Id) | DoShuffle

  datatype TopicEvent =
    | NeighborUp(peer: Id)
    | NeighborDown(peer: Id)
    | Received(from: Id, id: Id, payload: Bytes, scope: Scope)

  datatype Out =
    | Send(peer: Id, message: Message)
    | Emit(event: TopicEvent)
    | Schedule(delay: nat, timer: Timer)
    | DisconnectPeer(peer: Id)
    | PeerData(peer: Id, data: Bytes)

  datatype Event =
    | Recv(peer: Id, message: Message)
    | CommandJoin(peers: seq<Id>)
    | CommandBroadcast(payload: Bytes, swarm: bool)
    | CommandQuit
    | PeerDisconnected(peer: Id)
    | UpdatePeerData(data: Option<Bytes>)
    | TimerExpired(timer: Timer)

  datatype Source = Source(peer: Id, round: nat)
  datatype Queue = Queue(peer: Id, entries: seq<Entry>)
  datatype Cached = Cached(message: Broadcast, expires: int)

  datatype Topic = Topic(
    peerData: Option<Bytes>,
    neighbors: seq<Id>,
    passive: seq<Id>,
    pending: set<Id>,
    aliveDisconnect: set<Id>,
    eager: seq<Id>,
    lazy: seq<Id>,
    lazyQueue: seq<Queue>,
    missing: map<Id, seq<Source>>,
    graftScheduled: set<Id>,
    cache: map<Id, Cached>,
    dataByPeer: map<Id, Bytes>,
    seen: map<Id, int>,
    dispatchScheduled: bool,
    shuffleScheduled: bool,
    draws: nat)

  function NewTopic(data: Option<Bytes>): Topic {
    Topic(data, [], [], {}, {}, [], [], [], map[], {}, map[], map[], map[], false, false, 0)
  }

  datatype Step = Step(t: Topic, out: seq<Out>)

  /** Only messages go out, and none of them is a GRAFT. */
  predicate Plain(out: seq<Out>) {
    forall o :: o in out ==> o.Send? && !o.message.Graft?
  }

  // ------------------------------------------------- insertion-ordered sets

  predicate NoDup(s: seq<Id>) {
    s == [] || (s[0] !in s[1..] && NoDup(s[1..]))
  }

  function Without(s: seq<Id>, x: Id): (r: seq<Id>)
    ensures forall y :: y in r <==> y in s && y != x
    ensures |r| <= |s|
    ensures x in s ==> |r| < |s|
    ensures x !in s ==> r == s
  {
    if s == [] then [] else if s[0] == x then Without(s[1..], x) else [s[0]] + Without(s[1..], x)
  }

  function With(s: seq<Id>, x: Id): seq<Id> {
    if x in s then s else s + [x]
  }

  function Filter(s: seq<Id>, drop: set<Id>): (r: seq<Id>)
    ensures forall y :: y in r <==> y in s && y !in drop
  {
    if s == [] then []
    else if s[0] in drop then Filter(s[1..], drop) else [s[0]] + Filter(s[1..], drop)
  }

  // ------------------------------------------------------------ random choice

  function Draw(c: Config, draws: nat, n: nat): (r: nat)
    requires n > 0
    ensures r < n
  {
    c.rng(draws) % n
  }

  datatype Sampled = Sampled(peers: seq<Id>, draws: nat)

  /** `randomSample` */
  function Sample(c: Config, draws: nat, values: seq<Id>, count: nat): Sampled
    decreases count
  {
    if count == 0 || values == [] then Sampled([], draws)
    else
      var i := Draw(c, draws, |values|);
      var rest := Sample(c, draws + 1, values[..i] + values[i + 1..], count - 1);
      Sampled([values[i]] + rest.peers, rest.draws)
  }

  function InfoOf(data: map<Id, Bytes>, peer: Id): PeerInfo {
    PeerInfo(peer, if peer in data then Some(data[peer]) else None)
  }

  function InfosOf(data: map<Id, Bytes>, peers: seq<Id>): seq<PeerInfo> {
    if peers == [] then [] else [InfoOf(data, peers[0])] + InfosOf(data, peers[1..])
  }

  // -------------------------------------------------------------- membership

  function AddPeerData(t: Topic, peer: Id, data: Option<Bytes>): Step {
    if data.None? || data.value == [] then Step(t, [])
    else if peer in t.dataByPeer && t.dataByPeer[peer] == data.value then Step(t, [])
    else Step(t.(dataByPeer := t.dataByPeer[peer := data.value]), [PeerData(peer, data.value)])
  }

  function SendNeighbor(t: Topic, peer: Id, priority: Priority): Step {
    if peer in t.pending then Step(t, [])
    else Step(t.(pending := t.pending + {peer}), [Send(peer, Neighbor(priority, t.peerData))])
  }

  function EvictPassive(c: Config, t: Topic): Topic {
    if |t.passive| >= c.passiveCapacity && t.passive != [] then
      t.(passive := Without(t.passive, t.passive[Draw(c, t.draws, |t.passive|)]), draws := t.draws + 1)
    else t
  }

  function InsertPassive(c: Config, t: Topic, peer: Id): Topic {
    if peer == c.me || peer in t.neighbors || peer in t.passive then t
    else
      var roomy := EvictPassive(c, t);
      roomy.(passive := roomy.passive + [peer])
  }

  function AddPassive(c: Config, t: Topic, peer: Id, data: Option<Bytes>): Step {
    var s := AddPeerData(t, peer, data);
    Step(InsertPassive(c, s.t, peer), s.out)
  }

  function AddAllPassive(c: Config, t: Topic, nodes: seq<PeerInfo>): Step
    decreases |nodes|
  {
    if nodes == [] then Step(t, [])
    else
      var s := AddPassive(c, t, nodes[0].id, nodes[0].data);
      var rest := AddAllPassive(c, s.t, nodes[1..]);
      Step(rest.t, s.out + rest.out)
  }

  function AddEager(t: Topic, peer: Id): Topic {
    t.(lazy := Without(t.lazy, peer), lazyQueue := DropQueue(t.lazyQueue, peer), eager := With(t.eager, peer))
  }

  function AddLazy(t: Topic, peer: Id): Topic {
    t.(eager := Without(t.eager, peer), lazy := With(t.lazy, peer))
  }

  function DropQueue(queues: seq<Queue>, peer: Id): (r: seq<Queue>)
    ensures forall q :: q in r <==> q in queues && q.peer != peer
  {
    if queues == [] then []
    else if queues[0].peer == peer then DropQueue(queues[1..], peer)
    else [queues[0]] + DropQueue(queues[1..], peer)
  }

  function DropSource(sources: seq<Source>, peer: Id): (r: seq<Source>)
    ensures |r| <= |sources| && forall s :: s in r <==> s in sources && s.peer != peer
  {
    if sources == [] then []
    else if sources[0].peer == peer then DropSource(sources[1..], peer)
    else [sources[0]] + DropSource(sources[1..], peer)
  }

  /** `removeMissingFromPeer` */
  function DropMissing(missing: map<Id, seq<Source>>, peer: Id): map<Id, seq<Source>> {
    map id | id in missing && DropSource(missing[id], peer) != [] :: DropSource(missing[id], peer)
  }

  /** `disconnectPeer`: a farewell sample, the disconnect and the hang-up. */
  function Farewell(c: Config, t: Topic, peer: Id, alive: bool): Step {
    var count := SHUFFLE_ACTIVE + SHUFFLE_PASSIVE;
    var passive := Sample(c, t.draws, t.passive, count);
    var active := Sample(c, passive.draws, t.neighbors,
                         if |passive.peers| <= count then count - |passive.peers| else 0);
    Step(t.(draws := active.draws),
         [Send(peer, ShuffleReply(InfosOf(t.dataByPeer, passive.peers + active.peers))),
          Send(peer, Disconnect(alive, false)),
          DisconnectPeer(peer)])
  }

  /** The removal shared by `removeActive` and quitting. */
  function Forget(t: Topic, peer: Id): Topic {
    t.(neighbors := Without(t.neighbors, peer), pending := t.pending - {peer},
       eager := Without(t.eager, peer), lazy := Without(t.lazy, peer),
       lazyQueue := DropQueue(t.lazyQueue, peer), missing := DropMissing(t.missing, peer))
  }

  function KeepPassive(c: Config, t: Topic, peer: Id): Topic {
    var kept := AddPassive(c, t, peer, if peer in t.dataByPeer then Some(t.dataByPeer[peer]) else None).t;
    kept.(aliveDisconnect := kept.aliveDisconnect + {peer})
  }

  function RemoveActive(c: Config, t: Topic, peer: Id, keepPassive: bool, sendDisconnect: bool): Step {
    if peer !in t.neighbors then Step(t, [])
    else
      var gone := Forget(t, peer);
      var bye := if sendDisconnect then Farewell(c, gone, peer, true) else Step(gone, [DisconnectPeer(peer)]);
      Step(if keepPassive then KeepPassive(c, bye.t, peer) else bye.t,
           [Emit(NeighborDown(peer))] + bye.out)
  }

  /** Makes room in a full active view by evicting a random neighbour. */
  function EvictActive(c: Config, t: Topic): Step {
    if |t.neighbors| >= c.activeCapacity && t.neighbors != [] then
      var evicted := t.neighbors[Draw(c, t.draws, |t.neighbors|)];
      RemoveActive(c, t.(draws := t.draws + 1), evicted, true, true)
    else Step(t, [])
  }

  function EnterActive(t: Topic, peer: Id): Topic {
    AddEager(
      t.(passive := Without(t.passive, peer), pending := t.pending - {peer},
         aliveDisconnect := t.aliveDisconnect - {peer}, neighbors := With(t.neighbors, peer)),
      peer)
  }

  function Enter(c: Config, t: Topic, peer: Id, priority: Priority, reply: bool): Step {
    var e := EvictActive(c, t);
    var entered := EnterActive(e.t, peer);
    var n := if reply then SendNeighbor(entered, peer, priority) else Step(entered, []);
    Step(n.t, e.out + [Emit(NeighborUp(peer))] + n.out)
  }

  function AddActive(c: Config, t: Topic, peer: Id, data: Option<Bytes>, priority: Priority, reply: bool): Step {
    if peer == c.me then Step(t, [])
    else
      var s := AddPeerData(t, peer, data);
      if peer in s.t.neighbors then
        if !reply then s
        else var n := SendNeighbor(s.t, peer, priority); Step(n.t, s.out + n.out)
      else if priority.Low? && |s.t.neighbors| >= c.activeCapacity then
        var bye := Farewell(c, s.t, peer, true);
        Step(bye.t, s.out + bye.out)
      else
        var e := Enter(c, s.t, peer, priority, reply);
        Step(e.t, s.out + e.out)
  }

  function Refill(c: Config, t: Topic): Step {
    if |t.neighbors| + |t.pending| >= c.activeCapacity then Step(t, [])
    else
      var candidates := Filter(t.passive, t.pending);
      if candidates == [] then Step(t, [])
      else
        var peer := candidates[Draw(c, t.draws, |candidates|)];
        var n := SendNeighbor(t.(draws := t.draws + 1), peer, if t.neighbors == [] then High else Low);
        Step(n.t, n.out + [Schedule(PENDING_TIMEOUT, PendingNeighbor(peer))])
  }

  function RemoveNeighbor(c: Config, t: Topic, peer: Id): Step {
    var active := RemoveActive(c, t, peer, false, false);
    if active.out != [] then
      var refill := Refill(c, active.t);
      Step(refill.t, active.out + refill.out)
    else if peer in t.aliveDisconnect then
      Step(t.(aliveDisconnect := t.aliveDisconnect - {peer}), [])
    else
      Step(t.(passive := Without(t.passive, peer), pending := t.pending - {peer},
              aliveDisconnect := t.aliveDisconnect - {peer}, dataByPeer := t.dataByPeer - {peer}), [])
  }

  function HandleDisconnect(c: Config, t: Topic, peer: Id, alive: bool): Step {
    var active := RemoveActive(c, t, peer, alive, false);
    if active.out != [] then
      var refill := Refill(c, active.t);
      Step(refill.t, active.out + refill.out)
    else
      var left := if alive then t
                  else t.(passive := Without(t.passive, peer), aliveDisconnect := t.aliveDisconnect - {peer},
                          dataByPeer := t.dataByPeer - {peer});
      Step(left, [DisconnectPeer(peer)])
  }

  function HandlePendingNeighbor(c: Config, t: Topic, peer: Id): Step {
    if peer !in t.pending then Step(t, [])
    else
      var left := t.(pending := t.pending - {peer}, passive := Without(t.passive, peer),
                     aliveDisconnect := t.aliveDisconnect - {peer}, dataByPeer := t.dataByPeer - {peer});
      var refill := Refill(c, left);
      Step(refill.t, [DisconnectPeer(peer)] + refill.out)
  }

  datatype Chosen = Chosen(peer: Option<Id>, draws: nat)

  function PickActiveExcept(c: Config, t: Topic, excluded: set<Id>): Chosen {
    var candidates := Filter(t.neighbors, excluded);
    if candidates == [] then Chosen(None, t.draws)
    else Chosen(Some(candidates[Draw(c, t.draws, |candidates|)]), t.draws + 1)
  }

  function Lower(ttl: nat): nat { if ttl == 0 then 0 else ttl - 1 }

  function HandleForwardJoin(c: Config, t: Topic, sender: Id, info: PeerInfo, ttl: nat): Step {
    if info.id in t.neighbors || ttl == 0 || |t.neighbors| <= 1 then
      var s := AddPeerData(t, info.id, info.data);
      var n := SendNeighbor(s.t, info.id, High);
      Step(n.t, s.out + n.out)
    else
      var s := if ttl == PASSIVE_WALK then AddPassive(c, t, info.id, info.data) else Step(t, []);
      if info.id in s.t.pending then s
      else
        var next := PickActiveExcept(c, s.t, {sender});
        if next.peer.None? then s
        else Step(s.t.(draws := next.draws), s.out + [Send(next.peer.value, ForwardJoin(info, Lower(ttl)))])
  }

  function HandleShuffle(c: Config, t: Topic, sender: Id, origin: Id, nodes: seq<PeerInfo>, ttl: nat): Step {
    if ttl == 0 || |t.neighbors| <= 1 then
      var s := AddAllPassive(c, t, nodes);
      var sample := Sample(c, s.t.draws, s.t.passive + s.t.neighbors, |nodes|);
      Step(s.t.(draws := sample.draws), s.out + [Send(origin, ShuffleReply(InfosOf(s.t.dataByPeer, sample.peers)))])
    else
      var next := PickActiveExcept(c, t, {origin, sender});
      if next.peer.None? then Step(t, [])
      else Step(t.(draws := next.draws), [Send(next.peer.value, Shuffle(origin, nodes, Lower(ttl)))])
  }

  function ForwardJoins(peers: seq<Id>, info: PeerInfo): (r: seq<Out>)
    ensures Plain(r)
  {
    if peers == [] then []
    else if peers[0] == info.id then ForwardJoins(peers[1..], info)
    else [Send(peers[0], ForwardJoin(info, ACTIVE_WALK))] + ForwardJoins(peers[1..], info)
  }

  function HandleJoin(c: Config, t: Topic, peer: Id, data: Option<Bytes>): Step {
    var s := AddActive(c, t, peer, data, High, true);
    Step(s.t, s.out + ForwardJoins(s.t.neighbors, PeerInfo(peer, data)))
  }

  function HandleNeighbor(c: Config, t: Topic, peer: Id, priority: Priority, data: Option<Bytes>): Step {
    AddActive(c, t.(pending := t.pending - {peer}), peer, data, priority, peer !in t.pending)
  }

  function HandleShuffleReply(c: Config, t: Topic, nodes: seq<PeerInfo>): Step {
    var s := AddAllPassive(c, t, nodes);
    var refill := Refill(c, s.t);
    Step(refill.t, s.out + refill.out)
  }

  function ScheduleShuffle(): Out { Schedule(SHUFFLE_INTERVAL, DoShuffle) }

  function HandleShuffleTimer(c: Config, t: Topic): Step {
    if t.neighbors == [] then Step(t, [])
    else
      var node := t.neighbors[Draw(c, t.draws, |t.neighbors|)];
      var active := Sample(c, t.draws + 1, Without(t.neighbors, node), SHUFFLE_ACTIVE);
      var passive := Sample(c, active.draws, Without(t.passive, node), SHUFFLE_PASSIVE);
      var nodes := InfosOf(t.dataByPeer, active.peers + passive.peers) + [PeerInfo(c.me, t.peerData)];
      Step(t.(draws := passive.draws), [Send(node, Shuffle(c.me, nodes, SHUFFLE_WALK))])
  }

  // --------------------------------------------------------------- broadcast

  function Pushes(peers: seq<Id>, sender: Id, message: Broadcast): (r: seq<Out>)
    ensures Plain(r)
  {
    if peers == [] then []
    else if peers[0] == sender then Pushes(peers[1..], sender, message)
    else [Send(peers[0], message)] + Pushes(peers[1..], sender, message)
  }

  function EagerPush(t: Topic, message: Broadcast, sender: Id): seq<Out> {
    Pushes(t.eager, sender, message)
  }

  function PushOne(queues: seq<Queue>, peer: Id, entry: Entry): seq<Queue> {
    if queues == [] then [Queue(peer, [entry])]
    else if queues[0].peer == peer then [Queue(peer, queues[0].entries + [entry])] + queues[1..]
    else [queues[0]] + PushOne(queues[1..], peer, entry)
  }

  function PushEach(queues: seq<Queue>, peers: seq<Id>, sender: Id, entry: Entry): seq<Queue>
    decreases |peers|
  {
    if peers == [] then queues
    else
      PushEach(if peers[0] == sender then queues else PushOne(queues, peers[0], entry), peers[1..], sender, entry)
  }

  /** `lazyPush` of a swarm-scope message. */
  function LazyPush(t: Topic, id: Id, round: nat, sender: Id): Step {
    var queued := t.(lazyQueue := PushEach(t.lazyQueue, t.lazy, sender, Entry(id, round)));
    if queued.lazyQueue == [] || queued.dispatchScheduled then Step(queued, [])
    else Step(queued.(dispatchScheduled := true), [Schedule(LAZY_DISPATCH_DELAY, DispatchLazyPush)])
  }

  predicate HasSeen(t: Topic, id: Id, now: int) {
    id in t.seen && t.seen[id] > now
  }

  /** `hasSeenMessage` drops an entry it finds expired. */
  function DropExpired(t: Topic, id: Id, now: int): Topic {
    if id in t.seen && t.seen[id] <= now then t.(seen := t.seen - {id}) else t
  }

  function Store(t: Topic, message: Broadcast, now: int): Topic {
    t.(seen := t.seen[message.id := now + ID_RETENTION],
       cache := t.cache[message.id := Cached(message, now + CACHE_RETENTION)])
  }

  function Expire(t: Topic, now: int): Topic {
    t.(seen := map id | id in t.seen && t.seen[id] > now :: t.seen[id],
       cache := map id | id in t.cache && t.cache[id].expires > now :: t.cache[id])
  }

  function QueueOf(missing: map<Id, seq<Source>>, id: Id): seq<Source> {
    if id in missing then missing[id] else []
  }

  function Enqueue(missing: map<Id, seq<Source>>, id: Id, source: Source): map<Id, seq<Source>> {
    missing[id := QueueOf(missing, id) + [source]]
  }

  /** Takes the first source off the queue, and the queue away when it is empty. */
  function Shift(missing: map<Id, seq<Source>>, id: Id): map<Id, seq<Source>> {
    var queue := QueueOf(missing, id);
    if |queue| <= 1 then missing - {id} else missing[id := queue[1..]]
  }

  /** One announcement: the sender joins the id's queue, and a graft timer is
      started unless one is known to run. */
  function Announce(t: Topic, peer: Id, entry: Entry, now: int): Step {
    if HasSeen(t, entry.id, now) then Step(t, [])
    else
      var u := DropExpired(t, entry.id, now);
      Step(u.(missing := Enqueue(u.missing, entry.id, Source(peer, entry.round)),
              graftScheduled := u.graftScheduled + {entry.id}),
           if entry.id in u.graftScheduled then [] else [Schedule(GRAFT_TIMEOUT, SendGraft(entry.id))])
  }

  function HandleIHave(t: Topic, peer: Id, entries: seq<Entry>, now: int): Step
    decreases |entries|
  {
    if entries == [] then Step(t, [])
    else
      var s := Announce(t, peer, entries[0], now);
      var rest := HandleIHave(s.t, peer, entries[1..], now);
      Step(rest.t, s.out + rest.out)
  }

  function HandleGraftTimer(t: Topic, id: Id, now: int): Step {
    var u := t.(graftScheduled := t.graftScheduled - {id});
    if HasSeen(u, id, now) then Step(u, [])
    else
      var v := DropExpired(u, id, now);
      var queue := QueueOf(v.missing, id);
      var shifted := v.(missing := Shift(v.missing, id));
      if queue == [] then Step(shifted, [])
      else
        Step(AddEager(shifted, queue[0].peer),
             [Send(queue[0].peer, Graft(Some(id), queue[0].round)), Schedule(RETRY_GRAFT_TIMEOUT, SendGraft(id))])
  }

  function IHaves(peer: Id, chunks: seq<seq<Entry>>): (r: seq<Out>)
    ensures Plain(r)
  {
    if chunks == [] then [] else [Send(peer, IHave(chunks[0]))] + IHaves(peer, chunks[1..])
  }

  function Dispatches(c: Config, queues: seq<Queue>): (r: seq<Out>)
    ensures Plain(r)
  {
    if queues == [] then []
    else IHaves(queues[0].peer, ChunkFrom([], queues[0].entries, c.maxSize)) + Dispatches(c, queues[1..])
  }

  function HandleDispatch(c: Config, t: Topic): Step {
    Step(t.(dispatchScheduled := false, lazyQueue := []), Dispatches(c, t.lazyQueue))
  }

  function HandleGraft(t: Topic, peer: Id, wanted: Option<Id>): Step {
    var u := AddEager(t, peer);
    if wanted.None? || wanted.value !in u.cache then Step(u, [])
    else Step(u, [Send(peer, u.cache[wanted.value].message)])
  }

  function Deliver(from: Id, message: Broadcast): Out {
    Emit(Received(from, message.id, message.content, message.scope))
  }

  /** A broadcast message arrives: duplicates are pruned, news is delivered and
      passed on, and swarm-scope news is remembered. */
  function HandleGossip(c: Config, t: Topic, peer: Id, message: Broadcast, now: int): Step {
    if message.id != c.hash(message.content) then Step(t, [])
    else if HasSeen(t, message.id, now) then Step(AddLazy(t, peer), [Send(peer, Prune)])
    else
      var u := DropExpired(t, message.id, now);
      if message.scope.Neighbors? then Step(u, [Deliver(peer, message)])
      else
        var news := message.(scope := Swarm(message.scope.round + 1));
        var stored := Store(u, news, now);
        var known := stored.(graftScheduled := stored.graftScheduled - {news.id}, missing := stored.missing - {news.id});
        var lazy := LazyPush(known, news.id, news.scope.round, peer);
        Step(lazy.t, [Deliver(peer, news)] + EagerPush(known, news, peer) + lazy.out)
  }

  // ----------------------------------------------------------- whole handler

  function HandleMessage(c: Config, t: Topic, peer: Id, message: Message, now: int): Step {
    match message
    case Join(data) => HandleJoin(c, t, peer, data)
    case ForwardJoin(info, ttl) => HandleForwardJoin(c, t, peer, info, ttl)
    case Shuffle(origin, nodes, ttl) => HandleShuffle(c, t, peer, origin, nodes, ttl)
    case ShuffleReply(nodes) => HandleShuffleReply(c, t, nodes)
    case Neighbor(priority, data) => HandleNeighbor(c, t, peer, priority, data)
    case Disconnect(alive, _) => HandleDisconnect(c, t, peer, alive)
    case Gossip(_, _, _) => HandleGossip(c, t, peer, message, now)
    case Prune => Step(AddLazy(t, peer), [])
    case Graft(wanted, _) => HandleGraft(t, peer, wanted)
    case IHave(entries) => HandleIHave(t, peer, entries, now)
  }

  function HandleTimer(c: Config, t: Topic, timer: Timer, now: int): Step {
    match timer
    case DispatchLazyPush => HandleDispatch(c, t)
    case PendingNeighbor(peer) => HandlePendingNeighbor(c, t, peer)
    case SendGraft(id) => HandleGraftTimer(t, id, now)
    case DoShuffle => var s := HandleShuffleTimer(c, t); Step(s.t, s.out + [ScheduleShuffle()])
  }

  function Joins(t: Topic, peers: seq<Id>): (r: seq<Out>)
    ensures Plain(r)
  {
    if peers == [] then [] else [Send(peers[0], Join(t.peerData))] + Joins(t, peers[1..])
  }

  function HandleBroadcast(c: Config, t: Topic, payload: Bytes, swarm: bool, now: int): Step {
    if swarm then
      var message := Gossip(c.hash(payload), payload, Swarm(0));
      var lazy := LazyPush(Store(t, message, now), message.id, 0, c.me);
      Step(lazy.t, lazy.out + EagerPush(lazy.t, message, c.me))
    else Step(t, EagerPush(t, Gossip(c.hash(payload), payload, Neighbors), c.me))
  }

  /** Quitting says farewell to every neighbour, without `neighbor-down`. */
  function Farewells(c: Config, t: Topic, peers: seq<Id>): Step
    decreases |peers|
  {
    if peers == [] then Step(t, [])
    else
      var bye := Farewell(c, Forget(t, peers[0]), peers[0], false);
      var rest := Farewells(c, bye.t, peers[1..]);
      Step(rest.t, bye.out + rest.out)
  }

  function HandleQuit(c: Config, t: Topic): Step {
    var s := Farewells(c, t, t.neighbors);
    Step(s.t.(neighbors := [], passive := [], pending := {}, aliveDisconnect := {}, eager := [], lazy := [],
              lazyQueue := [], missing := map[]), s.out)
  }

  function Dispatch(c: Config, t: Topic, event: Event, now: int): Step {
    match event
    case Recv(peer, message) => HandleMessage(c, t, peer, message, now)
    case CommandJoin(peers) => Step(t, Joins(t, peers))
    case CommandBroadcast(payload, swarm) => HandleBroadcast(c, t, payload, swarm, now)
    case CommandQuit => HandleQuit(c, t)
    case PeerDisconnected(peer) => RemoveNeighbor(c, t, peer)
    case UpdatePeerData(data) => Step(t.(peerData := data), [])
    case TimerExpired(timer) => HandleTimer(c, t, timer, now)
  }

  /** `GossipTopicProtocolState.handle` */
  function Handle(c: Config, t: Topic, event: Event, now: int): Step {
    var s := Dispatch(c, Expire(t, now), event, now);
    if s.t.shuffleScheduled then s
    else Step(s.t.(shuffleScheduled := true), s.out + [ScheduleShuffle()])
  }
}

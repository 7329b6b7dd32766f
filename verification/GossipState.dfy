/** The topic as the program keeps it: an object whose handlers update its
    fields. Every handler is proved to take the step that GossipTopic specifies. */
module GossipState {
  import opened Bytes
  import opened GossipTypes
  import opened GossipChunks
  import opened GossipTopic
  import Spec = GossipTopic

  class TopicState {
    const c: Config
    var peerData: Option<Bytes>
    var neighbors: seq<Id>
    var passive: seq<Id>
    var pending: set<Id>
    var aliveDisconnect: set<Id>
    var eager: seq<Id>
    var lazy: seq<Id>
    var lazyQueue: seq<Queue>
    var missing: map<Id, seq<Source>>
    var graftScheduled: set<Id>
    var cache: map<Id, Cached>
    var dataByPeer: map<Id, Bytes>
    var seen: map<Id, int>
    var dispatchScheduled: bool
    var shuffleScheduled: bool
    var draws: nat

    ghost function Model(): Topic
      reads this
    {
      Topic(peerData, neighbors, passive, pending, aliveDisconnect, eager, lazy, lazyQueue, missing, graftScheduled,
            cache, dataByPeer, seen, dispatchScheduled, shuffleScheduled, draws)
    }

    constructor (config: Config, data: Option<Bytes>)
      ensures c == config && Model() == NewTopic(data)
    {
      c := config;
      peerData := data;
      neighbors, passive, eager, lazy, lazyQueue := [], [], [], [], [];
      pending, aliveDisconnect, graftScheduled := {}, {}, {};
      missing, cache, dataByPeer, seen := map[], map[], map[], map[];
      dispatchScheduled, shuffleScheduled, draws := false, false, 0;
    }

    // ---------------------------------------------------------- random choice

    method RandomInt(n: nat) returns (r: nat)
      requires n > 0
      modifies `draws
      ensures r == Draw(c, old(draws), n) && draws == old(draws) + 1
    {
      r := Draw(c, draws, n);
      draws := draws + 1;
    }

    method RandomSample(values: seq<Id>, count: nat) returns (out: seq<Id>)
      modifies `draws
      ensures Sampled(out, draws) == Sample(c, old(draws), values, count)
    {
      hide Sample, Draw;
      out := [];
      var remaining := values;
      ghost var whole := Sample(c, draws, values, count);
      while |out| < count && remaining != []
        invariant |out| <= count
        invariant Sampling(c, whole, out, draws, remaining, count - |out|)
        decreases count - |out|
      {
        SampleNext(c, whole, out, draws, remaining, count - |out|);
        var i := RandomInt(|remaining|);
        out := out + [remaining[i]];
        remaining := remaining[..i] + remaining[i + 1..];
      }
      SampleEnd(c, whole, out, draws, remaining, count - |out|);
    }

    method Infos(peers: seq<Id>) returns (infos: seq<PeerInfo>)
      ensures infos == InfosOf(dataByPeer, peers)
    {
      infos := [];
      assert peers[0..] == peers;
      for i := 0 to |peers|
        invariant InfosOf(dataByPeer, peers) == infos + InfosOf(dataByPeer, peers[i..])
      {
        assert peers[i..][1..] == peers[i + 1..];
        infos := infos + [InfoOf(dataByPeer, peers[i])];
      }
    }

    // ------------------------------------------------------------- membership

    method AddPeerData(peer: Id, data: Option<Bytes>) returns (out: seq<Out>)
      modifies `dataByPeer
      ensures Step(Model(), out) == Spec.AddPeerData(old(Model()), peer, data)
    {
      if data.None? || data.value == [] || (peer in dataByPeer && dataByPeer[peer] == data.value) {
        return [];
      }
      dataByPeer := dataByPeer[peer := data.value];
      return [PeerData(peer, data.value)];
    }

    method SendNeighbor(peer: Id, priority: Priority) returns (out: seq<Out>)
      modifies `pending
      ensures Step(Model(), out) == Spec.SendNeighbor(old(Model()), peer, priority)
    {
      if peer in pending {
        return [];
      }
      pending := pending + {peer};
      return [Send(peer, Neighbor(priority, peerData))];
    }

    method AddPassive(peer: Id, data: Option<Bytes>) returns (out: seq<Out>)
      modifies `dataByPeer, `passive, `draws
      ensures Step(Model(), out) == Spec.AddPassive(c, old(Model()), peer, data)
    {
      out := AddPeerData(peer, data);
      if peer == c.me || peer in neighbors || peer in passive {
        return;
      }
      if |passive| >= c.passiveCapacity && passive != [] {
        var i := RandomInt(|passive|);
        passive := Without(passive, passive[i]);
      }
      passive := passive + [peer];
    }

    method AddAllPassive(nodes: seq<PeerInfo>) returns (out: seq<Out>)
      modifies `dataByPeer, `passive, `draws
      ensures Step(Model(), out) == Spec.AddAllPassive(c, old(Model()), nodes)
    {
      hide Spec.AddPassive, Spec.AddAllPassive;
      out := [];
      ghost var whole := Spec.AddAllPassive(c, Model(), nodes);
      assert nodes[0..] == nodes;
      for i := 0 to |nodes|
        invariant Listing(c, whole, Model(), nodes[i..], out)
      {
        ListNext(c, whole, Model(), nodes[i..], out);
        assert nodes[i..][1..] == nodes[i + 1..];
        var more := AddPassive(nodes[i].id, nodes[i].data);
        out := out + more;
      }
      ListEnd(c, whole, Model(), nodes[|nodes|..], out);
    }

    method AddEager(peer: Id)
      modifies `eager, `lazy, `lazyQueue
      ensures Model() == Spec.AddEager(old(Model()), peer)
    {
      hide Without, With, DropQueue;
      lazy := Without(lazy, peer);
      lazyQueue := DropQueue(lazyQueue, peer);
      eager := With(eager, peer);
    }

    method AddLazy(peer: Id)
      modifies `eager, `lazy
      ensures Model() == Spec.AddLazy(old(Model()), peer)
    {
      hide Without, With;
      eager := Without(eager, peer);
      lazy := With(lazy, peer);
    }

    method Farewell(peer: Id, alive: bool) returns (out: seq<Out>)
      modifies `draws
      ensures Step(Model(), out) == Spec.Farewell(c, old(Model()), peer, alive)
    {
      hide Sample, InfosOf;
      var count := SHUFFLE_ACTIVE + SHUFFLE_PASSIVE;
      var fromPassive := RandomSample(passive, count);
      var fromActive := RandomSample(neighbors, if |fromPassive| <= count then count - |fromPassive| else 0);
      var infos := Infos(fromPassive + fromActive);
      return [Send(peer, ShuffleReply(infos)), Send(peer, Disconnect(alive, false)), DisconnectPeer(peer)];
    }

    method Forget(peer: Id)
      modifies `neighbors, `pending, `eager, `lazy, `lazyQueue, `missing
      ensures Model() == Spec.Forget(old(Model()), peer)
    {
      ForgetPush(peer);
      neighbors := Without(neighbors, peer);
      pending := pending - {peer};
      missing := DropMissing(missing, peer);
      hide Without, DropQueue, DropMissing, Spec.Forget;
      ForgetIs(old(Model()), Model(), peer);
    }

    method ForgetPush(peer: Id)
      modifies `eager, `lazy, `lazyQueue
      ensures eager == Without(old(eager), peer) && lazy == Without(old(lazy), peer)
      ensures lazyQueue == DropQueue(old(lazyQueue), peer)
    {
      eager := Without(eager, peer);
      lazy := Without(lazy, peer);
      lazyQueue := DropQueue(lazyQueue, peer);
    }

    method RemoveActive(peer: Id, keepPassive: bool, sendDisconnect: bool) returns (out: seq<Out>)
      modifies this
      ensures Step(Model(), out) == Spec.RemoveActive(c, old(Model()), peer, keepPassive, sendDisconnect)
    {
      hide Spec.Forget, Spec.Farewell, Spec.AddPassive;
      if peer !in neighbors {
        return [];
      }
      Forget(peer);
      out := [Emit(NeighborDown(peer))];
      if sendDisconnect {
        var bye := Farewell(peer, true);
        out := out + bye;
      } else {
        out := out + [DisconnectPeer(peer)];
      }
      if keepPassive {
        var _ := AddPassive(peer, if peer in dataByPeer then Some(dataByPeer[peer]) else None);
        aliveDisconnect := aliveDisconnect + {peer};
      }
    }

    method AddActive(peer: Id, data: Option<Bytes>, priority: Priority, reply: bool) returns (out: seq<Out>)
      modifies this
      ensures Step(Model(), out) == Spec.AddActive(c, old(Model()), peer, data, priority, reply)
    {
      hide Spec.AddPeerData, Spec.SendNeighbor, Spec.Farewell, Spec.Enter;
      if peer == c.me {
        return [];
      }
      out := AddPeerData(peer, data);
      if peer in neighbors {
        if reply {
          var request := SendNeighbor(peer, priority);
          out := out + request;
        }
        return;
      }
      if priority.Low? && |neighbors| >= c.activeCapacity {
        var bye := Farewell(peer, true);
        return out + bye;
      }
      var entering := Enter(peer, priority, reply);
      out := out + entering;
    }

    method EnterActive(peer: Id)
      modifies this
      ensures Model() == Spec.EnterActive(old(Model()), peer)
    {
      hide Spec.AddEager, Spec.EnterActive, Without, With;
      passive := Without(passive, peer);
      pending := pending - {peer};
      aliveDisconnect := aliveDisconnect - {peer};
      neighbors := With(neighbors, peer);
      EnterIs(old(Model()), Model(), peer);
      AddEager(peer);
    }

    method Enter(peer: Id, priority: Priority, reply: bool) returns (out: seq<Out>)
      modifies this
      ensures Step(Model(), out) == Spec.Enter(c, old(Model()), peer, priority, reply)
    {
      hide Spec.SendNeighbor, Spec.RemoveActive, Spec.EnterActive;
      out := [];
      if |neighbors| >= c.activeCapacity && neighbors != [] {
        var i := RandomInt(|neighbors|);
        out := RemoveActive(neighbors[i], true, true);
      }
      EnterActive(peer);
      out := out + [Emit(NeighborUp(peer))];
      if reply {
        var request := SendNeighbor(peer, priority);
        out := out + request;
      } else {
        assert out + [] == out;
      }
    }

    method Refill() returns (out: seq<Out>)
      modifies `pending, `draws
      ensures Step(Model(), out) == Spec.Refill(c, old(Model()))
    {
      hide Spec.SendNeighbor;
      if |neighbors| + |pending| >= c.activeCapacity {
        return [];
      }
      var candidates := Filter(passive, pending);
      if candidates == [] {
        return [];
      }
      var i := RandomInt(|candidates|);
      var peer := candidates[i];
      out := SendNeighbor(peer, if neighbors == [] then High else Low);
      out := out + [Schedule(PENDING_TIMEOUT, PendingNeighbor(peer))];
    }

    method Unlist(peer: Id)
      modifies `passive, `aliveDisconnect, `dataByPeer
      ensures passive == Without(old(passive), peer) && aliveDisconnect == old(aliveDisconnect) - {peer}
      ensures dataByPeer == old(dataByPeer) - {peer}
    {
      passive := Without(passive, peer);
      aliveDisconnect := aliveDisconnect - {peer};
      dataByPeer := dataByPeer - {peer};
    }

    method RemoveNeighbor(peer: Id) returns (out: seq<Out>)
      modifies this
      ensures Step(Model(), out) == Spec.RemoveNeighbor(c, old(Model()), peer)
    {
      hide Spec.Refill, Without, Spec.Forget, Spec.Farewell, Spec.KeepPassive;
      out := RemoveActive(peer, false, false);
      if out != [] {
        var more := Refill();
        return out + more;
      }
      if peer in aliveDisconnect {
        aliveDisconnect := aliveDisconnect - {peer};
        return;
      }
      Unlist(peer);
      pending := pending - {peer};
    }

    method HandleDisconnect(peer: Id, alive: bool) returns (out: seq<Out>)
      modifies this
      ensures Step(Model(), out) == Spec.HandleDisconnect(c, old(Model()), peer, alive)
    {
      hide Spec.Refill, Without, Spec.Forget, Spec.Farewell, Spec.KeepPassive;
      out := RemoveActive(peer, alive, false);
      if out != [] {
        var more := Refill();
        return out + more;
      }
      if !alive {
        Unlist(peer);
      }
      return [DisconnectPeer(peer)];
    }

    method HandlePendingNeighbor(peer: Id) returns (out: seq<Out>)
      modifies this
      ensures Step(Model(), out) == Spec.HandlePendingNeighbor(c, old(Model()), peer)
    {
      hide Spec.Refill, Without;
      if peer !in pending {
        return [];
      }
      pending := pending - {peer};
      Unlist(peer);
      var more := Refill();
      return [DisconnectPeer(peer)] + more;
    }

    method PickActiveExcept(excluded: set<Id>) returns (peer: Option<Id>)
      modifies `draws
      ensures Chosen(peer, draws) == Spec.PickActiveExcept(c, old(Model()), excluded)
      ensures peer.None? ==> draws == old(draws)
    {
      var candidates := Filter(neighbors, excluded);
      if candidates == [] {
        return None;
      }
      var i := RandomInt(|candidates|);
      return Some(candidates[i]);
    }

    method HandleForwardJoin(sender: Id, info: PeerInfo, ttl: nat) returns (out: seq<Out>)
      modifies this
      ensures Step(Model(), out) == Spec.HandleForwardJoin(c, old(Model()), sender, info, ttl)
    {
      hide Spec.AddPeerData, Spec.SendNeighbor, Spec.AddPassive, Spec.PickActiveExcept;
      if info.id in neighbors || ttl <= 0 || |neighbors| <= 1 {
        out := AddPeerData(info.id, info.data);
        var request := SendNeighbor(info.id, High);
        return out + request;
      }
      out := [];
      if ttl == PASSIVE_WALK {
        out := AddPassive(info.id, info.data);
      }
      if info.id in pending {
        return;
      }
      var next := PickActiveExcept({sender});
      if next.Some? {
        out := out + [Send(next.value, ForwardJoin(info, Lower(ttl)))];
      }
    }

    method HandleShuffle(sender: Id, origin: Id, nodes: seq<PeerInfo>, ttl: nat) returns (out: seq<Out>)
      modifies this
      ensures Step(Model(), out) == Spec.HandleShuffle(c, old(Model()), sender, origin, nodes, ttl)
    {
      hide Spec.AddAllPassive, Spec.PickActiveExcept, Sample, InfosOf;
      if ttl <= 0 || |neighbors| <= 1 {
        out := AddAllPassive(nodes);
        var sample := RandomSample(passive + neighbors, |nodes|);
        var infos := Infos(sample);
        return out + [Send(origin, ShuffleReply(infos))];
      }
      var next := PickActiveExcept({origin, sender});
      if next.None? {
        return [];
      }
      return [Send(next.value, Shuffle(origin, nodes, Lower(ttl)))];
    }

    method HandleJoin(peer: Id, data: Option<Bytes>) returns (out: seq<Out>)
      modifies this
      ensures Step(Model(), out) == Spec.HandleJoin(c, old(Model()), peer, data)
    {
      hide Spec.AddActive;
      out := AddActive(peer, data, High, true);
      ghost var before := out;
      ghost var whole := ForwardJoins(neighbors, PeerInfo(peer, data));
      assert neighbors[0..] == neighbors;
      for i := 0 to |neighbors|
        invariant before + whole == out + ForwardJoins(neighbors[i..], PeerInfo(peer, data))
      {
        assert neighbors[i..][1..] == neighbors[i + 1..];
        if neighbors[i] != peer {
          out := out + [Send(neighbors[i], ForwardJoin(PeerInfo(peer, data), ACTIVE_WALK))];
        }
      }
      assert neighbors[|neighbors|..] == [] && out + [] == out;
    }

    method HandleNeighbor(peer: Id, priority: Priority, data: Option<Bytes>) returns (out: seq<Out>)
      modifies this
      ensures Step(Model(), out) == Spec.HandleNeighbor(c, old(Model()), peer, priority, data)
    {
      hide Spec.AddActive;
      var isReply := peer in pending;
      pending := pending - {peer};
      out := AddActive(peer, data, priority, !isReply);
    }

    method HandleShuffleReply(nodes: seq<PeerInfo>) returns (out: seq<Out>)
      modifies this
      ensures Step(Model(), out) == Spec.HandleShuffleReply(c, old(Model()), nodes)
    {
      hide Spec.AddAllPassive, Spec.Refill;
      out := AddAllPassive(nodes);
      var more := Refill();
      out := out + more;
    }

    method DoShuffle() returns (out: seq<Out>)
      modifies `draws
      ensures Step(Model(), out) == Spec.HandleShuffleTimer(c, old(Model()))
    {
      hide Sample, InfosOf, Without;
      if neighbors == [] {
        return [];
      }
      var i := RandomInt(|neighbors|);
      var node := neighbors[i];
      var fromActive := RandomSample(Without(neighbors, node), SHUFFLE_ACTIVE);
      var fromPassive := RandomSample(Without(passive, node), SHUFFLE_PASSIVE);
      var nodes := Infos(fromActive + fromPassive);
      return [Send(node, Shuffle(c.me, nodes + [PeerInfo(c.me, peerData)], SHUFFLE_WALK))];
    }

    // --------------------------------------------------------------- broadcast

    method EagerPush(message: Broadcast, sender: Id) returns (out: seq<Out>)
      ensures out == Spec.EagerPush(Model(), message, sender)
    {
      out := [];
      assert eager[0..] == eager;
      for i := 0 to |eager|
        invariant Pushes(eager, sender, message) == out + Pushes(eager[i..], sender, message)
      {
        assert eager[i..][1..] == eager[i + 1..];
        if eager[i] != sender {
          out := out + [Send(eager[i], message)];
        }
      }
    }

    method LazyPush(id: Id, round: nat, sender: Id) returns (out: seq<Out>)
      modifies `lazyQueue, `dispatchScheduled
      ensures Step(Model(), out) == Spec.LazyPush(old(Model()), id, round, sender)
    {
      hide PushOne;
      assert lazy[0..] == lazy;
      for i := 0 to |lazy|
        invariant PushEach(old(lazyQueue), lazy, sender, Entry(id, round))
                  == PushEach(lazyQueue, lazy[i..], sender, Entry(id, round))
        invariant dispatchScheduled == old(dispatchScheduled)
      {
        assert lazy[i..][1..] == lazy[i + 1..];
        if lazy[i] != sender {
          lazyQueue := PushOne(lazyQueue, lazy[i], Entry(id, round));
        }
      }
      if lazyQueue == [] || dispatchScheduled {
        return [];
      }
      dispatchScheduled := true;
      return [Schedule(LAZY_DISPATCH_DELAY, DispatchLazyPush)];
    }

    method HasSeenMessage(id: Id, now: int) returns (known: bool)
      modifies `seen
      ensures known == HasSeen(old(Model()), id, now)
      ensures Model() == if known then old(Model()) else DropExpired(old(Model()), id, now)
    {
      if id !in seen {
        return false;
      }
      if seen[id] <= now {
        seen := seen - {id};
        return false;
      }
      return true;
    }

    method StoreGossip(message: Broadcast, now: int)
      modifies `seen, `cache
      ensures Model() == Store(old(Model()), message, now)
    {
      seen := seen[message.id := now + ID_RETENTION];
      cache := cache[message.id := Cached(message, now + CACHE_RETENTION)];
    }

    method ExpireCaches(now: int)
      modifies `seen, `cache
      ensures Model() == Expire(old(Model()), now)
    {
      ExpireSeen(now);
      ExpireCache(now);
      assert seen == Expire(old(Model()), now).seen;
      assert cache == Expire(old(Model()), now).cache;
    }

    /** Looks at every seen id once, in any order, and deletes the expired ones. */
    method ExpireSeen(now: int)
      modifies `seen
      ensures seen == map id | id in old(seen) && old(seen)[id] > now :: old(seen)[id]
    {
      var left := seen.Keys;
      while left != {}
        invariant left <= seen.Keys
        invariant seen == map id | id in old(seen) && (id in left || old(seen)[id] > now) :: old(seen)[id]
        decreases |left|
      {
        var id :| id in left;
        left := left - {id};
        if seen[id] <= now {
          seen := seen - {id};
        }
      }
    }

    method ExpireCache(now: int)
      modifies `cache
      ensures cache == map id | id in old(cache) && old(cache)[id].expires > now :: old(cache)[id]
    {
      var left := cache.Keys;
      while left != {}
        invariant left <= cache.Keys
        invariant cache == map id | id in old(cache) && (id in left || old(cache)[id].expires > now) :: old(cache)[id]
        decreases |left|
      {
        var id :| id in left;
        left := left - {id};
        if cache[id].expires <= now {
          cache := cache - {id};
        }
      }
    }

    method Announce(peer: Id, entry: Entry, now: int) returns (out: seq<Out>)
      modifies `seen, `missing, `graftScheduled
      ensures Step(Model(), out) == Spec.Announce(old(Model()), peer, entry, now)
    {
      var known := HasSeenMessage(entry.id, now);
      if known {
        return [];
      }
      missing := Enqueue(missing, entry.id, Source(peer, entry.round));
      if entry.id in graftScheduled {
        assert graftScheduled + {entry.id} == graftScheduled;
        return [];
      }
      graftScheduled := graftScheduled + {entry.id};
      return [Schedule(GRAFT_TIMEOUT, SendGraft(entry.id))];
    }

    method HandleIHave(peer: Id, entries: seq<Entry>, now: int) returns (out: seq<Out>)
      modifies `seen, `missing, `graftScheduled
      ensures Step(Model(), out) == Spec.HandleIHave(old(Model()), peer, entries, now)
    {
      hide Spec.HandleIHave, Spec.Announce;
      out := [];
      ghost var whole := Spec.HandleIHave(Model(), peer, entries, now);
      assert entries[0..] == entries;
      for i := 0 to |entries|
        invariant Announcing(whole, Model(), peer, entries[i..], now, out)
      {
        AnnounceNext(whole, Model(), peer, entries[i..], now, out);
        assert entries[i..][1..] == entries[i + 1..];
        var more := Announce(peer, entries[i], now);
        out := out + more;
      }
      AnnounceEnd(whole, Model(), peer, entries[|entries|..], now, out);
    }

    method HandleGraftTimer(id: Id, now: int) returns (out: seq<Out>)
      modifies this
      ensures Step(Model(), out) == Spec.HandleGraftTimer(old(Model()), id, now)
    {
      hide Spec.AddEager, Shift;
      graftScheduled := graftScheduled - {id};
      var known := HasSeenMessage(id, now);
      if known {
        return [];
      }
      var queue := QueueOf(missing, id);
      missing := Shift(missing, id);
      if queue == [] {
        return [];
      }
      AddEager(queue[0].peer);
      return [Send(queue[0].peer, Graft(Some(id), queue[0].round)), Schedule(RETRY_GRAFT_TIMEOUT, SendGraft(id))];
    }

    method HandleDispatch() returns (out: seq<Out>)
      modifies `dispatchScheduled, `lazyQueue
      ensures Step(Model(), out) == Spec.HandleDispatch(c, old(Model()))
    {
      dispatchScheduled := false;
      out := DispatchQueues();
      lazyQueue := [];
    }

    method DispatchQueues() returns (out: seq<Out>)
      ensures out == Dispatches(c, lazyQueue)
    {
      hide ChunkFrom, IHaves;
      out := [];
      assert lazyQueue[0..] == lazyQueue;
      for i := 0 to |lazyQueue|
        invariant Dispatches(c, lazyQueue) == out + Dispatches(c, lazyQueue[i..])
      {
        assert lazyQueue[i..][1..] == lazyQueue[i + 1..];
        var chunks := ChunkIHaveMessages(lazyQueue[i].entries, c.maxSize);
        var sends := SendChunks(lazyQueue[i].peer, chunks);
        out := out + sends;
      }
    }

    method SendChunks(peer: Id, chunks: seq<seq<Entry>>) returns (out: seq<Out>)
      ensures out == IHaves(peer, chunks)
    {
      out := [];
      assert chunks[0..] == chunks;
      for i := 0 to |chunks|
        invariant IHaves(peer, chunks) == out + IHaves(peer, chunks[i..])
      {
        assert chunks[i..][1..] == chunks[i + 1..];
        out := out + [Send(peer, IHave(chunks[i]))];
      }
    }

    method HandleGraft(peer: Id, wanted: Option<Id>) returns (out: seq<Out>)
      modifies `eager, `lazy, `lazyQueue
      ensures Step(Model(), out) == Spec.HandleGraft(old(Model()), peer, wanted)
    {
      AddEager(peer);
      if wanted.None? || wanted.value !in cache {
        return [];
      }
      return [Send(peer, cache[wanted.value].message)];
    }

    method HandleGossip(peer: Id, message: Broadcast, now: int) returns (out: seq<Out>)
      modifies this
      ensures Step(Model(), out) == Spec.HandleGossip(c, old(Model()), peer, message, now)
    {
      hide Spec.AddLazy, Spec.EagerPush, Spec.LazyPush;
      if message.id != c.hash(message.content) {
        return [];
      }
      var known := HasSeenMessage(message.id, now);
      if known {
        AddLazy(peer);
        return [Send(peer, Prune)];
      }
      if message.scope.Neighbors? {
        return [Deliver(peer, message)];
      }
      var news := message.(scope := Swarm(message.scope.round + 1));
      StoreGossip(news, now);
      graftScheduled := graftScheduled - {news.id};
      missing := missing - {news.id};
      var pushes := EagerPush(news, peer);
      var lazily := LazyPush(news.id, news.scope.round, peer);
      return [Deliver(peer, news)] + pushes + lazily;
    }

    method HandleBroadcast(payload: Bytes, swarm: bool, now: int) returns (out: seq<Out>)
      modifies this
      ensures Step(Model(), out) == Spec.HandleBroadcast(c, old(Model()), payload, swarm, now)
    {
      hide Spec.EagerPush, Spec.LazyPush, Store;
      var message := Gossip(c.hash(payload), payload, if swarm then Swarm(0) else Neighbors);
      out := [];
      if swarm {
        StoreGossip(message, now);
        out := LazyPush(message.id, 0, c.me);
      }
      var pushes := EagerPush(message, c.me);
      out := out + pushes;
    }

    method HandleQuit() returns (out: seq<Out>)
      modifies this
      ensures Step(Model(), out) == Spec.HandleQuit(c, old(Model()))
    {
      hide Farewells;
      out := FarewellAll(neighbors);
      neighbors, passive, eager, lazy, lazyQueue := [], [], [], [], [];
      pending, aliveDisconnect, missing := {}, {}, map[];
    }

    method FarewellAll(peers: seq<Id>) returns (out: seq<Out>)
      modifies this
      ensures Step(Model(), out) == Farewells(c, old(Model()), peers)
    {
      hide Spec.Forget, Spec.Farewell, Farewells;
      out := [];
      ghost var whole := Farewells(c, Model(), peers);
      assert peers[0..] == peers;
      for i := 0 to |peers|
        invariant Leaving(c, whole, Model(), peers[i..], out)
      {
        LeaveNext(c, whole, Model(), peers[i..], out);
        assert peers[i..][1..] == peers[i + 1..];
        Forget(peers[i]);
        var bye := Farewell(peers[i], false);
        out := out + bye;
      }
      LeaveEnd(c, whole, Model(), peers[|peers|..], out);
    }

    // ----------------------------------------------------------- whole handler

    method HandleMessage(peer: Id, message: Message, now: int) returns (out: seq<Out>)
      modifies this
      ensures Step(Model(), out) == Spec.HandleMessage(c, old(Model()), peer, message, now)
    {
      hide Spec.HandleJoin, Spec.HandleForwardJoin, Spec.HandleShuffle, Spec.HandleShuffleReply, Spec.HandleNeighbor,
        Spec.HandleDisconnect, Spec.HandleGossip, Spec.HandleGraft, Spec.HandleIHave, Spec.AddLazy;
      match message
      case Join(data) => out := HandleJoin(peer, data);
      case ForwardJoin(info, ttl) => out := HandleForwardJoin(peer, info, ttl);
      case Shuffle(origin, nodes, ttl) => out := HandleShuffle(peer, origin, nodes, ttl);
      case ShuffleReply(nodes) => out := HandleShuffleReply(nodes);
      case Neighbor(priority, data) => out := HandleNeighbor(peer, priority, data);
      case Disconnect(alive, _) => out := HandleDisconnect(peer, alive);
      case Gossip(_, _, _) => out := HandleGossip(peer, message, now);
      case Prune =>
        AddLazy(peer);
        out := [];
      case Graft(wanted, _) => out := HandleGraft(peer, wanted);
      case IHave(entries) => out := HandleIHave(peer, entries, now);
    }

    method HandleTimer(timer: Timer, now: int) returns (out: seq<Out>)
      modifies this
      ensures Step(Model(), out) == Spec.HandleTimer(c, old(Model()), timer, now)
    {
      hide Spec.HandleDispatch, Spec.HandlePendingNeighbor, Spec.HandleGraftTimer, Spec.HandleShuffleTimer;
      match timer
      case DispatchLazyPush => out := HandleDispatch();
      case PendingNeighbor(peer) => out := HandlePendingNeighbor(peer);
      case SendGraft(id) => out := HandleGraftTimer(id, now);
      case DoShuffle =>
        out := DoShuffle();
        out := out + [ScheduleShuffle()];
    }

    method SendJoins(peers: seq<Id>) returns (out: seq<Out>)
      ensures out == Joins(Model(), peers)
    {
      out := [];
      assert peers[0..] == peers;
      for i := 0 to |peers|
        invariant Joins(Model(), peers) == out + Joins(Model(), peers[i..])
      {
        assert peers[i..][1..] == peers[i + 1..];
        out := out + [Send(peers[i], Join(peerData))];
      }
    }

    /** Takes one event to the next state and the events to emit. */
    method Handle(event: Event, now: int) returns (out: seq<Out>)
      modifies this
      ensures Step(Model(), out) == Spec.Handle(c, old(Model()), event, now)
    {
      hide Spec.Expire, Spec.HandleMessage, Joins, Spec.HandleBroadcast, Spec.HandleQuit, Spec.RemoveNeighbor,
        Spec.HandleTimer;
      ExpireCaches(now);
      match event {
        case Recv(peer, message) => out := HandleMessage(peer, message, now);
        case CommandJoin(peers) => out := SendJoins(peers);
        case CommandBroadcast(payload, swarm) => out := HandleBroadcast(payload, swarm, now);
        case CommandQuit => out := HandleQuit();
        case PeerDisconnected(peer) => out := RemoveNeighbor(peer);
        case UpdatePeerData(data) =>
          peerData := data;
          out := [];
        case TimerExpired(timer) => out := HandleTimer(timer, now);
      }
      if !shuffleScheduled {
        shuffleScheduled := true;
        out := out + [ScheduleShuffle()];
      }
    }
  }

  /** `whole` is what is sampled so far and what is still to be sampled. */
  ghost predicate Sampling(c: Config, whole: Sampled, out: seq<Id>, draws: nat, remaining: seq<Id>, count: nat) {
    var rest := Sample(c, draws, remaining, count);
    whole == Sampled(out + rest.peers, rest.draws)
  }

  lemma SampleNext(c: Config, whole: Sampled, out: seq<Id>, draws: nat, remaining: seq<Id>, count: nat)
    requires Sampling(c, whole, out, draws, remaining, count) && count > 0 && remaining != []
    ensures var i := Draw(c, draws, |remaining|);
            Sampling(c, whole, out + [remaining[i]], draws + 1, remaining[..i] + remaining[i + 1..], count - 1)
  {
    hide Draw;
    var i := Draw(c, draws, |remaining|);
    var rest := Sample(c, draws + 1, remaining[..i] + remaining[i + 1..], count - 1);
    assert out + ([remaining[i]] + rest.peers) == out + [remaining[i]] + rest.peers;
  }

  lemma SampleEnd(c: Config, whole: Sampled, out: seq<Id>, draws: nat, remaining: seq<Id>, count: nat)
    requires Sampling(c, whole, out, draws, remaining, count) && (count == 0 || remaining == [])
    ensures whole == Sampled(out, draws)
  {
  }

  // The loops: what is done so far and what is still to do make up the whole.

  ghost predicate Announcing(whole: Step, t: Topic, peer: Id, entries: seq<Entry>, now: int, out: seq<Out>) {
    var rest := Spec.HandleIHave(t, peer, entries, now);
    whole == Step(rest.t, out + rest.out)
  }

  lemma AnnounceNext(whole: Step, t: Topic, peer: Id, entries: seq<Entry>, now: int, out: seq<Out>)
    requires Announcing(whole, t, peer, entries, now, out) && entries != []
    ensures var s := Spec.Announce(t, peer, entries[0], now);
            Announcing(whole, s.t, peer, entries[1..], now, out + s.out)
  {
    hide Spec.Announce;
    var s := Spec.Announce(t, peer, entries[0], now);
    var rest := Spec.HandleIHave(s.t, peer, entries[1..], now);
    assert out + (s.out + rest.out) == out + s.out + rest.out;
  }

  lemma AnnounceEnd(whole: Step, t: Topic, peer: Id, entries: seq<Entry>, now: int, out: seq<Out>)
    requires Announcing(whole, t, peer, entries, now, out) && entries == []
    ensures whole == Step(t, out)
  {
  }

  ghost predicate Leaving(c: Config, whole: Step, t: Topic, peers: seq<Id>, out: seq<Out>) {
    var rest := Farewells(c, t, peers);
    whole == Step(rest.t, out + rest.out)
  }

  lemma LeaveNext(c: Config, whole: Step, t: Topic, peers: seq<Id>, out: seq<Out>)
    requires Leaving(c, whole, t, peers, out) && peers != []
    ensures var bye := Spec.Farewell(c, Spec.Forget(t, peers[0]), peers[0], false);
            Leaving(c, whole, bye.t, peers[1..], out + bye.out)
  {
    hide Spec.Farewell, Spec.Forget;
    var bye := Spec.Farewell(c, Spec.Forget(t, peers[0]), peers[0], false);
    var rest := Farewells(c, bye.t, peers[1..]);
    assert out + (bye.out + rest.out) == out + bye.out + rest.out;
  }

  lemma LeaveEnd(c: Config, whole: Step, t: Topic, peers: seq<Id>, out: seq<Out>)
    requires Leaving(c, whole, t, peers, out) && peers == []
    ensures whole == Step(t, out)
  {
  }

  ghost predicate Listing(c: Config, whole: Step, t: Topic, nodes: seq<PeerInfo>, out: seq<Out>) {
    var rest := Spec.AddAllPassive(c, t, nodes);
    whole == Step(rest.t, out + rest.out)
  }

  lemma ListNext(c: Config, whole: Step, t: Topic, nodes: seq<PeerInfo>, out: seq<Out>)
    requires Listing(c, whole, t, nodes, out) && nodes != []
    ensures var s := Spec.AddPassive(c, t, nodes[0].id, nodes[0].data);
            Listing(c, whole, s.t, nodes[1..], out + s.out)
  {
    hide Spec.AddPassive;
    var s := Spec.AddPassive(c, t, nodes[0].id, nodes[0].data);
    var rest := Spec.AddAllPassive(c, s.t, nodes[1..]);
    assert out + (s.out + rest.out) == out + s.out + rest.out;
  }

  lemma ListEnd(c: Config, whole: Step, t: Topic, nodes: seq<PeerInfo>, out: seq<Out>)
    requires Listing(c, whole, t, nodes, out) && nodes == []
    ensures whole == Step(t, out)
  {
  }

  lemma ForgetIs(t: Topic, u: Topic, peer: Id)
    requires u == t.(neighbors := Without(t.neighbors, peer), pending := t.pending - {peer},
                     eager := Without(t.eager, peer), lazy := Without(t.lazy, peer),
                     lazyQueue := DropQueue(t.lazyQueue, peer), missing := DropMissing(t.missing, peer))
    ensures u == Spec.Forget(t, peer)
  {
  }

  lemma EnterIs(t: Topic, u: Topic, peer: Id)
    requires u == t.(passive := Without(t.passive, peer), pending := t.pending - {peer},
                     aliveDisconnect := t.aliveDisconnect - {peer}, neighbors := With(t.neighbors, peer))
    ensures Spec.EnterActive(t, peer) == Spec.AddEager(u, peer)
  {
  }
}

/** Folding the relays' answers for one key into the cache. */
module PkarrResolve {
  import opened Bytes
  import opened PkarrPackets
  import opened PkarrCache

  /** A relay's answer: none, "not modified" at a given time, or a packet. */
  datatype Answer = NoAnswer | NotModified(now: int) | Found(packet: Packet)

  /** `#cacheIncoming`: the entries after an answer. */
  function Incoming(entries: seq<Entry>, capacity: nat, key: Key, answer: Answer): seq<Entry> {
    var cached := Lookup(entries, key);
    match answer
    case NoAnswer => entries
    case NotModified(now) =>
      if cached.None? then entries else PutEntry(entries, capacity, key, cached.value.(lastSeen := now))
    case Found(packet) =>
      if cached.Some? && packet.body != cached.value.body && !MoreRecent(packet.body, cached.value.body) then entries
      else PutEntry(entries, capacity, key, packet)
  }

  /** What the caller gets: a packet that is new to the cache. */
  function News(entries: seq<Entry>, key: Key, answer: Answer): Option<Packet> {
    var cached := Lookup(entries, key);
    if answer.Found? && (cached.None? || (answer.packet.body != cached.value.body
                                          && MoreRecent(answer.packet.body, cached.value.body)))
    then Some(answer.packet) else None
  }

  method CacheIncoming(cache: InMemoryCache, key: Key, answer: Answer) returns (news: Option<Packet>)
    requires |cache.entries| <= cache.capacity
    modifies cache`entries
    ensures cache.entries == Incoming(old(cache.entries), cache.capacity, key, answer)
    ensures |cache.entries| <= cache.capacity
    ensures news == News(old(cache.entries), key, answer)
  {
    hide PutEntry, Lookup, MoreRecent;
    if answer.NoAnswer? {
      return None;
    }
    var cached := cache.GetReadOnly(key);
    if answer.NotModified? {
      if cached.Some? {
        cache.Put(key, cached.value.(lastSeen := answer.now));
      }
      return None;
    }
    if cached.Some? && answer.packet.body == cached.value.body {
      cache.Put(key, answer.packet);
      return None;
    }
    if cached.Some? && !MoreRecent(answer.packet.body, cached.value.body) {
      return None;
    }
    cache.Put(key, answer.packet);
    return Some(answer.packet);
  }

  ghost function FoldAnswers(entries: seq<Entry>, capacity: nat, key: Key, answers: seq<Answer>): seq<Entry> {
    if answers == [] then entries
    else Incoming(FoldAnswers(entries, capacity, key, answers[..|answers| - 1]), capacity, key, answers[|answers| - 1])
  }

  ghost function BodyAt(entries: seq<Entry>, key: Key): Option<Body> {
    var found := Lookup(entries, key);
    if found.None? then None else Some(found.value.body)
  }

  lemma {:induction false} LookupAppend(entries: seq<Entry>, key: Key, packet: Packet)
    requires Lookup(entries, key).None?
    ensures Lookup(entries + [Entry(key, packet)], key) == Some(packet)
    decreases |entries|
  {
    var longer := entries + [Entry(key, packet)];
    if entries != [] {
      assert longer[1..] == entries[1..] + [Entry(key, packet)];
      LookupAppend(entries[1..], key, packet);
    }
  }

  lemma {:induction false} LookupDeleted(entries: seq<Entry>, key: Key)
    ensures Lookup(Delete(entries, key), key).None?
    decreases |entries|
  {
    if entries != [] { LookupDeleted(entries[1..], key); }
  }

  lemma {:induction false} LookupNoneSuffix(entries: seq<Entry>, key: Key, i: nat)
    requires i <= |entries| && Lookup(entries, key).None?
    ensures Lookup(entries[i..], key).None?
    decreases i
  {
    if i > 0 {
      LookupNoneSuffix(entries[1..], key, i - 1);
      assert entries[i..] == entries[1..][i - 1..];
    } else {
      assert entries[i..] == entries;
    }
  }

  /** What is put is there afterwards. */
  lemma PutFound(entries: seq<Entry>, capacity: nat, key: Key, packet: Packet)
    requires capacity >= 1
    ensures Lookup(PutEntry(entries, capacity, key, packet), key) == Some(packet)
  {
    hide Delete, Lookup;
    var rest := Delete(entries, key);
    LookupDeleted(entries, key);
    var longer := rest + [Entry(key, packet)];
    if |longer| > capacity {
      var i := |longer| - capacity;
      assert longer[i..] == rest[i..] + [Entry(key, packet)];
      LookupNoneSuffix(rest, key, i);
      LookupAppend(rest[i..], key, packet);
    } else {
      LookupAppend(rest, key, packet);
    }
  }

  /** One answer replaces the resident packet only by a more recent one. */
  lemma IncomingBody(entries: seq<Entry>, capacity: nat, key: Key, answer: Answer)
    requires capacity >= 1
    ensures BodyAt(Incoming(entries, capacity, key, answer), key) ==
            var cached := BodyAt(entries, key);
            if answer.Found? && (cached.None? || MoreRecent(answer.packet.body, cached.value))
            then Some(answer.packet.body) else cached
  {
    hide PutEntry, Lookup;
    var cached := Lookup(entries, key);
    if answer.Found? {
      PutFound(entries, capacity, key, answer.packet);
      if cached.Some? { RecencyTotal(answer.packet.body, cached.value.body); }
    }
    if answer.NotModified? && cached.Some? {
      PutFound(entries, capacity, key, cached.value.(lastSeen := answer.now));
    }
  }

  /** A packet that was cached at the start or came in an answer. */
  ghost predicate Offered(start: Option<Body>, answers: seq<Answer>, b: Body) {
    start == Some(b) || exists a :: a in answers && a.Found? && a.packet.body == b
  }

  /** Folding answers leaves a packet that was offered and than which no offered
      one is more recent; it leaves none only if none was offered. */
  lemma {:induction false} FoldIsMaximum(entries: seq<Entry>, capacity: nat, key: Key, answers: seq<Answer>)
    requires capacity >= 1
    ensures var start := BodyAt(entries, key);
            var end := BodyAt(FoldAnswers(entries, capacity, key, answers), key);
            && (end.None? ==> forall b :: !Offered(start, answers, b))
            && (end.Some? ==> Offered(start, answers, end.value)
                              && forall b :: Offered(start, answers, b) ==> !MoreRecent(b, end.value))
    decreases |answers|
  {
    hide Incoming, BodyAt, MoreRecent;
    var start := BodyAt(entries, key);
    var end := BodyAt(FoldAnswers(entries, capacity, key, answers), key);
    if answers == [] {
      if end.Some? { RecencyTotal(end.value, end.value); }
    } else {
      var init, last := answers[..|answers| - 1], answers[|answers| - 1];
      assert answers == init + [last];
      FoldIsMaximum(entries, capacity, key, init);
      var before := BodyAt(FoldAnswers(entries, capacity, key, init), key);
      IncomingBody(FoldAnswers(entries, capacity, key, init), capacity, key, last);
      assert last in answers;
      OfferedStep(start, init, last);
      if end.Some? {
        forall b | Offered(start, answers, b) ensures !MoreRecent(b, end.value) {
          RecencyTotal(end.value, end.value);
          if before.Some? {
            RecencyTotal(before.value, end.value);
            RecencyChains(end.value, before.value, b);
          }
        }
      }
    }
  }

  lemma OfferedStep(start: Option<Body>, init: seq<Answer>, last: Answer)
    ensures forall b :: Offered(start, init + [last], b) <==>
              Offered(start, init, b) || (last.Found? && last.packet.body == b)
  {
    forall b ensures Offered(start, init + [last], b) <==>
                     Offered(start, init, b) || (last.Found? && last.packet.body == b)
    {
      assert last in init + [last];
      if Offered(start, init, b) && start != Some(b) {
        var a :| a in init && a.Found? && a.packet.body == b;
        assert a in init + [last];
      }
    }
  }

  /** Whatever the order of the answers, the packet left is as recent. */
  lemma FoldOrderIrrelevant(
      entries: seq<Entry>, capacity: nat, key: Key, answers: seq<Answer>, others: seq<Answer>)
    requires capacity >= 1 && forall a :: a in answers <==> a in others
    ensures var one := BodyAt(FoldAnswers(entries, capacity, key, answers), key);
            var two := BodyAt(FoldAnswers(entries, capacity, key, others), key);
            (one.None? && two.None?) || (one.Some? && two.Some? && SameAge(one.value, two.value))
  {
    hide FoldAnswers, BodyAt, MoreRecent, SameAge;
    FoldIsMaximum(entries, capacity, key, answers);
    FoldIsMaximum(entries, capacity, key, others);
    var start := BodyAt(entries, key);
    SameOffers(start, answers, others);
    SameOffers(start, others, answers);
    var one := BodyAt(FoldAnswers(entries, capacity, key, answers), key);
    var two := BodyAt(FoldAnswers(entries, capacity, key, others), key);
    if one.Some? && two.Some? { RecencyTotal(one.value, two.value); }
  }

  lemma SameOffers(start: Option<Body>, answers: seq<Answer>, others: seq<Answer>)
    requires forall a :: a in answers ==> a in others
    ensures forall b :: Offered(start, answers, b) ==> Offered(start, others, b)
  {
    forall b | Offered(start, answers, b) ensures Offered(start, others, b) {
      if start != Some(b) {
        var a :| a in answers && a.Found? && a.packet.body == b;
        assert a in others;
      }
    }
  }
}

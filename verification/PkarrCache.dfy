/** The client's cache of packets: an insertion-ordered map kept in order of
    use, against a specification that only looks at the history of calls. */
module PkarrCache {
  import opened Bytes
  import opened PkarrPackets

  type Key = Bytes

  datatype Entry = Entry(key: Key, packet: Packet)

  // --------------------------------------------------------------- the object

  function Lookup(entries: seq<Entry>, key: Key): Option<Packet> {
    if entries == [] then None
    else if entries[0].key == key then Some(entries[0].packet) else Lookup(entries[1..], key)
  }

  function Delete(entries: seq<Entry>, key: Key): seq<Entry> {
    if entries == [] then []
    else if entries[0].key == key then Delete(entries[1..], key)
    else [entries[0]] + Delete(entries[1..], key)
  }

  /** The last `n` elements. */
  function Last<T>(s: seq<T>, n: nat): seq<T> {
    if |s| <= n then s else s[|s| - n..]
  }

  function PutEntry(entries: seq<Entry>, capacity: nat, key: Key, packet: Packet): seq<Entry> {
    Last(Delete(entries, key) + [Entry(key, packet)], capacity)
  }

  function GetEntry(entries: seq<Entry>, key: Key): seq<Entry> {
    var found := Lookup(entries, key);
    if found.None? then entries else Delete(entries, key) + [Entry(key, found.value)]
  }

  class InMemoryCache {
    const capacity: nat
    var entries: seq<Entry>

    constructor (size: nat)
      requires size >= 1
      ensures capacity == size && entries == []
    {
      capacity := size;
      entries := [];
    }

    method Put(key: Key, packet: Packet)
      requires |entries| <= capacity
      modifies `entries
      ensures entries == PutEntry(old(entries), capacity, key, packet)
      ensures |entries| <= capacity
    {
      var existing := Lookup(entries, key);
      if existing.Some? && existing.value.body == packet.body {
        DeleteShrinks(entries, key);
        entries := Delete(entries, key) + [Entry(key, existing.value.(lastSeen := packet.lastSeen))];
        return;
      }
      entries := Delete(entries, key) + [Entry(key, packet)];
      EvictOverflow();
    }

    method EvictOverflow()
      modifies `entries
      ensures entries == Last(old(entries), capacity)
    {
      while |entries| > capacity
        invariant Last(entries, capacity) == Last(old(entries), capacity)
        decreases |entries|
      {
        entries := entries[1..];
      }
    }

    method Get(key: Key) returns (packet: Option<Packet>)
      modifies `entries
      ensures entries == GetEntry(old(entries), key) && packet == Lookup(old(entries), key)
    {
      packet := Lookup(entries, key);
      if packet.None? {
        return;
      }
      entries := Delete(entries, key) + [Entry(key, packet.value)];
    }

    function GetReadOnly(key: Key): Option<Packet>
      reads this
    {
      Lookup(entries, key)
    }
  }

  lemma {:induction false} DeleteShrinks(entries: seq<Entry>, key: Key)
    ensures |Delete(entries, key)| <= |entries|
    ensures Lookup(entries, key).Some? ==> |Delete(entries, key)| < |entries|
    decreases |entries|
  {
    if entries != [] { DeleteShrinks(entries[1..], key); }
  }

  // ---------------------------------------------------------------- histories

  datatype Op = Put(key: Key, packet: Packet) | Get(key: Key) | GetReadOnly(key: Key)

  /** The object's entries after a history of calls. */
  ghost function State(h: seq<Op>, capacity: nat): seq<Entry> {
    if h == [] then []
    else
      var before := State(h[..|h| - 1], capacity);
      match h[|h| - 1]
      case Put(key, packet) => PutEntry(before, capacity, key, packet)
      case Get(key) => GetEntry(before, key)
      case GetReadOnly(_) => before
  }

  /** The keys used after the last use of `key`. */
  ghost function UsedAfter(uses: seq<Key>, key: Key): set<Key> {
    if uses == [] || uses[|uses| - 1] == key then {}
    else UsedAfter(uses[..|uses| - 1], key) + {uses[|uses| - 1]}
  }

  /** `key` is among the `capacity` most recently used distinct keys. */
  ghost predicate Recent(uses: seq<Key>, key: Key, capacity: nat) {
    key in uses && |UsedAfter(uses, key)| < capacity
  }

  /** A put uses its key; a get uses it when it is still among the recent ones. */
  ghost function Uses(h: seq<Op>, capacity: nat): seq<Key> {
    if h == [] then []
    else
      var before := Uses(h[..|h| - 1], capacity);
      match h[|h| - 1]
      case Put(key, _) => before + [key]
      case Get(key) => if Recent(before, key, capacity) then before + [key] else before
      case GetReadOnly(_) => before
  }

  /** The packet last put under a key. */
  ghost function LastPut(h: seq<Op>, key: Key): Option<Packet> {
    if h == [] then None
    else if h[|h| - 1].Put? && h[|h| - 1].key == key then Some(h[|h| - 1].packet)
    else LastPut(h[..|h| - 1], key)
  }

  // ------------------------------------------------- the keys in order of use

  ghost function Without(keys: seq<Key>, key: Key): seq<Key> {
    if keys == [] then []
    else if keys[0] == key then Without(keys[1..], key) else [keys[0]] + Without(keys[1..], key)
  }

  ghost predicate Distinct(keys: seq<Key>) {
    keys == [] || (keys[0] !in keys[1..] && Distinct(keys[1..]))
  }

  /** All keys used, each at its last use. */
  ghost function Order(uses: seq<Key>): seq<Key> {
    if uses == [] then [] else Without(Order(uses[..|uses| - 1]), uses[|uses| - 1]) + [uses[|uses| - 1]]
  }

  lemma {:induction false} WithoutIn(keys: seq<Key>, key: Key)
    ensures forall k :: k in Without(keys, key) <==> k in keys && k != key
    ensures key !in keys ==> Without(keys, key) == keys
    decreases |keys|
  {
    if keys != [] {
      WithoutIn(keys[1..], key);
      assert keys == [keys[0]] + keys[1..];
    }
  }

  lemma {:induction false} WithoutDistinct(keys: seq<Key>, key: Key)
    requires Distinct(keys)
    ensures Distinct(Without(keys, key)) && (key in keys ==> |Without(keys, key)| == |keys| - 1)
    decreases |keys|
  {
    if keys != [] {
      WithoutDistinct(keys[1..], key);
      WithoutIn(keys[1..], key);
      var rest := Without(keys[1..], key);
      assert ([keys[0]] + rest)[1..] == rest;
    }
  }

  lemma {:induction false} WithoutConcat(a: seq<Key>, b: seq<Key>, key: Key)
    ensures Without(a + b, key) == Without(a, key) + Without(b, key)
    decreases |a|
  {
    if a == [] {
      assert a + b == b;
    } else {
      assert (a + b)[1..] == a[1..] + b;
      WithoutConcat(a[1..], b, key);
    }
  }

  lemma {:induction false} DistinctConcat(a: seq<Key>, b: seq<Key>)
    ensures Distinct(a + b) <==> Distinct(a) && Distinct(b) && forall k :: k in a ==> k !in b
    decreases |a|
  {
    if a == [] {
      assert a + b == b;
    } else {
      assert (a + b)[1..] == a[1..] + b;
      DistinctConcat(a[1..], b);
      assert a == [a[0]] + a[1..];
    }
  }

  lemma {:induction false} OrderDistinct(uses: seq<Key>)
    ensures Distinct(Order(uses)) && forall k :: k in Order(uses) <==> k in uses
    decreases |uses|
  {
    if uses != [] {
      var init, key := uses[..|uses| - 1], uses[|uses| - 1];
      OrderDistinct(init);
      WithoutDistinct(Order(init), key);
      WithoutIn(Order(init), key);
      var only := [key];
      assert only[1..] == [];
      DistinctConcat(Without(Order(init), key), [key]);
      assert uses == init + [key];
    }
  }

  /** What follows `key` in a list. */
  ghost function After(keys: seq<Key>, key: Key): seq<Key> {
    if keys == [] then [] else if keys[0] == key then keys[1..] else After(keys[1..], key)
  }

  lemma {:induction false} AfterAppend(keys: seq<Key>, key: Key, x: Key)
    ensures After(keys + [x], key) ==
            if key in keys then After(keys, key) + [x] else []
    decreases |keys|
  {
    if keys == [] {
      assert keys + [x] == [x];
      var none := [x][1..];
      assert none == [];
    } else {
      assert (keys + [x])[1..] == keys[1..] + [x];
      AfterAppend(keys[1..], key, x);
    }
  }

  lemma {:induction false} AfterWithout(keys: seq<Key>, key: Key, x: Key)
    requires key in keys && x != key
    ensures After(Without(keys, x), key) == Without(After(keys, key), x)
    decreases |keys|
  {
    if keys[0] != key { AfterWithout(keys[1..], key, x); }
    if keys[0] != x {
      assert ([keys[0]] + Without(keys[1..], x))[1..] == Without(keys[1..], x);
    }
  }

  /** The keys after `key` in order of use are those used after it. */
  lemma {:induction false} AfterInOrder(uses: seq<Key>, key: Key)
    requires key in uses
    ensures UsedAfter(uses, key) == (set k | k in After(Order(uses), key))
    decreases |uses|
  {
    hide Order, Distinct;
    var init, last := uses[..|uses| - 1], uses[|uses| - 1];
    assert uses == init + [last];
    OrderStep(uses);
    OrderDistinct(init);
    WithoutIn(Order(init), last);
    AfterAppend(Without(Order(init), last), key, last);
    if last != key {
      AfterInOrder(init, key);
      AfterWithout(Order(init), key, last);
      WithoutIn(After(Order(init), key), last);
    }
  }

  lemma OrderStep(uses: seq<Key>)
    requires uses != []
    ensures Order(uses) == Without(Order(uses[..|uses| - 1]), uses[|uses| - 1]) + [uses[|uses| - 1]]
  {
  }

  lemma {:induction false} AfterDistinct(keys: seq<Key>, key: Key)
    requires Distinct(keys)
    ensures Distinct(After(keys, key)) && (keys != [] ==> |After(keys, key)| < |keys|)
    decreases |keys|
  {
    if keys != [] && keys[0] != key { AfterDistinct(keys[1..], key); }
  }

  lemma {:induction false} InLast(keys: seq<Key>, key: Key, n: nat)
    requires Distinct(keys) && key in keys
    ensures key in Last(keys, n) <==> |After(keys, key)| < n
    decreases |keys|
  {
    AfterDistinct(keys, key);
    if |keys| > n {
      assert Last(keys, n) == Last(keys[1..], n);
      if keys[0] != key {
        InLast(keys[1..], key, n);
      } else {
        forall k | k in Last(keys[1..], n) ensures k in keys[1..] {}
      }
    }
  }

  lemma {:induction false} SizeOf(keys: seq<Key>)
    requires Distinct(keys)
    ensures |set k | k in keys| == |keys|
    decreases |keys|
  {
    if keys != [] {
      SizeOf(keys[1..]);
      assert (set k | k in keys) == (set k | k in keys[1..]) + {keys[0]};
    }
  }

  /** Being recent is being among the last `capacity` keys in order of use. */
  lemma RecentIff(uses: seq<Key>, key: Key, capacity: nat)
    ensures Recent(uses, key, capacity) <==> key in Last(Order(uses), capacity)
  {
    hide Order, UsedAfter, Distinct, After;
    OrderDistinct(uses);
    if key in uses {
      AfterInOrder(uses, key);
      AfterDistinct(Order(uses), key);
      SizeOf(After(Order(uses), key));
      InLast(Order(uses), key, capacity);
    }
  }

  // ------------------------------------------------------- the object follows

  ghost function Keys(entries: seq<Entry>): seq<Key> {
    seq(|entries|, i requires 0 <= i < |entries| => entries[i].key)
  }

  lemma KeysCons(e: Entry, rest: seq<Entry>)
    ensures Keys([e] + rest) == [e.key] + Keys(rest)
  {
  }

  lemma {:induction false} DeleteKeys(entries: seq<Entry>, key: Key)
    ensures Keys(Delete(entries, key)) == Without(Keys(entries), key)
    decreases |entries|
  {
    hide Keys;
    if entries == [] {
      assert Keys(entries) == [] by { NoKeys(); }
    } else {
      DeleteKeys(entries[1..], key);
      assert entries == [entries[0]] + entries[1..];
      KeysCons(entries[0], entries[1..]);
      KeysCons(entries[0], Delete(entries[1..], key));
    }
  }

  lemma NoKeys()
    ensures Keys([]) == []
  {
  }

  lemma {:induction false} DeleteIn(entries: seq<Entry>, key: Key)
    ensures forall e :: e in Delete(entries, key) <==> e in entries && e.key != key
    decreases |entries|
  {
    if entries != [] {
      DeleteIn(entries[1..], key);
      assert entries == [entries[0]] + entries[1..];
    }
  }

  lemma {:induction false} LookupIn(entries: seq<Entry>, key: Key)
    ensures Lookup(entries, key).Some? <==> key in Keys(entries)
    ensures Lookup(entries, key).Some? ==> Entry(key, Lookup(entries, key).value) in entries
    decreases |entries|
  {
    if entries != [] {
      LookupIn(entries[1..], key);
      assert Keys(entries) == [entries[0].key] + Keys(entries[1..]);
    }
  }

  /** Using a key moves it to the end of the last `n`, or pushes the oldest out. */
  lemma LastUse(order: seq<Key>, key: Key, n: nat)
    requires Distinct(order) && n >= 1
    ensures var last := Last(order, n);
            Last(Without(order, key) + [key], n) == Last(Without(last, key) + [key], n)
    ensures key in Last(order, n) ==> |Without(Last(order, n), key) + [key]| == |Last(order, n)|
  {
    hide Without, Distinct;
    var last := Last(order, n);
    var first := order[..|order| - |last|];
    assert order == first + last;
    WithoutConcat(first, last, key);
    DistinctConcat(first, last);
    WithoutDistinct(last, key);
    WithoutIn(last, key);
    hide Last;
    var new_ := Without(last, key) + [key];
    assert Without(order, key) + [key] == Without(first, key) + new_;
    assert |new_| >= |last|;
    if |order| > n {
      LastOfConcat(Without(first, key), new_, n);
    } else {
      assert first == [];
    }
  }

  lemma LastOfConcat(a: seq<Key>, b: seq<Key>, n: nat)
    requires |b| >= n
    ensures Last(a + b, n) == Last(b, n)
  {
  }

  /** The entries are the recent keys in order of use, each with its last packet. */
  ghost predicate Follows(entries: seq<Entry>, h: seq<Op>, capacity: nat) {
    && Keys(entries) == Last(Order(Uses(h, capacity)), capacity)
    && forall e :: e in entries ==> LastPut(h, e.key) == Some(e.packet)
  }

  lemma KeysOf(entries: seq<Entry>, e: Entry, n: nat)
    ensures Keys(entries + [e]) == Keys(entries) + [e.key]
    ensures Keys(Last(entries, n)) == Last(Keys(entries), n)
    ensures forall x :: x in Last(entries, n) ==> x in entries
    ensures e in entries ==> e.key in Keys(entries)
  {
    if e in entries {
      var i :| 0 <= i < |entries| && entries[i] == e;
      assert Keys(entries)[i] == e.key;
    }
  }

  /** The order of use after one more use. */
  lemma OrderUse(uses: seq<Key>, key: Key, n: nat)
    requires n >= 1
    ensures Last(Order(uses + [key]), n) == Last(Without(Last(Order(uses), n), key) + [key], n)
    ensures key in Last(Order(uses), n) ==> |Without(Last(Order(uses), n), key) + [key]| <= n
  {
    hide Order, Without, Distinct;
    assert (uses + [key])[..|uses|] == uses;
    OrderStep(uses + [key]);
    OrderDistinct(uses);
    LastUse(Order(uses), key, n);
  }

  lemma PutFollows(entries: seq<Entry>, h: seq<Op>, capacity: nat, key: Key, packet: Packet)
    requires capacity >= 1 && Follows(entries, h, capacity)
    ensures Follows(PutEntry(entries, capacity, key, packet), h + [Put(key, packet)], capacity)
  {
    hide Order, Without, Recent, Delete, Keys, Last;
    var h' := h + [Put(key, packet)];
    assert h'[..|h|] == h;
    OrderUse(Uses(h, capacity), key, capacity);
    DeleteKeys(entries, key);
    DeleteIn(entries, key);
    var e := Entry(key, packet);
    var long := Delete(entries, key) + [e];
    KeysOf(Delete(entries, key), e, capacity);
    KeysOf(long, e, capacity);
    forall x | x in Last(long, capacity) ensures LastPut(h', x.key) == Some(x.packet) {
      assert x in long;
    }
  }

  lemma GetFollows(entries: seq<Entry>, h: seq<Op>, capacity: nat, key: Key)
    requires capacity >= 1 && Follows(entries, h, capacity)
    ensures Follows(GetEntry(entries, key), h + [Get(key)], capacity)
  {
    hide Order, Without, Recent, Delete, Keys, Last, Lookup;
    var h' := h + [Get(key)];
    assert h'[..|h|] == h;
    var uses := Uses(h, capacity);
    RecentIff(uses, key, capacity);
    LookupIn(entries, key);
    if Lookup(entries, key).Some? {
      OrderUse(uses, key, capacity);
      DeleteKeys(entries, key);
      DeleteIn(entries, key);
      var e := Entry(key, Lookup(entries, key).value);
      KeysOf(Delete(entries, key), e, capacity);
      assert Last(Keys(Delete(entries, key) + [e]), capacity) == Keys(Delete(entries, key) + [e]) by {
        ShortLast(Keys(Delete(entries, key) + [e]), capacity);
      }
    }
  }

  lemma ShortLast(keys: seq<Key>, n: nat)
    requires |keys| <= n
    ensures Last(keys, n) == keys
  {
  }

  lemma {:induction false} StateFollows(h: seq<Op>, capacity: nat)
    requires capacity >= 1
    ensures Follows(State(h, capacity), h, capacity)
    decreases |h|
  {
    if h == [] {
      assert Order([]) == [];
    } else {
      hide Follows, PutEntry, GetEntry;
      var init, op := h[..|h| - 1], h[|h| - 1];
      StateFollows(init, capacity);
      var before := State(init, capacity);
      assert h == init + [op];
      match op
      case Put(key, packet) => PutFollows(before, init, capacity, key, packet);
      case Get(key) => GetFollows(before, init, capacity, key);
      case GetReadOnly(key) => PeekFollows(before, init, capacity, key);
    }
  }

  lemma PeekFollows(entries: seq<Entry>, h: seq<Op>, capacity: nat, key: Key)
    requires Follows(entries, h, capacity)
    ensures Follows(entries, h + [GetReadOnly(key)], capacity)
  {
    hide Order, Keys, Last, Recent;
    assert (h + [GetReadOnly(key)])[..|h|] == h;
  }

  /** After any history, a lookup finds the packet last put under a key exactly
      when the key is among the `capacity` most recently used distinct keys. */
  lemma CacheIsHistory(h: seq<Op>, capacity: nat, key: Key)
    requires capacity >= 1
    ensures Lookup(State(h, capacity), key) ==
            if Recent(Uses(h, capacity), key, capacity) then LastPut(h, key) else None
    ensures |State(h, capacity)| <= capacity
  {
    hide Order, Recent, Lookup, Uses, LastPut, State;
    StateFollows(h, capacity);
    RecentIff(Uses(h, capacity), key, capacity);
    LookupIn(State(h, capacity), key);
  }
}

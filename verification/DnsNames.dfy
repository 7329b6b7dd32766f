/** Name compression (section 4.1.4 of RFC 1035): what the suffix table means
    in a growing buffer, and why the reader undoes the writer. */
module DnsNames {
  import opened Bytes
  import opened DnsMessage

  /** The bytes at `off` denote `labels`; every pointer goes backwards. */
  ghost predicate NameAt(buf: Bytes, off: nat, labels: Labels)
    decreases |labels|, off
  {
    off < |buf| &&
    var b := buf[off];
    if b >= 0xc0 then
      off + 1 < |buf| &&
      var target := Be16(b, buf[off + 1]) % 0x4000;
      target < off && NameAt(buf, target, labels)
    else if b == 0 then labels == []
    else
      && labels != [] && b <= 63 && |labels[0]| == b
      && off + 1 + b <= |buf| && buf[off + 1..off + 1 + b] == labels[0]
      && NameAt(buf, off + 1 + b, labels[1..])
  }

  /** Where the in-place part of a name ends. */
  ghost function NameEnd(buf: Bytes, off: nat): nat
    decreases |buf| - off
  {
    if off >= |buf| then off
    else if buf[off] >= 0xc0 then off + 2
    else if buf[off] == 0 || off + 1 + buf[off] > |buf| then off + 1
    else NameEnd(buf, off + 1 + buf[off])
  }

  lemma {:induction false} NameAtExtends(buf: Bytes, longer: Bytes, off: nat, labels: Labels)
    requires NameAt(buf, off, labels) && buf <= longer
    ensures NameAt(longer, off, labels)
    ensures NameEnd(longer, off) == NameEnd(buf, off)
    decreases |labels|, off
  {
    var b := buf[off];
    if b >= 0xc0 {
      NameAtExtends(buf, longer, Be16(b, buf[off + 1]) % 0x4000, labels);
    } else if b != 0 {
      assert longer[off + 1..off + 1 + b] == buf[off + 1..off + 1 + b];
      NameAtExtends(buf, longer, off + 1 + b, labels[1..]);
    }
  }

  /** An offset denotes at most one name. */
  lemma {:induction false} NameAtUnique(buf: Bytes, off: nat, l1: Labels, l2: Labels)
    requires NameAt(buf, off, l1) && NameAt(buf, off, l2)
    ensures l1 == l2
    decreases |l1|, off
  {
    var b := buf[off];
    if b >= 0xc0 {
      NameAtUnique(buf, Be16(b, buf[off + 1]) % 0x4000, l1, l2);
    } else if b != 0 {
      NameAtUnique(buf, off + 1 + b, l1[1..], l2[1..]);
      assert l1 == [l1[0]] + l1[1..] && l2 == [l2[0]] + l2[1..];
    }
  }

  // ------------------------------------------------------ the suffix table

  /** `u` is the universe of label lists a packet writes; keys must tell its
      members apart. */
  ghost predicate KeyInjective(u: iset<Labels>) {
    forall a, b :: a in u && b in u && Key(a) == Key(b) ==> a == b
  }

  ghost predicate AllSuffixes(labels: Labels, u: iset<Labels>) {
    labels == [] || (labels in u && AllSuffixes(labels[1..], u))
  }

  ghost predicate Denotes(buf: Bytes, off: nat, key: Bytes, labels: Labels) {
    Key(labels) == key && NameAt(buf, off, labels)
  }

  /** Every table entry points at bytes that denote its key. */
  ghost predicate RefsOk(buf: Bytes, refs: Refs, u: iset<Labels>) {
    forall k :: k in refs ==>
                  refs[k] < |buf| && exists labels :: labels in u && Denotes(buf, refs[k], k, labels)
  }

  ghost predicate ValidLabels(labels: Labels) {
    forall l :: l in labels ==> 0 < |l| <= 63
  }

  lemma RefsExtend(buf: Bytes, longer: Bytes, refs: Refs, u: iset<Labels>)
    requires RefsOk(buf, refs, u) && buf <= longer
    ensures RefsOk(longer, refs, u)
  {
    forall k | k in refs
      ensures refs[k] < |longer| && exists labels :: labels in u && Denotes(longer, refs[k], k, labels)
    {
      var labels :| labels in u && Denotes(buf, refs[k], k, labels);
      NameAtExtends(buf, longer, refs[k], labels);
      assert Denotes(longer, refs[k], k, labels);
    }
  }

  lemma RefsBound(buf: Bytes, refs: Refs, k: Bytes, u: iset<Labels>)
    requires RefsOk(buf, refs, u) && k in refs
    ensures refs[k] < |buf|
  {
  }

  lemma KeyShrinks(labels: Labels)
    requires labels != [] && labels[0] != []
    ensures |Key(labels[1..])| < |Key(labels)|
  {
  }

  /** A table entry with a longer key does not influence how a name is written. */
  lemma {:induction false} EncodeFrame(off: nat, refs: Refs, k: Bytes, o: nat, labels: Labels)
    requires ValidLabels(labels) && |k| > |Key(labels)|
    ensures EncodeCompressed(off, refs[k := o], labels) ==
            match EncodeCompressed(off, refs, labels)
            case Err => Err
            case Ok(e) => Ok(Emit(e.bytes, e.refs[k := o]))
    decreases |labels|
  {
    if labels != [] && Key(labels) !in refs {
      var rest := labels[1..];
      KeyShrinks(labels);
      assert refs[k := o][Key(labels) := off] == refs[Key(labels) := off][k := o];
      EncodeFrame(off + 1 + |labels[0]|, refs[Key(labels) := off], k, o, rest);
    }
  }

  /** So the table entries of a name's own longer suffixes may be added last. */
  lemma EncodeStep(off: nat, refs: Refs, labels: Labels)
    requires ValidLabels(labels) && labels != [] && Key(labels) !in refs
    requires EncodeCompressed(off, refs, labels).Ok?
    ensures var rest := EncodeCompressed(off + 1 + |labels[0]|, refs, labels[1..]);
            && rest.Ok?
            && EncodeCompressed(off, refs, labels).value ==
               Emit([|labels[0]|] + labels[0] + rest.value.bytes, rest.value.refs[Key(labels) := off])
  {
    KeyShrinks(labels);
    EncodeFrame(off + 1 + |labels[0]|, refs, Key(labels), off, labels[1..]);
  }

  /** After `pre`, `e` was written: its bytes denote `labels` and its table is
      right about the longer buffer. */
  ghost predicate Written(pre: Bytes, e: Emit, labels: Labels, u: iset<Labels>) {
    var buf := pre + e.bytes;
    NameAt(buf, |pre|, labels) && NameEnd(buf, |pre|) == |buf| && RefsOk(buf, e.refs, u)
  }

  lemma WrittenEmpty(pre: Bytes, refs: Refs, u: iset<Labels>)
    requires RefsOk(pre, refs, u)
    ensures Written(pre, Emit([0], refs), [], u)
  {
    RefsExtend(pre, pre + [0], refs, u);
  }

  lemma PointerBytes(target: nat)
    requires target < 0x4000
    ensures var p := U16(0xc000 + target % 0x4000);
            p[0] >= 0xc0 && Be16(p[0], p[1]) % 0x4000 == target
  {
    hide U16;
    var p := U16(0xc000 + target);
    assert Be16(p[0], p[1]) == 0xc000 + target;
  }

  lemma WrittenPointer(pre: Bytes, refs: Refs, labels: Labels, u: iset<Labels>, p: Bytes)
    requires RefsOk(pre, refs, u) && KeyInjective(u) && labels in u && Key(labels) in refs
    requires |p| == 2 && p[0] >= 0xc0 && Be16(p[0], p[1]) % 0x4000 == refs[Key(labels)]
    ensures Written(pre, Emit(p, refs), labels, u)
  {
    var target := refs[Key(labels)];
    var buf := pre + p;
    var found :| found in u && Denotes(pre, target, Key(labels), found);
    assert found == labels;
    NameAtExtends(pre, buf, target, labels);
    RefsExtend(pre, buf, refs, u);
    assert buf[|pre|] == p[0] && buf[|pre| + 1] == p[1];
  }

  /** A length byte and a label in front of a name make the longer name. */
  lemma LabelAt(buf: Bytes, off: nat, labels: Labels)
    requires labels != [] && 0 < |labels[0]| <= 63
    requires Has(buf, off, [|labels[0]|] + labels[0])
    requires NameAt(buf, off + 1 + |labels[0]|, labels[1..])
    ensures NameAt(buf, off, labels)
    ensures NameEnd(buf, off) == NameEnd(buf, off + 1 + |labels[0]|)
  {
    var head := [|labels[0]|] + labels[0];
    HasIndex(buf, off, head, 0);
    assert buf[off + 1..off + 1 + |labels[0]|] == buf[off..off + |head|][1..];
  }

  lemma RefsAdd(buf: Bytes, refs: Refs, labels: Labels, off: nat, u: iset<Labels>)
    requires RefsOk(buf, refs, u) && labels in u && NameAt(buf, off, labels)
    ensures RefsOk(buf, refs[Key(labels) := off], u)
  {
    assert Denotes(buf, off, Key(labels), labels);
  }

  lemma WrittenLabel(pre: Bytes, labels: Labels, rest: Emit, u: iset<Labels>)
    requires labels in u && labels != [] && 0 < |labels[0]| <= 63
    requires Written(pre + ([|labels[0]|] + labels[0]), rest, labels[1..], u)
    ensures Written(pre, Emit([|labels[0]|] + labels[0] + rest.bytes, rest.refs[Key(labels) := |pre|]),
                    labels, u)
  {
    hide NameAt, NameEnd, RefsOk, Key;
    var head := [|labels[0]|] + labels[0];
    var buf := pre + (head + rest.bytes);
    assert buf == pre + head + rest.bytes;
    assert buf[|pre|..|pre| + |head|] == head;
    LabelAt(buf, |pre|, labels);
    RefsAdd(buf, rest.refs, labels, |pre|, u);
    assert NameEnd(buf, |pre|) == |buf|;
  }

  /** Writing a name after `pre` leaves bytes that denote it, and a table that
      is right about the longer buffer. */
  lemma {:induction false} EncodeCompressedOk(pre: Bytes, refs: Refs, labels: Labels, e: Emit, u: iset<Labels>)
    requires RefsOk(pre, refs, u) && KeyInjective(u)
    requires AllSuffixes(labels, u) && ValidLabels(labels)
    requires EncodeCompressed(|pre|, refs, labels) == Ok(e) && |pre + e.bytes| <= 0x4000
    ensures Written(pre, e, labels, u)
    decreases |labels|
  {
    hide U16, Written, RefsOk, KeyInjective;
    if labels == [] {
      WrittenEmpty(pre, refs, u);
    } else if Key(labels) in refs {
      RefsBound(pre, refs, Key(labels), u);
      PointerBytes(refs[Key(labels)]);
      WrittenPointer(pre, refs, labels, u, e.bytes);
    } else {
      EncodeStep(|pre|, refs, labels);
      var next := pre + ([|labels[0]|] + labels[0]);
      var rest := EncodeCompressed(|next|, refs, labels[1..]).value;
      assert |next + rest.bytes| <= 0x4000;
      RefsExtend(pre, next, refs, u);
      EncodeCompressedOk(next, refs, labels[1..], rest, u);
      WrittenLabel(pre, labels, rest, u);
    }
  }

  /** An uncompressed name denotes its labels wherever it stands. */
  lemma {:induction false} PlainAt(buf: Bytes, off: nat, labels: Labels)
    requires ValidLabels(labels) && EncodePlain(labels).Ok?
    requires Has(buf, off, EncodePlain(labels).value)
    ensures NameAt(buf, off, labels)
    ensures NameEnd(buf, off) == off + |EncodePlain(labels).value|
    decreases |labels|
  {
    hide Has;
    var e := EncodePlain(labels).value;
    if labels == [] {
      HasIndex(buf, off, e, 0);
    } else {
      var head := [|labels[0]|] + labels[0];
      var rest := EncodePlain(labels[1..]).value;
      HasSplit(buf, off, head, rest);
      PlainAt(buf, off + |head|, labels[1..]);
      LabelAt(buf, off, labels);
    }
  }

  // ------------------------------------------------------------ the reader

  /** `s` was visited with more labels to come, or with as many but further on. */
  ghost predicate Passed(buf: Bytes, s: nat, labels: Labels, cursor: nat, past: Labels) {
    NameAt(buf, s, past) && (|past| > |labels| || (|past| == |labels| && s >= cursor))
  }

  ghost predicate SeenOk(buf: Bytes, seen: set<nat>, labels: Labels, cursor: nat) {
    forall s :: s in seen ==> exists past :: Passed(buf, s, labels, cursor, past)
  }

  /** Reading where a name stands gives that name: no visited pointer recurs. */
  lemma {:induction false} ScanNameAt(buf: Bytes, off: nat, labels: Labels, seen: set<nat>, size: nat)
    requires NameAt(buf, off, labels) && SeenOk(buf, seen, labels, off)
    requires size + NameSize(labels) <= 254
    ensures ScanName(buf, off, seen, size) == Ok(Read(labels, NameEnd(buf, off)))
    decreases |labels|, off
  {
    var b := buf[off];
    if b >= 0xc0 {
      var target := Be16(b, buf[off + 1]) % 0x4000;
      if target in seen {
        var past :| Passed(buf, target, labels, off, past);
        NameAtUnique(buf, target, labels, past);
        assert false;
      }
      forall s | s in seen + {target} ensures exists past :: Passed(buf, s, labels, target, past) {
        if s == target {
          assert Passed(buf, s, labels, target, labels);
        } else {
          var past :| Passed(buf, s, labels, off, past);
          assert Passed(buf, s, labels, target, past);
        }
      }
      ScanNameAt(buf, target, labels, seen + {target}, size);
    } else if b != 0 {
      var tail, next := labels[1..], off + 1 + b;
      forall s | s in seen ensures exists past :: Passed(buf, s, tail, next, past) {
        var past :| Passed(buf, s, labels, off, past);
        assert Passed(buf, s, tail, next, past);
      }
      ScanNameAt(buf, next, tail, seen, size + b + 1);
      assert labels == [labels[0]] + labels[1..];
    }
  }

  lemma ReadNameAt(buf: Bytes, off: nat, labels: Labels)
    requires NameAt(buf, off, labels) && NameSize(labels) <= 254
    ensures ReadName(buf, off) == Ok(Read(NameOf(labels), NameEnd(buf, off)))
  {
    ScanNameAt(buf, off, labels, {}, 0);
  }
}

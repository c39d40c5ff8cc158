/**
 * The best-entry pointer of a lookup under overlap. It points into the backing array that was scanned, and the
 * response is read through it without the lock, after other calls may have written to that array.
 */
module CachePointers {
  import opened CacheEntries

  /** The scanned array, the length of the partition in it, and whether the partition still lives there. */
  datatype Backing = Backing(buf: seq<Entry>, len: nat, here: bool)

  /** What calls do to a partition: removal of one index, an append, a stamp through a pointer, a compaction. */
  datatype Write = TakeOut(idx: nat) | PutAtEnd(entry: Entry) | Stamp(slot: nat, at: int) | Compact(at: int, ttl: int)

  ghost predicate Fits(b: Backing)
  {
    b.len <= |b.buf|
  }

  ghost function Contents(b: Backing): seq<Entry>
    requires Fits(b)
  {
    b.buf[..b.len]
  }

  /** An append without room moves the partition to another array; later calls leave this one alone. */
  ghost function AfterWrite(b: Backing, w: Write): (r: Backing)
    requires Fits(b)
    ensures Fits(r) && |r.buf| == |b.buf|
  {
    match w
    case TakeOut(idx) =>
      if !b.here || idx >= b.len then b else Backing(b.buf[idx := b.buf[b.len - 1]], b.len - 1, true)
    case PutAtEnd(entry) =>
      if !b.here then b
      else if b.len == |b.buf| then b.(here := false)
      else Backing(b.buf[b.len := entry], b.len + 1, true)
    case Stamp(slot, at) =>
      if slot < |b.buf| then b.(buf := b.buf[slot := b.buf[slot].(lastAccess := at)]) else b
    case Compact(at, ttl) =>
      UnexpiredSize(Contents(b), at, ttl);
      var kept := Unexpired(Contents(b), at, ttl);
      if b.here then Backing(kept + b.buf[|kept|..], |kept|, true) else b
  }

  ghost function AfterWrites(b: Backing, ws: seq<Write>): (r: Backing)
    requires Fits(b)
    ensures Fits(r) && |r.buf| == |b.buf|
    decreases |ws|
  {
    if |ws| == 0 then b else AfterWrites(AfterWrite(b, ws[0]), ws[1..])
  }

  /** Seen as a sequence, the writes are those of the partition. */
  lemma ContentsAfter(b: Backing, w: Write)
    requires Fits(b) && b.here && AfterWrite(b, w).here
    ensures var s, r := Contents(b), Contents(AfterWrite(b, w));
            match w
            case TakeOut(idx) => r == if idx >= |s| then s else SwapRemove(s, idx)
            case PutAtEnd(entry) => r == s + [entry]
            case Stamp(slot, at) => r == Stamped(s, slot, at)
            case Compact(at, ttl) => r == Unexpired(s, at, ttl)
  {
    var s, r := Contents(b), Contents(AfterWrite(b, w));
    if w.TakeOut? && w.idx < b.len {
      assert r == SwapRemove(s, w.idx);
    }
  }

  // ----- The slot behind the pointer -----

  /** The write puts another entry into slot `k`. */
  ghost predicate Hits(b: Backing, w: Write, k: nat)
    requires Fits(b)
  {
    b.here &&
    match w
    case TakeOut(idx) => idx == k && k + 1 < b.len
    case PutAtEnd(_) => k == b.len < |b.buf|
    case Stamp(_, _) => false
    case Compact(at, ttl) =>
      k < |Unexpired(Contents(b), at, ttl)| && exists i :: 0 <= i <= k && i < b.len && Expired(b.buf[i], at, ttl)
  }

  /** All that a lookup reads; the access time may differ. */
  ghost predicate SameAnswer(a: Entry, e: Entry)
  {
    a.vector == e.vector && a.response == e.response && a.storedAt == e.storedAt
  }

  lemma {:induction false} NoneExpired(s: seq<Entry>, at: int, ttl: int)
    requires forall i :: 0 <= i < |s| ==> !Expired(s[i], at, ttl)
    ensures Unexpired(s, at, ttl) == s
  {
    if |s| > 0 {
      NoneExpired(s[..|s| - 1], at, ttl);
    }
  }

  /** The unexpired entries of a prefix come first. */
  lemma {:induction false} UnexpiredPrefix(s: seq<Entry>, n: nat, at: int, ttl: int)
    requires n <= |s|
    ensures Unexpired(s[..n], at, ttl) <= Unexpired(s, at, ttl)
  {
    if n == |s| {
      assert s[..n] == s;
    } else {
      assert s[..|s| - 1][..n] == s[..n];
      UnexpiredPrefix(s[..|s| - 1], n, at, ttl);
    }
  }

  /** With an expired entry among the first `k + 1`, the kept entry `k` comes from behind. */
  lemma {:induction false} KeptFromBehind(s: seq<Entry>, k: nat, i: nat, at: int, ttl: int) returns (j: nat)
    requires k < |Unexpired(s, at, ttl)| && i <= k && i < |s| && Expired(s[i], at, ttl)
    ensures k < j < |s| && Unexpired(s, at, ttl)[k] == s[j]
  {
    var n := |s| - 1;
    var before := Unexpired(s[..n], at, ttl);
    UnexpiredSize(s[..n], at, ttl);
    if k < |before| {
      assert i < n;
      j := KeptFromBehind(s[..n], k, i, at, ttl);
    } else {
      assert !Expired(s[n], at, ttl) && k == |before|;
      j := n;
      if k == n {
        AllKept(s[..n], i, at, ttl);
        assert false;
      }
    }
  }

  /** Keeping everything means that nothing is expired. */
  lemma {:induction false} AllKept(s: seq<Entry>, i: nat, at: int, ttl: int)
    requires |Unexpired(s, at, ttl)| == |s| && i < |s|
    ensures !Expired(s[i], at, ttl)
  {
    var n := |s| - 1;
    UnexpiredSize(s[..n], at, ttl);
    if i < n {
      AllKept(s[..n], i, at, ttl);
    }
  }

  /** Exactly what a hit puts there: the last entry, the new one, or one from behind. */
  lemma HitSlotGets(b: Backing, w: Write, k: nat)
    requires Fits(b) && k < |b.buf| && Hits(b, w, k)
    ensures var e := AfterWrite(b, w).buf[k];
            match w
            case TakeOut(_) => e == b.buf[b.len - 1]
            case PutAtEnd(entry) => e == entry
            case Stamp(_, _) => true
            case Compact(_, _) => exists j :: k < j < b.len && e == b.buf[j]
  {
    if w.Compact? {
      var i :| 0 <= i <= k && i < b.len && Expired(b.buf[i], w.at, w.ttl);
      var j := KeptFromBehind(Contents(b), k, i, w.at, w.ttl);
      assert AfterWrite(b, w).buf[k] == b.buf[j];
    }
  }

  /** And any other write leaves the answer in the slot. */
  lemma UnhitSlotStays(b: Backing, w: Write, k: nat)
    requires Fits(b) && k < |b.buf| && !Hits(b, w, k)
    ensures SameAnswer(AfterWrite(b, w).buf[k], b.buf[k])
  {
    if w.Compact? && b.here {
      var s := Contents(b);
      UnexpiredSize(s, w.at, w.ttl);
      if k < |Unexpired(s, w.at, w.ttl)| {
        NoneExpired(s[..k + 1], w.at, w.ttl);
        UnexpiredPrefix(s, k + 1, w.at, w.ttl);
        assert Unexpired(s, w.at, w.ttl)[k] == s[..k + 1][k];
      }
    }
  }

  ghost predicate NeverHit(b: Backing, ws: seq<Write>, k: nat)
    requires Fits(b)
    decreases |ws|
  {
    |ws| == 0 || (!Hits(b, ws[0], k) && NeverHit(AfterWrite(b, ws[0]), ws[1..], k))
  }

  /**
   * Whatever calls run between the scan and the read: if no write hits the slot of the best entry, the lookup
   * reads the answer it has scored.
   */
  lemma {:induction false} PointerKeepsAnswer(b: Backing, ws: seq<Write>, k: nat)
    requires Fits(b) && k < |b.buf| && NeverHit(b, ws, k)
    ensures SameAnswer(AfterWrites(b, ws).buf[k], b.buf[k])
    decreases |ws|
  {
    if |ws| > 0 {
      UnhitSlotStays(b, ws[0], k);
      PointerKeepsAnswer(AfterWrite(b, ws[0]), ws[1..], k);
    }
  }

  /** As long as nobody removes or compacts, appends and stamps never hit. */
  lemma {:induction false} WithoutRemovalNeverHit(b: Backing, ws: seq<Write>, k: nat)
    requires Fits(b) && k < b.len && forall i :: 0 <= i < |ws| ==> ws[i].PutAtEnd? || ws[i].Stamp?
    ensures NeverHit(b, ws, k)
    decreases |ws|
  {
    if |ws| > 0 {
      WithoutRemovalNeverHit(AfterWrite(b, ws[0]), ws[1..], k);
    }
  }

  /** Nor does anything once the partition has moved to another array. */
  lemma {:induction false} MovedNeverHit(b: Backing, ws: seq<Write>, k: nat)
    requires Fits(b) && !b.here
    ensures NeverHit(b, ws, k)
    decreases |ws|
  {
    if |ws| > 0 {
      MovedNeverHit(AfterWrite(b, ws[0]), ws[1..], k);
    }
  }

  /** The removals of a lookup's own sweep miss its best entry, which is not expired. */
  lemma OwnSweepMisses(b: Backing, now: int, ttl: int, k: nat, i: nat, later: Backing)
    requires Fits(b) && k < b.len && !Expired(b.buf[k], now, ttl) && i < |ExpiredIndices(Contents(b), now, ttl)|
    requires Fits(later)
    ensures !Hits(later, TakeOut(ExpiredIndices(Contents(b), now, ttl)[i]), k)
  {
    ExpiredIndicesFacts(Contents(b), now, ttl);
  }

  /**
   * It can go wrong: a lookup has scored entry `a`; before it reads, a store at the limit appends `c` and evicts
   * `a` as the least recently used. The slot then holds `c`, and the answer to another prompt comes back.
   */
  lemma AnotherAnswerIsRead(a: Entry, b: Entry, c: Entry, spare: Entry, now: int, ttl: int)
    requires a.lastAccess < b.lastAccess && a.lastAccess < c.lastAccess && a.response != c.response
    ensures Stored([a, b], c, 2, now, ttl) == [c, b]
    ensures var end := AfterWrites(Backing([a, b, spare], 2, true), [PutAtEnd(c), TakeOut(0)]);
            Contents(end) == [c, b] && end.buf[0].response != a.response
  {
    var s := [a, b, c];
    assert Oldest(s) == 0;
    assert [a, b] + [c] == s;
    assert SwapRemove(s, 0) == [c, b];
    var ws := [PutAtEnd(c), TakeOut(0)];
    assert ws[1..] == [TakeOut(0)] && [TakeOut(0)][1..] == [];
    var b1 := AfterWrite(Backing([a, b, spare], 2, true), ws[0]);
    assert b1 == Backing(s, 3, true);
    assert AfterWrite(b1, TakeOut(0)) == Backing([c, b, c], 2, true);
  }
}

/** The entries of one model's partition as a sequence: lookup, lazy expiry, eviction, compaction. */
module CacheEntries {
  import opened Vectors

  datatype Entry = Entry(model: string, key: string, vector: seq<real>, response: string, storedAt: int,
                         lastAccess: int)

  predicate Expired(e: Entry, now: int, ttl: int)
  {
    now - e.storedAt > ttl
  }

  // ----- Swap-removal -----

  /** The last entry takes the place of entry `i`. */
  ghost function SwapRemove<T>(s: seq<T>, i: nat): (r: seq<T>)
    requires i < |s|
    ensures |r| == |s| - 1
  {
    s[i := s[|s| - 1]][..|s| - 1]
  }

  lemma LastSplits<T>(t: seq<T>)
    requires |t| > 0
    ensures multiset(t) == multiset(t[..|t| - 1]) + multiset{t[|t| - 1]}
  {
    assert t == t[..|t| - 1] + [t[|t| - 1]];
  }

  lemma SwapRemoveExact<T>(s: seq<T>, i: nat)
    requires i < |s|
    ensures multiset(SwapRemove(s, i)) + multiset{s[i]} == multiset(s)
    ensures forall j :: 0 <= j < i ==> SwapRemove(s, i)[j] == s[j]
  {
    var n := |s| - 1;
    if i == n {
      assert SwapRemove(s, i) == s[..n];
      LastSplits(s);
    } else {
      assert SwapRemove(s, i) == s[..n][i := s[n]];
      assert multiset(s[..n][i := s[n]]) == multiset(s[..n]) - multiset{s[i]} + multiset{s[n]};
      assert s[..n][i] in s[..n];
      LastSplits(s);
    }
  }

  /** Removal by a list of indices, last index first; an index beyond the end is skipped. */
  ghost function RemoveAll<T>(s: seq<T>, indices: seq<nat>): (r: seq<T>)
    decreases |indices|
  {
    if |indices| == 0 then s
    else
      var idx, before := indices[|indices| - 1], indices[..|indices| - 1];
      RemoveAll(if idx >= |s| then s else SwapRemove(s, idx), before)
  }

  ghost predicate Ascending(indices: seq<nat>)
  {
    forall i, j :: 0 <= i < j < |indices| ==> indices[i] < indices[j]
  }

  /** The entries the indices point at before anything is removed. */
  ghost function PointedAt<T>(s: seq<T>, indices: seq<nat>): (m: multiset<T>)
  {
    if |indices| == 0 then multiset{}
    else
      var idx := indices[|indices| - 1];
      PointedAt(s, indices[..|indices| - 1]) + (if idx < |s| then multiset{s[idx]} else multiset{})
  }

  lemma {:induction false} PointedAtPrefix<T>(s: seq<T>, t: seq<T>, indices: seq<nat>, n: nat)
    requires n <= |s| && n <= |t| && forall j :: 0 <= j < n ==> s[j] == t[j]
    requires forall i :: 0 <= i < |indices| ==> indices[i] < n
    ensures PointedAt(s, indices) == PointedAt(t, indices)
  {
    if |indices| > 0 {
      PointedAtPrefix(s, t, indices[..|indices| - 1], n);
    }
  }

  /**
   * Descending swap-removal takes out exactly the entries that its ascending indices point at in the
   * original sequence, although every removal moves an entry.
   */
  lemma {:induction false} RemoveAllExact<T>(s: seq<T>, indices: seq<nat>)
    requires Ascending(indices)
    ensures multiset(RemoveAll(s, indices)) + PointedAt(s, indices) == multiset(s)
    ensures |RemoveAll(s, indices)| + |PointedAt(s, indices)| == |s|
    decreases |indices|
  {
    if |indices| > 0 {
      var idx, before := indices[|indices| - 1], indices[..|indices| - 1];
      if idx < |s| {
        var t := SwapRemove(s, idx);
        SwapRemoveExact(s, idx);
        RemoveAllExact(t, before);
        PointedAtPrefix(s, t, before, idx);
      } else {
        RemoveAllExact(s, before);
      }
    }
  }

  /** Positions that no index names and that survive keep their entry. */
  lemma {:induction false} RemoveAllKeepsOthers<T>(s: seq<T>, indices: seq<nat>, j: nat)
    requires Ascending(indices) && j !in indices && j < |RemoveAll(s, indices)|
    ensures |RemoveAll(s, indices)| <= |s| && RemoveAll(s, indices)[j] == s[j]
    decreases |indices|
  {
    if |indices| > 0 {
      var idx, before := indices[|indices| - 1], indices[..|indices| - 1];
      assert forall x :: x in before ==> x in indices;
      RemoveAllKeepsOthers(if idx >= |s| then s else SwapRemove(s, idx), before, j);
      assert j != idx;
    }
  }

  // ----- Lazy expiry -----

  /** The indices of the expired entries, in ascending order. */
  ghost function ExpiredIndices(s: seq<Entry>, now: int, ttl: int): (r: seq<nat>)
  {
    var n := |s| - 1;
    if |s| == 0 then []
    else ExpiredIndices(s[..n], now, ttl) + (if Expired(s[n], now, ttl) then [n] else [])
  }

  ghost predicate OnlyExpired(s: seq<Entry>, now: int, ttl: int, r: seq<nat>)
  {
    forall i :: 0 <= i < |r| ==> r[i] < |s| && Expired(s[r[i]], now, ttl)
  }

  ghost predicate AllExpired(s: seq<Entry>, now: int, ttl: int, r: seq<nat>)
  {
    forall j: nat :: j < |s| && Expired(s[j], now, ttl) ==> j in r
  }

  lemma OnlyExpiredNext(s: seq<Entry>, now: int, ttl: int, q: seq<nat>, n: nat)
    requires |s| == n + 1 && OnlyExpired(s[..n], now, ttl, q)
    ensures OnlyExpired(s, now, ttl, q) && forall i :: 0 <= i < |q| ==> q[i] < n
    ensures Expired(s[n], now, ttl) ==> OnlyExpired(s, now, ttl, q + [n])
  {
  }

  lemma AllExpiredNext(s: seq<Entry>, now: int, ttl: int, q: seq<nat>, n: nat)
    requires |s| == n + 1 && AllExpired(s[..n], now, ttl, q)
    ensures AllExpired(s, now, ttl, if Expired(s[n], now, ttl) then q + [n] else q)
  {
    forall j: nat | j < n && Expired(s[j], now, ttl)
      ensures j in q
    {
      assert s[..n][j] == s[j];
    }
  }

  lemma AscendingNext(q: seq<nat>, n: nat)
    requires Ascending(q) && forall i :: 0 <= i < |q| ==> q[i] < n
    ensures Ascending(q + [n])
  {
  }

  lemma {:induction false} ExpiredIndicesFacts(s: seq<Entry>, now: int, ttl: int)
    ensures var r := ExpiredIndices(s, now, ttl);
            Ascending(r) && OnlyExpired(s, now, ttl, r) && AllExpired(s, now, ttl, r)
  {
    if |s| > 0 {
      var n := |s| - 1;
      var q := ExpiredIndices(s[..n], now, ttl);
      ExpiredIndicesFacts(s[..n], now, ttl);
      OnlyExpiredNext(s, now, ttl, q, n);
      AllExpiredNext(s, now, ttl, q, n);
      AscendingNext(q, n);
    }
  }

  ghost function Unexpired(s: seq<Entry>, now: int, ttl: int): (r: seq<Entry>)
  {
    var n := |s| - 1;
    if |s| == 0 then []
    else Unexpired(s[..n], now, ttl) + (if Expired(s[n], now, ttl) then [] else [s[n]])
  }

  /** One entry is either expired or not. */
  lemma LastEntrySplits(s: seq<Entry>, now: int, ttl: int, n: nat, points: multiset<Entry>, rest: multiset<Entry>)
    requires n + 1 == |s|
    requires points == PointedAt(s[..n], ExpiredIndices(s[..n], now, ttl))
    requires rest == multiset(Unexpired(s[..n], now, ttl))
    ensures PointedAt(s, ExpiredIndices(s, now, ttl)) == points
            + (if Expired(s[n], now, ttl) then multiset{s[n]} else multiset{})
    ensures multiset(Unexpired(s, now, ttl)) == rest + (if Expired(s[n], now, ttl) then multiset{} else multiset{s[n]})
  {
    var q := ExpiredIndices(s[..n], now, ttl);
    ExpiredIndicesFacts(s[..n], now, ttl);
    PointedAtPrefix(s, s[..n], q, n);
    if Expired(s[n], now, ttl) {
      assert (q + [n])[..|q|] == q;
    } else {
      assert ExpiredIndices(s, now, ttl) == q;
    }
  }

  ghost predicate Splits(s: seq<Entry>, now: int, ttl: int)
  {
    multiset(Unexpired(s, now, ttl)) + PointedAt(s, ExpiredIndices(s, now, ttl)) == multiset(s)
  }

  lemma SplitsNext(s: seq<Entry>, now: int, ttl: int, n: nat, points: multiset<Entry>, rest: multiset<Entry>)
    requires n + 1 == |s| && rest + points == multiset(s[..n])
    requires points == PointedAt(s[..n], ExpiredIndices(s[..n], now, ttl))
    requires rest == multiset(Unexpired(s[..n], now, ttl))
    ensures Splits(s, now, ttl)
  {
    hide PointedAt;
    hide ExpiredIndices;
    hide Unexpired;
    LastEntrySplits(s, now, ttl, n, points, rest);
    LastSplits(s);
  }

  lemma {:induction false} ExpiredAndUnexpired(s: seq<Entry>, now: int, ttl: int)
    ensures Splits(s, now, ttl)
  {
    if |s| > 0 {
      var n := |s| - 1;
      ExpiredAndUnexpired(s[..n], now, ttl);
      SplitsNext(s, now, ttl, n, PointedAt(s[..n], ExpiredIndices(s[..n], now, ttl)),
                 multiset(Unexpired(s[..n], now, ttl)));
    }
  }

  /** What a lookup leaves before stamping. */
  ghost function Swept(s: seq<Entry>, now: int, ttl: int): (r: seq<Entry>)
  {
    RemoveAll(s, ExpiredIndices(s, now, ttl))
  }

  /** Lazy expiry is exact: what remains is the multiset of the unexpired entries. */
  lemma SweepIsExact(s: seq<Entry>, now: int, ttl: int)
    ensures multiset(Swept(s, now, ttl)) == multiset(Unexpired(s, now, ttl))
    ensures |Swept(s, now, ttl)| == |Unexpired(s, now, ttl)| <= |s|
  {
    var indices := ExpiredIndices(s, now, ttl);
    ExpiredIndicesFacts(s, now, ttl);
    RemoveAllExact(s, indices);
    ExpiredAndUnexpired(s, now, ttl);
    CancelMultiset(multiset(Swept(s, now, ttl)), multiset(Unexpired(s, now, ttl)), PointedAt(s, indices));
    SameMultisetSameSize(Swept(s, now, ttl), Unexpired(s, now, ttl));
    UnexpiredSize(s, now, ttl);
  }

  lemma CancelMultiset<T>(a: multiset<T>, b: multiset<T>, c: multiset<T>)
    requires a + c == b + c
    ensures a == b
  {
    assert (a + c) - c == a && (b + c) - c == b;
  }

  lemma SameMultisetSameSize<T>(a: seq<T>, b: seq<T>)
    requires multiset(a) == multiset(b)
    ensures |a| == |b|
  {
    assert |multiset(a)| == |a|;
  }

  lemma {:induction false} UnexpiredCount(s: seq<Entry>, now: int, ttl: int, e: Entry)
    ensures multiset(Unexpired(s, now, ttl))[e] == if Expired(e, now, ttl) then 0 else multiset(s)[e]
  {
    if |s| > 0 {
      var n := |s| - 1;
      UnexpiredCount(s[..n], now, ttl, e);
      LastSplits(s);
    }
  }

  /** Only expired entries are pointed at. */
  ghost predicate PointsAtExpired(s: seq<Entry>, now: int, ttl: int, indices: seq<nat>)
  {
    forall i :: 0 <= i < |indices| && indices[i] < |s| ==> Expired(s[indices[i]], now, ttl)
  }

  lemma RemovalLosesCounts(s: seq<Entry>, now: int, ttl: int, indices: seq<nat>, e: Entry)
    requires Ascending(indices) && !Expired(e, now, ttl)
    ensures multiset(Unexpired(s, now, ttl))[e] == multiset(RemoveAll(s, indices))[e] + PointedAt(s, indices)[e]
  {
    RemoveAllExact(s, indices);
    UnexpiredCount(s, now, ttl, e);
    assert (multiset(RemoveAll(s, indices)) + PointedAt(s, indices))[e] == multiset(s)[e];
  }

  /**
   * The boundary of that theorem. Removal by indices that were collected from an earlier view, applied to
   * the entries `s` that are there by then, leaves every unexpired entry of `s` in place if and only if
   * every index still within range points at an expired entry of `s`.
   */
  lemma StaleRemovalIsSafeIff(s: seq<Entry>, now: int, ttl: int, indices: seq<nat>)
    requires Ascending(indices)
    ensures multiset(Unexpired(s, now, ttl)) <= multiset(RemoveAll(s, indices))
            <==> PointsAtExpired(s, now, ttl, indices)
  {
    PointedAtMembers(s, indices);
    var left, kept := multiset(Unexpired(s, now, ttl)), multiset(RemoveAll(s, indices));
    if PointsAtExpired(s, now, ttl, indices) {
      forall e
        ensures left[e] <= kept[e]
      {
        if Expired(e, now, ttl) {
          UnexpiredCount(s, now, ttl, e);
        } else {
          RemovalLosesCounts(s, now, ttl, indices, e);
        }
      }
    } else {
      var i :| 0 <= i < |indices| && indices[i] < |s| && !Expired(s[indices[i]], now, ttl);
      var e := s[indices[i]];
      RemovalLosesCounts(s, now, ttl, indices, e);
      assert e in PointedAt(s, indices) && left[e] > kept[e];
    }
  }

  lemma {:induction false} SameStoredSameIndices(s: seq<Entry>, t: seq<Entry>, now: int, ttl: int)
    requires |s| == |t| && forall j :: 0 <= j < |s| ==> s[j].storedAt == t[j].storedAt
    ensures ExpiredIndices(s, now, ttl) == ExpiredIndices(t, now, ttl)
  {
    if |s| > 0 {
      SameStoredSameIndices(s[..|s| - 1], t[..|t| - 1], now, ttl);
    }
  }

  lemma RegroupCancel<T>(a: multiset<T>, b: multiset<T>, c: multiset<T>, head: multiset<T>, tail: multiset<T>)
    requires a + c == head + tail && b + c == head
    ensures a == b + tail
  {
    assert a + c == (b + tail) + c;
    CancelMultiset(a, b + tail, c);
  }

  /**
   * What an overlapping caller may do: as long as the entries a lookup has scanned stay in place between its
   * scan and its removal, that is if others only append and stamp, the removal is exact: it takes the expired
   * ones among the scanned entries and nothing else.
   */
  lemma AppendsAndStampsAreSafe(seen: seq<Entry>, s: seq<Entry>, now: int, ttl: int)
    requires |seen| <= |s| && forall j :: 0 <= j < |seen| ==> s[j].storedAt == seen[j].storedAt
    ensures multiset(RemoveAll(s, ExpiredIndices(seen, now, ttl)))
         == multiset(Unexpired(s[..|seen|], now, ttl)) + multiset(s[|seen|..])
    ensures PointsAtExpired(s, now, ttl, ExpiredIndices(seen, now, ttl))
  {
    hide RemoveAll;
    hide PointedAt;
    hide ExpiredIndices;
    hide Unexpired;
    var head, tail := s[..|seen|], s[|seen|..];
    var indices := ExpiredIndices(head, now, ttl);
    SameStoredSameIndices(seen, head, now, ttl);
    ExpiredIndicesFacts(head, now, ttl);
    RemoveAllExact(s, indices);
    PointedAtPrefix(s, head, indices, |seen|);
    ExpiredAndUnexpired(head, now, ttl);
    assert multiset(s) == multiset(head) + multiset(tail) by { assert s == head + tail; }
    RegroupCancel(multiset(RemoveAll(s, indices)), multiset(Unexpired(head, now, ttl)), PointedAt(s, indices),
                  multiset(head), multiset(tail));
  }

  lemma {:induction false} PointedAtMembers<T>(s: seq<T>, indices: seq<nat>)
    ensures forall e :: e in PointedAt(s, indices) <==>
                          exists i :: 0 <= i < |indices| && indices[i] < |s| && s[indices[i]] == e
  {
    if |indices| > 0 {
      var init, idx := indices[..|indices| - 1], indices[|indices| - 1];
      PointedAtMembers(s, init);
      forall e
        ensures e in PointedAt(s, indices) <==> exists i :: 0 <= i < |indices| && indices[i] < |s| && s[indices[i]] == e
      {
        if e in PointedAt(s, init) {
          var i :| 0 <= i < |init| && init[i] < |s| && s[init[i]] == e;
          assert indices[i] == init[i];
        }
        if i :| 0 <= i < |indices| && indices[i] < |s| && s[indices[i]] == e {
          assert i < |init| ==> init[i] == indices[i];
        }
      }
    }
  }

  lemma RemoveFirst<T>(s: seq<T>)
    requires |s| > 0
    ensures RemoveAll(s, [0]) == SwapRemove(s, 0)
  {
    assert [0][..0] == [];
  }

  /** Two overlapping lookups that both saw entry 0 expired: the second removal takes a live entry. */
  lemma OverlappingLookupsLoseLiveEntry(dead: Entry, live: Entry, other: Entry, now: int, ttl: int)
    requires Expired(dead, now, ttl) && !Expired(live, now, ttl) && !Expired(other, now, ttl)
    ensures ExpiredIndices([dead, live, other], now, ttl) == [0]
    ensures RemoveAll([dead, live, other], [0]) == [other, live]
    ensures RemoveAll([other, live], [0]) == [live]
  {
    var s := [dead, live, other];
    assert s[..2] == [dead, live] && [dead, live][..1] == [dead] && [dead][..0] == [];
    assert ExpiredIndices([dead], now, ttl) == [0];
    assert ExpiredIndices([dead, live], now, ttl) == [0];
    RemoveFirst(s);
    RemoveFirst([other, live]);
  }

  // ----- The best entry -----

  ghost predicate Candidate(sqrt: SqrtFn, s: seq<Entry>, query: seq<real>, threshold: real, now: int, ttl: int, k: int)
    requires IsSqrt(sqrt)
  {
    0 <= k < |s| && !Expired(s[k], now, ttl) && Cosine(sqrt, query, s[k].vector) >= threshold
  }

  /** The last of the highest-scoring unexpired entries that reach the threshold; -1 when there is none. */
  ghost predicate IsBest(sqrt: SqrtFn, s: seq<Entry>, query: seq<real>, threshold: real, now: int, ttl: int, k: int)
    requires IsSqrt(sqrt)
  {
    if k < 0 then forall j :: 0 <= j < |s| ==> !Candidate(sqrt, s, query, threshold, now, ttl, j)
    else
      && Candidate(sqrt, s, query, threshold, now, ttl, k)
      && (forall j :: 0 <= j < |s| && Candidate(sqrt, s, query, threshold, now, ttl, j) ==>
            Cosine(sqrt, query, s[j].vector) <= Cosine(sqrt, query, s[k].vector))
      && (forall j :: k < j < |s| && Candidate(sqrt, s, query, threshold, now, ttl, j) ==>
            Cosine(sqrt, query, s[j].vector) < Cosine(sqrt, query, s[k].vector))
  }

  /** The stamp on the slot `k` of the backing array reaches a live entry only below the survivor count. */
  ghost function Stamped(r: seq<Entry>, k: int, now: int): (t: seq<Entry>)
    ensures |t| == |r|
  {
    if 0 <= k < |r| then r[k := r[k].(lastAccess := now)] else r
  }

  /** A lookup with best entry `k`: sweep, then stamp. */
  ghost function LookedUp(s: seq<Entry>, k: int, now: int, ttl: int): (r: seq<Entry>)
  {
    Stamped(Swept(s, now, ttl), k, now)
  }

  /** The stamp lands on the entry that was scored exactly when its index is below the survivor count. */
  lemma StampReachesBest(s: seq<Entry>, k: nat, now: int, ttl: int)
    requires k < |s| && !Expired(s[k], now, ttl)
    ensures k < |Swept(s, now, ttl)| ==> Swept(s, now, ttl)[k] == s[k]
    ensures multiset(LookedUp(s, k, now, ttl))
         == if k < |Swept(s, now, ttl)|
            then multiset(Unexpired(s, now, ttl)) - multiset{s[k]} + multiset{s[k].(lastAccess := now)}
            else multiset(Unexpired(s, now, ttl))
  {
    var r := Swept(s, now, ttl);
    SweepIsExact(s, now, ttl);
    if k < |r| {
      assert r[k] == s[k] by {
        ExpiredIndicesFacts(s, now, ttl);
        RemoveAllKeepsOthers(s, ExpiredIndices(s, now, ttl), k);
      }
      assert multiset(r[k := r[k].(lastAccess := now)]) == multiset(r) - multiset{r[k]}
        + multiset{r[k].(lastAccess := now)};
    }
  }

  /**
   * And it can miss: with the expired entry in front, the live one moves to slot 0 and the stamp goes to slot
   * 1, past the end.
   */
  lemma StampIsLost(dead: Entry, live: Entry, now: int, ttl: int)
    requires Expired(dead, now, ttl) && !Expired(live, now, ttl)
    ensures LookedUp([dead, live], 1, now, ttl) == [live]
  {
    var s := [dead, live];
    assert s[..1] == [dead] && [dead][..0] == [];
    assert ExpiredIndices([dead], now, ttl) == [0];
    assert ExpiredIndices(s, now, ttl) == [0];
    RemoveFirst(s);
  }

  /** A stored vector that is not zero is found again with score 1, whatever else is in the partition. */
  lemma SameTextHits(sqrt: SqrtFn, s: seq<Entry>, i: nat, threshold: real, now: int, ttl: int, k: int)
    requires IsSqrt(sqrt) && i < |s| && !Expired(s[i], now, ttl) && threshold <= 1.0
    requires Dot(s[i].vector, s[i].vector) > 0.0
    requires IsBest(sqrt, s, s[i].vector, threshold, now, ttl, k)
    ensures k >= 0 && Cosine(sqrt, s[i].vector, s[k].vector) == 1.0
  {
    CosineOfSelf(sqrt, s[i].vector);
    assert Candidate(sqrt, s, s[i].vector, threshold, now, ttl, i);
    CosineInRange(sqrt, s[i].vector, s[k].vector);
  }

  // ----- Storing -----

  ghost predicate IsOldest(s: seq<Entry>, k: nat)
  {
    && k < |s|
    && (forall j :: 0 <= j < |s| ==> s[k].lastAccess <= s[j].lastAccess)
    && (forall j :: 0 <= j < k ==> s[k].lastAccess < s[j].lastAccess)
  }

  /** The first entry with the least access time. */
  ghost function Oldest(s: seq<Entry>): (k: nat)
    requires |s| > 0
    ensures IsOldest(s, k)
  {
    if |s| == 1 then 0
    else
      var k := Oldest(s[..|s| - 1]);
      assert forall j :: 0 <= j < |s| - 1 ==> s[..|s| - 1][j] == s[j];
      if s[|s| - 1].lastAccess < s[k].lastAccess then |s| - 1 else k
  }

  ghost function Evicted(s: seq<Entry>): (r: seq<Entry>)
  {
    if |s| == 0 then s else SwapRemove(s, Oldest(s))
  }

  /** Append, evict one on overflow, compact when far over the limit. */
  ghost function Stored(s: seq<Entry>, e: Entry, maxEntries: nat, now: int, ttl: int): (r: seq<Entry>)
  {
    var s1 := s + [e];
    var s2 := if |s1| > maxEntries then Evicted(s1) else s1;
    if |s2| > maxEntries * 3 / 2 then Unexpired(s2, now, ttl) else s2
  }

  lemma {:induction false} UnexpiredSize(s: seq<Entry>, now: int, ttl: int)
    ensures |Unexpired(s, now, ttl)| <= |s|
    ensures forall e :: e in s && !Expired(e, now, ttl) ==> e in Unexpired(s, now, ttl)
  {
    if |s| > 0 {
      UnexpiredSize(s[..|s| - 1], now, ttl);
    }
  }

  /** A store never grows a partition beyond its previous size or the limit, whichever is larger. */
  lemma StoreNeverGrowsPastLimit(s: seq<Entry>, e: Entry, maxEntries: nat, now: int, ttl: int)
    ensures |Stored(s, e, maxEntries, now, ttl)| <= if |s| > maxEntries then |s| else maxEntries
  {
    var s1 := s + [e];
    UnexpiredSize(if |s1| > maxEntries then Evicted(s1) else s1, now, ttl);
  }

  /**
   * Within the limit a store never compacts. On overflow it removes exactly the first least recently
   * used entry, which with a non-decreasing clock is an old one and never the one just stored.
   */
  lemma StoreEvictsOldest(s: seq<Entry>, e: Entry, maxEntries: nat, now: int, ttl: int)
    requires 0 < maxEntries && |s| <= maxEntries
    requires forall i :: 0 <= i < |s| ==> s[i].lastAccess <= e.lastAccess
    ensures |s| < maxEntries ==> Stored(s, e, maxEntries, now, ttl) == s + [e]
    ensures |s| == maxEntries ==>
              && Oldest(s + [e]) == Oldest(s)
              && multiset(Stored(s, e, maxEntries, now, ttl)) + multiset{s[Oldest(s)]} == multiset(s) + multiset{e}
    ensures e in Stored(s, e, maxEntries, now, ttl)
  {
    var s1 := s + [e];
    if |s| == maxEntries {
      assert s1[..|s|] == s;
      SwapRemoveExact(s1, Oldest(s1));
      assert Stored(s, e, maxEntries, now, ttl) == SwapRemove(s1, Oldest(s));
      assert SwapRemove(s1, Oldest(s))[Oldest(s)] == e;
    }
  }

  /** An entry lives exactly as long as the lifetime, the last moment included. */
  lemma LivesForTtl(e: Entry, now: int, ttl: int)
    ensures Expired(e, now, ttl) <==> now > e.storedAt + ttl
  {
  }

  /**
   * A store compacts exactly when the partition stays larger than 3/2 of the limit after its one eviction; then
   * the expired entries go, and only they.
   */
  lemma StoreCompactsWhenFarOver(s: seq<Entry>, e: Entry, maxEntries: nat, now: int, ttl: int)
    requires 0 < maxEntries <= |s|
    ensures var rest, r := Evicted(s + [e]), Stored(s, e, maxEntries, now, ttl);
            && |rest| == |s|
            && (2 * |s| <= 3 * maxEntries ==> r == rest)
            && (2 * |s| > 3 * maxEntries ==>
                  && (forall x :: x in r ==> x in rest && !Expired(x, now, ttl))
                  && (forall x :: x in rest && !Expired(x, now, ttl) ==> x in r))
  {
    var rest := Evicted(s + [e]);
    UnexpiredSize(rest, now, ttl);
    UnexpiredOnly(rest, now, ttl);
  }

  lemma {:induction false} UnexpiredOnly(s: seq<Entry>, now: int, ttl: int)
    ensures forall x :: x in Unexpired(s, now, ttl) ==> x in s && !Expired(x, now, ttl)
  {
    if |s| > 0 {
      UnexpiredOnly(s[..|s| - 1], now, ttl);
    }
  }
}

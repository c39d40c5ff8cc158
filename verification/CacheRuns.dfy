/** Runs of the cache: capacity, least-recently-used eviction, and hits. */
module CacheRuns {
  import opened Vectors
  import opened CacheEntries

  /**
   * One call that reaches the entries, as the class's methods describe it. The bounds below hold for
   * whatever index a lookup considers best.
   */
  datatype Op = LookupOp(model: string, best: int, now: int) | StoreOp(model: string, entry: Entry, now: int)

  type Cache = map<string, seq<Entry>>

  ghost function Partition(c: Cache, model: string): seq<Entry>
  {
    if model in c then c[model] else []
  }

  ghost function Apply(c: Cache, op: Op, maxEntries: nat, ttl: int): Cache
  {
    match op
    case LookupOp(model, best, now) => c[model := LookedUp(Partition(c, model), best, now, ttl)]
    case StoreOp(model, entry, now) => c[model := Stored(Partition(c, model), entry, maxEntries, now, ttl)]
  }

  ghost function Run(ops: seq<Op>, maxEntries: nat, ttl: int): Cache
  {
    if |ops| == 0 then map[] else Apply(Run(ops[..|ops| - 1], maxEntries, ttl), ops[|ops| - 1], maxEntries, ttl)
  }

  /** From empty, no partition ever exceeds the limit. */
  lemma {:induction false} RunWithinLimit(ops: seq<Op>, maxEntries: nat, ttl: int, model: string)
    ensures |Partition(Run(ops, maxEntries, ttl), model)| <= maxEntries
  {
    if |ops| > 0 {
      var c, op := Run(ops[..|ops| - 1], maxEntries, ttl), ops[|ops| - 1];
      RunWithinLimit(ops[..|ops| - 1], maxEntries, ttl, model);
      match op
      case LookupOp(_, _, now) => SweepIsExact(Partition(c, op.model), now, ttl);
      case StoreOp(_, entry, now) => StoreNeverGrowsPastLimit(Partition(c, op.model), entry, maxEntries, now, ttl);
    }
  }

  /** So a store in such a run never compacts: it appends, and on overflow evicts one. */
  lemma RunNeverCompacts(ops: seq<Op>, maxEntries: nat, ttl: int, model: string, e: Entry, now: int)
    ensures var s := Partition(Run(ops, maxEntries, ttl), model);
            Stored(s, e, maxEntries, now, ttl) == if |s| < maxEntries then s + [e] else Evicted(s + [e])
  {
    RunWithinLimit(ops, maxEntries, ttl, model);
  }

  /** A call on one model leaves every other partition alone. */
  lemma OthersUntouched(c: Cache, op: Op, maxEntries: nat, ttl: int, model: string)
    requires model != op.model
    ensures Partition(Apply(c, op, maxEntries, ttl), model) == Partition(c, model)
  {
  }

  /** The clock of every call, also of the stamps it writes, never runs backwards. */
  ghost predicate Clocked(ops: seq<Op>, now: int)
  {
    |ops| == 0 ||
    (var last := ops[|ops| - 1];
     && last.now <= now && (last.StoreOp? ==> last.entry.lastAccess <= last.now)
     && Clocked(ops[..|ops| - 1], if last.StoreOp? then last.entry.lastAccess else last.now))
  }

  ghost predicate AccessedBy(s: seq<Entry>, now: int)
  {
    forall e :: e in s ==> e.lastAccess <= now
  }

  lemma SweptMembers(s: seq<Entry>, now: int, ttl: int)
    ensures forall e :: e in Swept(s, now, ttl) ==> e in s
  {
    RemoveAllMembers(s, ExpiredIndices(s, now, ttl));
  }

  lemma {:induction false} RemoveAllMembers<T>(s: seq<T>, indices: seq<nat>)
    ensures forall e :: e in RemoveAll(s, indices) ==> e in s
    decreases |indices|
  {
    if |indices| > 0 {
      var idx, before := indices[|indices| - 1], indices[..|indices| - 1];
      RemoveAllMembers(if idx >= |s| then s else SwapRemove(s, idx), before);
    }
  }

  lemma StoredMembers(s: seq<Entry>, e: Entry, maxEntries: nat, now: int, ttl: int)
    ensures forall x :: x in Stored(s, e, maxEntries, now, ttl) ==> x in s || x == e
  {
    var s1 := s + [e];
    var s2 := if |s1| > maxEntries then Evicted(s1) else s1;
    assert forall x :: x in s2 ==> x in s1;
    UnexpiredMembers(s2, now, ttl);
  }

  lemma {:induction false} UnexpiredMembers(s: seq<Entry>, now: int, ttl: int)
    ensures forall e :: e in Unexpired(s, now, ttl) ==> e in s
  {
    if |s| > 0 {
      UnexpiredMembers(s[..|s| - 1], now, ttl);
    }
  }

  lemma {:induction false} RunAccessTimes(ops: seq<Op>, maxEntries: nat, ttl: int, model: string, now: int)
    requires Clocked(ops, now)
    ensures AccessedBy(Partition(Run(ops, maxEntries, ttl), model), now)
  {
    if |ops| > 0 {
      var init, op := ops[..|ops| - 1], ops[|ops| - 1];
      var s := Partition(Run(init, maxEntries, ttl), model);
      RunAccessTimes(init, maxEntries, ttl, model, if op.StoreOp? then op.entry.lastAccess else op.now);
      if op.model == model {
        match op
        case LookupOp(_, best, at) => SweptMembers(s, at, ttl);
        case StoreOp(_, entry, at) => StoredMembers(s, entry, maxEntries, at, ttl);
      }
    }
  }

  /**
   * Along every run with a non-decreasing clock, a store below the limit just appends, and a store at the
   * limit removes exactly the first least recently used entry, never the one it adds.
   */
  lemma RunEvictsOldest(ops: seq<Op>, maxEntries: nat, ttl: int, model: string, e: Entry, now: int, s: seq<Entry>)
    requires 0 < maxEntries && Clocked(ops, e.lastAccess) && s == Partition(Run(ops, maxEntries, ttl), model)
    ensures |s| < maxEntries ==> Stored(s, e, maxEntries, now, ttl) == s + [e]
    ensures |s| == maxEntries ==>
              && Oldest(s + [e]) == Oldest(s)
              && multiset(Stored(s, e, maxEntries, now, ttl)) + multiset{s[Oldest(s)]} == multiset(s) + multiset{e}
    ensures |s| <= maxEntries && e in Stored(s, e, maxEntries, now, ttl)
  {
    RunWithinLimit(ops, maxEntries, ttl, model);
    RunAccessTimes(ops, maxEntries, ttl, model, e.lastAccess);
    assert forall i :: 0 <= i < |s| ==> s[i] in s;
    StoreEvictsOldest(s, e, maxEntries, now, ttl);
  }

  // ----- A stored entry persists -----

  /** The same text and lifetime; the access time may differ. */
  ghost predicate Holds(s: seq<Entry>, e: Entry)
  {
    exists i :: 0 <= i < |s| && s[i].vector == e.vector && s[i].response == e.response && s[i].storedAt == e.storedAt
  }

  /**
   * A call after the store that cannot evict from the partition: a lookup, or a store on another model, no
   * later than `later`.
   */
  ghost predicate Sparing(op: Op, model: string, later: int)
  {
    if op.LookupOp? then op.now <= later else op.model != model
  }

  lemma SweepKeepsLive(s: seq<Entry>, now: int, ttl: int, e: Entry)
    requires e in s && !Expired(e, now, ttl)
    ensures e in Swept(s, now, ttl)
  {
    SweepIsExact(s, now, ttl);
    UnexpiredSize(s, now, ttl);
    assert e in multiset(Unexpired(s, now, ttl));
  }

  lemma LookupKeepsHeld(s: seq<Entry>, best: int, now: int, ttl: int, e: Entry, later: int)
    requires Holds(s, e) && !Expired(e, later, ttl) && now <= later
    ensures Holds(LookedUp(s, best, now, ttl), e)
  {
    var i :| 0 <= i < |s| && s[i].vector == e.vector && s[i].response == e.response && s[i].storedAt == e.storedAt;
    var r, t := Swept(s, now, ttl), LookedUp(s, best, now, ttl);
    SweepKeepsLive(s, now, ttl, s[i]);
    var j :| 0 <= j < |r| && r[j] == s[i];
    assert t[j].vector == e.vector && t[j].response == e.response && t[j].storedAt == e.storedAt;
  }

  lemma {:induction false} HeldPersists(c: Cache, ops: seq<Op>, maxEntries: nat, ttl: int, model: string, e: Entry,
                                        later: int)
    requires Holds(Partition(c, model), e) && !Expired(e, later, ttl)
    requires forall i :: 0 <= i < |ops| ==> Sparing(ops[i], model, later)
    ensures Holds(Partition(ApplyAll(c, ops, maxEntries, ttl), model), e)
  {
    if |ops| > 0 {
      var init, op := ops[..|ops| - 1], ops[|ops| - 1];
      assert Sparing(op, model, later) && forall i :: 0 <= i < |init| ==> init[i] == ops[i];
      HeldPersists(c, init, maxEntries, ttl, model, e, later);
      if op.LookupOp? && op.model == model {
        LookupKeepsHeld(Partition(ApplyAll(c, init, maxEntries, ttl), model), op.best, op.now, ttl, e, later);
      }
    }
  }

  ghost function ApplyAll(c: Cache, ops: seq<Op>, maxEntries: nat, ttl: int): Cache
  {
    if |ops| == 0 then c else Apply(ApplyAll(c, ops[..|ops| - 1], maxEntries, ttl), ops[|ops| - 1], maxEntries, ttl)
  }

  lemma {:induction false} RunThenApply(ops: seq<Op>, more: seq<Op>, maxEntries: nat, ttl: int)
    ensures Run(ops + more, maxEntries, ttl) == ApplyAll(Run(ops, maxEntries, ttl), more, maxEntries, ttl)
  {
    hide Apply;
    if |more| == 0 {
      assert ops + more == ops;
    } else {
      RunThenApply(ops, more[..|more| - 1], maxEntries, ttl);
      assert (ops + more)[..|ops + more| - 1] == ops + more[..|more| - 1];
    }
  }

  lemma HeldTextHits(sqrt: SqrtFn, s: seq<Entry>, e: Entry, threshold: real, now: int, ttl: int, k: int)
    requires IsSqrt(sqrt) && Holds(s, e) && !Expired(e, now, ttl)
    requires threshold <= 1.0 && Dot(e.vector, e.vector) > 0.0 && IsBest(sqrt, s, e.vector, threshold, now, ttl, k)
    ensures 0 <= k < |s| && Cosine(sqrt, e.vector, s[k].vector) == 1.0
  {
    var i :| 0 <= i < |s| && s[i].vector == e.vector && s[i].response == e.response && s[i].storedAt == e.storedAt;
    SameTextHits(sqrt, s, i, threshold, now, ttl, k);
  }

  /**
   * A store at the end of any clocked run is followed, within the entry's lifetime, by a hit of score 1 for
   * the same text, whatever lookups and stores on other models come in between; the threshold is at most 1
   * and the text's vector not zero.
   */
  lemma StoreThenLookupHits(
    sqrt: SqrtFn, ops: seq<Op>, more: seq<Op>, maxEntries: nat, ttl: int, model: string, e: Entry, now: int,
    threshold: real, later: int, k: int, s: seq<Entry>)
    requires IsSqrt(sqrt) && 0 < maxEntries && Clocked(ops, e.lastAccess)
    requires forall i :: 0 <= i < |more| ==> Sparing(more[i], model, later)
    requires s == Partition(Run(ops + [StoreOp(model, e, now)] + more, maxEntries, ttl), model)
    requires threshold <= 1.0 && Dot(e.vector, e.vector) > 0.0 && !Expired(e, later, ttl)
    requires IsBest(sqrt, s, e.vector, threshold, later, ttl, k)
    ensures 0 <= k < |s| && Cosine(sqrt, e.vector, s[k].vector) == 1.0
  {
    var before, stored := Partition(Run(ops, maxEntries, ttl), model), ops + [StoreOp(model, e, now)];
    assert stored[..|ops|] == ops;
    RunEvictsOldest(ops, maxEntries, ttl, model, e, now, before);
    assert Holds(Partition(Run(stored, maxEntries, ttl), model), e);
    RunThenApply(stored, more, maxEntries, ttl);
    HeldPersists(Run(stored, maxEntries, ttl), more, maxEntries, ttl, model, e, later);
    HeldTextHits(sqrt, s, e, threshold, later, ttl, k);
  }
}

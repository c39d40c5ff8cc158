/**
 * The semantic cache. A Go slice is a backing array with a length, so removal moves entries inside the
 * array that a best-entry pointer still points into. Lookup and Store run without interleaving here.
 */
module SemanticCaches {
  import opened GatewayModel
  import opened Vectors
  import opened Texts
  import opened CacheEntries

  datatype Slice = Slice(buf: array<Entry>, len: nat)

  const DEFAULT_MAX_ENTRIES := 10000

  // ----- Loops over one backing array -----

  method RemoveExpiredIn(buf: array<Entry>, len: nat, indices: seq<nat>) returns (left: nat)
    requires len <= buf.Length
    modifies buf
    ensures left <= len && buf[..left] == RemoveAll(old(buf[..len]), indices)
    ensures forall j :: 0 <= j < buf.Length && j !in indices ==> buf[j] == old(buf[j])
  {
    left := len;
    var i := |indices|;
    assert indices[..i] == indices;
    while i > 0
      invariant 0 <= i <= |indices| && left <= len
      invariant RemoveAll(old(buf[..len]), indices) == RemoveAll(buf[..left], indices[..i])
      invariant forall j :: 0 <= j < buf.Length && j !in indices ==> buf[j] == old(buf[j])
    {
      i := i - 1;
      var idx := indices[i];
      assert indices[..i + 1][..i] == indices[..i];
      if idx >= left {
        continue;
      }
      ghost var s := buf[..left];
      var last := left - 1;
      buf[idx] := buf[last];
      assert buf[..last] == SwapRemove(s, idx);
      left := last;
    }
  }

  method EvictOneIn(buf: array<Entry>, len: nat) returns (left: nat)
    requires len <= buf.Length
    modifies buf
    ensures left <= len && buf[..left] == Evicted(old(buf[..len]))
  {
    if len == 0 {
      return 0;
    }
    ghost var s := buf[..len];
    var oldest := 0;
    for i := 1 to len
      invariant oldest < i && IsOldest(s[..i], oldest)
    {
      assert s[..i + 1][..i] == s[..i];
      if buf[i].lastAccess < buf[oldest].lastAccess {
        oldest := i;
      }
    }
    assert s[..len] == s;
    OldestUnique(s, oldest);
    buf[oldest] := buf[len - 1];
    left := len - 1;
    assert buf[..left] == SwapRemove(s, oldest);
  }

  lemma OldestUnique(s: seq<Entry>, k: nat)
    requires |s| > 0 && IsOldest(s, k)
    ensures Oldest(s) == k
  {
  }

  method CompactIn(buf: array<Entry>, len: nat, now: int, ttl: int) returns (keep: nat)
    requires len <= buf.Length
    modifies buf
    ensures keep <= len && buf[..keep] == Unexpired(old(buf[..len]), now, ttl)
  {
    ghost var s := buf[..len];
    keep := 0;
    for i := 0 to len
      invariant keep <= i && buf[..keep] == Unexpired(s[..i], now, ttl)
      invariant forall j :: i <= j < len ==> buf[j] == s[j]
    {
      assert s[..i + 1][..i] == s[..i];
      if now - buf[i].storedAt <= ttl {
        ghost var kept := buf[..keep];
        buf[keep] := buf[i];
        assert buf[..keep + 1] == kept + [s[i]];
        keep := keep + 1;
      }
    }
    assert s[..len] == s;
  }

  /** One pass: the expired indices, and the best of the others. */
  method ScanIn(sqrt: SqrtFn, buf: array<Entry>, len: nat, query: seq<real>, threshold: real, now: int, ttl: int)
    returns (best: int, expired: seq<nat>)
    requires IsSqrt(sqrt) && len <= buf.Length
    ensures best < len && IsBest(sqrt, buf[..len], query, threshold, now, ttl, best)
    ensures expired == ExpiredIndices(buf[..len], now, ttl)
  {
    best, expired := -1, [];
    var bestScore := threshold;
    ghost var s := buf[..len];
    for i := 0 to len
      invariant -1 <= best < i
      invariant bestScore == if best < 0 then threshold else Cosine(sqrt, query, s[best].vector)
      invariant ScanPrefix(sqrt, s, i, query, threshold, now, ttl, best)
      invariant expired == ExpiredIndices(s[..i], now, ttl)
    {
      assert s[..i + 1][..i] == s[..i] && s[..i + 1][i] == s[i];
      ScanNext(sqrt, s, i, query, threshold, now, ttl, best, bestScore);
      if now - buf[i].storedAt > ttl {
        expired := expired + [i];
        continue;
      }
      var score := CosineSimilarity(sqrt, query, buf[i].vector);
      if score >= bestScore {
        bestScore := score;
        best := i;
      }
    }
    assert s[..len] == s;
  }

  /** `best` is the best of the first `n` entries. */
  ghost predicate ScanPrefix(
    sqrt: SqrtFn, s: seq<Entry>, n: nat, query: seq<real>, threshold: real, now: int, ttl: int, best: int)
    requires IsSqrt(sqrt) && n <= |s|
  {
    if best < 0 then forall j :: 0 <= j < n ==> !Candidate(sqrt, s, query, threshold, now, ttl, j)
    else
      && best < n && Candidate(sqrt, s, query, threshold, now, ttl, best)
      && (forall j :: 0 <= j < n && Candidate(sqrt, s, query, threshold, now, ttl, j) ==>
            Cosine(sqrt, query, s[j].vector) <= Cosine(sqrt, query, s[best].vector))
      && (forall j :: best < j < n && Candidate(sqrt, s, query, threshold, now, ttl, j) ==>
            Cosine(sqrt, query, s[j].vector) < Cosine(sqrt, query, s[best].vector))
  }

  /**
   * The part of Lookup that works on the backing array: scan, remove the expired, stamp the slot that the
   * best pointer still names, and read the response through it.
   */
  method LookupIn(
    sqrt: SqrtFn, buf: array<Entry>, len: nat, query: seq<real>, threshold: real, now: int, ttl: int)
    returns (left: nat, response: Option<string>, ghost best: int)
    requires IsSqrt(sqrt) && len <= buf.Length
    modifies buf
    ensures best < len && IsBest(sqrt, old(buf[..len]), query, threshold, now, ttl, best)
    ensures response == if best < 0 then None else Some(old(buf[..len])[best].response)
    ensures left <= len && buf[..left] == LookedUp(old(buf[..len]), best, now, ttl)
  {
    ghost var s := buf[..len];
    var k, expired := ScanIn(sqrt, buf, len, query, threshold, now, ttl);
    best, left := k, len;
    assert k < 0 || k !in expired by { ExpiredIndicesFacts(s, now, ttl); }
    if |expired| > 0 {
      left := RemoveExpiredIn(buf, len, expired);
    }
    ghost var swept := buf[..left];
    assert swept == Swept(s, now, ttl);
    if k < 0 {
      return left, None, best;
    }
    assert buf[k] == s[k];
    buf[k] := buf[k].(lastAccess := now);
    assert buf[..left] == Stamped(swept, k, now);
    response := Some(buf[k].response);
  }

  /** Entry `i` either leaves the best as it is or becomes the best. */
  lemma ScanNext(
    sqrt: SqrtFn, s: seq<Entry>, i: nat, query: seq<real>, threshold: real, now: int, ttl: int, best: int,
    bestScore: real)
    requires IsSqrt(sqrt) && i < |s| && ScanPrefix(sqrt, s, i, query, threshold, now, ttl, best)
    requires bestScore == if best < 0 then threshold else Cosine(sqrt, query, s[best].vector)
    ensures if Expired(s[i], now, ttl) || Cosine(sqrt, query, s[i].vector) < bestScore
            then ScanPrefix(sqrt, s, i + 1, query, threshold, now, ttl, best)
            else ScanPrefix(sqrt, s, i + 1, query, threshold, now, ttl, i)
  {
    var c := Candidate(sqrt, s, query, threshold, now, ttl, i);
    assert best >= 0 ==> bestScore >= threshold;
  }

  // ----- The cache -----

  class SemanticCache {
    const maxEntries: nat
    const threshold: real
    const ttl: int
    const maxPromptLength: int
    const enabled: bool
    const embedder: Option<Embedder>
    const sqrt: SqrtFn
    const hash: string -> string
    const encode: Response -> Option<string>
    const decode: string -> Option<Response>
    var entries: map<string, Slice>

    ghost function Bufs(): set<array<Entry>>
      reads this
    {
      set m | m in entries :: entries[m].buf
    }

    /** Every model's slice fits its own backing array, and no two models share one. */
    ghost predicate Valid()
      reads this
    {
      && maxEntries > 0 && IsSqrt(sqrt)
      && (forall m :: m in entries ==> entries[m].len <= entries[m].buf.Length)
      && (forall m, l :: m in entries && l in entries && m != l ==> entries[m].buf != entries[l].buf)
    }

    ghost function Contents(model: string): seq<Entry>
      requires Valid()
      reads this, Bufs()
    {
      if model in entries then entries[model].buf[..entries[model].len] else []
    }

    constructor (maxEntries: int, threshold: real, ttl: int, maxPromptLength: int, enabled: bool,
                 embedder: Option<Embedder>, sqrt: SqrtFn, hash: string -> string,
                 encode: Response -> Option<string>, decode: string -> Option<Response>)
      requires IsSqrt(sqrt)
      ensures Valid() && entries == map[]
      ensures this.maxEntries == if maxEntries <= 0 then 10000 else maxEntries
      ensures this.threshold == threshold && this.ttl == ttl && this.maxPromptLength == maxPromptLength
      ensures this.enabled == enabled && this.embedder == embedder && this.sqrt == sqrt
      ensures this.hash == hash && this.encode == encode && this.decode == decode
    {
      this.maxEntries := if maxEntries <= 0 then DEFAULT_MAX_ENTRIES else maxEntries;
      this.threshold, this.ttl, this.maxPromptLength, this.enabled := threshold, ttl, maxPromptLength, enabled;
      this.embedder, this.sqrt, this.hash, this.encode, this.decode := embedder, sqrt, hash, encode, decode;
      entries := map[];
    }

    /** The text's vector, when the cache is on, the text is neither empty nor too long, and it embeds. */
    function QueryVector(text: string): Option<seq<real>>
    {
      if !enabled || embedder.None? || text == "" || (maxPromptLength > 0 && |text| > maxPromptLength) then None
      else
        var vecs := embedder.value([text]);
        if vecs.None? || |vecs.value| == 0 then None else Some(vecs.value[0])
    }

    /**
     * A hit is the decoded response of the best entry, read through the pointer after the sweep. The
     * partition becomes the swept one, with the stamp if it reaches a live entry; the others stay.
     */
    method Lookup(model: string, messages: seq<Message>, now: int) returns (hit: Option<Response>, ghost best: int)
      requires Valid()
      modifies this, Bufs()
      ensures Valid() && fresh(Bufs() - old(Bufs()))
      ensures forall m :: m != model ==> Contents(m) == old(Contents(m))
      ensures QueryVector(LastUserText(messages)).None? ==>
                hit == None && best == -1 && Contents(model) == old(Contents(model))
      ensures QueryVector(LastUserText(messages)).Some? ==>
                && best < |old(Contents(model))|
                && IsBest(sqrt, old(Contents(model)), QueryVector(LastUserText(messages)).value, threshold, now, ttl,
                          best)
                && hit == (if best < 0 then None else decode(old(Contents(model))[best].response))
                && Contents(model) == LookedUp(old(Contents(model)), best, now, ttl)
    {
      hit, best := None, -1;
      var text := CacheText(messages);
      var query := QueryVector(text);
      if query.None? || model !in entries {
        return;
      }
      var buf := entries[model].buf;
      var left, response, k := LookupIn(sqrt, buf, entries[model].len, query.value, threshold, now, ttl);
      entries := entries[model := Slice(buf, left)];
      best := k;
      if response.Some? {
        hit := decode(response.value);
      }
    }

    /** Writes in place while there is room, else moves the entries to a larger array. */
    method Append(model: string, e: Entry)
      requires Valid()
      modifies this, Bufs()
      ensures Valid() && fresh(Bufs() - old(Bufs()))
      ensures Contents(model) == old(Contents(model)) + [e]
      ensures forall m :: m != model ==> Contents(m) == old(Contents(m))
      ensures model in entries
    {
      var len := if model in entries then entries[model].len else 0;
      if model in entries && len < entries[model].buf.Length {
        entries[model].buf[len] := e;
        entries := entries[model := Slice(entries[model].buf, len + 1)];
      } else {
        var grown := new Entry[2 * len + 1](_ => e);
        if model in entries {
          var was := entries[model].buf;
          forall i | 0 <= i < len {
            grown[i] := was[i];
          }
        }
        entries := entries[model := Slice(grown, len + 1)];
      }
    }

    method EvictOne(model: string)
      requires Valid() && model in entries
      modifies this, entries[model].buf
      ensures Valid() && Bufs() == old(Bufs()) && model in entries
      ensures Contents(model) == Evicted(old(Contents(model)))
      ensures forall m :: m != model ==> Contents(m) == old(Contents(m))
    {
      var buf := entries[model].buf;
      var left := EvictOneIn(buf, entries[model].len);
      entries := entries[model := Slice(buf, left)];
      assert forall m :: m in entries <==> m in old(entries);
      assert forall m :: m in entries ==> entries[m].buf == old(entries[m].buf);
    }

    method CompactExpired(model: string, now: int)
      requires Valid() && model in entries
      modifies this, entries[model].buf
      ensures Valid() && Bufs() == old(Bufs()) && model in entries
      ensures Contents(model) == Unexpired(old(Contents(model)), now, ttl)
      ensures forall m :: m != model ==> Contents(m) == old(Contents(m))
    {
      var buf := entries[model].buf;
      var keep := CompactIn(buf, entries[model].len, now, ttl);
      entries := entries[model := Slice(buf, keep)];
      assert forall m :: m in entries <==> m in old(entries);
      assert forall m :: m in entries ==> entries[m].buf == old(entries[m].buf);
    }

    /** Appends, evicts one on overflow, compacts when far over the limit; `now` is the clock of the compaction. */
    method StoreEntry(model: string, e: Entry, now: int)
      requires Valid()
      modifies this, Bufs()
      ensures Valid() && fresh(Bufs() - old(Bufs()))
      ensures Contents(model) == Stored(old(Contents(model)), e, maxEntries, now, ttl)
      ensures forall m :: m != model ==> Contents(m) == old(Contents(m))
    {
      Append(model, e);
      if entries[model].len > maxEntries {
        EvictOne(model);
      }
      if entries[model].len > maxEntries * 3 / 2 {
        CompactExpired(model, now);
      }
    }

    /**
     * `saved` is the entry handed to the persistent store, whose own errors are ignored. Nothing happens for a
     * streaming request, an unusable text, or a response that does not encode.
     */
    method Store(model: string, messages: seq<Message>, stream: bool, response: Response, storedAt: int, accessAt: int,
                 now: int)
      returns (saved: Option<Entry>)
      requires Valid()
      modifies this, Bufs()
      ensures Valid() && fresh(Bufs() - old(Bufs()))
      ensures forall m :: m != model ==> Contents(m) == old(Contents(m))
      ensures saved == if stream then None else EntryFor(model, LastUserText(messages), response, storedAt, accessAt)
      ensures Contents(model) ==
              if saved.None? then old(Contents(model))
              else Stored(old(Contents(model)), saved.value, maxEntries, now, ttl)
    {
      if stream {
        return None;
      }
      var text := CacheText(messages);
      saved := EntryFor(model, text, response, storedAt, accessAt);
      if saved.Some? {
        StoreEntry(model, saved.value, now);
      }
    }

    /** The new entry of a text, when it has a vector and the response encodes. */
    function EntryFor(model: string, text: string, response: Response, storedAt: int, accessAt: int): Option<Entry>
    {
      var query := QueryVector(text);
      if query.None? then None
      else
        var json := encode(response);
        if json.None? then None else Some(Entry(model, hash(text), query.value, json.value, storedAt, accessAt))
    }

    /** Appends one model's entries from the persistent store, restamped; there is no limit here. */
    method LoadModel(model: string, loaded: seq<Entry>, now: int)
      requires Valid()
      modifies this, Bufs()
      ensures Valid() && fresh(Bufs() - old(Bufs()))
      ensures Contents(model) == old(Contents(model)) + Restamped(loaded, now)
      ensures forall m :: m != model ==> Contents(m) == old(Contents(m))
    {
      for i := 0 to |loaded|
        invariant Valid() && fresh(Bufs() - old(Bufs()))
        invariant Contents(model) == old(Contents(model)) + Restamped(loaded[..i], now)
        invariant forall m :: m != model ==> Contents(m) == old(Contents(m))
      {
        RestampedNext(loaded, now, i, old(Contents(model)));
        Append(model, loaded[i].(storedAt := now, lastAccess := now));
      }
      assert loaded[..|loaded|] == loaded;
    }

    /** `load` answers `None` for a model whose entries cannot be read; such a model is skipped. */
    method LoadOne(model: string, load: string -> Option<seq<Entry>>, now: int)
      requires Valid()
      modifies this, Bufs()
      ensures Valid() && fresh(Bufs() - old(Bufs()))
      ensures forall m :: Contents(m) == old(Contents(m)) + LoadedNow(model, load, now, m)
    {
      var loaded := load(model);
      if loaded.Some? {
        LoadModel(model, loaded.value, now);
      }
    }

    /** The clock is read once per model. */
    method LoadFromStore(models: seq<string>, load: string -> Option<seq<Entry>>, clock: nat -> int)
      requires Valid()
      modifies this, Bufs()
      ensures Valid() && fresh(Bufs() - old(Bufs()))
      ensures forall m :: Contents(m) == old(Contents(m)) + LoadedFor(models, load, clock, m)
    {
      for i := 0 to |models|
        invariant Valid() && fresh(Bufs() - old(Bufs()))
        invariant forall m :: Contents(m) == old(Contents(m)) + LoadedFor(models[..i], load, clock, m)
      {
        LoadOne(models[i], load, clock(i));
        forall m
          ensures Contents(m) == old(Contents(m)) + LoadedFor(models[..i + 1], load, clock, m)
        {
          LoadedNext(models, load, clock, m, i, old(Contents(m)));
        }
      }
      assert models[..|models|] == models;
    }
  }

  ghost function Restamped(es: seq<Entry>, now: int): seq<Entry>
  {
    if |es| == 0 then []
    else Restamped(es[..|es| - 1], now) + [es[|es| - 1].(storedAt := now, lastAccess := now)]
  }

  lemma RestampedNext(es: seq<Entry>, now: int, i: nat, was: seq<Entry>)
    requires i < |es|
    ensures was + Restamped(es[..i + 1], now) == was + Restamped(es[..i], now)
            + [es[i].(storedAt := now, lastAccess := now)]
  {
    assert es[..i + 1][..i] == es[..i];
  }

  lemma LoadedNext(models: seq<string>, load: string -> Option<seq<Entry>>, clock: nat -> int, m: string, i: nat,
                   was: seq<Entry>)
    requires i < |models|
    ensures was + LoadedFor(models[..i + 1], load, clock, m)
         == was + LoadedFor(models[..i], load, clock, m) + LoadedNow(models[i], load, clock(i), m)
  {
    assert models[..i + 1][..i] == models[..i];
  }

  /** What loading `models` in order appends to the partition of `m`. */
  ghost function LoadedFor(models: seq<string>, load: string -> Option<seq<Entry>>, clock: nat -> int,
                           m: string): seq<Entry>
  {
    var n := |models| - 1;
    if |models| == 0 then []
    else LoadedFor(models[..n], load, clock, m) + LoadedNow(models[n], load, clock(n), m)
  }

  /** What loading one model appends to the partition of `m`. */
  ghost function LoadedNow(model: string, load: string -> Option<seq<Entry>>, now: int, m: string): seq<Entry>
  {
    if model == m && load(m).Some? then Restamped(load(m).value, now) else []
  }

  // ----- What the class's specification functions say -----

  /**
   * The text itself is embedded, alone and whole: with an embedder that gives every text its own code, the query
   * is the code of exactly this text; disabled, empty or too long, there is none.
   */
  lemma QueryIsCodeOfText(cache: SemanticCache, text: string, code: string -> seq<real>)
    requires cache.embedder.Some? && forall t :: cache.embedder.value([t]) == Some([code(t)])
    ensures cache.QueryVector(text)
         == if cache.enabled && text != "" && (cache.maxPromptLength <= 0 || |text| <= cache.maxPromptLength)
            then Some(code(text)) else None
  {
  }

  /** A stored entry holds the model and the text's hash, its code, the encoded response, and its own two clocks. */
  lemma EntryHoldsRequest(cache: SemanticCache, model: string, text: string, response: Response, json: string,
                          storedAt: int, accessAt: int, code: string -> seq<real>)
    requires cache.embedder.Some? && forall t :: cache.embedder.value([t]) == Some([code(t)])
    requires cache.QueryVector(text).Some? && cache.encode(response) == Some(json)
    ensures var e := cache.EntryFor(model, text, response, storedAt, accessAt);
            && e.Some? && e.value.model == model && e.value.key == cache.hash(text) && e.value.vector == code(text)
            && e.value.response == json && e.value.storedAt == storedAt && e.value.lastAccess == accessAt
  {
  }

  lemma {:induction false} LoadedNothing(models: seq<string>, load: string -> Option<seq<Entry>>, clock: nat -> int,
                                         m: string)
    requires m !in models || load(m).None?
    ensures LoadedFor(models, load, clock, m) == []
  {
    if |models| > 0 {
      LoadedNothing(models[..|models| - 1], load, clock, m);
    }
  }

  /** A model listed once gets exactly its own entries, restamped with the clock read for it; others get nothing. */
  lemma {:induction false} LoadedOnce(models: seq<string>, load: string -> Option<seq<Entry>>, clock: nat -> int,
                                      i: nat)
    requires i < |models| && load(models[i]).Some?
    requires forall j :: 0 <= j < |models| && j != i ==> models[j] != models[i]
    ensures LoadedFor(models, load, clock, models[i]) == Restamped(load(models[i]).value, clock(i))
  {
    var n := |models| - 1;
    if i < n {
      LoadedOnce(models[..n], load, clock, i);
    } else {
      LoadedNothing(models[..n], load, clock, models[i]);
    }
  }

  /** A loaded entry keeps its text, vector and response, and lives from the load. */
  lemma {:induction false} RestampedEntry(es: seq<Entry>, now: int, i: nat)
    requires i < |es|
    ensures |Restamped(es, now)| == |es|
    ensures Restamped(es, now)[i] == Entry(es[i].model, es[i].key, es[i].vector, es[i].response, now, now)
  {
    var n := |es| - 1;
    if n > 0 {
      RestampedEntry(es[..n], now, if i < n then i else 0);
    } else {
      assert Restamped(es[..0], now) == [];
    }
  }
}

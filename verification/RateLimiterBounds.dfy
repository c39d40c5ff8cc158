/**
 * The bound of the rate limiter is exact: some run reaches it. So the bound limit + owed - 1 holds in exactly the
 * cases in which neither a stalled count nor an early expiry of the key can add anything.
 */
module RateLimiterBounds {
  import opened GatewayModel
  import opened RateLimiter

  // ----- Batches -----

  /** The requests from `a` to `b`, all with the value `v`. */
  ghost function Batch<V>(a: nat, b: nat, v: V): (m: map<nat, V>)
    ensures forall id {:trigger id in m} :: id in m <==> a <= id < b
    ensures forall id {:trigger m[id]} :: a <= id < b ==> m[id] == v
  {
    if a < b then Batch(a, b - 1, v)[b - 1 := v] else map[]
  }

  lemma {:induction false} BatchCount<V>(a: nat, b: nat, v: V)
    requires a <= b
    ensures |Batch(a, b, v)| == b - a
  {
    if a < b {
      BatchCount(a, b - 1, v);
    }
  }

  lemma BatchOne<V>(m: map<nat, V>, a: nat, v: V)
    ensures m + Batch(a, a + 1, v) == m[a := v]
    ensures Batch(a, a, v) == map[] && m + Batch(a, a, v) == m
  {
    hide Batch;
  }

  /** The first of a batch changes its value. */
  lemma BatchMoves<V>(m: map<nat, V>, a: nat, b: nat, v: V, w: V)
    requires a < b
    ensures (m + Batch(a, b, v))[a := w] == m[a := w] + Batch(a + 1, b, v)
  {
    hide Batch;
  }

  lemma BatchHead<V>(m: map<nat, V>, a: nat, b: nat, v: V)
    requires a < b
    ensures m[a := v] + Batch(a + 1, b, v) == m + Batch(a, b, v)
  {
    hide Batch;
  }

  /** The first of a batch leaves. */
  lemma BatchShrinks<V>(m: map<nat, V>, a: nat, b: nat, v: V)
    requires a < b && a !in m
    ensures (m + Batch(a, b, v)) - {a} == m + Batch(a + 1, b, v)
  {
    hide Batch;
  }

  lemma BatchesJoin<V>(a: nat, b: nat, c: nat, v: V)
    requires a <= b <= c
    ensures Batch(a, b, v) + Batch(b, c, v) == Batch(a, c, v)
  {
    hide Batch;
  }

  lemma Regroup<V>(m: map<nat, V>, x: map<nat, V>, y: map<nat, V>)
    ensures m + x + y == m + (x + y)
  {
  }

  lemma NothingPlus<V>(x: map<nat, V>)
    ensures map[] + x == x
  {
  }

  // ----- One event -----

  /** A legal run that ends in `s`. */
  ghost predicate Leads(c: Config, es: seq<Event>, s: State)
  {
    Legal(c, es) && After(c.limit, es) == s
  }

  /** How many requests are under way. */
  ghost function Size(s: State): nat
  {
    |s.flight|
  }

  /** Fewer than limit members are young at `t`. */
  ghost predicate HasRoom(c: Config, z: SortedSet, t: nat)
  {
    |Trimmed(z, t)| < c.limit
  }

  ghost predicate Young(c: Config, flight: map<nat, Ticket>, clock: nat)
  {
    forall id :: id in flight && flight[id].phase == Stored ==> clock <= flight[id].at + c.span
  }

  ghost predicate Small(c: Config, s: State)
  {
    Size(s) <= c.owed && Young(c, s.flight, s.clock)
  }

  lemma Go(c: Config, es: seq<Event>, s: State, e: Event, s1: State) returns (r: seq<Event>)
    requires Proper(c) && Leads(c, es, s) && Enabled(s, e) && s1 == Step(c.limit, s, e) && Small(c, s1)
    requires e.Count? ==> e.at - s.flight[e.id].at <= c.stall
    ensures Leads(c, r, s1) && r == es + [e]
  {
    r := es + [e];
    assert r[..|es|] == es;
    assert Owed(s1) <= s1.flight.Keys;
    SubsetSize(Owed(s1), s1.flight.Keys);
  }

  // ----- Many events of one kind -----

  lemma ReadOne(c: Config, es: seq<Event>, s: State, a: nat, at: nat) returns (r: seq<Event>, s1: State)
    requires Proper(c) && Leads(c, es, s) && s.clock <= at && Young(c, s.flight, at)
    requires a !in s.flight && a !in s.admitted && Size(s) < c.owed
    ensures s1 == State(at, s.flight[a := Ticket(at, Started)], s.key, s.admitted) && Leads(c, r, s1)
    ensures Size(s1) == Size(s) + 1
  {
    hide Leads;
    s1 := State(at, s.flight[a := Ticket(at, Started)], s.key, s.admitted);
    r := Go(c, es, s, Read(a, at), s1);
  }

  lemma YoungBatch(c: Config, rest: map<nat, Ticket>, a: nat, b: nat, v: Ticket, clock: nat)
    requires Young(c, rest, clock) && (v.phase == Stored ==> clock <= v.at + c.span)
    ensures Young(c, rest + Batch(a, b, v), clock) && Young(c, rest[a := v], clock)
  {
    hide Batch;
  }

  lemma NobodyIsYoung(c: Config, clock: nat)
    ensures Young(c, map[], clock)
  {
  }

  lemma OneIsYoung(c: Config, id: nat, clock: nat)
    ensures Young(c, map[id := Ticket(clock, Swept)], clock)
  {
  }

  lemma {:induction false} ReadAll(c: Config, es: seq<Event>, s: State, a: nat, b: nat, at: nat)
    returns (r: seq<Event>, s1: State)
    requires Proper(c) && Leads(c, es, s) && a < b && s.clock <= at && Young(c, s.flight, at)
    requires Size(s) + b - a <= c.owed && forall id: nat :: a <= id < b ==> id !in s.flight && id !in s.admitted
    ensures s1 == State(at, s.flight + Batch(a, b, Ticket(at, Started)), s.key, s.admitted) && Leads(c, r, s1)
    ensures Size(s1) == Size(s) + b - a
    decreases b - a
  {
    hide Leads;
    hide Size;
    hide HasRoom;
    hide Young;
    hide Batch;
    var v := Ticket(at, Started);
    ghost var all := s.flight + Batch(a, b, v);
    r, s1 := ReadOne(c, es, s, a, at);
    assert Young(c, s1.flight, at) by { YoungBatch(c, s.flight, a, b, v, at); }
    if a + 1 < b {
      assert s1.flight + Batch(a + 1, b, v) == all by { BatchHead(s.flight, a, b, v); }
      r, s1 := ReadAll(c, r, s1, a + 1, b, at);
    } else {
      assert s1.flight == all by { BatchOne(s.flight, a, v); }
    }
  }

  lemma TrimTwice(k: Store, t: nat)
    ensures AfterTrim(AfterTrim(k, t), t) == AfterTrim(k, t)
    ensures AfterTrim(k, t).members == Trimmed(k.members, t) == Trimmed(Trimmed(k.members, t), t)
    ensures forall c :: HasRoom(c, AfterTrim(k, t).members, t) == HasRoom(c, k.members, t)
  {
    var z := Trimmed(k.members, t);
    assert Trimmed(z, t) == z;
  }

  lemma TouchTwice(k: Store, at: nat)
    ensures AfterTouch(AfterTouch(k, at), at) == AfterTouch(k, at)
  {
  }

  /** One request trims and counts. */
  lemma CheckOne(c: Config, es: seq<Event>, s: State, a: nat, t: nat, at: nat) returns (r: seq<Event>, s1: State)
    requires Proper(c) && Leads(c, es, s) && s.clock <= at && Size(s) <= c.owed && Young(c, s.flight, at)
    requires a in s.flight && s.flight[a] == Ticket(t, Started) && at - t <= c.stall && HasRoom(c, s.key.members, t)
    ensures s1 == State(at, s.flight[a := Ticket(t, Passed)], AfterTrim(s.key, t), s.admitted[a := t])
    ensures Leads(c, r, s1) && Size(s1) == Size(s)
  {
    hide Leads;
    TrimTwice(s.key, t);
    var s0 := State(at, s.flight[a := Ticket(t, Swept)], AfterTrim(s.key, t), s.admitted);
    s1 := State(at, s.flight[a := Ticket(t, Passed)], AfterTrim(s.key, t), s.admitted[a := t]);
    assert s0.flight[a := Ticket(t, Passed)] == s1.flight;
    assert s0.flight.Keys == s.flight.Keys && s1.flight.Keys == s.flight.Keys;
    assert |s0.flight| == |s.flight| && Size(s1) == Size(s);
    var r0 := Go(c, es, s, Sweep(a, at), s0);
    r := Go(c, r0, s0, Count(a, at), s1);
  }

  lemma SameSize<V>(m: map<nat, V>, a: nat, v: V)
    requires a in m
    ensures m[a := v].Keys == m.Keys && |m[a := v]| == |m|
  {
    assert m[a := v].Keys == m.Keys;
    assert |m.Keys| == |m| && |m[a := v].Keys| == |m[a := v]|;
  }

  /** All trim and count; as none of them is added yet, each finds the same set. */
  lemma {:induction false} CheckAll(
    c: Config, es: seq<Event>, s: State, rest: map<nat, Ticket>, a: nat, b: nat, t: nat, at: nat)
    returns (r: seq<Event>, s1: State)
    requires Proper(c) && Leads(c, es, s) && a < b && s.clock <= at && Size(s) <= c.owed && Young(c, rest, at)
    requires s.flight == rest + Batch(a, b, Ticket(t, Started)) && forall id: nat :: a <= id < b ==> id !in rest
    requires at - t <= c.stall && HasRoom(c, s.key.members, t)
    ensures s1 == State(at, rest + Batch(a, b, Ticket(t, Passed)), AfterTrim(s.key, t), s.admitted + Batch(a, b, t))
    ensures Leads(c, r, s1) && Size(s1) == Size(s)
    decreases b - a
  {
    hide Leads;
    hide Size;
    hide HasRoom;
    hide Young;
    hide AfterTrim;
    hide Trimmed;
    hide Batch;
    var v, w := Ticket(t, Started), Ticket(t, Passed);
    ghost var all, admitted := rest + Batch(a, b, w), s.admitted + Batch(a, b, t);
    assert s.flight[a] == v;
    assert Young(c, s.flight, at) by { YoungBatch(c, rest, a, b, v, at); }
    r, s1 := CheckOne(c, es, s, a, t, at);
    assert s1.flight == rest[a := w] + Batch(a + 1, b, v) by { BatchMoves(rest, a, b, v, w); }
    if a + 1 < b {
      TrimTwice(s.key, t);
      assert Young(c, rest[a := w], at) by { YoungBatch(c, rest, a, b, w, at); }
      r, s1 := CheckAll(c, r, s1, rest[a := w], a + 1, b, t, at);
      assert s1.flight == all by { BatchHead(rest, a, b, w); }
      assert s1.admitted == admitted by { BatchHead(s.admitted, a, b, t); }
    } else {
      assert s1.flight == all by { BatchOne(rest[a := w], b, v); BatchOne(rest, a, w); }
      assert s1.admitted == admitted by { BatchOne(s.admitted, a, t); }
    }
  }

  lemma AddOne(c: Config, es: seq<Event>, s: State, a: nat, t: nat, at: nat) returns (r: seq<Event>, s1: State)
    requires Proper(c) && Leads(c, es, s) && s.clock <= at <= t + c.span && Size(s) <= c.owed && Young(c, s.flight, at)
    requires a in s.flight && s.flight[a] == Ticket(t, Passed)
    ensures s1 == State(at, s.flight[a := Ticket(t, Stored)], Store(s.key.members[a := t], s.key.ttl), s.admitted)
    ensures Leads(c, r, s1) && Size(s1) == Size(s)
  {
    hide Leads;
    s1 := State(at, s.flight[a := Ticket(t, Stored)], Store(s.key.members[a := t], s.key.ttl), s.admitted);
    SameSize(s.flight, a, Ticket(t, Stored));
    r := Go(c, es, s, Add(a, at), s1);
  }

  lemma {:induction false} AddAll(
    c: Config, es: seq<Event>, s: State, rest: map<nat, Ticket>, a: nat, b: nat, t: nat, at: nat)
    returns (r: seq<Event>, s1: State)
    requires Proper(c) && Leads(c, es, s) && a < b && s.clock <= at <= t + c.span && Size(s) <= c.owed
    requires Young(c, rest, at)
    requires s.flight == rest + Batch(a, b, Ticket(t, Passed)) && forall id: nat :: a <= id < b ==> id !in rest
    ensures s1 == State(at, rest + Batch(a, b, Ticket(t, Stored)),
                        Store(s.key.members + Batch(a, b, t), s.key.ttl), s.admitted)
    ensures Leads(c, r, s1) && Size(s1) == Size(s)
    decreases b - a
  {
    hide Leads;
    hide Size;
    hide Young;
    hide Batch;
    var v, w := Ticket(t, Passed), Ticket(t, Stored);
    ghost var all, members := rest + Batch(a, b, w), s.key.members + Batch(a, b, t);
    assert s.flight[a] == v;
    assert Young(c, s.flight, at) by { YoungBatch(c, rest, a, b, v, at); }
    r, s1 := AddOne(c, es, s, a, t, at);
    assert s1.flight == rest[a := w] + Batch(a + 1, b, v) by { BatchMoves(rest, a, b, v, w); }
    if a + 1 < b {
      assert Young(c, rest[a := w], at) by { YoungBatch(c, rest, a, b, w, at); }
      r, s1 := AddAll(c, r, s1, rest[a := w], a + 1, b, t, at);
      assert s1.flight == all by { BatchHead(rest, a, b, w); }
      assert s1.key.members == members by { BatchHead(s.key.members, a, b, t); }
    } else {
      assert s1.flight == all by { BatchOne(rest[a := w], b, v); BatchOne(rest, a, w); }
      assert s1.key.members == members by { BatchOne(s.key.members, a, t); }
    }
  }

  lemma TouchOne(c: Config, es: seq<Event>, s: State, a: nat, at: nat) returns (r: seq<Event>, s1: State)
    requires Proper(c) && Leads(c, es, s) && s.clock <= at && Size(s) <= c.owed && Young(c, s.flight, at)
    requires a in s.flight && s.flight[a].phase == Stored
    ensures s1 == State(at, s.flight - {a}, AfterTouch(s.key, at), s.admitted) && Leads(c, r, s1)
    ensures Size(s1) <= Size(s)
  {
    hide Leads;
    s1 := State(at, s.flight - {a}, AfterTouch(s.key, at), s.admitted);
    SubsetSize(s1.flight.Keys, s.flight.Keys);
    assert |s1.flight.Keys| == |s1.flight| && |s.flight.Keys| == |s.flight|;
    r := Go(c, es, s, Touch(a, at), s1);
  }

  lemma {:induction false} TouchAll(
    c: Config, es: seq<Event>, s: State, rest: map<nat, Ticket>, a: nat, b: nat, t: nat, at: nat)
    returns (r: seq<Event>, s1: State)
    requires Proper(c) && Leads(c, es, s) && a < b && s.clock <= at <= t + c.span && Size(s) <= c.owed
    requires Young(c, rest, at)
    requires s.flight == rest + Batch(a, b, Ticket(t, Stored)) && forall id: nat :: a <= id < b ==> id !in rest
    ensures s1 == State(at, rest, AfterTouch(s.key, at), s.admitted) && Leads(c, r, s1) && Size(s1) <= Size(s)
    decreases b - a
  {
    hide Leads;
    hide Size;
    hide HasRoom;
    hide Young;
    hide AfterTouch;
    hide Batch;
    var w := Ticket(t, Stored);
    assert s.flight[a] == w;
    assert Young(c, s.flight, at) by { YoungBatch(c, rest, a, b, w, at); }
    r, s1 := TouchOne(c, es, s, a, at);
    assert s1.flight == rest + Batch(a + 1, b, w) by { BatchShrinks(rest, a, b, w); }
    if a + 1 < b {
      TouchTwice(s.key, at);
      r, s1 := TouchAll(c, r, s1, rest, a + 1, b, t, at);
    } else {
      assert s1.flight == rest by { BatchOne(rest, b, w); }
    }
  }

  // ----- Filling a window -----

  ghost predicate Below(base: map<nat, nat>, n: nat)
  {
    forall id :: id in base ==> id < n
  }

  /** The key after the requests from `a` to `a + n` added themselves at `t`. */
  ghost function KeyOf(a: nat, n: nat, t: nat): Store
  {
    if n == 0 then EMPTY else Store(Batch(a, a + n, t), Some(t + KEY_TTL))
  }

  lemma KeyFacts(a: nat, n: nat, t: nat, now: nat)
    requires now < t + WINDOW
    ensures var k := KeyOf(a, n, t); AfterTrim(k, now) == k && Trimmed(k.members, now) == k.members
  {
    var k := KeyOf(a, n, t);
    assert n > 0 ==> a in k.members;
    hide Batch;
    assert Trimmed(k.members, now) == k.members;
  }

  lemma KeySize(a: nat, n: nat, t: nat)
    ensures |KeyOf(a, n, t).members| == n
  {
    if n > 0 {
      assert |Batch(a, a + n, t)| == n by { BatchCount(a, a + n, t); }
    }
    hide Batch;
  }

  /** Nobody is under way, and beyond the admissions `base` the next `n` requests were admitted and added at `t`. */
  ghost predicate Quiet(s: State, base: map<nat, nat>, n0: nat, n: nat, t: nat)
  {
    && s.clock <= t && s.flight == map[] && s.admitted == base + Batch(n0, n0 + n, t) && Below(base, n0)
    && s.key == KeyOf(n0, n, t)
  }

  /** What the next request finds in a quiet state. */
  lemma QuietFacts(c: Config, s: State, base: map<nat, nat>, n0: nat, n: nat, t: nat, now: nat)
    requires Quiet(s, base, n0, n, t) && now < t + WINDOW
    ensures Size(s) == 0 && AfterTrim(s.key, now) == s.key && (n < c.limit ==> HasRoom(c, s.key.members, now))
    ensures |s.key.members| == n && s.flight == map[] && s.clock <= t
    ensures forall id :: id in s.admitted ==> id < n0 + n
    ensures forall id :: id in s.key.members ==> s.key.members[id] == t
  {
    KeyFacts(n0, n, t, now);
    KeySize(n0, n, t);
    hide KeyOf;
    hide Batch;
    hide AfterTrim;
  }

  lemma BaseGrows(base: map<nat, nat>, a: nat, b: nat, c: nat, t: nat)
    requires a <= b <= c
    ensures base + Batch(a, b, t) + Batch(b, c, t) == base + Batch(a, c, t)
  {
    hide Batch;
    assert Batch(a, b, t) + Batch(b, c, t) == Batch(a, c, t) by { BatchesJoin(a, b, c, t); }
    Regroup(base, Batch(a, b, t), Batch(b, c, t));
  }

  lemma MembersGrow(z: SortedSet, a: nat, b: nat, c: nat, t: nat)
    requires a <= b <= c && z == if a == b then map[] else Batch(a, b, t)
    ensures z + Batch(b, c, t) == Batch(a, c, t)
  {
    hide Batch;
    if a == b {
      NothingPlus(Batch(b, c, t));
    } else {
      BatchesJoin(a, b, c, t);
    }
  }

  lemma TouchSets(z: SortedSet, ttl: Option<nat>, id: nat, t: nat)
    requires id in z
    ensures AfterTouch(Store(z, ttl), t) == Store(z, Some(t + KEY_TTL))
  {
  }

  lemma KeyGrows(a: nat, n: nat, m: nat, t: nat)
    requires m > 0
    ensures var k := KeyOf(a, n, t);
            AfterTouch(Store(k.members + Batch(a + n, a + n + m, t), k.ttl), t) == KeyOf(a, n + m, t)
  {
    hide AfterTouch;
    var k, b := KeyOf(a, n, t), a + n + m;
    var z := k.members + Batch(a + n, b, t);
    assert z == Batch(a, b, t) by { MembersGrow(k.members, a, a + n, b, t); }
    assert AfterTouch(Store(z, k.ttl), t) == Store(z, Some(t + KEY_TTL)) by {
      assert a in Batch(a, b, t);
      TouchSets(z, k.ttl, a, t);
    }
  }

  /** A batch of requests reads, trims and counts at one time. */
  lemma ReadAndCheck(c: Config, es: seq<Event>, s: State, rest: map<nat, Ticket>, a: nat, b: nat, t: nat)
    returns (r: seq<Event>, s1: State)
    requires Proper(c) && Leads(c, es, s) && a < b && s.clock <= t && s.flight == rest && Young(c, rest, t)
    requires Size(s) + b - a <= c.owed && forall id: nat :: a <= id < b ==> id !in rest && id !in s.admitted
    requires HasRoom(c, s.key.members, t)
    ensures s1 == State(t, rest + Batch(a, b, Ticket(t, Passed)), AfterTrim(s.key, t), s.admitted + Batch(a, b, t))
    ensures Leads(c, r, s1) && Size(s1) == Size(s) + b - a
  {
    hide Leads;
    hide Size;
    hide HasRoom;
    hide Batch;
    hide AfterTrim;
    hide Trimmed;
    hide Young;
    r, s1 := ReadAll(c, es, s, a, b, t);
    r, s1 := CheckAll(c, r, s1, rest, a, b, t, t);
  }

  /** They add themselves and set the lifetime. */
  lemma AddAndTouch(c: Config, es: seq<Event>, s: State, rest: map<nat, Ticket>, a: nat, b: nat, t: nat)
    returns (r: seq<Event>, s1: State)
    requires Proper(c) && Leads(c, es, s) && a < b && s.clock <= t && Size(s) <= c.owed && Young(c, rest, t)
    requires s.flight == rest + Batch(a, b, Ticket(t, Passed)) && forall id: nat :: a <= id < b ==> id !in rest
    ensures s1 == State(t, rest, AfterTouch(Store(s.key.members + Batch(a, b, t), s.key.ttl), t), s.admitted)
    ensures Leads(c, r, s1)
  {
    hide Leads;
    hide Size;
    hide Young;
    hide Batch;
    hide AfterTouch;
    r, s1 := AddAll(c, es, s, rest, a, b, t, t);
    r, s1 := TouchAll(c, r, s1, rest, a, b, t, t);
  }

  /** Requests that come at once while there is room: all are admitted, as none is added in between. */
  lemma AllAtOnce(c: Config, es: seq<Event>, s: State, a: nat, b: nat, t: nat) returns (r: seq<Event>, s1: State)
    requires Proper(c) && Leads(c, es, s) && a < b && s.clock <= t && Young(c, s.flight, t) && Size(s) + b - a <= c.owed
    requires AfterTrim(s.key, t) == s.key && HasRoom(c, s.key.members, t)
    requires forall id: nat :: a <= id < b ==> id !in s.flight && id !in s.admitted
    ensures s1 == State(t, s.flight, AfterTouch(Store(s.key.members + Batch(a, b, t), s.key.ttl), t),
                        s.admitted + Batch(a, b, t))
    ensures Leads(c, r, s1) && Size(s1) == Size(s)
  {
    assert forall x: State :: x.flight == s.flight ==> Size(x) == Size(s);
    hide Leads;
    hide Size;
    hide HasRoom;
    hide AfterTrim;
    hide AfterTouch;
    hide Batch;
    hide Young;
    r, s1 := ReadAndCheck(c, es, s, s.flight, a, b, t);
    r, s1 := AddAndTouch(c, r, s1, s.flight, a, b, t);
  }

  lemma QuietGrows(s: State, base: map<nat, nat>, n0: nat, n: nat, m: nat, t: nat, s1: State)
    requires Quiet(s, base, n0, n, t) && m > 0 && s1.clock == t && s1.flight == s.flight
    requires s1.key == AfterTouch(Store(s.key.members + Batch(n0 + n, n0 + n + m, t), s.key.ttl), t)
    requires s1.admitted == s.admitted + Batch(n0 + n, n0 + n + m, t)
    ensures Quiet(s1, base, n0, n + m, t)
  {
    hide AfterTouch;
    hide Batch;
    hide KeyOf;
    assert n0 + n + m == n0 + (n + m);
    BaseGrows(base, n0, n0 + n, n0 + n + m, t);
    KeyGrows(n0, n, m, t);
  }

  /** When `n` are filled, the next `m` come at once. */
  lemma Burst(c: Config, es: seq<Event>, s: State, base: map<nat, nat>, n0: nat, n: nat, m: nat, t: nat)
    returns (r: seq<Event>, s1: State)
    requires Proper(c) && Leads(c, es, s) && Quiet(s, base, n0, n, t) && n < c.limit && 0 < m <= c.owed
    ensures Leads(c, r, s1) && Quiet(s1, base, n0, n + m, t)
  {
    hide Leads;
    hide Size;
    hide HasRoom;
    hide AfterTrim;
    hide AfterTouch;
    hide Quiet;
    QuietFacts(c, s, base, n0, n, t, t);
    NobodyIsYoung(c, t);
    hide Young;
    hide Batch;
    r, s1 := AllAtOnce(c, es, s, n0 + n, n0 + n + m, t);
    QuietGrows(s, base, n0, n, m, t, s1);
  }

  /** One request after the other, as long as there is room. */
  lemma {:induction false} OneByOne(c: Config, es: seq<Event>, s: State, base: map<nat, nat>, n0: nat, n: nat, t: nat)
    returns (r: seq<Event>, s1: State)
    requires Proper(c) && Leads(c, es, s) && Quiet(s, base, n0, 0, t) && n <= c.limit
    ensures Leads(c, r, s1) && Quiet(s1, base, n0, n, t)
  {
    hide Leads;
    hide Size;
    hide HasRoom;
    hide Quiet;
    r, s1 := es, s;
    if n > 0 {
      r, s1 := OneByOne(c, es, s, base, n0, n - 1, t);
      r, s1 := Burst(c, r, s1, base, n0, n - 1, 1, t);
    }
  }

  /** limit - 1 requests one by one, then as many as may be owed at once. */
  lemma FullWindow(c: Config, es: seq<Event>, s: State, base: map<nat, nat>, n0: nat, t: nat)
    returns (r: seq<Event>, s1: State)
    requires Proper(c) && Leads(c, es, s) && Quiet(s, base, n0, 0, t)
    ensures Leads(c, r, s1) && Quiet(s1, base, n0, c.limit + c.owed - 1, t)
  {
    hide Leads;
    hide Quiet;
    r, s1 := OneByOne(c, es, s, base, n0, c.limit - 1, t);
    r, s1 := Burst(c, r, s1, base, n0, c.limit - 1, c.owed, t);
  }

  // ----- Stalled requests -----

  lemma EmptyHasRoom(c: Config, now: nat)
    requires Proper(c)
    ensures AfterTrim(EMPTY, now) == EMPTY && HasRoom(c, map[], now)
  {
    assert Trimmed(map[], now) == map[];
  }

  lemma ExpireOne(c: Config, es: seq<Event>, s: State, at: nat, s1: State) returns (r: seq<Event>)
    requires Proper(c) && Leads(c, es, s) && Size(s) <= c.owed && Young(c, s.flight, at)
    requires Enabled(s, Expire(at)) && s1 == State(at, s.flight, EMPTY, s.admitted)
    ensures Leads(c, r, s1) && Size(s1) == Size(s) && r == es + [Expire(at)]
  {
    hide Leads;
    r := Go(c, es, s, Expire(at), s1);
  }

  lemma ReadAndExpire(
    c: Config, es: seq<Event>, s: State, base: map<nat, nat>, n0: nat, n: nat, t: nat, a: nat, b: nat, u: nat)
    returns (r: seq<Event>, s1: State)
    requires Proper(c) && Leads(c, es, s) && Quiet(s, base, n0, n, t) && n > 0 && t <= u < t + WINDOW
    requires n0 + n == a < b <= a + c.owed
    ensures s1 == State(t + KEY_TTL, map[] + Batch(a, b, Ticket(u, Started)), EMPTY, s.admitted)
    ensures Leads(c, r, s1) && Size(s1) == b - a
  {
    hide Leads;
    hide Size;
    hide HasRoom;
    hide Batch;
    QuietFacts(c, s, base, n0, n, t, u);
    r, s1 := ReadAll(c, es, s, a, b, u);
    var s2 := State(t + KEY_TTL, s1.flight, EMPTY, s1.admitted);
    assert Young(c, s1.flight, t + KEY_TTL) by { YoungBatch(c, map[], a, b, Ticket(u, Started), t + KEY_TTL); }
    r := ExpireOne(c, r, s1, t + KEY_TTL, s2);
    s1 := s2;
  }

  /** Readers at `u`, before the window is over; then the key expires; then they trim and count. */
  lemma StalledPastExpiry(
    c: Config, es: seq<Event>, s: State, base: map<nat, nat>, n0: nat, n: nat, t: nat, u: nat)
    returns (r: seq<Event>, s1: State)
    requires Proper(c) && c.owed == c.flight && Leads(c, es, s) && Quiet(s, base, n0, n, t) && n > 0
    requires t <= u < t + WINDOW && c.stall >= t + KEY_TTL - u
    ensures Leads(c, r, s1) && s1.admitted == s.admitted + Batch(n0 + n, n0 + n + c.flight, u)
  {
    hide Leads;
    hide Size;
    hide HasRoom;
    hide AfterTrim;
    hide Trimmed;
    hide Young;
    hide Batch;
    r, s1 := ReadAndExpire(c, es, s, base, n0, n, t, n0 + n, n0 + n + c.flight, u);
    EmptyHasRoom(c, u);
    assert Young(c, map[], t + KEY_TTL) by { NobodyIsYoung(c, t + KEY_TTL); }
    r, s1 := CheckAll(c, r, s1, map[], n0 + n, n0 + n + c.flight, u, t + KEY_TTL);
  }

  lemma SweepAway(c: Config, es: seq<Event>, s: State, last: nat, at: nat) returns (r: seq<Event>, s1: State)
    requires Proper(c) && Leads(c, es, s) && s.clock == at && Size(s) <= c.owed && Young(c, s.flight, at)
    requires last in s.flight && s.flight[last] == Ticket(at, Started)
    requires forall id :: id in s.key.members ==> s.key.members[id] + WINDOW <= at
    ensures s1 == State(at, s.flight[last := Ticket(at, Swept)], EMPTY, s.admitted) && Leads(c, r, s1)
    ensures Size(s1) == Size(s)
  {
    hide Leads;
    assert Trimmed(s.key.members, at) == map[];
    SameSize(s.flight, last, Ticket(at, Swept));
    s1 := State(at, s.flight[last := Ticket(at, Swept)], EMPTY, s.admitted);
    r := Go(c, es, s, Sweep(last, at), s1);
  }

  lemma BatchEnds<V>(a: nat, b: nat, v: V)
    ensures b !in map[] + Batch(a, b, v)
  {
  }

  lemma TwoKindsAreYoung(c: Config, a: nat, last: nat, v: Ticket, at: nat)
    requires v.phase == Started
    ensures Young(c, (map[] + Batch(a, last, v))[last := Ticket(at, Started)], at)
  {
    NobodyIsYoung(c, at);
    YoungBatch(c, map[], a, last, v, at);
    YoungBatch(c, map[] + Batch(a, last, v), last, last, Ticket(at, Started), at);
  }

  lemma LastIsApart<V>(a: nat, last: nat, v: V, w: V, x: V)
    ensures (map[] + Batch(a, last, v))[last := w][last := x] == map[last := x] + Batch(a, last, v)
  {
    hide Batch;
  }

  lemma ReadAndSweep(
    c: Config, es: seq<Event>, s: State, base: map<nat, nat>, n0: nat, n: nat, t: nat, a: nat, last: nat, u: nat)
    returns (r: seq<Event>, s1: State, rest: map<nat, Ticket>)
    requires Proper(c) && Leads(c, es, s) && Quiet(s, base, n0, n, t) && n > 0 && t <= u < t + WINDOW
    requires n0 + n == a < last < a + c.owed
    ensures rest == map[last := Ticket(t + WINDOW, Swept)]
    ensures s1 == State(t + WINDOW, rest + Batch(a, last, Ticket(u, Started)), EMPTY, s.admitted)
    ensures Leads(c, r, s1) && Size(s1) == last - a + 1
  {
    hide Leads;
    hide Size;
    hide HasRoom;
    hide Quiet;
    hide AfterTrim;
    QuietFacts(c, s, base, n0, n, t, u);
    var at, v := t + WINDOW, Ticket(u, Started);
    hide Batch;
    r, s1 := ReadAll(c, es, s, a, last, u);
    assert Young(c, s1.flight, at) by { YoungBatch(c, map[], a, last, v, at); }
    assert last !in s1.flight by { BatchEnds(a, last, v); }
    hide Young;
    r, s1 := ReadOne(c, r, s1, last, at);
    assert Young(c, s1.flight, at) by { TwoKindsAreYoung(c, a, last, v, at); }
    r, s1 := SweepAway(c, r, s1, last, at);
    rest := map[last := Ticket(at, Swept)];
    assert s1.flight == rest + Batch(a, last, v) by { LastIsApart(a, last, v, Ticket(at, Started), Ticket(at, Swept)); }
  }

  /** Readers at `u`; a last one reads when the window is over and trims it away; then the others trim and count. */
  lemma StalledPastSweep(
    c: Config, es: seq<Event>, s: State, base: map<nat, nat>, n0: nat, n: nat, t: nat, u: nat)
    returns (r: seq<Event>, s1: State)
    requires Proper(c) && c.owed == c.flight > 1 && Leads(c, es, s) && Quiet(s, base, n0, n, t) && n > 0
    requires t <= u < t + WINDOW && c.stall >= t + WINDOW - u
    ensures Leads(c, r, s1) && s1.admitted == s.admitted + Batch(n0 + n, n0 + n + c.flight - 1, u)
  {
    hide Leads;
    hide Size;
    hide HasRoom;
    hide AfterTrim;
    hide Trimmed;
    hide Young;
    hide Batch;
    var a, last := n0 + n, n0 + n + c.flight - 1;
    var rest;
    r, s1, rest := ReadAndSweep(c, es, s, base, n0, n, t, a, last, u);
    EmptyHasRoom(c, u);
    assert Young(c, rest, t + WINDOW) by { OneIsYoung(c, last, t + WINDOW); }
    r, s1 := CheckAll(c, r, s1, rest, a, last, u, t + WINDOW);
  }

  // ----- An early expiry -----

  const CARRIED := WINDOW - 1
  const YOUNG := KEY_TTL - 2

  /** Request 0 sets the lifetime. */
  lemma FirstSets(c: Config) returns (r: seq<Event>, s: State)
    requires Proper(c) && c.limit > 1
    ensures s == State(s.clock, map[], Store(Batch(0, 1, 0), Some(KEY_TTL)), map[] + Batch(0, 1, 0)) && s.clock == 0
    ensures Leads(c, r, s) && Size(s) == 0 && AfterTrim(s.key, CARRIED) == s.key && HasRoom(c, s.key.members, CARRIED)
  {
    hide Leads;
    hide Size;
    hide HasRoom;
    hide AfterTrim;
    hide Batch;
    assert Leads(c, [], START) && Quiet(START, map[], 0, 0, 0) by { StartIsQuiet(c, 0); }
    r, s := Burst(c, [], START, map[], 0, 0, 1, 0);
    QuietFacts(c, s, map[], 0, 1, 0, CARRIED);
  }

  /**
   * Request 1 counts just before 60 s have passed, so that 0 still keeps the key, and is added much later; it
   * stays stored until the key expires. Requests 2 and on come two milliseconds before that: 1 keeps the key for them.
   */
  lemma CarriedTo(c: Config) returns (r: seq<Event>, s1: State)
    requires Proper(c) && c.limit > 1 && c.owed > 1 && c.span > WINDOW
    ensures s1.clock == YOUNG && s1.flight == map[] + Batch(1, 2, Ticket(CARRIED, Stored)) && Size(s1) == 1
    ensures s1.key == Store(Batch(0, 1, 0) + Batch(1, 2, CARRIED), Some(KEY_TTL))
    ensures s1.admitted == map[] + Batch(0, 1, 0) + Batch(1, 2, CARRIED)
    ensures Leads(c, r, s1)
  {
    hide Leads;
    hide Size;
    hide HasRoom;
    hide AfterTrim;
    hide Young;
    r, s1 := FirstSets(c);
    assert 1 !in s1.admitted;
    hide Batch;
    NobodyIsYoung(c, CARRIED);
    NobodyIsYoung(c, YOUNG);
    r, s1 := ReadAndCheck(c, r, s1, map[], 1, 2, CARRIED);
    r, s1 := AddAll(c, r, s1, map[], 1, 2, CARRIED, YOUNG);
  }

  lemma StartIsQuiet(c: Config, t: nat)
    ensures Leads(c, [], START) && Quiet(START, map[], 0, 0, t)
  {
  }

  lemma OnlyCarriedStays(c: Config)
    requires c.limit > 1
    ensures HasRoom(c, Batch(0, 1, 0) + Batch(1, 2, CARRIED), YOUNG)
    ensures AfterTrim(Store(Batch(0, 1, 0) + Batch(1, 2, CARRIED), Some(KEY_TTL)), YOUNG)
         == Store(Batch(1, 2, CARRIED), Some(KEY_TTL))
  {
    assert Trimmed(Batch(0, 1, 0) + Batch(1, 2, CARRIED), YOUNG) == Batch(1, 2, CARRIED) by { hide Batch; }
    BatchCount(1, 2, CARRIED);
    assert 1 in Batch(1, 2, CARRIED);
  }

  ghost function EarlyBase(c: Config): (m: map<nat, nat>)
  {
    map[] + Batch(0, 1, 0) + Batch(1, 2, CARRIED) + Batch(2, c.owed + 1, YOUNG)
  }

  lemma EarlyBaseIs(c: Config)
    ensures map[] + Batch(0, 1, 0) + Batch(1, 2, CARRIED) + Batch(2, c.owed + 1, YOUNG) == EarlyBase(c)
  {
  }

  lemma OnlyOne(rest: map<nat, Ticket>)
    requires rest == map[] + Batch(1, 2, Ticket(CARRIED, Stored))
    ensures forall id: nat :: 2 <= id ==> id !in rest
  {
  }

  lemma BelowTwo(rest: map<nat, Ticket>, m: map<nat, nat>)
    requires rest == map[] + Batch(1, 2, Ticket(CARRIED, Stored))
    requires m == map[] + Batch(0, 1, 0) + Batch(1, 2, CARRIED)
    ensures forall id: nat :: 2 <= id ==> id !in rest && id !in m
  {
  }

  /** The young ones are admitted while request 1 keeps the key. */
  lemma AdmitYoung(c: Config, rest: map<nat, Ticket>) returns (r: seq<Event>, s1: State)
    requires Proper(c) && c.limit > 1 && c.owed > 1 && c.span > WINDOW
    requires rest == map[] + Batch(1, 2, Ticket(CARRIED, Stored))
    ensures s1.clock == YOUNG && s1.flight == rest + Batch(2, c.owed + 1, Ticket(YOUNG, Passed))
    ensures s1.key == Store(Batch(1, 2, CARRIED), Some(KEY_TTL)) && s1.admitted == EarlyBase(c)
    ensures Leads(c, r, s1) && Size(s1) <= c.owed
  {
    hide Leads;
    hide Size;
    hide HasRoom;
    hide AfterTrim;
    hide Young;
    hide EarlyBase;
    hide Batch;
    var s;
    r, s := CarriedTo(c);
    assert Young(c, rest, YOUNG) by { CarriedIsYoung(c); }
    assert forall id: nat :: 2 <= id ==> id !in rest && id !in s.admitted by { BelowTwo(rest, s.admitted); }
    OnlyCarriedStays(c);
    ghost var admitted := s.admitted;
    r, s1 := ReadAndCheck(c, r, s, rest, 2, c.owed + 1, YOUNG);
    assert admitted + Batch(2, c.owed + 1, YOUNG) == EarlyBase(c) by { EarlyBaseIs(c); }
  }

  /** And added. */
  lemma AddYoung(c: Config, rest: map<nat, Ticket>) returns (r: seq<Event>, s1: State)
    requires Proper(c) && c.limit > 1 && c.owed > 1 && c.span > WINDOW
    requires rest == map[] + Batch(1, 2, Ticket(CARRIED, Stored))
    ensures s1.clock == YOUNG && s1.flight == rest + Batch(2, c.owed + 1, Ticket(YOUNG, Stored))
    ensures s1.key == Store(Batch(1, 2, CARRIED) + Batch(2, c.owed + 1, YOUNG), Some(KEY_TTL))
    ensures s1.admitted == EarlyBase(c) && Leads(c, r, s1) && Size(s1) <= c.owed
  {
    hide Leads;
    hide Size;
    hide Young;
    hide EarlyBase;
    hide Batch;
    assert Young(c, rest, YOUNG) by { CarriedIsYoung(c); }
    assert forall id: nat :: 2 <= id ==> id !in rest by { OnlyOne(rest); }
    r, s1 := AdmitYoung(c, rest);
    r, s1 := AddAll(c, r, s1, rest, 2, c.owed + 1, YOUNG, YOUNG);
  }

  /** The key expires under the young ones. */
  lemma ExpiresUnderYoung(c: Config, rest: map<nat, Ticket>) returns (r: seq<Event>, s1: State)
    requires Proper(c) && c.limit > 1 && c.owed > 1 && c.span > WINDOW
    requires rest == map[] + Batch(1, 2, Ticket(CARRIED, Stored))
    ensures s1 == State(KEY_TTL, rest + Batch(2, c.owed + 1, Ticket(YOUNG, Stored)), EMPTY, EarlyBase(c))
    ensures Leads(c, r, s1) && Size(s1) <= c.owed
  {
    hide Leads;
    hide Size;
    hide Young;
    hide EarlyBase;
    var s;
    r, s := AddYoung(c, rest);
    assert Young(c, s.flight, KEY_TTL) by {
      CarriedIsYoung(c);
      YoungBatch(c, rest, 2, c.owed + 1, Ticket(YOUNG, Stored), KEY_TTL);
    }
    hide Batch;
    s1 := State(KEY_TTL, s.flight, EMPTY, s.admitted);
    r := ExpireOne(c, r, s, KEY_TTL, s1);
  }

  /** Then all that are under way finish. */
  lemma EarlyExpiry(c: Config) returns (r: seq<Event>, s1: State)
    requires Proper(c) && c.limit > 1 && c.owed > 1 && c.span > WINDOW
    ensures s1 == State(KEY_TTL, map[], EMPTY, EarlyBase(c)) && Leads(c, r, s1)
  {
    hide Leads;
    hide Size;
    hide Young;
    hide Batch;
    hide EarlyBase;
    var rest := map[] + Batch(1, 2, Ticket(CARRIED, Stored));
    r, s1 := ExpiresUnderYoung(c, rest);
    assert Young(c, rest, KEY_TTL) by { CarriedIsYoung(c); }
    r, s1 := TouchAll(c, r, s1, rest, 2, c.owed + 1, YOUNG, KEY_TTL);
    NobodyIsYoung(c, KEY_TTL);
    r, s1 := TouchAll(c, r, s1, map[], 1, 2, CARRIED, KEY_TTL);
  }

  lemma CarriedIsYoung(c: Config)
    requires c.span > WINDOW
    ensures var rest := map[] + Batch(1, 2, Ticket(CARRIED, Stored)); Young(c, rest, YOUNG) && Young(c, rest, KEY_TTL)
  {
    NobodyIsYoung(c, YOUNG);
    NobodyIsYoung(c, KEY_TTL);
    YoungBatch(c, map[], 1, 2, Ticket(CARRIED, Stored), YOUNG);
    YoungBatch(c, map[], 1, 2, Ticket(CARRIED, Stored), KEY_TTL);
  }

  // ----- Counting a window -----

  /** The requests from `lo` to `hi` are those of the window. */
  ghost predicate Framed(m: map<nat, nat>, lo: nat, hi: nat, T: int)
  {
    && (forall id: nat :: lo <= id < hi ==> id in m)
    && (forall id :: id in m ==> (T < m[id] <= T + WINDOW <==> lo <= id < hi))
  }

  lemma CountFramed(m: map<nat, nat>, lo: nat, hi: nat, T: int)
    requires lo <= hi && Framed(m, lo, hi, T)
    ensures |InWindow(m, T)| == hi - lo
  {
    assert InWindow(m, T) == Batch(lo, hi, 0).Keys by { hide Batch; }
    BatchCount(lo, hi, 0);
  }

  lemma FramedGrows(m: map<nat, nat>, lo: nat, hi: nat, b: nat, u: nat, T: int)
    requires lo <= hi <= b && Framed(m, lo, hi, T) && T < u <= T + WINDOW && Below(m, hi)
    ensures Framed(m + Batch(hi, b, u), lo, b, T) && Below(m + Batch(hi, b, u), b)
  {
    hide Batch;
  }

  // ----- The bound is exact -----

  /** Some legal run puts `n` admissions into one window. */
  ghost predicate Reaches(c: Config, n: int)
  {
    exists es, T: int :: Legal(c, es) && |InWindow(After(c.limit, es).admitted, T)| == n
  }

  lemma Reached(c: Config, es: seq<Event>, s: State, lo: nat, hi: nat, T: int)
    requires Leads(c, es, s) && lo <= hi && Framed(s.admitted, lo, hi, T)
    ensures Reaches(c, hi - lo)
  {
    CountFramed(s.admitted, lo, hi, T);
  }

  /** What stalled counts add when the last fill of the window came `d` after its beginning. */
  ghost function Gain(c: Config, d: nat): int
  {
    if c.stall >= WINDOW + d then c.flight else if c.stall >= d then c.flight - 1 else 0
  }

  /**
   * From a quiet state with the requests from `lo` to `n0` in the window, fill it at `t` and let the stalled
   * ones join.
   */
  lemma ReachFrom(c: Config, es: seq<Event>, s: State, base: map<nat, nat>, n0: nat, t: nat, lo: nat, T: nat)
    requires Proper(c) && Leads(c, es, s) && Quiet(s, base, n0, 0, t) && T < t <= T + WINDOW
    requires lo <= n0 && Framed(base, lo, n0, T) && (c.owed == c.flight || c.stall < t - T)
    ensures Reaches(c, n0 - lo + c.limit + c.owed - 1 + Gain(c, t - T))
  {
    hide Leads;
    hide Batch;
    hide Framed;
    hide Reaches;
    var n, u := c.limit + c.owed - 1, T + WINDOW;
    var r, s1 := FullWindow(c, es, s, base, n0, t);
    FramedGrows(base, lo, n0, n0 + n, t, T);
    if c.stall >= t + KEY_TTL - u {
      r, s1 := StalledPastExpiry(c, r, s1, base, n0, n, t, u);
      FramedGrows(base + Batch(n0, n0 + n, t), lo, n0 + n, n0 + n + c.flight, u, T);
      Reached(c, r, s1, lo, n0 + n + c.flight, T);
    } else if c.stall >= t - T && c.flight > 1 {
      r, s1 := StalledPastSweep(c, r, s1, base, n0, n, t, u);
      FramedGrows(base + Batch(n0, n0 + n, t), lo, n0 + n, n0 + n + c.flight - 1, u, T);
      Reached(c, r, s1, lo, n0 + n + c.flight - 1, T);
    } else {
      Reached(c, r, s1, lo, n0 + n, T);
    }
  }

  /** Stalled counts alone reach their slack. */
  lemma StallReaches(c: Config)
    requires Proper(c) && (c.owed == c.flight || c.stall == 0)
    ensures Reaches(c, c.limit + c.owed - 1 + Slack(c.flight, c.stall))
  {
    hide Reaches;
    StartIsQuiet(c, 1);
    ReachFrom(c, [], START, map[], 0, 1, 0, 0);
  }

  lemma EarlyBaseIsFramed(c: Config)
    requires c.owed > 0
    ensures Framed(EarlyBase(c), 2, c.owed + 1, YOUNG - 1) && Below(EarlyBase(c), c.owed + 1)
  {
    hide Batch;
  }

  /** An early expiry adds everybody owed but one, and stalled counts of three milliseconds more add theirs. */
  lemma EarlyExpiryReaches(c: Config)
    requires Proper(c) && !ExpiryIsLate(c) && (c.owed == c.flight || c.stall < 3)
    ensures Reaches(c, c.limit + c.owed - 1 + Extra(c) + Gain(c, 3))
  {
    hide Reaches;
    hide Leads;
    hide Framed;
    hide Below;
    var r, s := EarlyExpiry(c);
    EarlyBaseIsFramed(c);
    BatchOne(EarlyBase(c), c.owed + 1, KEY_TTL);
    hide Batch;
    ReachFrom(c, r, s, EarlyBase(c), c.owed + 1, KEY_TTL, 2, YOUNG - 1);
  }

  /** No window of any legal run holds more than `n` admissions. */
  ghost predicate Bounded(c: Config, n: int)
  {
    forall es, T: int :: Legal(c, es) ==> |InWindow(After(c.limit, es).admitted, T)| <= n
  }

  lemma BoundedByBound(c: Config)
    requires Proper(c)
    ensures Bounded(c, Bound(c))
  {
    forall es, T: int | Legal(c, es)
      ensures |InWindow(After(c.limit, es).admitted, T)| <= Bound(c)
    {
      WindowBound(c, es, T);
    }
  }

  /**
   * Where the bound is reached: a request that stalls takes a place of its own, and an early expiry leaves three
   * milliseconds less for the stall.
   */
  ghost predicate Attained(c: Config)
  {
    && (c.owed == c.flight || c.stall == 0)
    && (ExpiryIsLate(c) || Gain(c, 3) == Slack(c.flight, c.stall))
  }

  /** There the bound is the least one. */
  lemma LeastBound(c: Config, n: int)
    requires Proper(c) && Attained(c)
    ensures Bounded(c, n) <==> Bound(c) <= n
  {
    hide Legal;
    hide After;
    hide InWindow;
    BoundedByBound(c);
    if ExpiryIsLate(c) {
      StallReaches(c);
    } else {
      EarlyExpiryReaches(c);
    }
  }

  /** When nobody stalls, the least bound is limit + owed - 1 with any number of requests under way. */
  lemma UnstalledBound(c: Config, n: int)
    requires Proper(c) && c.stall == 0 && ExpiryIsLate(c)
    ensures Bounded(c, n) <==> c.limit + c.owed - 1 <= n
  {
    LeastBound(c, n);
  }

  /**
   * The bound limit + owed - 1 holds exactly when stalled counts have no slack, that is without stalls or, for
   * serialised requests, up to 60 s, and when no key can expire early.
   */
  lemma LimitHoldsIff(c: Config)
    requires Proper(c) && (c.owed == c.flight || c.stall == 0)
    ensures Bounded(c, c.limit + c.owed - 1)
       <==> (c.stall == 0 || (c.flight == 1 && c.stall <= WINDOW)) && ExpiryIsLate(c)
  {
    hide Legal;
    hide After;
    hide InWindow;
    BoundedByBound(c);
    StallReaches(c);
    if !ExpiryIsLate(c) {
      EarlyExpiryReaches(c);
    }
  }

  /** Alone under way, stalled a little over 60 s across a key expiry: limit 1, and two admissions in a window. */
  lemma StalledReaderExceedsLimit()
    ensures Reaches(Config(1, 1, 1, WINDOW + 1, 0), 2)
  {
    StallReaches(Config(1, 1, 1, WINDOW + 1, 0));
  }

  /** Two under way, with a stall of one millisecond: limit 1, and three admissions in one window. */
  lemma OneMillisecondExceedsBound()
    ensures Reaches(Config(1, 2, 2, 1, 0), 3)
  {
    StallReaches(Config(1, 2, 2, 1, 0));
  }

  /** Two under way and no stall, but a lifetime set 60 001 ms late: limit 2, and four admissions in one window. */
  lemma LateLifetimeExceedsBound()
    ensures Reaches(Config(2, 2, 2, 0, WINDOW + 1), 4)
  {
    EarlyExpiryReaches(Config(2, 2, 2, 0, WINDOW + 1));
  }

  // ----- Single decisions -----

  /** Every expiry of a legal run takes only members over 60 s old. */
  ghost predicate ExpiriesTakeOld(c: Config)
  {
    forall es, at: nat :: Legal(c, es + [Expire(at)]) ==>
      forall id :: id in After(c.limit, es).key.members ==> After(c.limit, es).key.members[id] + WINDOW < at
  }

  lemma LastStep(c: Config, es: seq<Event>, e: Event)
    requires Legal(c, es + [e])
    ensures Legal(c, es) && Allowed(c, After(c.limit, es), e)
  {
    assert (es + [e])[..|es|] == es;
  }

  lemma TakesYoung(c: Config, es: seq<Event>, s: State, id: nat, at: nat)
    requires After(c.limit, es) == s && Legal(c, es + [Expire(at)])
    requires id in s.key.members && s.key.members[id] + WINDOW >= at
    ensures !ExpiriesTakeOld(c)
  {
    hide Legal;
    hide After;
  }

  lemma TwoIsYoung(c: Config)
    requires c.owed > 1
    ensures var m := Batch(1, 2, CARRIED) + Batch(2, c.owed + 1, YOUNG); 2 in m && m[2] == YOUNG
  {
  }

  lemma ExpiryTakesYoung(c: Config)
    requires Proper(c) && !ExpiryIsLate(c)
    ensures !ExpiriesTakeOld(c)
  {
    hide Young;
    hide Size;
    hide EarlyBase;
    hide Batch;
    hide Legal;
    hide After;
    hide ExpiriesTakeOld;
    var rest := map[] + Batch(1, 2, Ticket(CARRIED, Stored));
    var r, s := AddYoung(c, rest);
    assert 2 in s.key.members && s.key.members[2] == YOUNG by { TwoIsYoung(c); }
    assert Young(c, s.flight, KEY_TTL) by {
      CarriedIsYoung(c);
      YoungBatch(c, rest, 2, c.owed + 1, Ticket(YOUNG, Stored), KEY_TTL);
    }
    var r1 := ExpireOne(c, r, s, KEY_TTL, State(KEY_TTL, s.flight, EMPTY, s.admitted));
    TakesYoung(c, r, s, 2, KEY_TTL);
  }

  /** Every expiry takes only members over 60 s old exactly when no key can expire early. */
  lemma ExpiriesTakeOldIff(c: Config)
    requires Proper(c)
    ensures ExpiriesTakeOld(c) <==> ExpiryIsLate(c)
  {
    if ExpiryIsLate(c) {
      forall es, at: nat | Legal(c, es + [Expire(at)])
        ensures forall id :: id in After(c.limit, es).key.members ==> After(c.limit, es).key.members[id] + WINDOW < at
      {
        LastStep(c, es, Expire(at));
        RunKeepsInv(c, es);
        ExpiryLosesOld(c, After(c.limit, es), at);
      }
    } else {
      ExpiryTakesYoung(c);
    }
  }

  /** Who is admitted punctually found fewer than limit admissions in its window, besides those still to be added. */
  ghost predicate AdmissionsJustified(c: Config)
  {
    forall es, id :: Punctual(c, es, id) && IsAdmitted(c.limit, After(c.limit, es), id, After(c.limit, es).clock) ==>
      var s := After(c.limit, es); |InWindow(s.admitted, s.clock - WINDOW)| <= c.limit - 1 + |AllPassed(s)|
  }

  /** Who is rejected punctually has limit admissions in its window. */
  ghost predicate RejectionsJustified(c: Config)
  {
    forall es, id :: Punctual(c, es, id) && !IsAdmitted(c.limit, After(c.limit, es), id, After(c.limit, es).clock) ==>
      var s := After(c.limit, es); |InWindow(s.admitted, s.clock - WINDOW)| >= c.limit
  }

  /** A reader that has trimmed at its own clock reading. */
  lemma ReadAndTrim(c: Config, es: seq<Event>, s: State, id: nat, t: nat) returns (r: seq<Event>, s1: State)
    requires Proper(c) && Leads(c, es, s) && s.clock <= t && Young(c, s.flight, t) && Size(s) < c.owed
    requires id !in s.flight && id !in s.admitted && AfterTrim(s.key, t) == s.key
    ensures s1 == State(t, s.flight[id := Ticket(t, Swept)], s.key, s.admitted) && Leads(c, r, s1) && Size(s1) <= c.owed
  {
    hide Leads;
    hide AfterTrim;
    r, s1 := ReadOne(c, es, s, id, t);
    SameSize(s1.flight, id, Ticket(t, Swept));
    var s2 := State(t, s.flight[id := Ticket(t, Swept)], s.key, s.admitted);
    assert s1.flight[id := Ticket(t, Swept)] == s2.flight;
    r := Go(c, r, s1, Sweep(id, t), s2);
    s1 := s2;
  }

  /** After the early expiry, limit - 1 requests one by one. */
  lemma RefillAfterExpiry(c: Config, n0: nat, n: nat) returns (r: seq<Event>, s: State)
    requires Proper(c) && !ExpiryIsLate(c) && n0 == c.owed + 1 && n == c.limit - 1
    ensures Leads(c, r, s) && Quiet(s, EarlyBase(c), n0, n, KEY_TTL)
    ensures Framed(s.admitted, 2, n0 + n, YOUNG - 1)
  {
    hide Leads;
    hide EarlyBase;
    hide Framed;
    hide Below;
    EarlyBaseIsFramed(c);
    BatchOne(EarlyBase(c), n0, KEY_TTL);
    hide Batch;
    r, s := EarlyExpiry(c);
    r, s := OneByOne(c, r, s, EarlyBase(c), n0, n, KEY_TTL);
    FramedGrows(EarlyBase(c), 2, n0, n0 + n, KEY_TTL, YOUNG - 1);
  }

  lemma EarlyExpiryAdmits(c: Config)
    requires Proper(c) && !ExpiryIsLate(c)
    ensures !AdmissionsJustified(c)
  {
    hide Size;
    hide EarlyBase;
    hide AfterTrim;
    hide HasRoom;
    hide Leads;
    hide Quiet;
    hide KeyOf;
    hide IsAdmitted;
    hide Framed;
    hide Batch;
    hide AdmissionsJustified;
    var n0, n := c.owed + 1, c.limit - 1;
    var r, s := RefillAfterExpiry(c, n0, n);
    QuietFacts(c, s, EarlyBase(c), n0, n, KEY_TTL, KEY_TTL);
    NobodyIsYoung(c, KEY_TTL);
    r, s := ReadAndTrim(c, r, s, n0 + n, KEY_TTL);
    TimesAreBefore(c, r, s);
    QuietlyAdmitted(c, r, s, n0, n);
  }

  lemma TimesAreBefore(c: Config, es: seq<Event>, s: State)
    requires Leads(c, es, s)
    ensures forall id :: id in s.admitted ==> s.admitted[id] <= s.clock
  {
    RunKeepsInv(c, es);
  }

  lemma QuietlyAdmitted(c: Config, es: seq<Event>, s: State, n0: nat, n: nat)
    requires Leads(c, es, s) && s.clock == KEY_TTL && s.flight == map[n0 + n := Ticket(KEY_TTL, Swept)]
    requires n == c.limit - 1 && n0 > 2 && |s.key.members| == n && n0 + n !in s.admitted
    requires Framed(s.admitted, 2, n0 + n, YOUNG - 1) && forall id :: id in s.admitted ==> s.admitted[id] <= KEY_TTL
    ensures !AdmissionsJustified(c)
  {
    hide Legal;
    hide After;
    var id, m := n0 + n, s.admitted;
    assert Punctual(c, es, id) && After(c.limit, es) == s;
    assert IsAdmitted(c.limit, s, id, s.clock) by { AdmittedIff(c.limit, s, id, s.clock); }
    assert AllPassed(s) == {};
    assert |InWindow(m, YOUNG - 1)| == n0 + n - 2 by { CountFramed(m, 2, n0 + n, YOUNG - 1); }
    assert InWindow(m, YOUNG - 1) <= InWindow(m, s.clock - WINDOW);
    hide InWindow;
    hide IsAdmitted;
    hide AllPassed;
    SubsetSize(InWindow(m, YOUNG - 1), InWindow(m, s.clock - WINDOW));
  }

  /** Request 0 is admitted at time 0 and not yet added; beside it, `n` others were admitted and added at time 1. */
  ghost predicate Beside(s: State, n: nat)
  {
    && s.clock <= 1 && s.flight == map[0 := Ticket(0, Passed)] && s.admitted == map[0 := 0] + Batch(1, 1 + n, 1)
    && s.key == KeyOf(1, n, 1)
  }

  lemma FirstWaits(c: Config) returns (r: seq<Event>, s: State)
    requires Proper(c)
    ensures Leads(c, r, s) && Beside(s, 0) && Size(s) == 1
  {
    hide Leads;
    hide Young;
    hide AfterTrim;
    hide HasRoom;
    r, s := [], START;
    assert Leads(c, r, s) by { StartIsQuiet(c, 0); }
    EmptyHasRoom(c, 0);
    NobodyIsYoung(c, 0);
    r, s := ReadAndCheck(c, r, s, map[], 0, 1, 0);
    BatchOne(map[], 0, Ticket(0, Passed));
    BatchOne(map[], 0, 0);
    BatchOne(map[0 := 0], 1, 1);
  }

  /** What the next one beside finds. */
  lemma BesideFacts(c: Config, s: State, n: nat, now: nat)
    requires Beside(s, n) && now <= WINDOW
    ensures AfterTrim(s.key, now) == s.key && (n < c.limit ==> HasRoom(c, s.key.members, now))
    ensures |s.key.members| == n && Young(c, s.flight, now) && s.clock <= 1
    ensures forall id: nat :: n < id ==> id !in s.flight && id !in s.admitted
  {
    KeyFacts(1, n, 1, now);
    KeySize(1, n, 1);
    hide KeyOf;
    hide Batch;
    hide AfterTrim;
  }

  lemma BesideGrows(s: State, n: nat, s1: State)
    requires Beside(s, n) && s1.clock == 1 && s1.flight == s.flight
    requires s1.key == AfterTouch(Store(s.key.members + Batch(1 + n, 2 + n, 1), s.key.ttl), 1)
    requires s1.admitted == s.admitted + Batch(1 + n, 2 + n, 1)
    ensures Beside(s1, n + 1)
  {
    hide AfterTouch;
    hide Batch;
    hide KeyOf;
    assert s1.admitted == map[0 := 0] + Batch(1, 2 + n, 1) by { BaseGrows(map[0 := 0], 1, 1 + n, 2 + n, 1); }
    assert s1.key == KeyOf(1, n + 1, 1) by { KeyGrows(1, n, 1, 1); }
  }

  lemma OneMoreBeside(c: Config, es: seq<Event>, s: State, n: nat) returns (r: seq<Event>, s1: State)
    requires Proper(c) && c.owed > 1 && Leads(c, es, s) && Beside(s, n) && Size(s) == 1 && n < c.limit
    ensures Leads(c, r, s1) && Beside(s1, n + 1) && Size(s1) == 1
  {
    hide Leads;
    hide Young;
    hide AfterTrim;
    hide AfterTouch;
    hide HasRoom;
    hide Size;
    hide Beside;
    BesideFacts(c, s, n, 1);
    hide Batch;
    r, s1 := AllAtOnce(c, es, s, 1 + n, 2 + n, 1);
    BesideGrows(s, n, s1);
  }

  lemma {:induction false} FillBeside(c: Config, n: nat) returns (r: seq<Event>, s: State)
    requires Proper(c) && c.owed > 1 && n < c.limit
    ensures Leads(c, r, s) && Beside(s, n) && Size(s) == 1
  {
    hide Leads;
    hide Beside;
    hide Size;
    if n == 0 {
      r, s := FirstWaits(c);
    } else {
      r, s := FillBeside(c, n - 1);
      r, s := OneMoreBeside(c, r, s, n - 1);
    }
  }

  /** A reader has trimmed when the first request adds its old score: limit members, one of them old. */
  lemma OldAddRejects(c: Config)
    requires Proper(c) && c.owed > 1 && c.span >= WINDOW
    ensures !RejectionsJustified(c)
  {
    hide Leads;
    hide Young;
    hide AfterTrim;
    hide HasRoom;
    hide Batch;
    hide RejectionsJustified;
    var n := c.limit - 1;
    var r, s0 := FillBeside(c, n);
    BesideFacts(c, s0, n, WINDOW);
    var r1, s1 := ReadAndTrim(c, r, s0, c.limit, WINDOW);
    assert Young(c, s1.flight, WINDOW) by { BesideIsYoung(c, s1); }
    var r2, s2 := AddOne(c, r1, s1, 0, 0, WINDOW);
    RejectedBeside(c, r2, s0, s2, n);
  }

  lemma BesideIsYoung(c: Config, s: State)
    requires forall id :: id in s.flight ==> s.flight[id].phase != Stored
    ensures Young(c, s.flight, s.clock)
  {
  }

  lemma RejectedBeside(c: Config, es: seq<Event>, s0: State, s: State, n: nat)
    requires Beside(s0, n) && n == c.limit - 1 && |s0.key.members| == n && Leads(c, es, s)
    requires s.clock == WINDOW && s.key.members == s0.key.members[0 := 0] && s.admitted == s0.admitted
    requires c.limit in s.flight && s.flight[c.limit] == Ticket(WINDOW, Swept)
    ensures !RejectionsJustified(c)
  {
    hide Legal;
    hide After;
    var id, m := c.limit, s.admitted;
    assert 0 !in s0.key.members;
    assert |s.key.members| == n + 1;
    assert Punctual(c, es, id) && After(c.limit, es) == s;
    assert !IsAdmitted(c.limit, s, id, s.clock) by { AdmittedIff(c.limit, s, id, s.clock); }
    assert |InWindow(m, 0)| == n by { CountFramed(m, 1, 1 + n, 0); }
    hide InWindow;
    hide IsAdmitted;
  }

  /** Punctual admissions are justified exactly when no key can expire early. */
  lemma AdmissionsJustifiedIff(c: Config)
    requires Proper(c)
    ensures AdmissionsJustified(c) <==> ExpiryIsLate(c)
  {
    hide Legal;
    hide After;
    hide InWindow;
    hide IsAdmitted;
    hide AllPassed;
    hide Punctual;
    if ExpiryIsLate(c) {
      forall es, id | Punctual(c, es, id) && IsAdmitted(c.limit, After(c.limit, es), id, After(c.limit, es).clock)
        ensures var s := After(c.limit, es); |InWindow(s.admitted, s.clock - WINDOW)| <= c.limit - 1 + |AllPassed(s)|
      {
        PunctualDecision(c, es, id, After(c.limit, es));
      }
    } else {
      EarlyExpiryAdmits(c);
    }
  }

  /** Punctual rejections are justified exactly when nobody adds a member 60 s old, or there is nobody else. */
  lemma RejectionsJustifiedIff(c: Config)
    requires Proper(c) && c.owed == c.flight
    ensures RejectionsJustified(c) <==> AddsAreFresh(c)
  {
    hide Legal;
    hide After;
    hide InWindow;
    hide IsAdmitted;
    hide AllPassed;
    hide Punctual;
    if AddsAreFresh(c) {
      forall es, id | Punctual(c, es, id) && !IsAdmitted(c.limit, After(c.limit, es), id, After(c.limit, es).clock)
        ensures var s := After(c.limit, es); |InWindow(s.admitted, s.clock - WINDOW)| >= c.limit
      {
        PunctualDecision(c, es, id, After(c.limit, es));
      }
    } else {
      OldAddRejects(c);
    }
  }
}

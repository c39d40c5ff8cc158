/**
 * The sliding-window rate limiter over a shared sorted set. A request reads its clock and sends four commands,
 * one after the other: remove the old scores, count, add itself when admitted, and set the key's lifetime.
 * Other requests may run between any two of them, and the key may expire.
 */
module RateLimiter {
  import opened GatewayModel

  const WINDOW := 60_000
  const KEY_TTL := 120_000

  /** The sorted set: members with their scores, which are times in milliseconds. */
  type SortedSet = map<nat, nat>

  /** The key: its members, and the time at which it expires if it has one. A key without members does not exist. */
  datatype Store = Store(members: SortedSet, ttl: Option<nat>)

  const EMPTY := Store(map[], None)

  /** What remains after removing the scores from 0 to now - 60 s. */
  function Trimmed(z: SortedSet, now: nat): SortedSet
  {
    map id | id in z && z[id] + WINDOW > now :: z[id]
  }

  /** Removing the last member removes the key and its lifetime. */
  function AfterTrim(k: Store, now: nat): Store
  {
    var z := Trimmed(k.members, now);
    if z == map[] then EMPTY else Store(z, k.ttl)
  }

  /** Adding a member leaves the lifetime alone; a new key has none. */
  function AfterAdd(k: Store, id: nat, score: nat): Store
  {
    Store(k.members[id := score], k.ttl)
  }

  /** Setting the lifetime of a key that does not exist does nothing. */
  function AfterTouch(k: Store, at: nat): Store
  {
    if k.members == map[] then k else Store(k.members, Some(at + KEY_TTL))
  }

  /** The key of one client, as the middleware's commands change it. */
  class Window {
    var key: Store

    constructor ()
      ensures key == EMPTY
    {
      key := EMPTY;
    }

    method Trim(now: nat)
      modifies this
      ensures key == AfterTrim(old(key), now)
    {
      var z := Trimmed(key.members, now);
      if z == map[] {
        key := EMPTY;
      } else {
        key := Store(z, key.ttl);
      }
    }

    method Count() returns (n: nat)
      ensures n == |key.members|
    {
      n := |key.members|;
    }

    method Add(member: nat, score: nat)
      modifies this
      ensures key == AfterAdd(old(key), member, score)
    {
      key := Store(key.members[member := score], key.ttl);
    }

    method Touch(at: nat)
      modifies this
      ensures key == AfterTouch(old(key), at)
    {
      if key.members != map[] {
        key := key.(ttl := Some(at + KEY_TTL));
      }
    }

    /** The store drops the key once its time is up. */
    method Expire(at: nat)
      modifies this
      ensures key == if old(key).ttl.Some? && at >= old(key).ttl.value then EMPTY else old(key)
    {
      if key.ttl.Some? && at >= key.ttl.value {
        key := EMPTY;
      }
    }

    /**
     * The middleware when nobody interferes: without a limit the key is not touched; otherwise the request
     * passes if and only if fewer than `limit` members are younger than 60 s, and then it is one of them.
     */
    method Admit(limit: int, member: nat, now: nat, at: nat) returns (allowed: bool)
      modifies this
      ensures limit <= 0 ==> allowed && key == old(key)
      ensures limit > 0 ==> (allowed <==> |Trimmed(old(key).members, now)| < limit)
      ensures limit > 0 && !allowed ==> key == AfterTrim(old(key), now)
      ensures limit > 0 && allowed ==>
                key == Store(Trimmed(old(key).members, now)[member := now], Some(at + KEY_TTL))
    {
      if limit <= 0 {
        return true;
      }
      Trim(now);
      var n := Count();
      if n >= limit {
        return false;
      }
      Add(member, now);
      Touch(at);
      return true;
    }
  }

  // ----- The protocol -----

  /** Started: clock read. Swept: old scores removed. Passed: admitted. Stored: added, lifetime not yet set. */
  datatype Phase = Started | Swept | Passed | Stored

  datatype Ticket = Ticket(at: nat, phase: Phase)

  /** `flight` holds the requests under way, `admitted` the clock reading of everybody ever admitted. */
  datatype State = State(clock: nat, flight: map<nat, Ticket>, key: Store, admitted: map<nat, nat>)

  /** Everything happens at some time; time passes between events only. */
  datatype Event =
    | Read(id: nat, at: nat)
    | Sweep(id: nat, at: nat)
    | Count(id: nat, at: nat)
    | Add(id: nat, at: nat)
    | Touch(id: nat, at: nat)
    | Expire(at: nat)

  const START := State(0, map[], EMPTY, map[])

  ghost predicate InPhase(s: State, id: nat, phase: Phase)
  {
    id in s.flight && s.flight[id].phase == phase
  }

  ghost predicate Enabled(s: State, e: Event)
  {
    && e.at >= s.clock
    && match e
       case Read(id, _) => id !in s.flight && id !in s.admitted
       case Sweep(id, _) => InPhase(s, id, Started)
       case Count(id, _) => InPhase(s, id, Swept)
       case Add(id, _) => InPhase(s, id, Passed)
       case Touch(id, _) => InPhase(s, id, Stored)
       case Expire(at) => s.key.ttl.Some? && at >= s.key.ttl.value
  }

  ghost function Moved(s: State, id: nat, at: nat, phase: Phase): State
    requires id in s.flight
  {
    s.(clock := at, flight := s.flight[id := Ticket(s.flight[id].at, phase)])
  }

  ghost function Counted(limit: nat, s: State, id: nat, at: nat): State
    requires id in s.flight
  {
    if |s.key.members| >= limit then s.(clock := at, flight := s.flight - {id})
    else Moved(s, id, at, Passed).(admitted := s.admitted[id := s.flight[id].at])
  }

  /** An event that is not enabled changes nothing. */
  ghost function Step(limit: nat, s: State, e: Event): State
  {
    if !Enabled(s, e) then s
    else
      match e
      case Read(id, at) => s.(clock := at, flight := s.flight[id := Ticket(at, Started)])
      case Sweep(id, at) => Moved(s, id, at, Swept).(key := AfterTrim(s.key, s.flight[id].at))
      case Count(id, at) => Counted(limit, s, id, at)
      case Add(id, at) => Moved(s, id, at, Stored).(key := AfterAdd(s.key, id, s.flight[id].at))
      case Touch(id, at) => s.(clock := at, flight := s.flight - {id}, key := AfterTouch(s.key, at))
      case Expire(at) => s.(clock := at, key := EMPTY)
  }

  ghost function After(limit: nat, es: seq<Event>): State
  {
    if |es| == 0 then START else Step(limit, After(limit, es[..|es| - 1]), es[|es| - 1])
  }

  /**
   * What the runs of interest keep: at most `flight` requests under way, at most `owed` of them admitted, a
   * count at most `stall` after the clock reading, and a lifetime set at most `span` after it.
   */
  datatype Config = Config(limit: nat, owed: nat, flight: nat, stall: nat, span: nat)

  ghost predicate Proper(c: Config)
  {
    0 < c.limit && 0 < c.owed <= c.flight
  }

  /** The admitted requests still under way. */
  ghost function Owed(s: State): set<nat>
  {
    set id | id in s.flight && (s.flight[id].phase == Passed || s.flight[id].phase == Stored)
  }

  ghost predicate Keeps(c: Config, s: State)
  {
    && |s.flight| <= c.flight && |Owed(s)| <= c.owed
    && forall id :: InPhase(s, id, Stored) ==> s.clock <= s.flight[id].at + c.span
  }

  ghost predicate Allowed(c: Config, s: State, e: Event)
  {
    Enabled(s, e) && Keeps(c, Step(c.limit, s, e)) && (e.Count? ==> e.at - s.flight[e.id].at <= c.stall)
  }

  ghost predicate Legal(c: Config, es: seq<Event>)
  {
    |es| == 0 ||
    (Legal(c, es[..|es| - 1]) && Allowed(c, After(c.limit, es[..|es| - 1]), es[|es| - 1]))
  }

  // ----- What every state keeps -----

  /** The admitted requests under way are those with an admission. */
  ghost predicate Tickets(s: State)
  {
    forall id :: id in s.flight ==>
      && s.flight[id].at <= s.clock
      && if id in Owed(s) then id in s.admitted && s.admitted[id] == s.flight[id].at else id !in s.admitted
  }

  ghost predicate Members(s: State)
  {
    && (forall id :: id in s.key.members ==> id in s.admitted && s.admitted[id] == s.key.members[id])
    && (forall id :: id in s.admitted ==> s.admitted[id] <= s.clock)
    && (s.key.members == map[] ==> s.key.ttl.None?)
  }

  /** The key outlives the member by the lifetime set when it was added, or a later one. */
  ghost predicate Timed(s: State, id: nat)
    requires id in s.key.members
  {
    s.key.ttl.Some? && s.key.members[id] + KEY_TTL <= s.key.ttl.value
  }

  ghost predicate Lifetimes(s: State)
  {
    forall id :: id in s.key.members ==> InPhase(s, id, Stored) || Timed(s, id)
  }

  /** A stored request whose lifetime is overdue by the time `v`. */
  ghost predicate HasCarrier(s: State, v: nat)
  {
    exists g :: InPhase(s, g, Stored) && s.flight[g].at + WINDOW < v
  }

  ghost predicate AllOld(s: State, v: nat)
  {
    && (forall id :: id in s.key.members ==> s.key.members[id] + WINDOW < v)
    && (forall id :: InPhase(s, id, Swept) || InPhase(s, id, Passed) ==> s.flight[id].at + WINDOW < v)
  }

  /**
   * A key can only expire under a member younger than 60 s if some request has stayed stored without setting
   * the lifetime for over 60 s since its clock reading: any other member would have been trimmed, and the key
   * with it.
   */
  ghost predicate Carried(s: State)
  {
    s.key.ttl.Some? ==> HasCarrier(s, s.key.ttl.value) || AllOld(s, s.key.ttl.value)
  }

  /** With limit 1 nobody is admitted while the key lives. */
  ghost predicate Single(s: State)
  {
    s.key.ttl.Some? ==>
      && (forall id :: id in s.key.members ==> s.key.members[id] + KEY_TTL <= s.key.ttl.value)
      && (forall id :: id in Owed(s) ==> s.flight[id].at + KEY_TTL <= s.key.ttl.value)
  }

  ghost predicate Basic(s: State)
  {
    Tickets(s) && Members(s) && Lifetimes(s) && Carried(s)
  }

  lemma StepKeepsTickets(limit: nat, s: State, e: Event)
    requires Tickets(s) && Enabled(s, e)
    ensures Tickets(Step(limit, s, e))
  {
  }

  lemma StepKeepsMembers(limit: nat, s: State, e: Event)
    requires Tickets(s) && Members(s) && Enabled(s, e)
    ensures Members(Step(limit, s, e))
  {
  }

  lemma StepKeepsLifetimes(limit: nat, s: State, e: Event)
    requires Tickets(s) && Members(s) && Lifetimes(s) && Enabled(s, e)
    ensures Lifetimes(Step(limit, s, e))
  {
    var s1 := Step(limit, s, e);
    forall id | id in s1.key.members
      ensures InPhase(s1, id, Stored) || Timed(s1, id)
    {
      if id in s.key.members {
        assert InPhase(s, id, Stored) || Timed(s, id);
      }
    }
  }

  lemma SweepKeepsCarried(s: State, id: nat, at: nat, s1: State)
    requires Basic(s) && Enabled(s, Sweep(id, at)) && s1 == Step(0, s, Sweep(id, at))
    ensures Carried(s1)
  {
    if s1.key.ttl.Some? {
      var v := s.key.ttl.value;
      if HasCarrier(s, v) {
        var g :| InPhase(s, g, Stored) && s.flight[g].at + WINDOW < v;
        assert InPhase(s1, g, Stored);
      } else {
        var f :| f in s1.key.members;
        assert InPhase(s, f, Stored) || Timed(s, f);
        assert s.flight[id].at + WINDOW < v;
      }
    }
  }

  lemma StepKeepsCarried(limit: nat, s: State, e: Event)
    requires Basic(s) && Enabled(s, e)
    ensures Carried(Step(limit, s, e))
  {
    var s1 := Step(limit, s, e);
    if e.Sweep? {
      SweepKeepsCarried(s, e.id, e.at, s1);
    } else if s1.key.ttl.Some? && !e.Touch? && HasCarrier(s, s.key.ttl.value) {
      var g :| InPhase(s, g, Stored) && s.flight[g].at + WINDOW < s.key.ttl.value;
      assert InPhase(s1, g, Stored);
    } else if e.Add? && s1.key.ttl.Some? {
      assert InPhase(s, e.id, Passed) && InPhase(s1, e.id, Stored);
    }
  }

  lemma StepKeepsBasic(limit: nat, s: State, e: Event)
    requires Basic(s) && Enabled(s, e)
    ensures Basic(Step(limit, s, e))
  {
    StepKeepsTickets(limit, s, e);
    StepKeepsMembers(limit, s, e);
    StepKeepsLifetimes(limit, s, e);
    StepKeepsCarried(limit, s, e);
  }

  lemma StepKeepsSingle(s: State, e: Event)
    requires Basic(s) && Single(s) && Enabled(s, e)
    ensures Single(Step(1, s, e))
  {
    var s1 := Step(1, s, e);
    assert e.Count? && s.key.ttl.Some? ==> |s.key.members| >= 1;
  }

  ghost predicate Inv(c: Config, s: State)
  {
    Basic(s) && Keeps(c, s) && (c.limit == 1 ==> Single(s))
  }

  lemma {:induction false} RunKeepsInv(c: Config, es: seq<Event>)
    requires Legal(c, es)
    ensures Inv(c, After(c.limit, es))
  {
    hide Basic;
    hide Single;
    hide Keeps;
    if |es| == 0 {
      StartIsFine(c);
    } else {
      var s, e := After(c.limit, es[..|es| - 1]), es[|es| - 1];
      RunKeepsInv(c, es[..|es| - 1]);
      StepKeepsBasic(c.limit, s, e);
      if c.limit == 1 {
        StepKeepsSingle(s, e);
      }
    }
  }

  lemma StartIsFine(c: Config)
    ensures Basic(START) && Single(START) && Keeps(c, START)
  {
    assert Owed(START) == {};
  }

  // ----- Sizes -----

  lemma SubsetSize<T>(a: set<T>, b: set<T>)
    requires a <= b
    ensures |a| <= |b|
  {
    assert b == a + (b - a);
  }

  lemma UnionSize<T>(a: set<T>, b: set<T>, c: set<T>)
    requires a <= b + c
    ensures |a| <= |b| + |c|
  {
    SubsetSize(a, b + c);
    assert |b + c| <= |b| + |c| by {
      assert b + c == b + (c - b);
      SubsetSize(c - b, c);
    }
  }

  // ----- One expiry -----

  /** No member can be younger than 60 s when its key expires. */
  ghost predicate ExpiryIsLate(c: Config)
  {
    c.span <= WINDOW || c.limit == 1 || c.owed == 1
  }

  /** A young member of an expiring key is stored and still under way, and so is somebody else. */
  lemma YoungMember(s: State, at: nat, id: nat) returns (g: nat)
    requires Basic(s) && Enabled(s, Expire(at)) && id in s.key.members && s.key.members[id] + WINDOW >= at
    ensures InPhase(s, id, Stored) && InPhase(s, g, Stored) && g != id
    ensures s.flight[g].at + WINDOW < s.key.ttl.value <= at
  {
    assert !Timed(s, id) && !AllOld(s, s.key.ttl.value);
    g :| InPhase(s, g, Stored) && s.flight[g].at + WINDOW < s.key.ttl.value;
  }

  /** Then every member lost is over 60 s old. */
  lemma ExpiryLosesOld(c: Config, s: State, at: nat)
    requires Inv(c, s) && Allowed(c, s, Expire(at)) && ExpiryIsLate(c)
    ensures forall id :: id in s.key.members ==> s.key.members[id] + WINDOW < at
  {
    forall id | id in s.key.members
      ensures s.key.members[id] + WINDOW < at
    {
      if s.key.members[id] + WINDOW >= at {
        var g := YoungMember(s, at, id);
        assert InPhase(Step(c.limit, s, Expire(at)), g, Stored);
        assert {g, id} <= Owed(s);
        SubsetSize({g, id}, Owed(s));
        assert false;
      }
    }
  }

  // ----- The sliding window -----

  /** The requests of `m` whose time lies in the window (T, T + 60 s]. */
  ghost function InWindow(m: map<nat, nat>, T: int): (ids: set<nat>)
  {
    set id | id in m && T < m[id] <= T + WINDOW
  }

  ghost function AllPassed(s: State): (ids: set<nat>)
    ensures ids <= Owed(s)
  {
    set id | id in s.flight && s.flight[id].phase == Passed
  }

  ghost predicate Covered(s: State, id: nat)
  {
    id in s.key.members || InPhase(s, id, Passed)
  }

  /** The admissions of the window that are stored or about to be. */
  ghost function Kept(s: State, T: int): set<nat>
  {
    set id | id in InWindow(s.admitted, T) && Covered(s, id)
  }

  /** Those that an expiry of the key took. */
  ghost function Lost(s: State, T: int): set<nat>
  {
    set id | id in InWindow(s.admitted, T) && !Covered(s, id)
  }

  /** The requests of the window that may still be admitted. */
  ghost function Live(s: State, T: int, stall: nat): (ids: set<nat>)
  {
    set id | id in s.flight && id !in Owed(s) && T < s.flight[id].at <= T + WINDOW && s.clock - s.flight[id].at <= stall
  }

  /** What stalled counts can add: nothing, up to flight - 1, or with an expiry in between up to flight. */
  ghost function Slack(flight: nat, stall: nat): int
  {
    if stall == 0 then 0 else if stall <= WINDOW then flight - 1 else flight
  }

  /** What an early expiry can add: everybody stored and still under way but one. */
  ghost function Extra(c: Config): int
  {
    if ExpiryIsLate(c) then 0 else c.owed - 1
  }

  ghost function Bound(c: Config): int
  {
    c.limit + c.owed - 1 + Slack(c.flight, c.stall) + Extra(c)
  }

  /** The key has expired under the window once; it cannot do so again before the window has passed. */
  ghost predicate LostOnce(c: Config, s: State, T: int)
  {
    && |Lost(s, T)| <= Extra(c) && s.clock > T
    && (s.key.ttl.Some? ==> s.key.ttl.value > T + KEY_TTL)
  }

  ghost predicate Intact(c: Config, s: State, T: int)
  {
    |Kept(s, T)| <= c.limit + c.owed - 1 && (Lost(s, T) == {} || LostOnce(c, s, T))
  }

  /** The clock has left the window; only its live requests can still join. */
  ghost predicate Past(c: Config, s: State, T: int)
  {
    s.clock > T + WINDOW && |InWindow(s.admitted, T)| + |Live(s, T, c.stall)| <= Bound(c)
  }

  ghost predicate WindowInvariant(c: Config, s: State, T: int)
  {
    Intact(c, s, T) || Past(c, s, T)
  }

  lemma WindowSplits(s: State, T: int)
    ensures |InWindow(s.admitted, T)| == |Kept(s, T)| + |Lost(s, T)|
  {
    assert InWindow(s.admitted, T) == Kept(s, T) + Lost(s, T);
  }

  lemma SameWindow(s: State, s1: State, T: int)
    requires s1.admitted == s.admitted
    requires forall id :: id in InWindow(s.admitted, T) ==> (Covered(s1, id) <==> Covered(s, id))
    ensures Kept(s1, T) == Kept(s, T) && Lost(s1, T) == Lost(s, T)
  {
  }

  /** Reading, adding and setting the lifetime move nobody into or out of the window. */
  lemma MoveKeepsIntact(c: Config, s: State, e: Event, T: int)
    requires Tickets(s) && Members(s) && Enabled(s, e) && (e.Read? || e.Add? || e.Touch?) && Intact(c, s, T)
    ensures Intact(c, Step(c.limit, s, e), T)
  {
    var s1 := Step(c.limit, s, e);
    forall id | id in InWindow(s.admitted, T)
      ensures Covered(s1, id) <==> Covered(s, id)
    {
    }
    SameWindow(s, s1, T);
  }

  /** A request of the window or an earlier one trims nothing of the window. */
  lemma EarlySweepKeepsIntact(c: Config, s: State, id: nat, at: nat, T: int)
    requires Tickets(s) && Members(s) && Enabled(s, Sweep(id, at)) && Intact(c, s, T) && s.flight[id].at <= T + WINDOW
    ensures Intact(c, Step(c.limit, s, Sweep(id, at)), T)
  {
    var s1 := Step(c.limit, s, Sweep(id, at));
    assert forall x :: InPhase(s1, x, Passed) <==> InPhase(s, x, Passed);
    SameWindow(s, s1, T);
  }

  lemma OwedGrows(s: State, id: nat, at: nat)
    requires InPhase(s, id, Swept)
    ensures Owed(Moved(s, id, at, Passed)) == Owed(s) + {id}
    ensures AllPassed(Moved(s, id, at, Passed)) == AllPassed(s) + {id}
  {
  }

  /** Who is admitted found fewer than limit members, and takes one of the places for admitted requests. */
  lemma CountKeepsIntact(c: Config, s: State, id: nat, at: nat, T: int)
    requires Tickets(s) && Members(s) && Allowed(c, s, Count(id, at)) && Intact(c, s, T)
    ensures Intact(c, Step(c.limit, s, Count(id, at)), T)
  {
    var s1 := Step(c.limit, s, Count(id, at));
    assert forall x :: x != id ==> (InPhase(s1, x, Passed) <==> InPhase(s, x, Passed));
    if |s.key.members| >= c.limit {
      SameWindow(s, s1, T);
    } else {
      AdmissionKeepsIntact(c, s, id, s1, T);
    }
  }

  lemma KeptIsFew(s: State, T: int)
    ensures |Kept(s, T)| <= |s.key.members| + |AllPassed(s)|
  {
    assert Kept(s, T) <= s.key.members.Keys + AllPassed(s);
    UnionSize(Kept(s, T), s.key.members.Keys, AllPassed(s));
  }

  lemma WindowGrows(m: map<nat, nat>, id: nat, t: nat, T: int)
    requires id !in m
    ensures InWindow(m[id := t], T) == InWindow(m, T) + (if T < t <= T + WINDOW then {id} else {})
  {
  }

  lemma AdmissionCovers(s: State, id: nat, s1: State, T: int)
    requires InPhase(s, id, Swept) && id !in s.admitted
    requires s1 == Moved(s, id, s1.clock, Passed).(admitted := s.admitted[id := s.flight[id].at])
    ensures Kept(s1, T) <= Kept(s, T) + {id} && Lost(s1, T) == Lost(s, T)
  {
    WindowGrows(s.admitted, id, s.flight[id].at, T);
    assert forall x :: x != id ==> (Covered(s1, x) <==> Covered(s, x));
  }

  lemma AdmissionKeepsIntact(c: Config, s: State, id: nat, s1: State, T: int)
    requires InPhase(s, id, Swept) && id !in s.admitted && |s.key.members| < c.limit && Intact(c, s, T)
    requires s1 == Moved(s, id, s1.clock, Passed).(admitted := s.admitted[id := s.flight[id].at])
    requires s.clock <= s1.clock && |Owed(s1)| <= c.owed
    ensures Intact(c, s1, T)
  {
    hide Kept;
    hide Lost;
    AdmissionCovers(s, id, s1, T);
    OwedGrows(s, id, s1.clock);
    assert Owed(s1) == Owed(s) + {id};
    SubsetSize(AllPassed(s), Owed(s));
    KeptIsFew(s, T);
    UnionSize(Kept(s1, T), Kept(s, T), {id});
  }

  lemma LiveIsFew(s: State, T: int, stall: nat, out: set<nat>)
    requires out * Live(s, T, stall) == {} && out <= s.flight.Keys
    ensures |Live(s, T, stall)| <= |s.flight| - |out|
  {
    assert s.flight.Keys == out + (s.flight.Keys - out);
    forall id | id in Live(s, T, stall)
      ensures id in s.flight.Keys - out
    {
      assert id !in out * Live(s, T, stall);
    }
    SubsetSize(Live(s, T, stall), s.flight.Keys - out);
  }

  lemma LateSweepLeavesFew(c: Config, s: State, id: nat, at: nat, T: int)
    requires Proper(c) && Allowed(c, s, Sweep(id, at)) && s.flight[id].at > T + WINDOW && s.flight[id].at <= s.clock
    ensures |Live(Step(c.limit, s, Sweep(id, at)), T, c.stall)| <= Slack(c.flight, c.stall)
  {
    var s1 := Step(c.limit, s, Sweep(id, at));
    if c.stall == 0 {
      assert Live(s1, T, c.stall) == {};
    } else {
      LiveIsFew(s1, T, c.stall, {id});
    }
  }

  /** A later request may trim the window; it takes one of the places, so at most flight - 1 can still join. */
  lemma LateSweepLeavesWindow(c: Config, s: State, id: nat, at: nat, T: int)
    requires Proper(c) && Tickets(s) && Allowed(c, s, Sweep(id, at)) && Intact(c, s, T)
    requires s.flight[id].at > T + WINDOW
    ensures Past(c, Step(c.limit, s, Sweep(id, at)), T)
  {
    var s1 := Step(c.limit, s, Sweep(id, at));
    assert |InWindow(s1.admitted, T)| <= c.limit + c.owed - 1 + Extra(c) by { WindowSplits(s, T); }
    LateSweepLeavesFew(c, s, id, at, T);
  }

  lemma CountWhenPast(c: Config, s: State, id: nat, at: nat, T: int)
    requires Tickets(s) && Allowed(c, s, Count(id, at)) && Past(c, s, T)
    ensures Past(c, Step(c.limit, s, Count(id, at)), T)
  {
    var s1 := Step(c.limit, s, Count(id, at));
    var live, all := Live(s, T, c.stall), InWindow(s.admitted, T);
    LiveShrinks(c.limit, s, id, at, T, c.stall);
    WindowGrows(s.admitted, id, s.flight[id].at, T);
    assert T < s.flight[id].at <= T + WINDOW ==> id in live;
    hide Live;
    hide InWindow;
    SubsetSize(Live(s1, T, c.stall), live - {id});
    SubsetSize(live - {id}, live);
  }

  lemma LiveShrinks(limit: nat, s: State, id: nat, at: nat, T: int, stall: nat)
    requires Enabled(s, Count(id, at))
    ensures Live(Step(limit, s, Count(id, at)), T, stall) <= Live(s, T, stall) - {id}
  {
  }

  /** An event that is not a count admits nobody and makes no earlier request live. */
  lemma OtherWhenPast(c: Config, s: State, e: Event, T: int)
    requires Tickets(s) && Enabled(s, e) && !e.Count? && Past(c, s, T)
    ensures Past(c, Step(c.limit, s, e), T)
  {
    var s1 := Step(c.limit, s, e);
    assert InWindow(s1.admitted, T) == InWindow(s.admitted, T);
    assert Live(s1, T, c.stall) <= Live(s, T, c.stall);
    SubsetSize(Live(s1, T, c.stall), Live(s, T, c.stall));
  }

  lemma AfterExpiry(limit: nat, s: State, at: nat, T: int)
    requires Enabled(s, Expire(at))
    ensures var s1 := Step(limit, s, Expire(at));
            && Kept(s1, T) <= Kept(s, T) && InWindow(s1.admitted, T) == InWindow(s.admitted, T)
            && Lost(s, T) <= Lost(s1, T) <= Lost(s, T) + s.key.members.Keys
  {
    var s1 := Step(limit, s, Expire(at));
    assert forall id :: InPhase(s1, id, Passed) <==> InPhase(s, id, Passed);
  }

  /** An expiry within the window takes only stored requests under way, and not all of them. */
  lemma ExpiryWithinWindow(c: Config, s: State, at: nat, T: int)
    requires Proper(c) && Inv(c, s) && Allowed(c, s, Expire(at)) && at <= T + WINDOW
    requires |Kept(s, T)| <= c.limit + c.owed - 1 && Lost(s, T) == {}
    ensures Intact(c, Step(c.limit, s, Expire(at)), T)
  {
    var s1 := Step(c.limit, s, Expire(at));
    AfterExpiry(c.limit, s, at, T);
    SubsetSize(Kept(s1, T), Kept(s, T));
    if lost :| lost in Lost(s1, T) {
      assert lost in s.key.members;
      if ExpiryIsLate(c) {
        ExpiryLosesOld(c, s, at);
        assert false;
      }
      var g := YoungMember(s, at, lost);
      forall id | id in Lost(s1, T)
        ensures id in Owed(s) - {g}
      {
        var h := YoungMember(s, at, id);
      }
      SubsetSize(Lost(s1, T), Owed(s) - {g});
    }
  }

  /** An expiry after the window leaves only its live requests. */
  lemma ExpiryAfterWindow(c: Config, s: State, at: nat, T: int)
    requires Proper(c) && Inv(c, s) && Allowed(c, s, Expire(at)) && at > T + WINDOW && Intact(c, s, T)
    ensures WindowInvariant(c, Step(c.limit, s, Expire(at)), T)
  {
    hide Tickets;
    hide Members;
    hide Lifetimes;
    hide Carried;
    hide Single;
    hide Kept;
    hide Lost;
    hide Live;
    var s1 := Step(c.limit, s, Expire(at));
    AfterExpiry(c.limit, s, at, T);
    SubsetSize(Kept(s1, T), Kept(s, T));
    WindowSplits(s, T);
    if Lost(s1, T) != {} {
      ExpiryLeavesFew(c, s, at, T);
    }
  }

  lemma ExpiryLeavesFew(c: Config, s: State, at: nat, T: int)
    requires Proper(c) && Lifetimes(s) && Members(s) && Tickets(s) && Allowed(c, s, Expire(at)) && at > T + WINDOW
    requires Lost(s, T) == {} || s.key.ttl.value > T + KEY_TTL
    requires Lost(Step(c.limit, s, Expire(at)), T) != {}
    ensures |Live(Step(c.limit, s, Expire(at)), T, c.stall)| <= Slack(c.flight, c.stall)
  {
    var s1 := Step(c.limit, s, Expire(at));
    LiveIsFew(s1, T, c.stall, {});
    if c.stall == 0 || (c.stall <= WINDOW && at > T + KEY_TTL) {
      assert Live(s1, T, c.stall) == {};
    } else if c.stall <= WINDOW {
      AfterExpiry(c.limit, s, at, T);
      var lost :| lost in Lost(s1, T);
      assert InPhase(s, lost, Stored) || Timed(s, lost);
      LiveIsFew(s1, T, c.stall, {lost});
    }
  }

  lemma StepKeepsWindow(c: Config, s: State, e: Event, T: int)
    requires Proper(c) && Inv(c, s) && Allowed(c, s, e) && WindowInvariant(c, s, T)
    ensures WindowInvariant(c, Step(c.limit, s, e), T)
  {
    hide Tickets;
    hide Members;
    hide Lifetimes;
    hide Carried;
    hide Past;
    hide Step;
    hide Lost;
    hide Kept;
    if Past(c, s, T) {
      if e.Count? {
        CountWhenPast(c, s, e.id, e.at, T);
      } else {
        OtherWhenPast(c, s, e, T);
      }
    } else {
      match e
      case Read(_, _) => MoveKeepsIntact(c, s, e, T);
      case Add(_, _) => MoveKeepsIntact(c, s, e, T);
      case Touch(_, _) => MoveKeepsIntact(c, s, e, T);
      case Count(id, at) => CountKeepsIntact(c, s, id, at, T);
      case Sweep(id, at) =>
        if s.flight[id].at <= T + WINDOW {
          EarlySweepKeepsIntact(c, s, id, at, T);
        } else {
          LateSweepLeavesWindow(c, s, id, at, T);
        }
      case Expire(at) =>
        if at > T + WINDOW {
          ExpiryAfterWindow(c, s, at, T);
        } else {
          assert Lost(s, T) == {};
          ExpiryWithinWindow(c, s, at, T);
        }
    }
  }

  lemma {:induction false} RunKeepsWindow(c: Config, es: seq<Event>, T: int)
    requires Proper(c) && Legal(c, es)
    ensures WindowInvariant(c, After(c.limit, es), T)
  {
    if |es| == 0 {
      assert InWindow(START.admitted, T) == {};
      assert Kept(START, T) == {} && Lost(START, T) == {};
    } else {
      RunKeepsWindow(c, es[..|es| - 1], T);
      RunKeepsInv(c, es[..|es| - 1]);
      StepKeepsWindow(c, After(c.limit, es[..|es| - 1]), es[|es| - 1], T);
    }
  }

  /**
   * The sliding window under concurrency: no 60 s window of clock readings holds more than limit + owed - 1
   * admissions, plus what stalled counts and an early expiry of the key can add.
   */
  lemma WindowBound(c: Config, es: seq<Event>, T: int)
    requires Proper(c) && Legal(c, es)
    ensures |InWindow(After(c.limit, es).admitted, T)| <= Bound(c)
  {
    RunKeepsWindow(c, es, T);
    WindowSplits(After(c.limit, es), T);
  }

  // ----- Exactness of single decisions -----

  /** Everything admitted is stored, about to be stored, or over 60 s old. */
  ghost predicate Complete(s: State)
  {
    forall id :: id in s.admitted ==> Covered(s, id) || s.admitted[id] + WINDOW <= s.clock
  }

  lemma StepKeepsComplete(c: Config, s: State, e: Event)
    requires Inv(c, s) && Allowed(c, s, e) && ExpiryIsLate(c) && Complete(s)
    ensures Complete(Step(c.limit, s, e))
  {
    if e.Expire? {
      ExpiryLosesOld(c, s, e.at);
    }
    hide Lifetimes;
    hide Carried;
    var s1 := Step(c.limit, s, e);
    forall id | id in s1.admitted
      ensures Covered(s1, id) || s1.admitted[id] + WINDOW <= s1.clock
    {
      assert id in s.admitted ==> Covered(s, id) || s.admitted[id] + WINDOW <= s.clock;
    }
  }

  lemma {:induction false} RunIsComplete(c: Config, es: seq<Event>)
    requires Legal(c, es) && ExpiryIsLate(c)
    ensures Complete(After(c.limit, es))
  {
    if |es| > 0 {
      RunIsComplete(c, es[..|es| - 1]);
      RunKeepsInv(c, es[..|es| - 1]);
      StepKeepsComplete(c, After(c.limit, es[..|es| - 1]), es[|es| - 1]);
    }
  }

  /** Who has trimmed at the present clock sees no member older than 60 s. */
  ghost predicate SeesFresh(s: State)
  {
    forall id, m :: InPhase(s, id, Swept) && s.flight[id].at == s.clock && m in s.key.members ==>
                      s.key.members[m] + WINDOW > s.clock
  }

  /** Nobody adds a member older than 60 s, or there is nobody else to do it. */
  ghost predicate AddsAreFresh(c: Config)
  {
    c.span < WINDOW || c.flight == 1
  }

  lemma Alone(s: State, id: nat, other: nat)
    requires |s.flight| <= 1 && id in s.flight && other in s.flight
    ensures other == id
  {
    if other != id {
      SubsetSize({id, other}, s.flight.Keys);
      assert false;
    }
  }

  lemma AddKeepsFresh(c: Config, s: State, a: nat, at: nat)
    requires Tickets(s) && Allowed(c, s, Add(a, at)) && AddsAreFresh(c) && SeesFresh(s)
    ensures SeesFresh(Step(c.limit, s, Add(a, at)))
  {
    var s1 := Step(c.limit, s, Add(a, at));
    assert InPhase(s1, a, Stored);
    forall id, m | InPhase(s1, id, Swept) && s1.flight[id].at == s1.clock && m in s1.key.members
      ensures s1.key.members[m] + WINDOW > s1.clock
    {
      if c.flight == 1 {
        Alone(s1, id, a);
        assert false;
      }
      assert InPhase(s, id, Swept);
    }
  }

  lemma StepKeepsFresh(c: Config, s: State, e: Event)
    requires Tickets(s) && Members(s) && Allowed(c, s, e) && AddsAreFresh(c) && SeesFresh(s)
    ensures SeesFresh(Step(c.limit, s, e))
  {
    if e.Add? {
      AddKeepsFresh(c, s, e.id, e.at);
    } else {
      var s1 := Step(c.limit, s, e);
      forall id, m | InPhase(s1, id, Swept) && s1.flight[id].at == s1.clock && m in s1.key.members
        ensures s1.key.members[m] + WINDOW > s1.clock
      {
        if !e.Sweep? || id != e.id {
          assert InPhase(s, id, Swept) && s.flight[id].at == s.clock;
        }
      }
    }
  }

  lemma {:induction false} RunSeesFresh(c: Config, es: seq<Event>)
    requires Legal(c, es) && AddsAreFresh(c)
    ensures SeesFresh(After(c.limit, es))
  {
    if |es| > 0 {
      RunSeesFresh(c, es[..|es| - 1]);
      RunKeepsInv(c, es[..|es| - 1]);
      StepKeepsFresh(c, After(c.limit, es[..|es| - 1]), es[|es| - 1]);
    }
  }

  /** A request that counts at the millisecond of its own clock reading. */
  ghost predicate Punctual(c: Config, es: seq<Event>, id: nat)
  {
    var s := After(c.limit, es);
    Legal(c, es) && InPhase(s, id, Swept) && s.flight[id].at == s.clock
  }

  ghost predicate IsAdmitted(limit: nat, s: State, id: nat, at: nat)
  {
    id in Step(limit, s, Count(id, at)).admitted
  }

  lemma AdmittedIff(limit: nat, s: State, id: nat, at: nat)
    requires InPhase(s, id, Swept) && id !in s.admitted && at >= s.clock
    ensures IsAdmitted(limit, s, id, at) <==> |s.key.members| < limit
  {
  }

  /** The member count of a complete state, seen from the window before its clock. */
  lemma CompleteCounts(s: State)
    requires Complete(s) && Members(s)
    ensures |InWindow(s.admitted, s.clock - WINDOW)| <= |s.key.members| + |AllPassed(s)|
  {
    assert InWindow(s.admitted, s.clock - WINDOW) <= s.key.members.Keys + AllPassed(s);
    UnionSize(InWindow(s.admitted, s.clock - WINDOW), s.key.members.Keys, AllPassed(s));
  }

  lemma FreshCounts(s: State, id: nat)
    requires SeesFresh(s) && Members(s) && InPhase(s, id, Swept) && s.flight[id].at == s.clock
    ensures |s.key.members| <= |InWindow(s.admitted, s.clock - WINDOW)|
  {
    assert s.key.members.Keys <= InWindow(s.admitted, s.clock - WINDOW);
    SubsetSize(s.key.members.Keys, InWindow(s.admitted, s.clock - WINDOW));
  }

  /**
   * A punctual request is admitted only when at most limit - 1 admissions lie in its own window, not counting
   * those still to be added, provided that no expiry takes young members; and it is rejected only when at least
   * limit admissions do, provided that nobody adds an old member.
   */
  lemma PunctualDecision(c: Config, es: seq<Event>, id: nat, s: State)
    requires Punctual(c, es, id) && s == After(c.limit, es)
    ensures ExpiryIsLate(c) && IsAdmitted(c.limit, s, id, s.clock) ==>
              |InWindow(s.admitted, s.clock - WINDOW)| <= c.limit - 1 + |AllPassed(s)|
    ensures AddsAreFresh(c) && !IsAdmitted(c.limit, s, id, s.clock) ==>
              |InWindow(s.admitted, s.clock - WINDOW)| >= c.limit
  {
    hide InWindow;
    hide IsAdmitted;
    hide Legal;
    hide Carried;
    hide Lifetimes;
    RunKeepsInv(c, es);
    AdmittedIff(c.limit, s, id, s.clock);
    if ExpiryIsLate(c) {
      RunIsComplete(c, es);
      CompleteCounts(s);
    }
    if AddsAreFresh(c) {
      RunSeesFresh(c, es);
      FreshCounts(s, id);
    }
  }

  // ----- One request at a time -----

  /** The only request under way is before its decision, or there is none such. */
  ghost predicate Undecided(s: State, id: nat)
  {
    id in s.flight && id !in Owed(s)
  }

  ghost predicate OldFor(s: State, t: nat)
  {
    t + WINDOW <= s.clock && forall r :: Undecided(s, r) ==> t + WINDOW <= s.flight[r].at
  }

  ghost predicate Accounted(s: State, id: nat)
    requires id in s.admitted
  {
    Covered(s, id) || s.admitted[id] + KEY_TTL <= s.clock || OldFor(s, s.admitted[id])
  }

  ghost predicate EarlierAdmissions(s: State)
  {
    forall id, r :: id in s.admitted && Undecided(s, r) ==> s.admitted[id] <= s.flight[r].at
  }

  ghost predicate SweptIsClean(s: State)
  {
    forall r, m :: InPhase(s, r, Swept) && m in s.key.members ==> s.key.members[m] + WINDOW > s.flight[r].at
  }

  /** With one request under way, what is missing is too old for it, or the key has expired since. */
  ghost predicate Serial(s: State)
  {
    EarlierAdmissions(s) && SweptIsClean(s) && forall id :: id in s.admitted ==> Accounted(s, id)
  }

  ghost predicate AtMostOne(s: State)
  {
    forall r, o :: r in s.flight && o in s.flight ==> r == o
  }

  lemma OneIsAlone(s: State)
    requires |s.flight| <= 1
    ensures AtMostOne(s)
  {
    forall r, o | r in s.flight && o in s.flight
      ensures r == o
    {
      Alone(s, r, o);
    }
  }

  lemma StepKeepsOrder(limit: nat, s: State, e: Event)
    requires Tickets(s) && Members(s) && Enabled(s, e) && AtMostOne(s) && AtMostOne(Step(limit, s, e))
    requires EarlierAdmissions(s) && SweptIsClean(s)
    ensures EarlierAdmissions(Step(limit, s, e)) && SweptIsClean(Step(limit, s, e))
  {
    var s1 := Step(limit, s, e);
    forall id, r | id in s1.admitted && Undecided(s1, r)
      ensures s1.admitted[id] <= s1.flight[r].at
    {
      if id in s.admitted && r in s.flight {
        assert Undecided(s, r);
      }
    }
    forall r, m | InPhase(s1, r, Swept) && m in s1.key.members
      ensures s1.key.members[m] + WINDOW > s1.flight[r].at
    {
      if e.Add? {
        assert r == e.id;
      } else if !e.Sweep? {
        assert InPhase(s, r, Swept);
      }
    }
  }

  lemma SweepAccounts(limit: nat, s: State, r: nat, at: nat, id: nat)
    requires Tickets(s) && Members(s) && AtMostOne(s) && Enabled(s, Sweep(r, at)) && id in s.admitted
            && Accounted(s, id)
    ensures Accounted(Step(limit, s, Sweep(r, at)), id)
  {
    var s1, t := Step(limit, s, Sweep(r, at)), s.admitted[id];
    assert forall x :: Undecided(s1, x) ==> x == r;
    if OldFor(s, t) || (id in s.key.members && id !in s1.key.members) {
      assert Undecided(s, r);
      assert OldFor(s1, t);
    }
  }

  lemma ExpiryAccounts(limit: nat, s: State, at: nat, id: nat)
    requires Basic(s) && AtMostOne(s) && Enabled(s, Expire(at)) && id in s.admitted && Accounted(s, id)
    ensures Accounted(Step(limit, s, Expire(at)), id)
  {
    var s1, t := Step(limit, s, Expire(at)), s.admitted[id];
    if id in s.key.members && t + KEY_TTL > at {
      assert InPhase(s, id, Stored) && !Timed(s, id);
      assert t + WINDOW < at by {
        if t + WINDOW >= at {
          var g := YoungMember(s, at, id);
          assert false;
        }
      }
      assert OldFor(s1, t);
    } else if OldFor(s, t) {
      assert forall x :: Undecided(s1, x) ==> Undecided(s, x);
    }
  }

  lemma OtherAccounts(limit: nat, s: State, e: Event, id: nat)
    requires Tickets(s) && Members(s) && Enabled(s, e) && !e.Sweep? && !e.Expire? && id in s.admitted
            && Accounted(s, id)
    ensures Accounted(Step(limit, s, e), id)
  {
    var s1, t := Step(limit, s, e), s.admitted[id];
    if OldFor(s, t) {
      forall x | Undecided(s1, x)
        ensures t + WINDOW <= s1.flight[x].at
      {
        assert e.Read? || Undecided(s, x);
      }
    }
  }

  lemma StepKeepsSerial(c: Config, s: State, e: Event)
    requires c.flight == 1 && Inv(c, s) && Allowed(c, s, e) && Serial(s)
    ensures Serial(Step(c.limit, s, e))
  {
    hide Accounted;
    var s1 := Step(c.limit, s, e);
    OneIsAlone(s);
    OneIsAlone(s1);
    StepKeepsOrder(c.limit, s, e);
    forall id | id in s1.admitted
      ensures Accounted(s1, id)
    {
      StepAccounts(c.limit, s, e, id);
    }
  }

  lemma StepAccounts(limit: nat, s: State, e: Event, id: nat)
    requires Basic(s) && AtMostOne(s) && Enabled(s, e) && id in Step(limit, s, e).admitted
    requires id in s.admitted ==> Accounted(s, id)
    ensures Accounted(Step(limit, s, e), id)
  {
    if id !in s.admitted {
      assert Covered(Step(limit, s, e), id);
    } else {
      match e
      case Sweep(r, at) => SweepAccounts(limit, s, r, at, id);
      case Expire(at) => ExpiryAccounts(limit, s, at, id);
      case _ => OtherAccounts(limit, s, e, id);
    }
  }

  lemma {:induction false} RunIsSerial(c: Config, es: seq<Event>)
    requires c.flight == 1 && Legal(c, es)
    ensures Serial(After(c.limit, es))
  {
    if |es| > 0 {
      RunIsSerial(c, es[..|es| - 1]);
      RunKeepsInv(c, es[..|es| - 1]);
      StepKeepsSerial(c, After(c.limit, es[..|es| - 1]), es[|es| - 1]);
    }
  }

  /** What a serialised request counts is exactly its window, when it counts within 60 s of its clock reading. */
  lemma SerialCounts(s: State, id: nat, r: nat)
    requires Tickets(s) && Members(s) && AtMostOne(s) && Serial(s) && InPhase(s, id, Swept)
    requires r == s.flight[id].at && s.clock - r <= WINDOW
    ensures s.key.members.Keys == InWindow(s.admitted, r - WINDOW)
  {
    assert Undecided(s, id);
    forall x | x in InWindow(s.admitted, r - WINDOW)
      ensures x in s.key.members
    {
      assert Accounted(s, x) && !InPhase(s, x, Passed);
    }
  }

  /**
   * Serialised and counting at most 60 s after its clock reading, a request is admitted if and only if fewer
   * than limit admissions lie in its window.
   */
  lemma SerialDecisionIsExact(c: Config, es: seq<Event>, id: nat, at: nat, s: State)
    requires c.flight == 1 && Legal(c, es) && s == After(c.limit, es)
    requires InPhase(s, id, Swept) && s.clock <= at <= s.flight[id].at + WINDOW
    ensures IsAdmitted(c.limit, s, id, at) <==> |InWindow(s.admitted, s.flight[id].at - WINDOW)| < c.limit
  {
    hide InWindow;
    hide IsAdmitted;
    hide Legal;
    hide Serial;
    RunKeepsInv(c, es);
    RunIsSerial(c, es);
    OneIsAlone(s);
    SerialCounts(s, id, s.flight[id].at);
    AdmittedIff(c.limit, s, id, at);
  }

  // ----- The constants -----

  /** What is a minute old or older goes, and the key lives two minutes after the last request that was let in. */
  lemma OneMinuteWindow(k: Store, id: nat, now: nat, at: nat)
    ensures id in AfterTrim(k, now).members <==> id in k.members && k.members[id] > now - 60_000
    ensures id in AfterTrim(k, now).members ==> AfterTrim(k, now).members[id] == k.members[id]
    ensures k.members != map[] ==> AfterTouch(k, at) == Store(k.members, Some(at + 120_000))
  {
  }
}

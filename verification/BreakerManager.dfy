/**
 * The circuit breaker manager: one breaker per provider and model, created on first use.
 */
module BreakerManagers {
  import opened CircuitBreakers

  // ----- Keys -----

  function Key(provider: string, model: string): string
  {
    provider + ['/'] + model
  }

  /** The position of the first slash, or the length of the string. */
  function FirstSlash(s: string): (n: nat)
    ensures n <= |s|
    ensures forall i :: 0 <= i < n ==> s[i] != '/'
    ensures n < |s| ==> s[n] == '/'
  {
    if |s| == 0 || s[0] == '/' then 0
    else
      var n := FirstSlash(s[1..]) + 1;
      assert forall i :: 1 <= i < n ==> s[i] == s[1..][i - 1];
      n
  }

  /** The router's reading of an explicit model name: split at the first slash. */
  function SplitAtSlash(s: string): (r: (string, string))
    requires '/' in s
    ensures Key(r.0, r.1) == s && '/' !in r.0
  {
    var n := FirstSlash(s);
    assert n < |s|;
    assert s == s[..n] + "/" + s[n + 1..];
    (s[..n], s[n + 1..])
  }

  lemma FirstSlashUnique(s: string, n: nat)
    requires n < |s| && s[n] == '/' && forall i :: 0 <= i < n ==> s[i] != '/'
    ensures FirstSlash(s) == n
  {
  }

  /** The router's split recovers provider and model from the key exactly when the provider has no slash. */
  lemma SplitInvertsKey(provider: string, model: string)
    ensures '/' in Key(provider, model)
    ensures SplitAtSlash(Key(provider, model)) == (provider, model) <==> '/' !in provider
  {
    var k := Key(provider, model);
    assert k[|provider|] == '/';
    if '/' !in provider {
      FirstSlashUnique(k, |provider|);
      assert k[..|provider|] == provider;
      assert k[|provider| + 1..] == model;
    }
  }

  /** So for slash-free providers different pairs have different keys ... */
  lemma KeyInjective(p1: string, m1: string, p2: string, m2: string)
    requires '/' !in p1 && '/' !in p2
    requires Key(p1, m1) == Key(p2, m2)
    ensures p1 == p2 && m1 == m2
  {
    SplitInvertsKey(p1, m1);
    SplitInvertsKey(p2, m2);
  }

  /** ... and a slash in a provider name can make two pairs share a breaker. */
  lemma SlashInProviderCollides()
    ensures Key("a/b", "c") == Key("a", "b/c")
  {
    assert Key("a/b", "c") == "a/b/c";
    assert Key("a", "b/c") == "a/b/c";
  }

  /** Another pair with the same key. */
  ghost predicate Collides(p: string, m: string, q: string, n: string)
  {
    (p, m) != (q, n) && Key(p, m) == Key(q, n)
  }

  lemma SlashMoves(a: string, b: string, c: string)
    ensures Collides(a + ['/'] + b, c, a, b + ['/'] + c)
  {
    assert a + ['/'] + b + ['/'] + c == a + ['/'] + (b + ['/'] + c);
  }

  lemma SplitString(s: string, i: nat)
    requires i < |s|
    ensures s == s[..i] + [s[i]] + s[i + 1..]
  {
  }

  /** A pair without any slash is the only one with its key. */
  lemma SlashFreeIsAlone(p: string, m: string, q: string, n: string)
    requires '/' !in p && '/' !in m && Key(p, m) == Key(q, n)
    ensures (p, m) == (q, n)
  {
    var k := Key(p, m);
    assert k[|q|] == '/' by {
      assert Key(q, n)[|q|] == '/';
    }
    assert |q| == |p|;
    assert p == k[..|p|] == q && m == k[|p| + 1..] == n by {
      assert Key(q, n)[..|q|] == q && Key(q, n)[|q| + 1..] == n;
    }
  }

  /** Exactly the pairs with a slash in either part share their breaker with another pair. */
  lemma CollidesIffSlash(p: string, m: string)
    ensures (exists q, n :: Collides(p, m, q, n)) <==> '/' in p || '/' in m
  {
    if '/' in p {
      var i :| 0 <= i < |p| && p[i] == '/';
      SplitString(p, i);
      SlashMoves(p[..i], p[i + 1..], m);
    } else if '/' in m {
      var i :| 0 <= i < |m| && m[i] == '/';
      SplitString(m, i);
      SlashMoves(p, m[..i], m[i + 1..]);
      assert Collides(p, m, p + ['/'] + m[..i], m[i + 1..]);
    } else {
      forall q, n | Key(p, m) == Key(q, n)
        ensures (p, m) == (q, n)
      {
        SlashFreeIsAlone(p, m, q, n);
      }
    }
  }

  // ----- The manager's state as a value -----

  function StateOf(m: map<string, BreakerState>, key: string): BreakerState
  {
    if key in m then m[key] else FRESH
  }

  class BreakerManager {
    const threshold: int
    const cooldown: int
    var breakers: map<string, CircuitBreaker>

    /** Different keys have different breakers, all configured alike. */
    ghost predicate Valid()
      reads this
    {
      && (forall k :: k in breakers ==> breakers[k].threshold == threshold && breakers[k].cooldown == cooldown)
      && (forall k, l :: k in breakers && l in breakers && k != l ==> breakers[k] != breakers[l])
    }

    function States(): (m: map<string, BreakerState>)
      reads this, breakers.Values
    {
      map k | k in breakers :: breakers[k].State()
    }

    constructor (threshold: int, cooldown: int)
      ensures Valid() && States() == map[] && breakers == map[]
      ensures this.threshold == threshold && this.cooldown == cooldown
    {
      this.threshold, this.cooldown := threshold, cooldown;
      breakers := map[];
    }

    method GetOrCreate(key: string) returns (cb: CircuitBreaker)
      requires Valid()
      modifies this
      ensures Valid()
      ensures key in breakers && cb == breakers[key]
      ensures States() == old(States())[key := StateOf(old(States()), key)]
      ensures key in old(breakers) ==> breakers == old(breakers)
      ensures key !in old(breakers) ==> fresh(cb) && breakers == old(breakers)[key := cb]
    {
      if key in breakers {
        cb := breakers[key];
        return;
      }
      cb := new CircuitBreaker(threshold, cooldown);
      breakers := breakers[key := cb];
    }

    /** When one breaker has changed, so has exactly its entry of the states. */
    twostate lemma OneChanged(key: string)
      requires breakers == old(breakers) && key in breakers
      requires forall k :: k in breakers && k != key ==> breakers[k].State() == old(breakers[k].State())
      ensures States() == old(States())[key := breakers[key].State()]
    {
    }

    method Allow(provider: string, model: string, now: int) returns (ok: bool)
      requires Valid()
      modifies this, breakers.Values
      ensures Valid() && fresh(breakers.Values - old(breakers.Values))
      ensures var key := Key(provider, model);
              var r := Allowed(StateOf(old(States()), key), cooldown, now);
              States() == old(States())[key := r.0] && ok == r.1
    {
      hide Allowed;
      hide Key;
      var key := Key(provider, model);
      var cb := GetOrCreate(key);
      assert cb.State() == States()[key];
      label Created:
      ok := cb.Allow(now);
      OneChanged@Created(key);
    }

    method RecordSuccess(provider: string, model: string)
      requires Valid()
      modifies this, breakers.Values
      ensures Valid() && fresh(breakers.Values - old(breakers.Values))
      ensures var key := Key(provider, model);
              States() == old(States())[key := Succeeded(StateOf(old(States()), key))]
    {
      hide Succeeded;
      hide Key;
      var key := Key(provider, model);
      var cb := GetOrCreate(key);
      assert cb.State() == States()[key];
      label Created:
      cb.RecordSuccess();
      OneChanged@Created(key);
    }

    method RecordFailure(provider: string, model: string, now: int)
      requires Valid()
      modifies this, breakers.Values
      ensures Valid() && fresh(breakers.Values - old(breakers.Values))
      ensures var key := Key(provider, model);
              States() == old(States())[key := Failed(StateOf(old(States()), key), threshold, now)]
    {
      hide Failed;
      hide Key;
      var key := Key(provider, model);
      var cb := GetOrCreate(key);
      assert cb.State() == States()[key];
      label Created:
      cb.RecordFailure(now);
      OneChanged@Created(key);
    }
  }

  // ----- Isolation -----

  datatype Call = Call(key: string, event: Event)

  /** One call of the manager: exactly what the class's methods ensure. */
  ghost function Called(m: map<string, BreakerState>, threshold: int, cooldown: int, c: Call): map<string, BreakerState>
  {
    m[c.key := After(StateOf(m, c.key), threshold, cooldown, c.event)]
  }

  ghost function ManagerRun(threshold: int, cooldown: int, calls: seq<Call>): map<string, BreakerState>
  {
    if |calls| == 0 then map[]
    else Called(ManagerRun(threshold, cooldown, calls[..|calls| - 1]), threshold, cooldown, calls[|calls| - 1])
  }

  /** The events of one key, in order. */
  ghost function For(calls: seq<Call>, key: string): seq<Event>
  {
    if |calls| == 0 then []
    else
      var last := calls[|calls| - 1];
      For(calls[..|calls| - 1], key) + (if last.key == key then [last.event] else [])
  }

  lemma RunAppend(threshold: int, cooldown: int, es: seq<Event>, e: Event)
    ensures Run(threshold, cooldown, es + [e]) == After(Run(threshold, cooldown, es), threshold, cooldown, e)
  {
    assert (es + [e])[..|es|] == es;
  }

  /** Each key's breaker is a single breaker run on that key's calls; the others do not matter. */
  lemma {:induction false} KeysAreIsolated(threshold: int, cooldown: int, calls: seq<Call>, key: string)
    ensures StateOf(ManagerRun(threshold, cooldown, calls), key) == Run(threshold, cooldown, For(calls, key))
    ensures key in ManagerRun(threshold, cooldown, calls) <==> exists i :: 0 <= i < |calls| && calls[i].key == key
  {
    if |calls| > 0 {
      var init, last := calls[..|calls| - 1], calls[|calls| - 1];
      KeysAreIsolated(threshold, cooldown, init, key);
      assert calls == init + [last];
      if last.key == key {
        RunAppend(threshold, cooldown, For(init, key), last.event);
      } else {
        assert For(calls, key) == For(init, key);
      }
    }
  }
}

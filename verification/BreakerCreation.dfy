/**
 * The double-checked creation of breakers as a protocol over threads: a first look under the read
 * lock, then, for those that missed, a second look and the creation under the write lock.
 */
module BreakerCreation {

  /** A breaker is known here by the order of its creation. */
  datatype Phase = Start | Missed | Done(breaker: nat)

  datatype Protocol = Protocol(published: map<string, nat>, created: nat, phases: map<nat, Phase>)

  const INITIAL := Protocol(map[], 0, map[])

  function PhaseOf(p: Protocol, thread: nat): Phase
  {
    if thread in p.phases then p.phases[thread] else Start
  }

  /** The next critical section of a thread that asks for `key`. */
  function Step(p: Protocol, thread: nat, key: string): Protocol
  {
    match PhaseOf(p, thread)
    case Done(_) => p
    case Start =>
      p.(phases := p.phases[thread := if key in p.published then Done(p.published[key]) else Missed])
    case Missed =>
      if key in p.published then p.(phases := p.phases[thread := Done(p.published[key])])
      else Protocol(p.published[key := p.created], p.created + 1, p.phases[thread := Done(p.created)])
  }

  /** An interleaving is any order in which the threads run their critical sections. */
  function Run(keyOf: nat -> string, schedule: seq<nat>): Protocol
  {
    if |schedule| == 0 then INITIAL
    else
      var thread := schedule[|schedule| - 1];
      Step(Run(keyOf, schedule[..|schedule| - 1]), thread, keyOf(thread))
  }

  /** What is published is never replaced or withdrawn. */
  lemma {:induction false} PublishedStays(keyOf: nat -> string, schedule: seq<nat>, n: nat, key: string)
    requires n <= |schedule| && key in Run(keyOf, schedule[..n]).published
    ensures key in Run(keyOf, schedule).published
    ensures Run(keyOf, schedule).published[key] == Run(keyOf, schedule[..n]).published[key]
  {
    if n == |schedule| {
      assert schedule[..n] == schedule;
    } else {
      var init := schedule[..|schedule| - 1];
      assert init[..n] == schedule[..n];
      PublishedStays(keyOf, init, n, key);
    }
  }

  /** Every caller holds the breaker published for its key; each breaker made is published, under one key only. */
  lemma {:induction false} CallersShareOneBreaker(keyOf: nat -> string, schedule: seq<nat>)
    ensures var p := Run(keyOf, schedule);
            && (forall t: nat :: PhaseOf(p, t).Done? ==>
                  keyOf(t) in p.published && p.published[keyOf(t)] == PhaseOf(p, t).breaker)
            && (forall k :: k in p.published ==> p.published[k] < p.created)
            && (forall k, l :: k in p.published && l in p.published && p.published[k] == p.published[l] ==> k == l)
            && |p.published| == p.created
  {
    if |schedule| > 0 {
      CallersShareOneBreaker(keyOf, schedule[..|schedule| - 1]);
    }
  }

  /** Two callers of one key that have returned hold the same breaker, in whatever order they ran. */
  lemma SameKeySameBreaker(keyOf: nat -> string, schedule: seq<nat>, t: nat, u: nat)
    requires PhaseOf(Run(keyOf, schedule), t).Done? && PhaseOf(Run(keyOf, schedule), u).Done?
    ensures PhaseOf(Run(keyOf, schedule), t) == PhaseOf(Run(keyOf, schedule), u) <==> keyOf(t) == keyOf(u)
  {
    CallersShareOneBreaker(keyOf, schedule);
  }

  /** Two critical sections are enough for every thread. */
  lemma TwoStepsSuffice(p: Protocol, thread: nat, key: string)
    ensures PhaseOf(Step(Step(p, thread, key), thread, key), thread).Done?
  {
  }
}

/**
 The write gate for prompt-cache prefixes: a lock per key with waiters, where an aborted holder hands the key to the
 first waiter and a written release lets every waiter go. A woken waiter runs only later, so a handoff has a gap in
 which the key is owned by a waiter that does not hold it yet. Every atomic turn is one event; the theorems are about
 every interleaving of events.
 */
module CacheGate {
  import opened Results

  datatype Wake = Released | Handoff

  /** A request is rejected, or waits until woken, or holds its key until it settles, or proceeds without holding. */
  datatype Phase = Waiting | Woken(wake: Wake) | Holding | Settled | Proceeding | Rejected

  datatype Request = Request(key: string, signal: Option<int>, phase: Phase)

  /** Requests are numbered in order of arrival; `held` has the waiters of every held key, first to arrive first. */
  datatype Gate = Gate(held: map<string, seq<nat>>, requests: seq<Request>, aborted: set<int>)

  datatype Event =
    | Acquire(key: string, signal: Option<int>)
    | Release(id: nat)
    | Abort(fired: int)
    | AbortListener(id: nat)
    | Resume(id: nat)

  predicate IsAborted(g: Gate, signal: Option<int>) {
    signal.Some? && signal.value in g.aborted
  }

  function SetPhase(requests: seq<Request>, id: nat, phase: Phase): (r: seq<Request>)
    ensures |r| == |requests|
  {
    if id < |requests| then requests[id := requests[id].(phase := phase)] else requests
  }

  function WakeAll(requests: seq<Request>, waiters: seq<nat>): (r: seq<Request>)
    ensures |r| == |requests|
  {
    seq(|requests|, i requires 0 <= i < |requests| =>
      if i in waiters then requests[i].(phase := Woken(Released)) else requests[i])
  }

  function Waiters(g: Gate, key: string): seq<nat> {
    if key in g.held then g.held[key] else []
  }

  /** The end of a hold, once: hand over to the first waiter if nothing was written, else free the key. */
  function Settle(g: Gate, id: nat, written: bool): Gate {
    if id >= |g.requests| || g.requests[id].phase != Holding then g
    else
      var key := g.requests[id].key;
      var waiters := Waiters(g, key);
      var settled := SetPhase(g.requests, id, Settled);
      if !written && waiters != [] then
        g.(requests := SetPhase(settled, waiters[0], Woken(Handoff)), held := g.held[key := waiters[1..]])
      else
        g.(requests := WakeAll(settled, waiters), held := g.held - {key})
  }

  function Without(waiters: seq<nat>, id: nat): seq<nat> {
    if waiters == [] then []
    else if waiters[0] == id then waiters[1..]
    else [waiters[0]] + Without(waiters[1..], id)
  }

  function Step(g: Gate, e: Event): Gate {
    match e
    case Acquire(key, signal) =>
      var id := |g.requests|;
      if IsAborted(g, signal) then g.(requests := g.requests + [Request(key, signal, Rejected)])
      else if key !in g.held then
        g.(requests := g.requests + [Request(key, signal, Holding)], held := g.held[key := []])
      else
        g.(requests := g.requests + [Request(key, signal, Waiting)], held := g.held[key := g.held[key] + [id]])
    case Release(id) => Settle(g, id, true)
    case Abort(fired) => g.(aborted := g.aborted + {fired})
    case AbortListener(id) =>
      if id >= |g.requests| || !IsAborted(g, g.requests[id].signal) then g
      else if g.requests[id].phase == Waiting then
        var key := g.requests[id].key;
        g.(requests := SetPhase(g.requests, id, Rejected), held := g.held[key := Without(Waiters(g, key), id)])
      else Settle(g, id, false)
    case Resume(id) =>
      if id >= |g.requests| || !g.requests[id].phase.Woken? then g
      else if g.requests[id].phase.wake == Released then g.(requests := SetPhase(g.requests, id, Proceeding))
      else
        var holding := g.(requests := SetPhase(g.requests, id, Holding));
        if IsAborted(g, g.requests[id].signal) then Settle(holding, id, false) else holding
  }

  function Run(g: Gate, events: seq<Event>): Gate {
    if events == [] then g else Step(Run(g, events[..|events| - 1]), events[|events| - 1])
  }

  const EMPTY := Gate(map[], [], {})

  /** Request `id` has its key to itself: it holds it, or was handed it and has not resumed yet. */
  predicate Owns(g: Gate, id: nat) {
    id < |g.requests| && (g.requests[id].phase == Holding || g.requests[id].phase == Woken(Handoff))
  }

  predicate OwnsKey(g: Gate, id: nat, key: string) {
    Owns(g, id) && g.requests[id].key == key
  }

  predicate WaitsFor(g: Gate, id: nat, key: string) {
    id < |g.requests| && g.requests[id].phase == Waiting && g.requests[id].key == key
  }

  predicate Increasing(ids: seq<nat>) {
    forall i, j | 0 <= i < j < |ids| :: ids[i] < ids[j]
  }

  /** A key is held exactly while one request owns it, and its waiters are the waiting requests in order of arrival. */
  ghost predicate KeyInv(g: Gate, key: string) {
    && (key in g.held <==> exists i :: OwnsKey(g, i, key))
    && (forall i, j :: OwnsKey(g, i, key) && OwnsKey(g, j, key) ==> i == j)
    && (forall i :: i in Waiters(g, key) <==> WaitsFor(g, i, key))
    && Increasing(Waiters(g, key))
  }

  ghost predicate Inv(g: Gate) {
    forall key :: KeyInv(g, key)
  }

  lemma {:induction false} WithoutMembers(waiters: seq<nat>, id: nat)
    requires Increasing(waiters)
    ensures forall i :: i in Without(waiters, id) <==> i in waiters && i != id
  {
    if waiters != [] {
      WithoutMembers(waiters[1..], id);
      assert forall i :: i in waiters <==> i == waiters[0] || i in waiters[1..];
      if waiters[0] != id {
        assert forall i :: i in Without(waiters, id) <==> i == waiters[0] || i in Without(waiters[1..], id);
      } else {
        assert forall k | 1 <= k < |waiters| :: waiters[k] == waiters[1..][k - 1];
      }
    }
  }

  lemma {:induction false} WithoutIncreasing(waiters: seq<nat>, id: nat)
    requires Increasing(waiters)
    ensures Increasing(Without(waiters, id))
  {
    if waiters != [] && waiters[0] != id {
      var rest := Without(waiters[1..], id);
      WithoutIncreasing(waiters[1..], id);
      WithoutMembers(waiters[1..], id);
      forall k | 0 <= k < |rest|
        ensures waiters[0] < rest[k]
      {
        assert rest[k] in waiters[1..];
      }
    }
  }

  /** Requests on other keys, and what is held of them, stay as they are. */
  ghost predicate SameForKey(g: Gate, g': Gate, key: string) {
    && (key in g.held <==> key in g'.held) && Waiters(g, key) == Waiters(g', key)
    && (forall i :: OwnsKey(g, i, key) <==> OwnsKey(g', i, key))
    && (forall i :: WaitsFor(g, i, key) <==> WaitsFor(g', i, key))
  }

  /** What a settling hold does to every request: it ends, and either the first waiter or every waiter is woken. */
  lemma SettlePhases(g: Gate, id: nat, written: bool, i: nat)
    requires Inv(g) && id < |g.requests| && g.requests[id].phase == Holding && i < |g.requests|
    ensures var g' := Settle(g, id, written);
      var key := g.requests[id].key;
      var waiters := Waiters(g, key);
      && |g'.requests| == |g.requests| && g'.aborted == g.aborted
      && g'.requests[i] == g.requests[i].(phase :=
           if i == id then Settled
           else if !written && waiters != [] then (if i == waiters[0] then Woken(Handoff) else g.requests[i].phase)
           else if WaitsFor(g, i, key) then Woken(Released) else g.requests[i].phase)
  {
    var key := g.requests[id].key;
    assert KeyInv(g, key);
    if Waiters(g, key) != [] {
      assert Waiters(g, key)[0] in Waiters(g, key);
    }
    assert i in Waiters(g, key) <==> WaitsFor(g, i, key);
  }

  lemma SettleOther(g: Gate, id: nat, written: bool, key: string)
    requires Inv(g) && id < |g.requests| && g.requests[id].phase == Holding && g.requests[id].key != key
    ensures SameForKey(g, Settle(g, id, written), key)
  {
    var g' := Settle(g, id, written);
    assert KeyInv(g, g.requests[id].key);
    if Waiters(g, g.requests[id].key) != [] {
      assert Waiters(g, g.requests[id].key)[0] in Waiters(g, g.requests[id].key);
    }
    forall i: nat
      ensures OwnsKey(g, i, key) <==> OwnsKey(g', i, key)
      ensures WaitsFor(g, i, key) <==> WaitsFor(g', i, key)
    {
      if i < |g.requests| {
        SettlePhases(g, id, written, i);
      }
    }
  }

  lemma SameKeepsInv(g: Gate, g': Gate, key: string)
    requires KeyInv(g, key) && SameForKey(g, g', key)
    ensures KeyInv(g', key)
  {}

  lemma SettleHere(g: Gate, id: nat, written: bool)
    requires Inv(g) && id < |g.requests| && g.requests[id].phase == Holding
    ensures KeyInv(Settle(g, id, written), g.requests[id].key)
  {
    var g' := Settle(g, id, written);
    var key := g.requests[id].key;
    var waiters := Waiters(g, key);
    assert KeyInv(g, key) && OwnsKey(g, id, key);
    forall i: nat | i < |g.requests|
      ensures OwnsKey(g', i, key) <==> !written && waiters != [] && i == waiters[0]
      ensures WaitsFor(g', i, key) <==> !written && waiters != [] && i in waiters[1..]
    {
      SettlePhases(g, id, written, i);
      assert OwnsKey(g, i, key) ==> i == id;
      assert i in waiters <==> WaitsFor(g, i, key);
      if waiters != [] {
        assert i in waiters <==> i == waiters[0] || i in waiters[1..];
        assert waiters[0] in waiters;
        if i in waiters[1..] {
          var k :| 1 <= k < |waiters| && waiters[k] == i;
        }
      }
    }
    if !written && waiters != [] {
      assert waiters[0] in waiters;
      assert OwnsKey(g', waiters[0], key);
      forall i | i in waiters[1..]
        ensures i < |g.requests|
      {
        assert i in waiters;
      }
    }
  }

  lemma SettleKeepsInv(g: Gate, id: nat, written: bool)
    requires Inv(g)
    ensures Inv(Settle(g, id, written))
  {
    if id < |g.requests| && g.requests[id].phase == Holding {
      forall key
        ensures KeyInv(Settle(g, id, written), key)
      {
        if key == g.requests[id].key {
          SettleHere(g, id, written);
        } else {
          SettleOther(g, id, written, key);
          SameKeepsInv(g, Settle(g, id, written), key);
        }
      }
    }
  }

  lemma AcquireKeepsInv(g: Gate, key: string, signal: Option<int>)
    requires Inv(g)
    ensures Inv(Step(g, Acquire(key, signal)))
  {
    var g' := Step(g, Acquire(key, signal));
    var id := |g.requests|;
    forall k
      ensures KeyInv(g', k)
    {
      assert KeyInv(g, k);
      forall i: nat
        ensures OwnsKey(g', i, k) <==> OwnsKey(g, i, k) || (i == id && k == key && g'.requests[id].phase == Holding)
        ensures WaitsFor(g', i, k) <==> WaitsFor(g, i, k) || (i == id && k == key && g'.requests[id].phase == Waiting)
      {}
      var waiters := Waiters(g, k);
      forall n | 0 <= n < |waiters|
        ensures waiters[n] < id
      {
        assert waiters[n] in waiters;
      }
      if k == key && key !in g.held && !IsAborted(g, signal) {
        assert OwnsKey(g', id, key);
      } else if k in g.held {
        var owner :| OwnsKey(g, owner, k);
        assert OwnsKey(g', owner, k);
      }
    }
  }

  lemma AbortListenerKeepsInv(g: Gate, id: nat)
    requires Inv(g)
    ensures Inv(Step(g, AbortListener(id)))
  {
    var g' := Step(g, AbortListener(id));
    if id < |g.requests| && IsAborted(g, g.requests[id].signal) && g.requests[id].phase == Waiting {
      var key := g.requests[id].key;
      forall k
        ensures KeyInv(g', k)
      {
        assert KeyInv(g, k) && KeyInv(g, key) && WaitsFor(g, id, key);
        forall i: nat
          ensures OwnsKey(g', i, k) <==> OwnsKey(g, i, k)
          ensures WaitsFor(g', i, k) <==> WaitsFor(g, i, k) && i != id
        {}
        WithoutMembers(Waiters(g, key), id);
        WithoutIncreasing(Waiters(g, key), id);
      }
    } else {
      SettleKeepsInv(g, id, false);
    }
  }

  lemma ResumeKeepsInv(g: Gate, id: nat)
    requires Inv(g)
    ensures Inv(Step(g, Resume(id)))
  {
    if id < |g.requests| && g.requests[id].phase.Woken? {
      var phase := if g.requests[id].phase.wake == Released then Proceeding else Holding;
      var resumed := g.(requests := SetPhase(g.requests, id, phase));
      forall key
        ensures KeyInv(resumed, key)
      {
        assert KeyInv(g, key);
        SameKeepsInv(g, resumed, key);
      }
      SettleKeepsInv(resumed, id, false);
    }
  }

  /** Mutual exclusion with handoff: what every event keeps. */
  lemma StepKeepsInv(g: Gate, e: Event)
    requires Inv(g)
    ensures Inv(Step(g, e))
  {
    match e
    case Acquire(key, signal) => AcquireKeepsInv(g, key, signal);
    case Release(id) => SettleKeepsInv(g, id, true);
    case Abort(fired) =>
      forall key
        ensures KeyInv(Step(g, e), key)
      {
        SameKeepsInv(g, Step(g, e), key);
      }
    case AbortListener(id) => AbortListenerKeepsInv(g, id);
    case Resume(id) => ResumeKeepsInv(g, id);
  }

  lemma {:induction false} RunKeepsInv(g: Gate, events: seq<Event>)
    requires Inv(g)
    ensures Inv(Run(g, events))
  {
    if events != [] {
      RunKeepsInv(g, events[..|events| - 1]);
      StepKeepsInv(Run(g, events[..|events| - 1]), events[|events| - 1]);
    }
  }

  /** In every state of every run, a key is present exactly when one request owns it, never two. */
  lemma MutualExclusion(events: seq<Event>, key: string)
    ensures var g := Run(EMPTY, events);
      && (key in g.held <==> exists id :: OwnsKey(g, id, key))
      && (forall i, j :: OwnsKey(g, i, key) && OwnsKey(g, j, key) ==> i == j)
  {
    assert forall k :: KeyInv(EMPTY, k);
    RunKeepsInv(EMPTY, events);
    assert KeyInv(Run(EMPTY, events), key);
  }

  /** No waiter is lost: in every state, each waiting request is queued once, behind an owner. */
  lemma NoWaiterLost(events: seq<Event>, id: nat)
    requires var g := Run(EMPTY, events); id < |g.requests| && g.requests[id].phase == Waiting
    ensures var g := Run(EMPTY, events);
      var key := g.requests[id].key;
      && key in g.held && id in g.held[key] && Increasing(g.held[key])
      && exists owner :: owner != id && OwnsKey(g, owner, key)
  {
    var g := Run(EMPTY, events);
    assert forall k :: KeyInv(EMPTY, k);
    RunKeepsInv(EMPTY, events);
    assert KeyInv(g, g.requests[id].key) && WaitsFor(g, id, g.requests[id].key);
    assert id in Waiters(g, g.requests[id].key);
    var owner :| OwnsKey(g, owner, g.requests[id].key);
  }

  // ---- What each event does ----

  /** Everything about `g'` but request `id` and the waiters of `key` is as in `g`, or is added to it. */
  ghost predicate OnlyTouches(g: Gate, g': Gate, id: nat, key: string) {
    && |g.requests| <= |g'.requests| && g'.aborted == g.aborted
    && (forall i: nat | i < |g.requests| && i != id :: g'.requests[i] == g.requests[i])
    && (forall k | k != key :: (k in g'.held <==> k in g.held) && Waiters(g', k) == Waiters(g, k))
  }

  /**
   An acquire adds one request. It is rejected if its signal has fired, and no key changes. Otherwise it owns its key if
   that was free, and is the last waiter of the key, behind the same owner, if it was not.
   */
  lemma AcquireDecides(g: Gate, key: string, signal: Option<int>)
    requires Inv(g)
    ensures var g', id := Step(g, Acquire(key, signal)), |g.requests|;
      && |g'.requests| == id + 1 && g'.requests[id].key == key && g'.requests[id].signal == signal
      && OnlyTouches(g, g', id, key)
      && (if IsAborted(g, signal) then g'.requests[id].phase == Rejected && g'.held == g.held
          else if exists owner :: OwnsKey(g, owner, key) then
            && g'.requests[id].phase == Waiting && Waiters(g', key) == Waiters(g, key) + [id]
            && forall owner :: OwnsKey(g', owner, key) <==> OwnsKey(g, owner, key)
          else g'.requests[id].phase == Holding && OwnsKey(g', id, key) && Waiters(g', key) == [])
  {
    assert KeyInv(g, key);
  }

  /** The abort of a waiter takes it off the list and rejects it, and changes nothing else. */
  lemma WaiterAborts(g: Gate, id: nat)
    requires Inv(g) && id < |g.requests| && g.requests[id].phase == Waiting && IsAborted(g, g.requests[id].signal)
    ensures var g', key := Step(g, AbortListener(id)), g.requests[id].key;
      && OnlyTouches(g, g', id, key) && |g'.requests| == |g.requests|
      && g'.requests[id] == g.requests[id].(phase := Rejected)
      && (key in g'.held <==> key in g.held)
      && forall i :: i in Waiters(g', key) <==> i in Waiters(g, key) && i != id
  {
    var key := g.requests[id].key;
    assert KeyInv(g, key) && WaitsFor(g, id, key);
    assert id in Waiters(g, key);
    WithoutMembers(Waiters(g, key), id);
  }

  /** A waiter that was let go proceeds when it resumes; one handed the key holds it unless its signal fired. */
  lemma ResumeDecides(g: Gate, id: nat)
    requires id < |g.requests| && g.requests[id].phase.Woken?
    requires g.requests[id].phase == Woken(Released) || !IsAborted(g, g.requests[id].signal)
    ensures var g' := Step(g, Resume(id));
      && OnlyTouches(g, g', id, g.requests[id].key) && g'.held == g.held && |g'.requests| == |g.requests|
      && g'.requests[id] == g.requests[id].(phase :=
           if g.requests[id].phase == Woken(Released) then Proceeding else Holding)
  {}

  /** An event that is not due does nothing; a signal that fires is only remembered. */
  lemma NotDue(g: Gate, e: Event)
    requires match e
      case Acquire(_, _) => false
      case Release(id) => id < |g.requests| ==> g.requests[id].phase != Holding
      case Abort(_) => true
      case AbortListener(id) => id < |g.requests| ==>
        !IsAborted(g, g.requests[id].signal) || (g.requests[id].phase != Waiting && g.requests[id].phase != Holding)
      case Resume(id) => id < |g.requests| ==> !g.requests[id].phase.Woken?
    ensures Step(g, e) == g.(aborted := if e.Abort? then g.aborted + {e.fired} else g.aborted)
  {}

  ghost predicate WasReleased(events: seq<Event>, n: nat, id: nat)
    requires n < |events|
  {
    var before := Run(EMPTY, events[..n]);
    && events[n].Release? && events[n].id < |before.requests| && before.requests[events[n].id].phase == Holding
    && WaitsFor(before, id, before.requests[events[n].id].key)
  }

  /** In every run, a request proceeds without the key only after it waited and the holder of its key released it. */
  lemma {:induction false} ProceedsOnlyReleased(events: seq<Event>, id: nat)
    requires var g := Run(EMPTY, events); id < |g.requests| && FateOf(g.requests[id].phase) == LetGo
    ensures exists n | 0 <= n < |events| :: WasReleased(events, n, id)
  {
    var before, e := Run(EMPTY, events[..|events| - 1]), events[|events| - 1];
    assert forall k :: KeyInv(EMPTY, k);
    RunKeepsInv(EMPTY, events[..|events| - 1]);
    if id < |before.requests| && FateOf(before.requests[id].phase) == LetGo {
      ProceedsOnlyReleased(events[..|events| - 1], id);
      var n :| 0 <= n < |events| - 1 && WasReleased(events[..|events| - 1], n, id);
      assert events[..|events| - 1][..n] == events[..n];
      assert WasReleased(events, n, id);
    } else {
      LetGoNow(before, e, id);
      assert WasReleased(events, |events| - 1, id);
    }
  }

  lemma LetGoNow(g: Gate, e: Event, id: nat)
    requires Inv(g) && (id < |g.requests| ==> FateOf(g.requests[id].phase) != LetGo)
    requires id < |Step(g, e).requests| && FateOf(Step(g, e).requests[id].phase) == LetGo
    ensures e.Release? && e.id < |g.requests| && g.requests[e.id].phase == Holding
    ensures WaitsFor(g, id, g.requests[e.id].key)
  {
    if id < |g.requests| {
      StepForward(g, e, id);
    }
    match e
    case Release(holder) =>
      if Step(g, e) != g {
        SettlePhases(g, holder, true, id);
      }
    case AbortListener(other) =>
      if Step(g, e) != g && g.requests[other].phase == Holding {
        SettleFate(g, other, id);
      }
    case Resume(other) =>
      if g.requests[other].phase == Woken(Handoff) {
        ResumeFate(g, other, id);
      }
    case _ =>
  }

  /** A hold that ends unwritten lets nobody go. */
  lemma SettleFate(g: Gate, holder: nat, id: nat)
    requires Inv(g) && holder < |g.requests| && g.requests[holder].phase == Holding
    requires id < |g.requests| && FateOf(g.requests[id].phase) != LetGo
    ensures FateOf(Settle(g, holder, false).requests[id].phase) != LetGo
  {
    SettlePhases(g, holder, false, id);
    var key := g.requests[holder].key;
    assert KeyInv(g, key);
    assert WaitsFor(g, id, key) ==> id in Waiters(g, key);
  }

  lemma ResumeFate(g: Gate, owner: nat, id: nat)
    requires Inv(g) && owner < |g.requests| && g.requests[owner].phase == Woken(Handoff)
    requires id < |g.requests| && FateOf(g.requests[id].phase) != LetGo
    ensures FateOf(Step(g, Resume(owner)).requests[id].phase) != LetGo
  {
    var holding := g.(requests := SetPhase(g.requests, owner, Holding));
    forall k
      ensures KeyInv(holding, k)
    {
      assert KeyInv(g, k);
      SameKeepsInv(g, holding, k);
    }
    if Step(g, Resume(owner)) != holding {
      SettleFate(holding, owner, id);
    }
  }

  // ---- What becomes of each request ----

  /** A request only moves forward: it waits, is woken, holds, and ends. */
  function Rank(phase: Phase): nat {
    match phase
    case Waiting => 0
    case Woken(_) => 1
    case Holding => 2
    case _ => 3
  }

  datatype Fate = Undecided | LetGo | Owner | Refused

  /** How the wait of a request ended, if it has. */
  function FateOf(phase: Phase): Fate {
    match phase
    case Waiting => Undecided
    case Woken(Released) => LetGo
    case Proceeding => LetGo
    case Woken(Handoff) => Owner
    case Holding => Owner
    case Settled => Owner
    case Rejected => Refused
  }

  ghost predicate Forward(before: Request, after: Request) {
    && after.key == before.key && after.signal == before.signal
    && (after.phase == before.phase || Rank(before.phase) < Rank(after.phase))
    && (FateOf(before.phase) != Undecided ==> FateOf(after.phase) == FateOf(before.phase))
  }

  lemma SettleForward(g: Gate, id: nat, written: bool, i: nat)
    requires Inv(g) && i < |g.requests|
    ensures |Settle(g, id, written).requests| == |g.requests|
    ensures Forward(g.requests[i], Settle(g, id, written).requests[i])
  {
    if id < |g.requests| && g.requests[id].phase == Holding {
      SettlePhases(g, id, written, i);
      var key := g.requests[id].key;
      assert KeyInv(g, key);
      if Waiters(g, key) != [] {
        assert Waiters(g, key)[0] in Waiters(g, key);
      }
    }
  }

  lemma StepForward(g: Gate, e: Event, i: nat)
    requires Inv(g) && i < |g.requests|
    ensures i < |Step(g, e).requests| && Forward(g.requests[i], Step(g, e).requests[i])
  {
    match e
    case Acquire(_, _) =>
    case Release(id) => SettleForward(g, id, true, i);
    case Abort(_) =>
    case AbortListener(id) => SettleForward(g, id, false, i);
    case Resume(id) =>
      if id < |g.requests| && g.requests[id].phase == Woken(Handoff) {
        var holding := g.(requests := SetPhase(g.requests, id, Holding));
        forall key
          ensures KeyInv(holding, key)
        {
          assert KeyInv(g, key);
          SameKeepsInv(g, holding, key);
        }
        SettleForward(holding, id, false, i);
      }
  }

  /** Over any run a request moves forward, and once its wait has ended one way it never ends another. */
  lemma {:induction false} RunForward(g: Gate, events: seq<Event>, i: nat)
    requires Inv(g) && i < |g.requests|
    ensures i < |Run(g, events).requests| && Forward(g.requests[i], Run(g, events).requests[i])
  {
    if events != [] {
      var before := events[..|events| - 1];
      RunForward(g, before, i);
      RunKeepsInv(g, before);
      StepForward(Run(g, before), events[|events| - 1], i);
    }
  }

  /** A late or repeated release changes nothing, whoever holds the key by then. */
  lemma LateReleaseIsIdle(g: Gate, events: seq<Event>, id: nat)
    requires Inv(g) && id < |g.requests| && g.requests[id].phase == Settled
    ensures Step(Run(g, events), Release(id)) == Run(g, events)
  {
    RunForward(g, events, id);
  }

  /** A waiter that was let go never owns the key. */
  lemma LetGoNeverOwns(g: Gate, events: seq<Event>, id: nat)
    requires Inv(g) && id < |g.requests| && FateOf(g.requests[id].phase) == LetGo
    ensures !Owns(Run(g, events), id)
  {
    RunForward(g, events, id);
  }

  /** A handoff goes to the earliest request still waiting for the key, and to no other. */
  lemma HandoffToEarliest(g: Gate, e: Event, id: nat)
    requires Inv(g) && id < |g.requests|
    requires g.requests[id].phase == Waiting && Step(g, e).requests[id].phase == Woken(Handoff)
    ensures forall other :: WaitsFor(g, other, g.requests[id].key) ==> id <= other
    ensures forall other :: WaitsFor(Step(g, e), other, g.requests[id].key) <==>
                            WaitsFor(g, other, g.requests[id].key) && other != id
  {
    var key := g.requests[id].key;
    match e
    case Release(holder) => SettleForward(g, holder, true, id); SettlePhases(g, holder, true, id);
    case AbortListener(holder) => SettleEarliest(g, holder, id);
    case Resume(holder) =>
      var holding := g.(requests := SetPhase(g.requests, holder, Holding));
      forall k
        ensures KeyInv(holding, k)
      {
        assert KeyInv(g, k);
        SameKeepsInv(g, holding, k);
      }
      SettleEarliest(holding, holder, id);
      assert forall other :: WaitsFor(holding, other, key) <==> WaitsFor(g, other, key);
  }

  lemma SettleEarliest(g: Gate, holder: nat, id: nat)
    requires Inv(g) && id < |g.requests| && holder < |g.requests| && g.requests[holder].phase == Holding
    requires g.requests[id].phase == Waiting && Settle(g, holder, false).requests[id].phase == Woken(Handoff)
    ensures forall other :: WaitsFor(g, other, g.requests[id].key) ==> id <= other
    ensures forall other :: WaitsFor(Settle(g, holder, false), other, g.requests[id].key) <==>
                            WaitsFor(g, other, g.requests[id].key) && other != id
  {
    var key := g.requests[holder].key;
    assert KeyInv(g, key);
    SettlePhases(g, holder, false, id);
    var waiters := Waiters(g, key);
    assert waiters[0] in waiters;
    forall other: nat | other < |g.requests|
      ensures WaitsFor(g, other, key) ==> id <= other
      ensures WaitsFor(Settle(g, holder, false), other, key) <==> WaitsFor(g, other, key) && other != id
    {
      SettlePhases(g, holder, false, other);
      if WaitsFor(g, other, key) {
        assert other in waiters;
        var n :| 0 <= n < |waiters| && waiters[n] == other;
      }
    }
  }

  /** A release after the write frees the key and wakes every waiter at once. */
  lemma ReleaseWakesAll(g: Gate, id: nat)
    requires Inv(g) && id < |g.requests| && g.requests[id].phase == Holding
    ensures var g' := Step(g, Release(id));
      var key := g.requests[id].key;
      && key !in g'.held && g'.requests[id].phase == Settled
      && |g'.requests| == |g.requests|
      && (forall i: nat | WaitsFor(g, i, key) :: g'.requests[i].phase == Woken(Released))
      && (forall i: nat | i < |g.requests| && i != id && !WaitsFor(g, i, key) :: g'.requests[i] == g.requests[i])
  {
    SettlePhases(g, id, true, id);
    forall i: nat | i < |g.requests| && i != id
      ensures Step(g, Release(id)).requests[i] ==
        if WaitsFor(g, i, g.requests[id].key) then g.requests[i].(phase := Woken(Released)) else g.requests[i]
    {
      SettlePhases(g, id, true, i);
    }
  }

  // ---- How a wait ends ----

  function Position(waiters: seq<nat>, id: nat): (r: nat) {
    if waiters == [] || waiters[0] == id then 0 else 1 + Position(waiters[1..], id)
  }

  lemma {:induction false} PositionAppend(waiters: seq<nat>, more: nat, id: nat)
    requires id in waiters
    ensures Position(waiters + [more], id) == Position(waiters, id)
  {
    assert (waiters + [more])[0] == waiters[0];
    if waiters[0] != id {
      assert (waiters + [more])[1..] == waiters[1..] + [more];
      PositionAppend(waiters[1..], more, id);
    }
  }

  lemma {:induction false} PositionWithout(waiters: seq<nat>, gone: nat, id: nat)
    requires id in waiters && gone != id
    ensures Position(Without(waiters, gone), id) <= Position(waiters, id)
  {
    if waiters[0] != id && waiters[0] != gone {
      assert ([waiters[0]] + Without(waiters[1..], gone))[1..] == Without(waiters[1..], gone);
      PositionWithout(waiters[1..], gone, id);
    }
  }

  predicate HoldsKey(g: Gate, id: nat, key: string) {
    OwnsKey(g, id, key) && g.requests[id].phase == Holding
  }

  /** The turns of owners that request `id` waits for at most: two for each waiter ahead of it, and the owner's own. */
  ghost function Delay(g: Gate, id: nat): nat
    requires id < |g.requests|
  {
    var key := g.requests[id].key;
    2 * Position(Waiters(g, key), id) + if exists i :: HoldsKey(g, i, key) then 1 else 2
  }

  /** What the owner of a key does next: it resumes if it was handed the key, and releases it if it holds it. */
  function OwnerTurn(g: Gate, owner: nat): Event {
    if owner < |g.requests| && g.requests[owner].phase == Holding then Release(owner) else Resume(owner)
  }

  ghost predicate IsTurn(g: Gate, key: string, e: Event) {
    exists owner :: OwnsKey(g, owner, key) && e == OwnerTurn(g, owner)
  }

  lemma DelaySame(g: Gate, g': Gate, id: nat)
    requires id < |g.requests| && id < |g'.requests| && g'.requests[id].key == g.requests[id].key
    requires var key := g.requests[id].key;
      && Position(Waiters(g', key), id) <= Position(Waiters(g, key), id)
      && forall i :: HoldsKey(g, i, key) ==> HoldsKey(g', i, key)
    ensures Delay(g', id) <= Delay(g, id)
  {}

  /** A hold that ends on this key without ending the wait brings the request one place forward. */
  lemma SettleCloser(g: Gate, holder: nat, written: bool, id: nat)
    requires Inv(g) && holder < |g.requests| && g.requests[holder].phase == Holding
    requires id < |g.requests| && g.requests[id].phase == Waiting
    requires Settle(g, holder, written).requests[id].phase == Waiting
    ensures Delay(Settle(g, holder, written), id)
         <= Delay(g, id) - if g.requests[holder].key == g.requests[id].key then 1 else 0
  {
    var g' := Settle(g, holder, written);
    var key := g.requests[id].key;
    SettlePhases(g, holder, written, id);
    assert KeyInv(g, key) && WaitsFor(g, id, key);
    if g.requests[holder].key != key {
      forall i: nat
        ensures HoldsKey(g, i, key) <==> HoldsKey(g', i, key)
      {
        if i < |g.requests| {
          SettlePhases(g, holder, written, i);
          assert i in Waiters(g, g.requests[holder].key) ==> KeyInv(g, g.requests[holder].key);
        }
      }
      SettleOther(g, holder, written, key);
      DelaySame(g, g', id);
    } else {
      assert HoldsKey(g, holder, key);
      assert Waiters(g', key) == Waiters(g, key)[1..];
    }
  }

  lemma ResumeCloser(g: Gate, owner: nat, id: nat)
    requires Inv(g) && owner < |g.requests| && g.requests[owner].phase == Woken(Handoff)
    requires id < |g.requests| && g.requests[id].phase == Waiting
    ensures var holding := g.(requests := SetPhase(g.requests, owner, Holding));
      && Inv(holding) && holding.requests[id] == g.requests[id]
      && Delay(holding, id) <= Delay(g, id) - if g.requests[owner].key == g.requests[id].key then 1 else 0
  {
    var holding := g.(requests := SetPhase(g.requests, owner, Holding));
    var key := g.requests[id].key;
    forall k
      ensures KeyInv(holding, k)
    {
      assert KeyInv(g, k);
      SameKeepsInv(g, holding, k);
    }
    assert KeyInv(g, key);
    if g.requests[owner].key == key {
      assert OwnsKey(g, owner, key) && HoldsKey(holding, owner, key);
      assert forall i :: HoldsKey(g, i, key) ==> i == owner;
    } else {
      DelaySame(g, holding, id);
    }
  }

  /** No event puts a waiting request back, and every turn of the owner of its key brings it closer. */
  lemma StepCloser(g: Gate, e: Event, id: nat)
    requires Inv(g) && id < |g.requests| && g.requests[id].phase == Waiting
    requires id < |Step(g, e).requests| && Step(g, e).requests[id].phase == Waiting
    ensures Delay(Step(g, e), id) <= Delay(g, id) - if IsTurn(g, g.requests[id].key, e) then 1 else 0
  {
    var g' := Step(g, e);
    var key := g.requests[id].key;
    assert KeyInv(g, key) && WaitsFor(g, id, key);
    match e
    case Acquire(_, _) =>
      if Waiters(g', key) != Waiters(g, key) {
        PositionAppend(Waiters(g, key), |g.requests|, id);
      }
      DelaySame(g, g', id);
    case Release(holder) =>
      if g' != g {
        SettleCloser(g, holder, true, id);
      }
    case Abort(_) => DelaySame(g, g', id);
    case AbortListener(other) =>
      if g' != g && g.requests[other].phase == Waiting {
        PositionWithout(Waiters(g, key), other, id);
        DelaySame(g, g', id);
      } else if g' != g {
        SettleCloser(g, other, false, id);
      }
    case Resume(owner) =>
      if g' != g && g.requests[owner].phase == Woken(Released) {
        DelaySame(g, g', id);
      } else if g' != g {
        ResumeCloser(g, owner, id);
        var holding := g.(requests := SetPhase(g.requests, owner, Holding));
        if g' != holding {
          SettleCloser(holding, owner, false, id);
        }
      }
  }

  /** The turns that owners of `key` take in a run. */
  ghost function Turns(g: Gate, key: string, events: seq<Event>): nat {
    if events == [] then 0
    else
      var before := events[..|events| - 1];
      Turns(g, key, before) + if IsTurn(Run(g, before), key, events[|events| - 1]) then 1 else 0
  }

  /** Bounded waiting: in every interleaving, a request still waits only while the owners of its key had few turns. */
  lemma {:induction false} BoundedWait(g: Gate, events: seq<Event>, id: nat)
    requires Inv(g) && id < |g.requests| && id < |Run(g, events).requests|
    requires Run(g, events).requests[id].phase == Waiting
    ensures Turns(g, g.requests[id].key, events) + Delay(Run(g, events), id) <= Delay(g, id)
  {
    if events != [] {
      var before := events[..|events| - 1];
      RunForward(g, before, id);
      RunKeepsInv(g, before);
      StepForward(Run(g, before), events[|events| - 1], id);
      BoundedWait(g, before, id);
      StepCloser(Run(g, before), events[|events| - 1], id);
    } else {
      assert Run(g, events) == g;
    }
  }

  /** Every wait can end, by turns of the owners of its key alone: the request is let go or handed the key. */
  lemma {:induction false} WaitEnds(g: Gate, events: seq<Event>, id: nat) returns (more: seq<Event>)
    requires Inv(g) && id < |g.requests|
    requires id < |Run(g, events).requests| && Run(g, events).requests[id].phase == Waiting
    requires Turns(g, g.requests[id].key, events) == |events|
    ensures events < more && Turns(g, g.requests[id].key, more) == |more| <= Delay(g, id)
    ensures id < |Run(g, more).requests| && FateOf(Run(g, more).requests[id].phase) in {LetGo, Owner}
    decreases Delay(Run(g, events), id)
  {
    hide Delay, Step, Inv, Turns, IsTurn, OwnsKey, OwnerTurn;
    var now := Run(g, events);
    RunForward(g, events, id);
    RunKeepsInv(g, events);
    var turn := SomeTurn(now, id);
    more := events + [turn];
    assert more[..|more| - 1] == events;
    OneMoreTurn(g, g.requests[id].key, events, turn);
    BoundedWait(g, events, id);
    StepForward(now, turn, id);
    TurnEnds(now, turn, id);
    if Run(g, more).requests[id].phase == Waiting {
      more := WaitEnds(g, more, id);
    }
  }

  /** The key that a request waits for has an owner. */
  lemma SomeTurn(g: Gate, id: nat) returns (turn: Event)
    requires Inv(g) && id < |g.requests| && g.requests[id].phase == Waiting
    ensures IsTurn(g, g.requests[id].key, turn)
  {
    var key := g.requests[id].key;
    assert KeyInv(g, key) && WaitsFor(g, id, key);
    assert id in Waiters(g, key);
    var owner :| OwnsKey(g, owner, key);
    turn := OwnerTurn(g, owner);
  }

  lemma OneMoreTurn(g: Gate, key: string, events: seq<Event>, turn: Event)
    requires IsTurn(Run(g, events), key, turn)
    ensures Turns(g, key, events + [turn]) == Turns(g, key, events) + 1
  {
    hide IsTurn;
    assert (events + [turn])[..|events|] == events;
  }

  /** After a turn of the owner the wait goes on, one turn shorter, or the request is let go or handed the key. */
  lemma TurnEnds(g: Gate, turn: Event, id: nat)
    requires Inv(g) && id < |g.requests| && g.requests[id].phase == Waiting
    requires IsTurn(g, g.requests[id].key, turn)
    ensures 0 < Delay(g, id) && id < |Step(g, turn).requests|
    ensures FateOf(Step(g, turn).requests[id].phase) in {Undecided, LetGo, Owner}
    ensures Step(g, turn).requests[id].phase == Waiting ==> Delay(Step(g, turn), id) < Delay(g, id)
  {
    StepForward(g, turn, id);
    if Step(g, turn).requests[id].phase == Waiting {
      StepCloser(g, turn, id);
    }
  }

  // ---- A cascade of aborts ----

  ghost predicate Abortable(g: Gate, id: nat) {
    id < |g.requests| && g.requests[id].signal.Some?
  }

  /** The owner's signal fires: its listener runs if it holds the key, or it notices when it resumes. */
  ghost function OwnerAborts(g: Gate, owner: nat): Gate
    requires Owns(g, owner) && Abortable(g, owner)
  {
    var fired := Step(g, Abort(g.requests[owner].signal.value));
    if g.requests[owner].phase == Holding then Step(fired, AbortListener(owner)) else Step(fired, Resume(owner))
  }

  lemma OwnerAbortsInv(g: Gate, owner: nat)
    requires Inv(g) && Owns(g, owner) && Abortable(g, owner)
    ensures Inv(OwnerAborts(g, owner))
  {
    var fired := Step(g, Abort(g.requests[owner].signal.value));
    StepKeepsInv(g, Abort(g.requests[owner].signal.value));
    StepKeepsInv(fired, AbortListener(owner));
    StepKeepsInv(fired, Resume(owner));
  }

  /** An abort of the owner takes one waiter off the list and makes it the owner, or frees the key. */
  lemma OwnerAbortPasses(g: Gate, owner: nat, key: string)
    requires Inv(g) && OwnsKey(g, owner, key) && Abortable(g, owner)
    ensures var g' := OwnerAborts(g, owner);
      var waiters := Waiters(g, key);
      && |g'.requests| == |g.requests| && g'.requests[owner].phase == Settled
      && (forall i: nat | i < |g.requests| && i != owner && (waiters == [] || i != waiters[0]) ::
            g'.requests[i] == g.requests[i])
      && if waiters == [] then key !in g'.held
         else Waiters(g', key) == waiters[1..] && OwnsKey(g', waiters[0], key)
              && g'.requests[waiters[0]].signal == g.requests[waiters[0]].signal
  {
    assert KeyInv(g, key);
    var waiters := Waiters(g, key);
    if waiters != [] {
      assert waiters[0] in waiters;
    }
    var fired := Step(g, Abort(g.requests[owner].signal.value));
    var holding := fired.(requests := SetPhase(g.requests, owner, Holding));
    assert holding.requests[owner := holding.requests[owner].(phase := Settled)]
        == g.requests[owner := g.requests[owner].(phase := Settled)];
    assert OwnerAborts(g, owner) == Settle(holding, owner, false);
  }

  lemma WaitersApart(g: Gate, owner: nat, key: string)
    requires Inv(g) && OwnsKey(g, owner, key)
    ensures owner !in Waiters(g, key)
    ensures forall i | i in Waiters(g, key) :: i < |g.requests|
    ensures Waiters(g, key) != [] ==> Waiters(g, key)[0] in Waiters(g, key)
    ensures Waiters(g, key) != [] ==> Waiters(g, key)[0] !in Waiters(g, key)[1..]
    ensures forall i | Waiters(g, key) != [] && i in Waiters(g, key)[1..] :: i in Waiters(g, key)
  {
    assert KeyInv(g, key);
  }

  lemma AbortablePasses(g: Gate, owner: nat, key: string)
    requires Inv(g) && OwnsKey(g, owner, key) && Abortable(g, owner) && Waiters(g, key) != []
    requires forall i | i in Waiters(g, key) :: Abortable(g, i)
    ensures var g' := OwnerAborts(g, owner);
      && Inv(g') && OwnsKey(g', Waiters(g, key)[0], key) && Abortable(g', Waiters(g, key)[0])
      && |Waiters(g', key)| < |Waiters(g, key)| && forall i | i in Waiters(g', key) :: Abortable(g', i)
  {
    OwnerAbortsInv(g, owner);
    OwnerAbortPasses(g, owner, key);
    WaitersApart(g, owner, key);
    var g' := OwnerAborts(g, owner);
    var first := Waiters(g, key)[0];
    assert Abortable(g, first);
    forall i | i in Waiters(g', key)
      ensures Abortable(g', i)
    {
      assert Abortable(g, i);
      assert i in Waiters(g, key)[1..] && i != first && i != owner;
    }
  }

  /** Every owner aborts in turn. */
  ghost function AbortAll(g: Gate, owner: nat, key: string): Gate
    requires Inv(g) && OwnsKey(g, owner, key) && Abortable(g, owner)
    requires forall i | i in Waiters(g, key) :: Abortable(g, i)
    decreases |Waiters(g, key)|
  {
    if Waiters(g, key) == [] then OwnerAborts(g, owner)
    else
      AbortablePasses(g, owner, key);
      AbortAll(OwnerAborts(g, owner), Waiters(g, key)[0], key)
  }

  /** A cascade of aborts ends with the key free, and with the owner and every waiter settled. */
  lemma {:induction false} CascadeFreesKey(g: Gate, owner: nat, key: string)
    requires Inv(g) && OwnsKey(g, owner, key) && Abortable(g, owner)
    requires forall i | i in Waiters(g, key) :: Abortable(g, i)
    ensures var end := AbortAll(g, owner, key);
      && key !in end.held && |end.requests| == |g.requests|
      && (forall i: nat | i < |g.requests| && (i == owner || i in Waiters(g, key)) :: end.requests[i].phase == Settled)
      && (forall i: nat | i < |g.requests| && i != owner && i !in Waiters(g, key) :: end.requests[i] == g.requests[i])
    decreases |Waiters(g, key)|
  {
    OwnerAbortsInv(g, owner);
    OwnerAbortPasses(g, owner, key);
    WaitersApart(g, owner, key);
    var waiters := Waiters(g, key);
    if waiters != [] {
      AbortablePasses(g, owner, key);
      CascadeFreesKey(OwnerAborts(g, owner), waiters[0], key);
      assert forall i :: i in waiters <==> i == waiters[0] || i in waiters[1..];
    }
  }

  // ---- The gate itself ----

  /** The module's mutable state: the map of held prefixes, and of every request how far it has come. */
  class PromptCacheGate {
    var heldPrefixes: map<string, seq<nat>>
    var requests: seq<Request>
    var aborted: set<int>

    constructor ()
      ensures View() == EMPTY
    {
      heldPrefixes, requests, aborted := map[], [], {};
    }

    ghost function View(): Gate
      reads this
    {
      Gate(heldPrefixes, requests, aborted)
    }

    /** A rejected request, a new hold, or one more waiter. */
    method AcquirePromptCacheWrite(key: string, signal: Option<int>) returns (id: nat)
      modifies this
      ensures id == old(|requests|) && View() == Step(old(View()), Acquire(key, signal))
      ensures var phase := if signal.Some? && signal.value in old(aborted) then Rejected
                           else if key in old(heldPrefixes) then Waiting else Holding;
        && requests == old(requests) + [Request(key, signal, phase)] && aborted == old(aborted)
        && heldPrefixes ==
             if phase == Rejected then old(heldPrefixes)
             else old(heldPrefixes)[key := if phase == Waiting then old(heldPrefixes)[key] + [id] else []]
    {
      id := |requests|;
      if signal.Some? && signal.value in aborted {
        requests := requests + [Request(key, signal, Rejected)];
        return;
      }
      if key !in heldPrefixes {
        heldPrefixes := heldPrefixes[key := []];
        requests := requests + [Request(key, signal, Holding)];
        return;
      }
      heldPrefixes := heldPrefixes[key := heldPrefixes[key] + [id]];
      requests := requests + [Request(key, signal, Waiting)];
    }

    method SettleHold(id: nat, written: bool)
      modifies `heldPrefixes, `requests
      ensures View() == Settle(old(View()), id, written)
    {
      if id >= |requests| || requests[id].phase != Holding {
        return;
      }
      var key := requests[id].key;
      requests := SetPhase(requests, id, Settled);
      var waiters := if key in heldPrefixes then heldPrefixes[key] else [];
      if !written && |waiters| > 0 {
        heldPrefixes := heldPrefixes[key := waiters[1..]];
        requests := SetPhase(requests, waiters[0], Woken(Handoff));
        return;
      }
      heldPrefixes := heldPrefixes - {key};
      ghost var settled := requests;
      for n := 0 to |waiters|
        invariant heldPrefixes == old(heldPrefixes) - {key} && aborted == old(aborted)
        invariant requests == WakeAll(settled, waiters[..n])
      {
        requests := SetPhase(requests, waiters[n], Woken(Released));
        assert waiters[..n + 1] == waiters[..n] + [waiters[n]];
      }
      assert waiters[..|waiters|] == waiters;
    }

    method ReleaseHold(id: nat)
      modifies `heldPrefixes, `requests
      ensures View() == Step(old(View()), Release(id))
    {
      SettleHold(id, true);
    }

    method FireAbort(signal: int)
      modifies `aborted
      ensures View() == Step(old(View()), Abort(signal))
    {
      aborted := aborted + {signal};
    }

    /** The abort listener of a waiter takes it off the list; that of a holder settles the hold. */
    method RunAbortListener(id: nat)
      modifies `heldPrefixes, `requests
      ensures View() == Step(old(View()), AbortListener(id))
    {
      if id >= |requests| || requests[id].signal.None? || requests[id].signal.value !in aborted {
        return;
      }
      if requests[id].phase == Waiting {
        var key := requests[id].key;
        var waiters := if key in heldPrefixes then heldPrefixes[key] else [];
        heldPrefixes := heldPrefixes[key := Without(waiters, id)];
        requests := SetPhase(requests, id, Rejected);
      } else {
        SettleHold(id, false);
      }
    }

    /** A woken waiter runs again. A holder whose signal fired in the meantime passes the key on at once. */
    method ResumeWaiter(id: nat)
      modifies `heldPrefixes, `requests
      ensures View() == Step(old(View()), Resume(id))
    {
      if id >= |requests| || !requests[id].phase.Woken? {
        return;
      }
      if requests[id].phase.wake == Released {
        requests := SetPhase(requests, id, Proceeding);
        return;
      }
      requests := SetPhase(requests, id, Holding);
      if requests[id].signal.Some? && requests[id].signal.value in aborted {
        SettleHold(id, false);
      }
    }
  }
}

/** The per-session semaphore of internal/session/executor.go: one-slot channels made on demand. */
module Executor {

  type Id = string
  type Caller = nat

  datatype Outcome = Entered | Cancelled | Waiting | Left | Stuck

  /** pickCancel resolves a select in which both the slot and the cancellation are ready. */
  datatype Event =
    | Acquire(caller: Caller, session: Id, cancelled: bool, pickCancel: bool)
    | Release(caller: Caller)

  /** slots: how full each channel is; inside: the callers between Acquire and Release. */
  datatype State = State(slots: map<Id, nat>, inside: map<Caller, Id>)

  const START := State(map[], map[])

  /** A caller acquires once at a time and releases only what it has acquired. */
  predicate Possible(s: State, e: Event) {
    match e
    case Acquire(caller, _, _, _) => caller !in s.inside
    case Release(caller) => caller in s.inside
  }

  function Step(s: State, e: Event): (State, Outcome) {
    match e
    case Acquire(caller, id, cancelled, pickCancel) =>
      var slots := if id in s.slots then s.slots else s.slots[id := 0];
      if slots[id] < 1 && !(cancelled && pickCancel) then
        (State(slots[id := slots[id] + 1], s.inside[caller := id]), Entered)
      else (s.(slots := slots), if cancelled then Cancelled else Waiting)
    case Release(caller) =>
      if caller !in s.inside then (s, Stuck)
      else
        var id := s.inside[caller];
        if id !in s.slots then (s.(inside := s.inside - {caller}), Left)
        else if s.slots[id] == 0 then (s, Stuck)
        else (State(s.slots[id := s.slots[id] - 1], s.inside - {caller}), Left)
  }

  class SerializedExecutor {
    var sessionLocks: map<Id, nat>
    ghost var inside: map<Caller, Id>

    ghost function View(): State
      reads this
    {
      State(sessionLocks, inside)
    }

    constructor ()
      ensures View() == START
    {
      sessionLocks, inside := map[], map[];
    }

    method LockFor(id: Id) returns (length: nat)
      modifies this`sessionLocks
      ensures sessionLocks == if id in old(sessionLocks) then old(sessionLocks) else old(sessionLocks)[id := 0]
      ensures id in sessionLocks && length == sessionLocks[id]
    {
      if id !in sessionLocks {
        sessionLocks := sessionLocks[id := 0];
      }
      length := sessionLocks[id];
    }

    method Acquire(caller: Caller, id: Id, cancelled: bool, pickCancel: bool) returns (outcome: Outcome)
      modifies this
      ensures (View(), outcome) == Step(old(View()), Event.Acquire(caller, id, cancelled, pickCancel))
    {
      var length := LockFor(id);
      if length < 1 && !(cancelled && pickCancel) {
        sessionLocks := sessionLocks[id := length + 1];
        inside := inside[caller := id];
        outcome := Entered;
      } else {
        outcome := if cancelled then Cancelled else Waiting;
      }
    }

    method Release(ghost caller: Caller, id: Id) returns (outcome: Outcome)
      requires caller in inside && inside[caller] == id
      modifies this
      ensures (View(), outcome) == Step(old(View()), Event.Release(caller))
    {
      outcome := Left;
      if id in sessionLocks {
        if sessionLocks[id] == 0 {
          return Stuck;
        }
        sessionLocks := sessionLocks[id := sessionLocks[id] - 1];
      }
      inside := inside - {caller};
    }
  }

  // ---- Mutual exclusion ----

  predicate Inside(s: State, c: Caller, id: Id) {
    c in s.inside && s.inside[c] == id
  }

  /** The slots count the callers inside, of which each session has at most one. */
  ghost predicate Exclusive(s: State) {
    && (forall c, d, id :: Inside(s, c, id) && Inside(s, d, id) ==> c == d)
    && (forall c, id :: Inside(s, c, id) ==> id in s.slots && s.slots[id] == 1)
    && (forall id | id in s.slots :: s.slots[id] <= 1 && (s.slots[id] == 1 ==> exists c :: Inside(s, c, id)))
  }

  lemma StepKeepsExclusive(s: State, e: Event)
    requires Exclusive(s) && Possible(s, e)
    ensures Exclusive(Step(s, e).0)
  {
    var s' := Step(s, e).0;
    match e
    case Acquire(caller, session, _, _) =>
      assert Step(s, e).1 == Entered ==> Inside(s', caller, session);
      assert forall c, id :: c != caller ==> Inside(s', c, id) == Inside(s, c, id);
    case Release(caller) =>
      assert Inside(s, caller, s.inside[caller]);
      assert forall c, id :: c != caller ==> Inside(s', c, id) == Inside(s, c, id);
  }

  predicate IsRun(s: State, events: seq<Event>)
    decreases |events|
  {
    events == [] || (Possible(s, events[0]) && IsRun(Step(s, events[0]).0, events[1..]))
  }

  function Final(s: State, events: seq<Event>): State
    decreases |events|
  {
    if events == [] then s else Final(Step(s, events[0]).0, events[1..])
  }

  lemma {:induction false} RunsExclude(s: State, events: seq<Event>)
    requires Exclusive(s) && IsRun(s, events)
    ensures Exclusive(Final(s, events))
    decreases |events|
  {
    hide Step, Exclusive;
    if events != [] {
      StepKeepsExclusive(s, events[0]);
      RunsExclude(Step(s, events[0]).0, events[1..]);
    }
  }

  /** In every run: no two callers are inside one session, a caller has to wait exactly when another
      is inside the same session and it is not cancelled, and no release ever blocks. */
  lemma SessionsAreSerialized(events: seq<Event>, e: Event)
    requires IsRun(START, events) && Possible(Final(START, events), e)
    ensures var s := Final(START, events);
            && (forall c, d, id :: Inside(s, c, id) && Inside(s, d, id) ==> c == d)
            && (e.Acquire? ==>
                  var taken := exists c :: Inside(s, c, e.session);
                  && (Step(s, e).1 == Waiting <==> taken && !e.cancelled)
                  && (Step(s, e).1 == Entered <==> !taken && !(e.cancelled && e.pickCancel))
                  && (Step(s, e).1 == Cancelled <==> e.cancelled && (taken || e.pickCancel))
                  && (if Step(s, e).1 == Entered then Step(s, e).0.inside == s.inside[e.caller := e.session]
                      else Step(s, e).0.inside == s.inside))
            && (e.Release? ==> Step(s, e).1 == Left && Step(s, e).0.inside == s.inside - {e.caller})
  {
    hide IsRun, Final;
    RunsExclude(START, events);
    var s := Final(START, events);
    if e.Release? {
      assert Inside(s, e.caller, s.inside[e.caller]);
    }
  }
}

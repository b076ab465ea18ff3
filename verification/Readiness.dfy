/** Workspace readiness: the $/progress tokens of internal/lsp/client.go, the readiness waits that
    block on them, and what client_notify.go reports as indexed. */
module Readiness {

  type Token = string

  datatype Progress = Progress(tokens: set<Token>, stale: set<Token>, seen: bool, loaded: bool)

  const FRESH := Progress({}, {}, false, false)

  /** What the server, other waits and a restart do to the state, each under the mutex. */
  datatype Event =
    | Create(token: Token)
    | Begin(token: Token)
    | Report(token: Token)
    | End(token: Token)
    | MarkStale
    | MarkLoaded
    | Reset

  function Apply(p: Progress, e: Event): Progress {
    match e
    case Create(t) => p.(tokens := p.tokens + {t})
    case Begin(t) =>
      p.(tokens := p.tokens + {t}, stale := p.stale - {t}, seen := true, loaded := p.loaded && p.seen)
    case Report(t) => p
    case End(t) => p.(tokens := p.tokens - {t}, stale := p.stale - {t})
    case MarkStale => p.(stale := p.stale + p.tokens)
    case MarkLoaded => p.(loaded := true)
    case Reset => FRESH
  }

  function ApplyAll(p: Progress, es: seq<Event>): Progress
    decreases |es|
  {
    if es == [] then p else ApplyAll(Apply(p, es[0]), es[1..])
  }

  function Pending(p: Progress, skipStale: bool): set<Token> {
    if skipStale then p.tokens - p.stale else p.tokens
  }

  // ---- One wait ----

  datatype Clock = Clock(expired: bool, cancelled: bool)

  datatype Wait = Grace | Blocking | Done | GraceOver | Cancelled | TimedOut

  predicate Ended(w: Wait) {
    !w.Grace? && !w.Blocking?
  }

  /** One pass through the wait's loop while it holds the mutex. */
  function Check(p: Progress, skipStale: bool, w: Wait, clock: Clock): (Progress, Wait) {
    match w
    case Grace =>
      if Pending(p, skipStale) == {} then (p, if clock.expired || clock.cancelled then GraceOver else Grace)
      else (p, if clock.cancelled then Cancelled else Blocking)
    case Blocking =>
      if Pending(p, skipStale) == {} then (p, Done)
      else if clock.cancelled then (p, Cancelled)
      else if clock.expired then (if skipStale then Apply(p, MarkStale) else p, TimedOut)
      else (p, Blocking)
    case _ => (p, w)
  }

  /** What happened while the wait slept on the condition variable, and the clock when it woke. */
  datatype Wakeup = Wakeup(events: seq<Event>, clock: Clock)

  function WaitRun(p: Progress, skipStale: bool, w: Wait, clock: Clock, env: seq<Wakeup>): (Wait, Progress)
    decreases |env|
  {
    var (p', w') := Check(p, skipStale, w, clock);
    if Ended(w') || env == [] then (w', p')
    else WaitRun(ApplyAll(p', env[0].events), skipStale, w', env[0].clock, env[1..])
  }

  lemma WaitSleeps(p: Progress, skipStale: bool, w: Wait, clock: Clock, env: seq<Wakeup>)
    requires env != [] && Check(p, skipStale, w, clock).0 == p && !Ended(Check(p, skipStale, w, clock).1)
    ensures WaitRun(p, skipStale, w, clock, env)
         == WaitRun(ApplyAll(p, env[0].events), skipStale, Check(p, skipStale, w, clock).1, env[0].clock, env[1..])
  {}

  lemma WaitReturns(p: Progress, skipStale: bool, w: Wait, clock: Clock, env: seq<Wakeup>)
    requires env == [] || Ended(Check(p, skipStale, w, clock).1)
    ensures WaitRun(p, skipStale, w, clock, env)
         == (Check(p, skipStale, w, clock).1, Check(p, skipStale, w, clock).0)
  {}

  lemma {:induction false} ApplyAllSplit(p: Progress, a: seq<Event>, b: seq<Event>)
    ensures ApplyAll(p, a + b) == ApplyAll(ApplyAll(p, a), b)
    decreases |a|
  {
    hide Apply;
    if a == [] {
      assert a + b == b;
    } else {
      assert (a + b)[1..] == a[1..] + b;
      ApplyAllSplit(Apply(p, a[0]), a[1..], b);
    }
  }

  /** Everything that happened while a wait slept through the given wakeups. */
  function Happened(env: seq<Wakeup>): seq<Event>
    decreases |env|
  {
    if env == [] then [] else Happened(env[..|env| - 1]) + env[|env| - 1].events
  }

  /** The clock after some of the wakeups. */
  function ClockAfter(first: Clock, env: seq<Wakeup>, woken: nat): Clock
    requires woken <= |env|
  {
    if woken == 0 then first else env[woken - 1].clock
  }

  lemma OneMoreWakeup(p: Progress, env: seq<Wakeup>, i: nat)
    requires i < |env|
    ensures ApplyAll(p, Happened(env[..i + 1])) == ApplyAll(ApplyAll(p, Happened(env[..i])), env[i].events)
  {
    assert env[..i + 1][..i] == env[..i];
    ApplyAllSplit(p, Happened(env[..i]), env[i].events);
  }

  lemma NothingHappened(p: Progress, env: seq<Wakeup>)
    ensures ApplyAll(p, Happened(env[..0])) == p
  {}

  /** What every wait satisfies, whatever happens meanwhile. */
  ghost predicate WaitedRight(before: Progress, skipStale: bool, extended: bool, first: Clock, env: seq<Wakeup>, woken: nat,
                              end: Wait, after: Progress)
    requires woken <= |env|
  {
    var now, atEnd := ClockAfter(first, env, woken), ApplyAll(before, Happened(env[..woken]));
    && after == (if end == TimedOut && skipStale then Apply(atEnd, MarkStale) else atEnd)
    && (end == Done ==> Pending(after, skipStale) == {})
    && (end == GraceOver ==> extended && Pending(after, skipStale) == {} && (now.expired || now.cancelled))
    && (end == Cancelled ==> now.cancelled && Pending(after, skipStale) != {})
    && (end == TimedOut ==> now.expired && !now.cancelled && Pending(atEnd, skipStale) != {}
                            && (skipStale ==> Pending(after, true) == {} && atEnd.tokens <= after.stale))
    && (end == Blocking ==> woken == |env| && !now.cancelled && Pending(after, skipStale) != {})
    && (end == Grace ==> woken == |env| && extended && !now.cancelled && !now.expired && Pending(after, skipStale) == {})
    && (!extended ==> forall k: nat | k < woken :: Sleeps(before, skipStale, first, env, k))
  }

  lemma NotExtended(before: Progress, skipStale: bool, extended: bool, first: Clock, env: seq<Wakeup>, woken: nat,
                    end: Wait, after: Progress)
    requires woken <= |env| && WaitedRight(before, skipStale, false, first, env, woken, end, after)
    ensures WaitedRight(before, skipStale, extended, first, env, woken, end, after)
  {
    hide Apply, ApplyAll, Happened, Pending;
  }

  lemma {:induction false} HappenedSplit(env: seq<Wakeup>, i: nat, n: nat)
    requires i + n <= |env|
    ensures Happened(env[..i + n]) == Happened(env[..i]) + Happened(env[i..][..n])
    decreases n
  {
    if n == 0 {
      assert env[i..][..0] == [] && Happened([]) == [];
    } else {
      HappenedSplit(env, i, n - 1);
      assert env[..i + n][..i + n - 1] == env[..i + n - 1] && env[i..][..n][..n - 1] == env[i..][..n - 1];
    }
  }

  /** A wait that blocks after its grace period. */
  lemma WaitedOn(before: Progress, middle: Progress, skipStale: bool, first: Clock, clock: Clock, env: seq<Wakeup>, i: nat,
                 woken: nat, end: Wait, after: Progress)
    requires 0 < i && i + woken <= |env| && clock == env[i - 1].clock && middle == ApplyAll(before, Happened(env[..i]))
    requires WaitedRight(middle, skipStale, false, clock, env[i..], woken, end, after)
    ensures WaitedRight(before, skipStale, true, first, env, i + woken, end, after)
  {
    HappenedSplit(env, i, woken);
    ApplyAllSplit(before, Happened(env[..i]), Happened(env[i..][..woken]));
    hide Apply, ApplyAll, Happened, Pending, Sleeps;
    assert woken > 0 ==> env[i..][woken - 1] == env[i + woken - 1];
  }

  /** After k wakeups a wait that is not extended has a reason to sleep on: something is pending, and
      it is neither cancelled nor past its deadline. */
  predicate Sleeps(before: Progress, skipStale: bool, first: Clock, env: seq<Wakeup>, k: nat)
    requires k <= |env|
  {
    && Pending(ApplyAll(before, Happened(env[..k])), skipStale) != {}
    && !ClockAfter(first, env, k).cancelled && !ClockAfter(first, env, k).expired
  }

  function StartOf(p: Progress, skipStale: bool, extended: bool): Wait {
    if Pending(p, skipStale) == {} && extended then Grace else Blocking
  }

  lemma OneMore(all: set<Token>, rest: set<Token>, t: Token)
    requires rest <= all && t in rest
    ensures all - (rest - {t}) == (all - rest) + {t} && t !in all - rest
  {}

  lemma CountOneMore(a: set<Token>, b: set<Token>, t: Token)
    requires t !in a
    ensures |(a + {t}) - b| == |a - b| + (if t in b then 0 else 1)
  {
    assert (a + {t}) - b == if t in b then a - b else (a - b) + {t};
  }

  // ---- The client's fields ----

  class ProgressTracker {
    var progressTokens: set<Token>
    var staleProgress: set<Token>
    var seenProgress: bool
    var workspaceLoaded: bool

    function View(): Progress
      reads this
    {
      Progress(progressTokens, staleProgress, seenProgress, workspaceLoaded)
    }

    constructor ()
      ensures View() == FRESH
    {
      progressTokens, staleProgress, seenProgress, workspaceLoaded := {}, {}, false, false;
    }

    method RegisterToken(token: Token)
      modifies this
      ensures View() == Apply(old(View()), Create(token))
    {
      progressTokens := progressTokens + {token};
    }

    method HandleBegin(token: Token)
      modifies this
      ensures View() == Apply(old(View()), Begin(token))
    {
      progressTokens := progressTokens + {token};
      staleProgress := staleProgress - {token};
      if !seenProgress {
        seenProgress := true;
        workspaceLoaded := false;
      }
    }

    method HandleEnd(token: Token)
      modifies this
      ensures View() == Apply(old(View()), End(token))
    {
      progressTokens := progressTokens - {token};
      staleProgress := staleProgress - {token};
    }

    /** The progress part of Restart. */
    method ResetForRestart()
      modifies this
      ensures View() == Apply(old(View()), Reset)
    {
      progressTokens, staleProgress, seenProgress := {}, {}, false;
      workspaceLoaded := false;
    }

    method MarkActiveStale()
      modifies this
      ensures View() == Apply(old(View()), MarkStale)
    {
      var rest := progressTokens;
      while rest != {}
        invariant rest <= progressTokens
        invariant staleProgress == old(staleProgress) + (progressTokens - rest)
        invariant unchanged(`progressTokens) && unchanged(`seenProgress) && unchanged(`workspaceLoaded)
        decreases |rest|
      {
        var token :| token in rest;
        OneMore(progressTokens, rest, token);
        staleProgress := staleProgress + {token};
        rest := rest - {token};
      }
    }

    method PendingProgress(skipStale: bool) returns (n: nat)
      ensures n == |Pending(View(), skipStale)|
    {
      if !skipStale {
        return |progressTokens|;
      }
      n := 0;
      var rest := progressTokens;
      while rest != {}
        invariant rest <= progressTokens
        invariant n == |(progressTokens - rest) - staleProgress|
        decreases |rest|
      {
        var token :| token in rest;
        OneMore(progressTokens, rest, token);
        CountOneMore(progressTokens - rest, staleProgress, token);
        rest := rest - {token};
        if token !in staleProgress {
          n := n + 1;
        }
      }
      assert progressTokens - {} == progressTokens;
    }

    /** Other goroutines run while the wait sleeps. */
    method Interleave(events: seq<Event>)
      modifies this
      ensures View() == ApplyAll(old(View()), events)
    {
      for i := 0 to |events|
        invariant ApplyAll(View(), events[i..]) == ApplyAll(old(View()), events)
      {
        assert events[i..][1..] == events[i + 1..];
        match events[i] {
          case Create(t) => RegisterToken(t);
          case Begin(t) => HandleBegin(t);
          case Report(t) =>
          case End(t) => HandleEnd(t);
          case MarkStale => MarkActiveStale();
          case MarkLoaded => workspaceLoaded := true;
          case Reset => ResetForRestart();
        }
      }
    }

    /** The loop of waitForProgress that blocks. */
    method BlockOnProgress(skipStale: bool, first: Clock, env: seq<Wakeup>) returns (end: Wait, ghost woken: nat)
      modifies this
      ensures (end, View()) == WaitRun(old(View()), skipStale, Blocking, first, env)
      ensures woken <= |env| && WaitedRight(old(View()), skipStale, false, first, env, woken, end, View())
      ensures end.Done? || end.TimedOut? || end.Cancelled? || end.Blocking?
      ensures Pending(old(View()), skipStale) == {} ==> end == Done && woken == 0 && View() == old(View())
    {
      hide Apply, ApplyAll, WaitRun, Pending, Happened;
      var clock, i := first, 0;
      NothingHappened(View(), env);
      var pending := PendingProgress(skipStale);
      while pending > 0
        invariant 0 <= i <= |env| && pending == |Pending(View(), skipStale)|
        invariant clock == ClockAfter(first, env, i) && View() == ApplyAll(old(View()), Happened(env[..i]))
        invariant forall k: nat | k < i :: Sleeps(old(View()), skipStale, first, env, k)
        invariant Pending(old(View()), skipStale) == {} ==> i == 0
        invariant WaitRun(View(), skipStale, Blocking, clock, env[i..])
               == WaitRun(old(View()), skipStale, Blocking, first, env)
        decreases |env| - i
      {
        if clock.cancelled || clock.expired {
          WaitReturns(View(), skipStale, Blocking, clock, env[i..]);
          if clock.cancelled {
            return Cancelled, i;
          }
          if skipStale {
            AllStale(View());
            MarkActiveStale();
          }
          return TimedOut, i;
        }
        if i == |env| {
          WaitReturns(View(), skipStale, Blocking, clock, env[i..]);
          return Blocking, i;
        }
        WaitSleeps(View(), skipStale, Blocking, clock, env[i..]);
        assert env[i..][1..] == env[i + 1..];
        OneMoreWakeup(old(View()), env, i);
        Interleave(env[i].events);
        clock, i := env[i].clock, i + 1;
        pending := PendingProgress(skipStale);
      }
      WaitReturns(View(), skipStale, Blocking, clock, env[i..]);
      return Done, i;
    }

    /** waitForProgress: the grace loop for the first token, then the loop that blocks. A result of
        Grace or Blocking means the wait is still asleep when the given wakeups are used up. */
    method WaitForProgress(skipStale: bool, extended: bool, first: Clock, env: seq<Wakeup>)
        returns (end: Wait, ghost woken: nat)
      modifies this
      ensures (end, View()) == WaitRun(old(View()), skipStale, StartOf(old(View()), skipStale, extended), first, env)
      ensures woken <= |env| && WaitedRight(old(View()), skipStale, extended, first, env, woken, end, View())
      ensures end == Done ==> Pending(View(), skipStale) == {}
      ensures Pending(old(View()), skipStale) == {} && !extended ==> end == Done && woken == 0 && View() == old(View())
    {
      hide Apply, ApplyAll, WaitRun, Pending, Happened;
      var clock, i := first, 0;
      NothingHappened(View(), env);
      var pending := PendingProgress(skipStale);
      if pending == 0 && extended {
        while pending == 0
          invariant 0 <= i <= |env| && pending == |Pending(View(), skipStale)|
          invariant clock == ClockAfter(first, env, i) && View() == ApplyAll(old(View()), Happened(env[..i]))
          invariant WaitRun(View(), skipStale, Grace, clock, env[i..])
                 == WaitRun(old(View()), skipStale, Grace, first, env)
          decreases |env| - i
        {
          if clock.expired || clock.cancelled {
            WaitReturns(View(), skipStale, Grace, clock, env[i..]);
            return GraceOver, i;
          }
          if i == |env| {
            WaitReturns(View(), skipStale, Grace, clock, env[i..]);
            return Grace, i;
          }
          WaitSleeps(View(), skipStale, Grace, clock, env[i..]);
          assert env[i..][1..] == env[i + 1..];
          OneMoreWakeup(old(View()), env, i);
          Interleave(env[i].events);
          clock, i := env[i].clock, i + 1;
          pending := PendingProgress(skipStale);
        }
        if clock.cancelled {
          WaitReturns(View(), skipStale, Grace, clock, env[i..]);
          return Cancelled, i;
        }
        if i == |env| {
          WaitReturns(View(), skipStale, Grace, clock, env[i..]);
          return Blocking, i;
        }
        WaitSleeps(View(), skipStale, Grace, clock, env[i..]);
        assert env[i..][1..] == env[i + 1..];
        OneMoreWakeup(old(View()), env, i);
        Interleave(env[i].events);
        clock, i := env[i].clock, i + 1;
        ghost var middle := View();
        end, woken := BlockOnProgress(skipStale, clock, env[i..]);
        WaitedOn(old(View()), middle, skipStale, first, clock, env, i, woken, end, View());
        woken := i + woken;
        return;
      }
      end, woken := BlockOnProgress(skipStale, first, env);
      NotExtended(old(View()), skipStale, extended, first, env, woken, end, View());
    }

    /** What tools report as indexed. */
    method IsWorkspaceLoaded() returns (indexed: bool)
      ensures indexed <==> workspaceLoaded && staleProgress !! progressTokens
    {
      if !workspaceLoaded {
        return false;
      }
      var rest := staleProgress;
      while rest != {}
        invariant rest <= staleProgress
        invariant (staleProgress - rest) !! progressTokens
        decreases |rest|
      {
        var token :| token in rest;
        if token in progressTokens {
          return false;
        }
        rest := rest - {token};
      }
      return true;
    }
  }

  lemma AllStale(p: Progress)
    ensures Pending(Apply(p, MarkStale), true) == {} && p.tokens <= Apply(p, MarkStale).stale
  {}

  // ---- What is active, and what counts as loaded ----

  predicate Ends(e: Event, t: Token) {
    e == End(t) || e == Reset
  }

  predicate StartsToken(e: Event, t: Token) {
    e == Create(t) || e == Begin(t)
  }

  predicate Unended(es: seq<Event>, t: Token) {
    forall e | e in es :: !Ends(e, t)
  }

  /** The token was created or begun and has not ended since. */
  predicate Running(es: seq<Event>, t: Token)
    decreases |es|
  {
    es != [] && ((StartsToken(es[0], t) && Unended(es[1..], t)) || Running(es[1..], t))
  }

  /** A token is active exactly when it was created or begun and has neither ended nor been reset
      since. */
  lemma {:induction false} ActiveIffRunning(p: Progress, es: seq<Event>, t: Token)
    ensures t in ApplyAll(p, es).tokens <==> Running(es, t) || (t in p.tokens && Unended(es, t))
    decreases |es|
  {
    if es != [] {
      ActiveIffRunning(Apply(p, es[0]), es[1..], t);
      assert es == [es[0]] + es[1..];
      assert Unended(es, t) <==> !Ends(es[0], t) && Unended(es[1..], t);
    }
  }

  /** Whether the server has reported any progress since it started. */
  function SeenAfter(seen: bool, es: seq<Event>): bool
    decreases |es|
  {
    if es == [] then seen else SeenAfter(es[0] != Reset && (seen || es[0].Begin?), es[1..])
  }

  /** No restart, and no first progress of the server. */
  predicate Undisturbed(seen: bool, es: seq<Event>) {
    forall e | e in es :: e != Reset && (e.Begin? ==> seen)
  }

  predicate LoadedSince(seen: bool, es: seq<Event>)
    decreases |es|
  {
    es != [] &&
    ((es[0] == MarkLoaded && Undisturbed(seen, es[1..])) || LoadedSince(SeenAfter(seen, es[..1]), es[1..]))
  }

  /** The workspace counts as loaded exactly when some wait has marked it so and neither a restart nor
      the server's first progress has come after that. */
  lemma {:induction false} LoadedIffMarked(p: Progress, es: seq<Event>)
    ensures ApplyAll(p, es).seen == SeenAfter(p.seen, es)
    ensures ApplyAll(p, es).loaded <==> LoadedSince(p.seen, es) || (p.loaded && Undisturbed(p.seen, es))
    decreases |es|
  {
    if es != [] {
      var e, rest := es[0], es[1..];
      LoadedIffMarked(Apply(p, e), rest);
      assert es[..1] == [e] && [e][1..] == [];
      assert SeenAfter(p.seen, [e]) == SeenAfter(Apply(p, e).seen, []) == Apply(p, e).seen;
      assert es == [e] + rest;
      assert Undisturbed(p.seen, es) <==> e != Reset && (e.Begin? ==> p.seen) && Undisturbed(p.seen, rest);
    }
  }

  // ---- Runs with any number of concurrent waits ----

  datatype Waiter = Waiter(skipStale: bool, state: Wait)
  datatype System = System(progress: Progress, waiters: map<nat, Waiter>)

  /** A server event or a restart, a wait that starts, or one pass of a wait's loop. A default
      wait (skipStale) marks the workspace loaded some time after it has ended. */
  datatype Action =
    | Server(event: Event)
    | Start(id: nat, skipStale: bool, extended: bool)
    | Pass(id: nat, clock: Clock)
    | Finish(id: nat)

  predicate Enabled(s: System, a: Action) {
    match a
    case Server(e) => !e.MarkStale? && !e.MarkLoaded?
    case Start(id, _, _) => id !in s.waiters
    case Pass(id, _) => id in s.waiters && !Ended(s.waiters[id].state)
    case Finish(id) => id in s.waiters && s.waiters[id].skipStale && Ended(s.waiters[id].state)
  }

  function Next(s: System, a: Action): System
    requires Enabled(s, a)
  {
    match a
    case Server(e) => s.(progress := Apply(s.progress, e))
    case Start(id, skip, extended) =>
      s.(waiters := s.waiters[id := Waiter(skip, StartOf(s.progress, skip, extended))])
    case Pass(id, clock) =>
      var w := s.waiters[id];
      var (p, state) := Check(s.progress, w.skipStale, w.state, clock);
      System(p, s.waiters[id := w.(state := state)])
    case Finish(id) => s.(progress := Apply(s.progress, MarkLoaded))
  }

  /** A default wait ends by timeout in this step. */
  predicate IsTimeout(s: System, a: Action)
    requires Enabled(s, a)
  {
    a.Pass? && s.waiters[a.id].skipStale
    && Check(s.progress, true, s.waiters[a.id].state, a.clock).1 == TimedOut
  }

  predicate IsStart(a: Action) {
    a.Server? && (a.event.Create? || a.event.Begin?)
  }

  ghost predicate IsRun(s: System, actions: seq<Action>)
    decreases |actions|
  {
    actions == [] || (Enabled(s, actions[0]) && IsRun(Next(s, actions[0]), actions[1..]))
  }

  ghost function Final(s: System, actions: seq<Action>): System
    requires IsRun(s, actions)
    decreases |actions|
  {
    if actions == [] then s else Final(Next(s, actions[0]), actions[1..])
  }

  ghost function Timeouts(s: System, actions: seq<Action>): nat
    requires IsRun(s, actions)
    decreases |actions|
  {
    if actions == [] then 0
    else (if IsTimeout(s, actions[0]) then 1 else 0) + Timeouts(Next(s, actions[0]), actions[1..])
  }

  function Starts(actions: seq<Action>): nat {
    if actions == [] then 0 else (if IsStart(actions[0]) then 1 else 0) + Starts(actions[1..])
  }

  lemma EventCost(p: Progress, e: Event)
    requires !e.MarkStale?
    ensures |Pending(Apply(p, e), true)| <= |Pending(p, true)| + (if e.Create? || e.Begin? then 1 else 0)
  {
    var before, after := Pending(p, true), Pending(Apply(p, e), true);
    match e {
      case Create(t) =>
        assert after == if t in p.stale then before else before + {t};
      case Begin(t) =>
        assert after == before + {t};
      case End(t) =>
        assert after == before - {t};
      case Reset =>
        assert after == {};
      case _ =>
        assert after == before;
    }
  }

  lemma TimeoutSettlesAll(p: Progress)
    ensures Pending(Apply(p, MarkStale), true) == {}
  {}

  lemma TimeoutCost(s: System, a: Action)
    requires Enabled(s, a)
    ensures (if IsTimeout(s, a) then 1 else 0) + |Pending(Next(s, a).progress, true)|
         <= |Pending(s.progress, true)| + (if IsStart(a) then 1 else 0)
  {
    hide Apply;
    match a
    case Server(e) => EventCost(s.progress, e);
    case Finish(_) => EventCost(s.progress, MarkLoaded);
    case Pass(_, _) => TimeoutSettlesAll(s.progress);
    case _ =>
  }

  /** A stuck token is paid for once: however many waits run concurrently, the default waits that
      end by timeout are at most the begin and create events. */
  lemma {:induction false} StuckTokenPaidOnce(s: System, actions: seq<Action>)
    requires IsRun(s, actions)
    ensures Timeouts(s, actions) + |Pending(Final(s, actions).progress, true)|
         <= |Pending(s.progress, true)| + Starts(actions)
    decreases |actions|
  {
    if actions != [] {
      TimeoutCost(s, actions[0]);
      StuckTokenPaidOnce(Next(s, actions[0]), actions[1..]);
    }
  }

  /** Stale tokens are always active tokens. */
  lemma {:induction false} StaleIsActive(s: System, actions: seq<Action>)
    requires IsRun(s, actions) && s.progress.stale <= s.progress.tokens
    ensures Final(s, actions).progress.stale <= Final(s, actions).progress.tokens
    decreases |actions|
  {
    if actions != [] {
      StaleIsActive(Next(s, actions[0]), actions[1..]);
    }
  }

  predicate Indexed(p: Progress) {
    p.loaded && p.stale !! p.tokens
  }

  /** In every reachable state the workspace is indexed exactly when it was marked loaded and no
      token has outlasted a wait. */
  lemma IndexedMeansNothingStale(actions: seq<Action>)
    requires IsRun(System(FRESH, map[]), actions)
    ensures var p := Final(System(FRESH, map[]), actions).progress;
            Indexed(p) <==> p.loaded && p.stale == {}
  {
    StaleIsActive(System(FRESH, map[]), actions);
  }

  predicate Settles(a: Action, t: Token) {
    a.Server? && (a.event == Begin(t) || a.event == End(t) || a.event == Reset)
  }

  predicate Unsettled(actions: seq<Action>, t: Token) {
    forall a | a in actions :: !Settles(a, t)
  }

  /** At some step a default wait timed out while t was active, and nothing has settled t since. */
  ghost predicate LeftBehind(s: System, actions: seq<Action>, t: Token)
    requires IsRun(s, actions)
    decreases |actions|
  {
    actions != [] &&
    ((IsTimeout(s, actions[0]) && t in s.progress.tokens && Unsettled(actions[1..], t))
     || LeftBehind(Next(s, actions[0]), actions[1..], t))
  }

  lemma StaleStep(s: System, a: Action, t: Token)
    requires Enabled(s, a)
    ensures t in Next(s, a).progress.stale <==>
            (IsTimeout(s, a) && t in s.progress.tokens) || (t in s.progress.stale && !Settles(a, t))
  {}

  /** A token is stale exactly when it outlasted some default wait and has neither ended nor begun
      again, and the server has not been restarted, since. */
  lemma {:induction false} StaleIffLeftBehind(s: System, actions: seq<Action>, t: Token)
    requires IsRun(s, actions)
    ensures t in Final(s, actions).progress.stale <==>
            (t in s.progress.stale && Unsettled(actions, t)) || LeftBehind(s, actions, t)
    decreases |actions|
  {
    if actions != [] {
      var a, rest, s' := actions[0], actions[1..], Next(s, actions[0]);
      hide Next, IsTimeout;
      StaleIffLeftBehind(s', rest, t);
      StaleStep(s, a, t);
      assert actions == [a] + rest;
      assert Unsettled(actions, t) <==> !Settles(a, t) && Unsettled(rest, t);
    }
  }

  /** After a timed-out default wait the workspace does not read as indexed while any token then
      active has neither ended nor begun again. */
  lemma TimedOutStaysUnindexed(s: System, a: Action, actions: seq<Action>, t: Token)
    requires Enabled(s, a) && IsTimeout(s, a) && IsRun(Next(s, a), actions)
    requires s.progress.stale <= s.progress.tokens
    requires t in s.progress.tokens && Unsettled(actions, t)
    ensures !Indexed(Final(Next(s, a), actions).progress)
  {
    StaleStep(s, a, t);
    StaleIsActive(Next(s, a), actions);
    StaleIffLeftBehind(Next(s, a), actions, t);
  }
}

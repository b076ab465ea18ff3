/** Diagnostics settling: the publication counters and versions of internal/lsp/client.go and the
    wait of internal/lsp/diagnostics.go that decides whether "no errors" may be trusted. */
module Diagnostics {
  import opened Wrappers

  type Uri = string

  /** diagGen, diagVersion and the versions of openDocs. */
  datatype Store = Store(gen: map<Uri, nat>, version: map<Uri, int>, sent: map<Uri, nat>)

  const EMPTY := Store(map[], map[], map[])

  datatype Event =
    | Send(uri: Uri)                            // OpenDocument: didOpen or didChange
    | Close(uri: Uri)                           // CloseDocument
    | Publish(uri: Uri, version: Option<int>)   // textDocument/publishDiagnostics
    | Forget(uri: Uri)                          // ResetDiagnostics
    | Restart

  function Gen(s: Store, uri: Uri): nat {
    if uri in s.gen then s.gen[uri] else 0
  }

  function Reported(s: Store, uri: Uri): Option<int> {
    if uri in s.version then Some(s.version[uri]) else None
  }

  function Apply(s: Store, e: Event): Store {
    match e
    case Send(u) => s.(sent := s.sent[u := if u in s.sent then s.sent[u] + 1 else 1])
    case Close(u) => s.(sent := s.sent - {u})
    case Publish(u, v) =>
      Store(s.gen[u := Gen(s, u) + 1], if v.Some? then s.version[u := v.value] else s.version - {u}, s.sent)
    case Forget(u) => s.(version := s.version - {u})
    case Restart => Store(s.gen, map[], map[])
  }

  function ApplyAll(s: Store, es: seq<Event>): Store
    decreases |es|
  {
    if es == [] then s else Apply(ApplyAll(s, es[..|es| - 1]), es[|es| - 1])
  }

  // ---- Classifying one file ----

  datatype Mark = Mark(gen: nat, version: nat)

  datatype Coverage = Covered | Silent | Stale

  function Classify(s: Store, uri: Uri, mark: Mark): Coverage {
    var version := Reported(s, uri);
    if mark.version > 0 && version.Some? && version.value >= mark.version then Covered
    else if Gen(s, uri) == mark.gen then Silent
    else if mark.version > 0 && version.Some? then Stale
    else Covered
  }

  // ---- The wait ----

  const QUIET_WINDOW := 500

  /** What other goroutines do before the counter and before the classification of one file. */
  datatype Read = Read(beforeGen: seq<Event>, beforeCoverage: seq<Event>)

  /** One wakeup of the wait's loop: whether the context has ended, the reads of the poll in the
      order they are made, and the time at the poll and after it. */
  datatype Tick = Tick(cancelled: bool, polls: seq<Read>, readTime: int, endTime: int)

  function ReadAt(t: Tick, j: nat): Read {
    if j < |t.polls| then t.polls[j] else Read([], [])
  }

  datatype Outcome = Settled | NotSettled | ContextEnded | StillWaiting

  lemma {:induction false} ApplyAllSplit(s: Store, a: seq<Event>, b: seq<Event>)
    ensures ApplyAll(s, a + b) == ApplyAll(ApplyAll(s, a), b)
    decreases |b|
  {
    hide Apply;
    if b == [] {
      assert a + b == a;
    } else {
      assert (a + b)[..|a + b| - 1] == a + b[..|b| - 1];
      ApplyAllSplit(s, a, b[..|b| - 1]);
    }
  }

  /** The state in which file u was last classified, when `at` records how many events of the trace
      had happened then. */
  function StateWhen(s: Store, trace: seq<Event>, at: map<Uri, nat>, u: Uri): Store {
    if u in at && at[u] <= |trace| then ApplyAll(s, trace[..at[u]]) else s
  }

  /** When it was last classified, the file was covered, or silent if that may be. */
  predicate Accounted(s: Store, trace: seq<Event>, at: map<Uri, nat>, u: Uri, mark: Mark, mayBeSilent: bool) {
    u in at && at[u] <= |trace| &&
    var c := Classify(StateWhen(s, trace, at, u), u, mark);
    c == Covered || (c == Silent && mayBeSilent)
  }

  lemma EarlierReadStays(s: Store, before: seq<Event>, at0: map<Uri, nat>, more: seq<Event>, at: map<Uri, nat>, u: Uri)
    requires u in at0 && u in at && at[u] == at0[u] <= |before|
    ensures StateWhen(s, before + more, at, u) == StateWhen(s, before, at0, u)
  {
    assert (before + more)[..at[u]] == before[..at0[u]];
  }

  lemma StateNow(s: Store, trace: seq<Event>, at: map<Uri, nat>, u: Uri)
    requires u in at && at[u] == |trace|
    ensures StateWhen(s, trace, at, u) == ApplyAll(s, trace)
  {
    assert trace[..|trace|] == trace;
  }

  lemma ReadsStay(s: Store, before: seq<Event>, trace: seq<Event>, us: set<Uri>, at0: map<Uri, nat>, at: map<Uri, nat>)
    requires before <= trace
    requires forall u | u in us :: u in at0 && u in at && at[u] == at0[u] <= |before|
    ensures forall u | u in us :: StateWhen(s, trace, at, u) == StateWhen(s, before, at0, u)
  {
    forall u | u in us ensures StateWhen(s, trace, at, u) == StateWhen(s, before, at0, u) {
      assert before + trace[|before|..] == trace;
      EarlierReadStays(s, before, at0, trace[|before|..], at, u);
    }
  }

  lemma LaterReadShifts(s: Store, before: seq<Event>, more: seq<Event>, at0: map<Uri, nat>, at: map<Uri, nat>, u: Uri)
    requires u in at0 && at0[u] <= |more| && u in at && at[u] == |before| + at0[u]
    ensures StateWhen(s, before + more, at, u) == StateWhen(ApplyAll(s, before), more, at0, u)
  {
    assert (before + more)[..at[u]] == before + more[..at0[u]];
    ApplyAllSplit(s, before, more[..at0[u]]);
  }

  class DiagnosticsStore {
    var diagGen: map<Uri, nat>
    var diagVersion: map<Uri, int>
    var openVersions: map<Uri, nat>
    const republishesUnchanged: bool

    function View(): Store
      reads this
    {
      Store(diagGen, diagVersion, openVersions)
    }

    constructor (republishes: bool)
      ensures View() == EMPTY && republishesUnchanged == republishes
    {
      diagGen, diagVersion, openVersions, republishesUnchanged := map[], map[], map[], republishes;
    }

    method HandlePublishDiagnostics(uri: Uri, version: Option<int>)
      modifies this
      ensures View() == Apply(old(View()), Publish(uri, version))
    {
      diagGen := diagGen[uri := (if uri in diagGen then diagGen[uri] else 0) + 1];
      if version.Some? {
        diagVersion := diagVersion[uri := version.value];
      } else {
        diagVersion := diagVersion - {uri};
      }
    }

    method OpenDocument(uri: Uri)
      modifies this
      ensures View() == Apply(old(View()), Send(uri))
    {
      if uri in openVersions {
        openVersions := openVersions[uri := openVersions[uri] + 1];
      } else {
        openVersions := openVersions[uri := 1];
      }
    }

    method CloseDocument(uri: Uri)
      modifies this
      ensures View() == Apply(old(View()), Close(uri))
    {
      openVersions := openVersions - {uri};
    }

    method ResetDiagnostics(uri: Uri)
      modifies this
      ensures View() == Apply(old(View()), Forget(uri))
    {
      diagVersion := diagVersion - {uri};
    }

    method ResetForRestart()
      modifies this
      ensures View() == Apply(old(View()), Restart)
    {
      openVersions := map[];
      diagVersion := map[];
    }

    method MarkDiagnostics(uri: Uri) returns (mark: Mark)
      ensures mark == Mark(Gen(View(), uri), 0)
    {
      mark := Mark(CountOf(uri), 0);
    }

    function CountOf(uri: Uri): (n: nat)
      reads this
      ensures n == Gen(View(), uri)
    {
      if uri in diagGen then diagGen[uri] else 0
    }

    method Interleave(events: seq<Event>)
      modifies this
      ensures View() == ApplyAll(old(View()), events)
    {
      for i := 0 to |events|
        invariant View() == ApplyAll(old(View()), events[..i])
      {
        assert events[..i + 1][..i] == events[..i];
        match events[i] {
          case Send(u) => OpenDocument(u);
          case Close(u) => CloseDocument(u);
          case Publish(u, v) => HandlePublishDiagnostics(u, v);
          case Forget(u) => ResetDiagnostics(u);
          case Restart => ResetForRestart();
        }
      }
      assert events[..|events|] == events;
    }

    /** One poll over all targets. `trace` is what happened meanwhile; `read` and `at` tell how much of
        it had happened when the counter of each file was read and when the file was classified. */
    method Poll(targets: map<Uri, Mark>, tick: Tick, seenGen: map<Uri, nat>)
        returns (allCovered: bool, anyStale: bool, changed: bool, seen: map<Uri, nat>,
                 ghost trace: seq<Event>, ghost read: map<Uri, nat>, ghost at: map<Uri, nat>)
      modifies this
      ensures View() == ApplyAll(old(View()), trace)
      ensures ReadOk(old(View()), trace, read, targets.Keys, seenGen, seen, changed)
      ensures ClassOk(old(View()), trace, at, targets.Keys, targets, allCovered, anyStale)
    {
      NothingRead(View(), seenGen, targets);
      hide Apply, ApplyAll, Classify, Gen, ReadOk, ClassOk;
      allCovered, anyStale, changed, seen := true, false, false, seenGen;
      trace, read, at := [], map[], map[];
      var rest, j := targets.Keys, 0;
      ghost var done := {};
      while rest != {}
        invariant rest !! done && rest + done == targets.Keys
        invariant View() == ApplyAll(old(View()), trace)
        invariant ReadOk(old(View()), trace, read, done, seenGen, seen, changed)
        invariant ClassOk(old(View()), trace, at, done, targets, allCovered, anyStale)
        decreases rest
      {
        var uri :| uri in rest;
        ghost var before := trace;
        Interleave(ReadAt(tick, j).beforeGen);
        ghost var middle := trace + ReadAt(tick, j).beforeGen;
        ApplyAllSplit(old(View()), before, ReadAt(tick, j).beforeGen);
        var gen := CountOf(uri);
        ReadStep(old(View()), before, middle, read, done, seenGen, seen, changed, uri, gen);
        if uri !in seen || gen != seen[uri] {
          changed := true;
        }
        seen := seen[uri := gen];
        read := read[uri := |middle|];
        Interleave(ReadAt(tick, j).beforeCoverage);
        trace := middle + ReadAt(tick, j).beforeCoverage;
        ApplyAllSplit(old(View()), middle, ReadAt(tick, j).beforeCoverage);
        ReadLasts(old(View()), middle, trace, read, done + {uri}, seenGen, seen, changed);
        var c := Classify(View(), uri, targets[uri]);
        ClassStep(old(View()), before, trace, at, done, targets, allCovered, anyStale, uri, c);
        at := at[uri := |trace|];
        rest, done, j := rest - {uri}, done + {uri}, j + 1;
        if c == Stale {
          allCovered, anyStale := false, true;
        } else if c == Silent {
          allCovered := false;
        }
      }
    }

    /** WaitForDiagnosticsSettled, woken as `ticks` say. `trace` is everything that happened meanwhile;
        `last` is the number of polls; `log` tells how much had happened when each poll read the
        counter of each file, after an entry for the start of the wait, and `ats` how much when each
        poll classified each file. */
    method WaitSettled(uris: set<Uri>, marks: map<Uri, Mark>, ticks: seq<Tick>, start: int, timeoutMs: int)
        returns (out: Outcome, ghost trace: seq<Event>, ghost log: seq<map<Uri, nat>>, ghost ats: seq<map<Uri, nat>>,
                 ghost last: nat)
      modifies this
      ensures View() == ApplyAll(old(View()), trace)
      ensures last <= |ticks| && |log| == last + 1 && |ats| == last && ReadsOk(trace, log, uris)
      ensures uris == {} ==> out == Settled && last == 0
      // nothing was seen to be published in the 500 ms before a settled wait ends
      ensures out == Settled && uris != {} ==>
                last > 0 && QuietFor(trace, log, uris, ticks, start, ticks[last - 1].endTime, 500)
      ensures out == Settled && uris != {} && ClockRuns(ticks, start) ==>
                && ticks[last - 1].endTime - start >= 500
                && forall j: nat | j < last && Moved(trace, log, uris, j) :: ticks[last - 1].endTime - ticks[j].readTime >= 500
      // and the first poll that covers every file behind such a window ends the wait
      ensures FirstSettles(old(View()), trace, log, ats, uris, marks, ticks, start, out)
      ensures uris != {} && out != ContextEnded ==>
                out == Verdict(old(View()), trace, log, if last == 0 then map[] else ats[last - 1],
                               Targets(old(View()), marks, uris), ticks, start, timeoutMs, republishesUnchanged)
      ensures out == ContextEnded ==> last < |ticks| && ticks[last].cancelled
      ensures out == StillWaiting ==> last == |ticks| && forall t | t in ticks :: !t.cancelled
    {
      hide ApplyAll, Gen, ReadOk, ClassOk, Verdict, Targets, QuietFor, ReadsOk, WaitInv, FirstSettles, Moved, Shifted;
      var seen := map u | u in uris :: CountOf(u);
      trace, last, ats, log := [], 0, [], [Opening(uris)];
      WaitOpens(View(), uris, marks, seen, ticks, start, timeoutMs, republishesUnchanged);
      if uris == {} {
        return Settled, trace, log, ats, last;
      }
      var targets := Targets(View(), marks, uris);
      TargetKeys(View(), marks, uris);
      var lastPublish := start;
      for i := 0 to |ticks|
        invariant last == i && View() == ApplyAll(old(View()), trace)
        invariant WaitInv(old(View()), trace, log, ats, i, uris, marks, seen, lastPublish, ticks, start, timeoutMs, republishesUnchanged)
        invariant forall t | t in ticks[..i] :: !t.cancelled
      {
        WaitInvMeans(old(View()), trace, log, ats, i, uris, marks, seen, lastPublish, ticks, start, timeoutMs, republishesUnchanged);
        if ticks[i].cancelled {
          return ContextEnded, trace, log, ats, last;
        }
        ghost var before, log0, ats0, seen0, since0 := trace, log, ats, seen, lastPublish;
        var allCovered, anyStale, changed;
        ghost var more, read', at';
        allCovered, anyStale, changed, seen, more, read', at' := Poll(targets, ticks[i], seen);
        ApplyAllSplit(old(View()), before, more);
        trace, last := before + more, i + 1;
        log, ats := log0 + [Shifted(read', |before|)], ats0 + [Shifted(at', |before|)];
        if changed {
          lastPublish := ticks[i].readTime;
        }
        var quiet := ticks[i].endTime - lastPublish >= QUIET_WINDOW;
        WaitStep(old(View()), before, more, log0, ats0, i, uris, marks, seen0, seen, since0, read', at', allCovered, anyStale,
                 changed, ticks, start, timeoutMs, republishesUnchanged);
        if allCovered && quiet {
          QuietByTheClock(trace, log, uris, ticks, start, ticks[i].endTime);
          return Settled, trace, log, ats, last;
        }
        if ticks[i].endTime > start + timeoutMs {
          if quiet && !anyStale && !republishesUnchanged {
            QuietByTheClock(trace, log, uris, ticks, start, ticks[i].endTime);
            return Settled, trace, log, ats, last;
          }
          return NotSettled, trace, log, ats, last;
        }
        assert ticks[..i + 1] == ticks[..i] + [ticks[i]];
      }
      WaitInvMeans(old(View()), trace, log, ats, last, uris, marks, seen, lastPublish, ticks, start, timeoutMs, republishesUnchanged);
      assert ticks[..|ticks|] == ticks;
      return StillWaiting, trace, log, ats, last;
    }
  }

  function Shifted(at: map<Uri, nat>, n: nat): map<Uri, nat> {
    map u | u in at :: n + at[u]
  }

  /** What a poll has read of the counters of the files in `us`. */
  ghost predicate ReadOk(s: Store, trace: seq<Event>, read: map<Uri, nat>, us: set<Uri>,
                         seenGen: map<Uri, nat>, seen: map<Uri, nat>, changed: bool) {
    && (forall u | u in us :: u in read && read[u] <= |trace| && u in seen && seen[u] == Gen(StateWhen(s, trace, read, u), u))
    && (forall u | u !in us :: (u in seen <==> u in seenGen) && (u in seen ==> seen[u] == seenGen[u]))
    && (changed <==> exists u | u in us :: u !in seenGen || seen[u] != seenGen[u])
  }

  /** How it has classified them. */
  ghost predicate ClassOk(s: Store, trace: seq<Event>, at: map<Uri, nat>, us: set<Uri>,
                          targets: map<Uri, Mark>, allCovered: bool, anyStale: bool)
    requires us <= targets.Keys
  {
    && (forall u | u in us :: u in at && at[u] <= |trace|)
    && (allCovered <==> forall u | u in us :: Classify(StateWhen(s, trace, at, u), u, targets[u]) == Covered)
    && (anyStale <==> exists u | u in us :: Classify(StateWhen(s, trace, at, u), u, targets[u]) == Stale)
  }

  lemma NothingRead(s: Store, seenGen: map<Uri, nat>, targets: map<Uri, Mark>)
    ensures s == ApplyAll(s, [])
    ensures ReadOk(s, [], map[], {}, seenGen, seenGen, false) && ClassOk(s, [], map[], {}, targets, true, false)
  {}

  lemma ReadLasts(s: Store, before: seq<Event>, trace: seq<Event>, read: map<Uri, nat>, us: set<Uri>,
                  seenGen: map<Uri, nat>, seen: map<Uri, nat>, changed: bool)
    requires ReadOk(s, before, read, us, seenGen, seen, changed) && before <= trace
    ensures ReadOk(s, trace, read, us, seenGen, seen, changed)
  {
    ReadsStay(s, before, trace, us, read, read);
    hide Gen, StateWhen;
  }

  lemma ReadStep(s: Store, before: seq<Event>, trace: seq<Event>, read: map<Uri, nat>, us: set<Uri>,
                 seenGen: map<Uri, nat>, seen: map<Uri, nat>, changed: bool, uri: Uri, gen: nat)
    requires ReadOk(s, before, read, us, seenGen, seen, changed) && before <= trace
    requires uri !in us && gen == Gen(ApplyAll(s, trace), uri)
    ensures ReadOk(s, trace, read[uri := |trace|], us + {uri}, seenGen, seen[uri := gen],
                   changed || uri !in seen || gen != seen[uri])
  {
    var read', seen' := read[uri := |trace|], seen[uri := gen];
    ReadsStay(s, before, trace, us, read, read');
    StateNow(s, trace, read', uri);
    hide Gen, StateWhen, ApplyAll;
    var changed' := changed || uri !in seen || gen != seen[uri];
    if changed {
      var u :| u in us && (u !in seenGen || seen[u] != seenGen[u]);
      assert seen'[u] == seen[u];
    }
  }

  lemma ClassStep(s: Store, before: seq<Event>, trace: seq<Event>, at: map<Uri, nat>, us: set<Uri>,
                  targets: map<Uri, Mark>, allCovered: bool, anyStale: bool, uri: Uri, c: Coverage)
    requires us <= targets.Keys && uri in targets && uri !in us
    requires ClassOk(s, before, at, us, targets, allCovered, anyStale) && before <= trace
    requires c == Classify(ApplyAll(s, trace), uri, targets[uri])
    ensures ClassOk(s, trace, at[uri := |trace|], us + {uri}, targets, allCovered && c == Covered, anyStale || c == Stale)
  {
    var at' := at[uri := |trace|];
    ReadsStay(s, before, trace, us, at, at');
    StateNow(s, trace, at', uri);
    hide Classify, StateWhen, ApplyAll;
  }

  // ---- The counters as the polls read them ----

  /** One entry for the start of the wait and one for each poll: how much had happened when the
      counter of each file was read. */
  ghost predicate ReadsOk(trace: seq<Event>, log: seq<map<Uri, nat>>, uris: set<Uri>) {
    && log != []
    && (forall j, u | 0 <= j < |log| && u in uris :: u in log[j] && log[j][u] <= |trace|)
    && (forall j, u | 0 <= j < |log| - 1 && u in uris :: log[j][u] <= log[j + 1][u])
  }

  /** Poll j (counted from 0) saw a counter move: something was published for one of the files since
      the read before. */
  ghost predicate Moved(trace: seq<Event>, log: seq<map<Uri, nat>>, uris: set<Uri>, j: nat) {
    j + 1 < |log| && exists u | u in uris :: PublishedBetween(trace, log[j], log[j + 1], u)
  }

  predicate PublishedBetween(trace: seq<Event>, from: map<Uri, nat>, to: map<Uri, nat>, u: Uri) {
    u in from && u in to && from[u] <= to[u] <= |trace| && Publications(trace[from[u]..to[u]], u) != []
  }

  ghost predicate LastMove(trace: seq<Event>, log: seq<map<Uri, nat>>, uris: set<Uri>, j: nat) {
    Moved(trace, log, uris, j) && forall k: nat | j < k && k + 1 < |log| :: !Moved(trace, log, uris, k)
  }

  ghost predicate NeverMoved(trace: seq<Event>, log: seq<map<Uri, nat>>, uris: set<Uri>) {
    forall k: nat | k + 1 < |log| :: !Moved(trace, log, uris, k)
  }

  /** At time `now`, the given time has passed since the last poll that saw a counter move, or since
      the start of the wait if none did. */
  ghost predicate QuietFor(trace: seq<Event>, log: seq<map<Uri, nat>>, uris: set<Uri>, ticks: seq<Tick>, start: int,
                           now: int, time: int)
    requires |log| <= |ticks| + 1
  {
    && (NeverMoved(trace, log, uris) ==> now - start >= time)
    && forall j: nat | j + 1 < |log| && LastMove(trace, log, uris, j) :: now - ticks[j].readTime >= time
  }

  /** The clock of the wait never runs backwards. */
  predicate ClockRuns(ticks: seq<Tick>, start: int) {
    && (forall j | 0 <= j < |ticks| :: start <= ticks[j].readTime <= ticks[j].endTime)
    && forall j, k | 0 <= j <= k < |ticks| :: ticks[j].readTime <= ticks[k].readTime
  }

  lemma {:induction false} SomeLastMove(trace: seq<Event>, log: seq<map<Uri, nat>>, uris: set<Uri>, j: nat) returns (k: nat)
    requires Moved(trace, log, uris, j)
    ensures k >= j && k + 1 < |log| && LastMove(trace, log, uris, k)
    decreases |log| - j
  {
    hide Moved;
    assert j + 1 < |log| by { MovedInside(trace, log, uris, j); }
    if m: nat :| j < m && m + 1 < |log| && Moved(trace, log, uris, m) {
      k := SomeLastMove(trace, log, uris, m);
    } else {
      k := j;
    }
  }

  lemma MovedInside(trace: seq<Event>, log: seq<map<Uri, nat>>, uris: set<Uri>, j: nat)
    requires Moved(trace, log, uris, j)
    ensures j + 1 < |log|
  {}

  /** With a clock that never runs backwards, that means: since the start of the wait, and since every
      poll that saw a counter move. */
  lemma QuietSinceEveryMove(trace: seq<Event>, log: seq<map<Uri, nat>>, uris: set<Uri>, ticks: seq<Tick>, start: int,
                            now: int, time: int)
    requires |log| <= |ticks| + 1 && ClockRuns(ticks, start)
    ensures QuietFor(trace, log, uris, ticks, start, now, time) <==>
            && (NeverMoved(trace, log, uris) ==> now - start >= time)
            && forall j: nat | j + 1 < |log| && Moved(trace, log, uris, j) :: now - ticks[j].readTime >= time
    ensures QuietFor(trace, log, uris, ticks, start, now, time) ==> now - start >= time
  {
    hide Moved;
    if QuietFor(trace, log, uris, ticks, start, now, time) {
      forall j: nat | j + 1 < |log| && Moved(trace, log, uris, j)
        ensures now - ticks[j].readTime >= time && now - start >= time
      {
        var k := SomeLastMove(trace, log, uris, j);
        assert ticks[j].readTime <= ticks[k].readTime;
      }
    }
  }

  lemma QuietByTheClock(trace: seq<Event>, log: seq<map<Uri, nat>>, uris: set<Uri>, ticks: seq<Tick>, start: int, now: int)
    requires |log| <= |ticks| + 1 && QuietFor(trace, log, uris, ticks, start, now, 500)
    ensures ClockRuns(ticks, start) ==>
            now - start >= 500 &&
            forall j: nat | j + 1 < |log| && Moved(trace, log, uris, j) :: now - ticks[j].readTime >= 500
  {
    hide Moved, QuietFor, NeverMoved;
    if ClockRuns(ticks, start) {
      QuietSinceEveryMove(trace, log, uris, ticks, start, now, 500);
    }
  }

  /** What the wait's own variable for the last publication holds. */
  ghost predicate SinceOk(trace: seq<Event>, log: seq<map<Uri, nat>>, uris: set<Uri>, ticks: seq<Tick>, start: int, since: int)
    requires |log| <= |ticks| + 1
  {
    && (NeverMoved(trace, log, uris) ==> since == start)
    && (forall j: nat | j + 1 < |log| && LastMove(trace, log, uris, j) :: since == ticks[j].readTime)
  }

  lemma SinceIsQuiet(trace: seq<Event>, log: seq<map<Uri, nat>>, uris: set<Uri>, ticks: seq<Tick>, start: int,
                     since: int, now: int)
    requires |log| <= |ticks| + 1 && SinceOk(trace, log, uris, ticks, start, since)
    ensures QuietFor(trace, log, uris, ticks, start, now, 500) <==> now - since >= 500
  {
    hide Moved, LastMove;
    if !NeverMoved(trace, log, uris) {
      var j: nat :| j + 1 < |log| && Moved(trace, log, uris, j);
      var k := SomeLastMove(trace, log, uris, j);
    }
  }

  /** What has been read once stays as it was read. */
  lemma MovedStays(before: seq<Event>, trace: seq<Event>, log0: seq<map<Uri, nat>>, log: seq<map<Uri, nat>>,
                   uris: set<Uri>, j: nat)
    requires before <= trace && log0 <= log && j + 1 < |log0| && ReadsOk(before, log0, uris)
    ensures Moved(trace, log, uris, j) <==> Moved(before, log0, uris, j)
  {
    hide Publications;
    assert log[j] == log0[j] && log[j + 1] == log0[j + 1];
    forall u | u in uris
      ensures PublishedBetween(trace, log[j], log[j + 1], u) <==> PublishedBetween(before, log0[j], log0[j + 1], u)
    {
      assert log0[j][u] <= log0[j + 1][u] <= |before|;
      assert trace[log0[j][u]..log0[j + 1][u]] == before[log0[j][u]..log0[j + 1][u]];
    }
  }

  lemma QuietStays(before: seq<Event>, trace: seq<Event>, log: seq<map<Uri, nat>>, uris: set<Uri>, ticks: seq<Tick>,
                   start: int, now: int, time: int)
    requires before <= trace && ReadsOk(before, log, uris) && |log| <= |ticks| + 1
    ensures QuietFor(trace, log, uris, ticks, start, now, time) <==> QuietFor(before, log, uris, ticks, start, now, time)
  {
    forall j: nat | j + 1 < |log| ensures Moved(trace, log, uris, j) <==> Moved(before, log, uris, j) {
      MovedStays(before, trace, log, log, uris, j);
    }
    hide Moved;
    forall j: nat | j + 1 < |log| ensures LastMove(trace, log, uris, j) <==> LastMove(before, log, uris, j) {}
  }

  lemma SinceGrows(before: seq<Event>, trace: seq<Event>, uris: set<Uri>, log0: seq<map<Uri, nat>>,
                   log: seq<map<Uri, nat>>, ticks: seq<Tick>, start: int, since0: int, since: int, changed: bool)
    requires before <= trace && ReadsOk(before, log0, uris)
    requires |log| == |log0| + 1 <= |ticks| + 1 && log0 <= log
    requires SinceOk(before, log0, uris, ticks, start, since0)
    requires changed <==> Moved(trace, log, uris, |log0| - 1)
    requires since == if changed then ticks[|log0| - 1].readTime else since0
    ensures SinceOk(trace, log, uris, ticks, start, since)
  {
    var n := |log0| - 1;
    forall j: nat | j < n ensures Moved(trace, log, uris, j) <==> Moved(before, log0, uris, j) {
      MovedStays(before, trace, log0, log, uris, j);
    }
    hide Moved, ReadsOk;
    if changed {
      forall j: nat | j + 1 < |log| && LastMove(trace, log, uris, j) ensures j == n {}
    } else {
      forall j: nat | j + 1 < |log| && LastMove(trace, log, uris, j)
        ensures j < n && LastMove(before, log0, uris, j)
      {}
    }
  }

  ghost predicate SeenAt(s: Store, trace: seq<Event>, read: map<Uri, nat>, uris: set<Uri>, seen: map<Uri, nat>) {
    forall u | u in uris ::
      u in seen && u in read && read[u] <= |trace| && seen[u] == Gen(ApplyAll(s, trace[..read[u]]), u)
  }

  ghost function Opening(uris: set<Uri>): map<Uri, nat> {
    map u | u in uris :: 0
  }

  function Targets(s: Store, marks: map<Uri, Mark>, uris: set<Uri>): map<Uri, Mark> {
    map u | u in uris :: Target(s, marks, u)
  }

  lemma TargetKeys(s: Store, marks: map<Uri, Mark>, uris: set<Uri>)
    ensures Targets(s, marks, uris).Keys == uris
  {}

  /** Two reads of a counter agree exactly when nothing was published between them. */
  lemma CountBetween(s: Store, trace: seq<Event>, a: nat, b: nat, u: Uri)
    requires a <= b <= |trace|
    ensures Gen(ApplyAll(s, trace[..b]), u) == Gen(ApplyAll(s, trace[..a]), u) + |Publications(trace[a..b], u)|
  {
    hide Gen, ApplyAll, Publications;
    assert trace[..b] == trace[..a] + trace[a..b];
    ApplyAllSplit(s, trace[..a], trace[a..b]);
    CountersCount(ApplyAll(s, trace[..a]), trace[a..b], u);
  }

  lemma ReadAgain(s: Store, before: seq<Event>, more: seq<Event>, from: map<Uri, nat>, read: map<Uri, nat>, u: Uri,
                  seen0: nat, seen: nat)
    requires u in from && from[u] <= |before| && u in read && read[u] <= |more|
    requires seen0 == Gen(ApplyAll(s, before[..from[u]]), u)
    requires seen == Gen(StateWhen(ApplyAll(s, before), more, read, u), u)
    ensures var trace, to := before + more, Shifted(read, |before|);
            && u in to && from[u] <= to[u] <= |trace| && seen == Gen(ApplyAll(s, trace[..to[u]]), u)
            && (seen != seen0 <==> PublishedBetween(trace, from, to, u))
  {
    hide Gen, ApplyAll, Publications;
    var trace, to := before + more, Shifted(read, |before|);
    LaterReadShifts(s, before, more, read, to, u);
    CountBetween(s, trace, from[u], to[u], u);
    assert trace[..from[u]] == before[..from[u]];
  }

  lemma ReadsOkGrows(before: seq<Event>, trace: seq<Event>, uris: set<Uri>, log: seq<map<Uri, nat>>, to: map<Uri, nat>)
    requires ReadsOk(before, log, uris) && before <= trace
    requires forall u | u in uris :: u in to && log[|log| - 1][u] <= to[u] <= |trace|
    ensures ReadsOk(trace, log + [to], uris)
  {
    var more := log + [to];
    forall j, u | 0 <= j < |more| && u in uris ensures u in more[j] && more[j][u] <= |trace| {
      assert j < |log| ==> more[j] == log[j];
    }
    forall j, u | 0 <= j < |more| - 1 && u in uris ensures more[j][u] <= more[j + 1][u] {
      assert more[j] == log[j];
      assert j + 1 < |log| ==> more[j + 1] == log[j + 1];
    }
  }

  lemma ReadsGrow(s: Store, before: seq<Event>, more: seq<Event>, uris: set<Uri>, log: seq<map<Uri, nat>>,
                  read: map<Uri, nat>, seen0: map<Uri, nat>, seen: map<Uri, nat>, changed: bool)
    requires ReadsOk(before, log, uris) && SeenAt(s, before, log[|log| - 1], uris, seen0)
    requires ReadOk(ApplyAll(s, before), more, read, uris, seen0, seen, changed)
    ensures var to := Shifted(read, |before|);
            && ReadsOk(before + more, log + [to], uris) && SeenAt(s, before + more, to, uris, seen)
            && (changed <==> Moved(before + more, log + [to], uris, |log| - 1))
  {
    assert log != [];
    hide Gen, ApplyAll, StateWhen, PublishedBetween, Shifted, ReadsOk;
    var trace, to, from := before + more, Shifted(read, |before|), log[|log| - 1];
    SeenInside(before, uris, log);
    forall u | u in uris
      ensures u in to && from[u] <= to[u] <= |trace| && seen[u] == Gen(ApplyAll(s, trace[..to[u]]), u)
      ensures seen[u] != seen0[u] <==> PublishedBetween(trace, from, to, u)
    {
      ReadAgain(s, before, more, from, read, u, seen0[u], seen[u]);
    }
    ReadsOkGrows(before, trace, uris, log, to);
    assert changed <==> exists u | u in uris :: seen[u] != seen0[u];
    hide ReadOk, SeenAt;
    var log' := log + [to];
    assert log'[|log| - 1] == from && log'[|log|] == to;
    if Moved(trace, log', uris, |log| - 1) {
      var u :| u in uris && PublishedBetween(trace, from, to, u);
      assert seen[u] != seen0[u];
    }
    if changed {
      var u :| u in uris && seen[u] != seen0[u];
      assert PublishedBetween(trace, log'[|log| - 1], log'[|log|], u);
    }
  }

  lemma SeenInside(trace: seq<Event>, uris: set<Uri>, log: seq<map<Uri, nat>>)
    requires ReadsOk(trace, log, uris)
    ensures forall u | u in uris :: u in log[|log| - 1] && log[|log| - 1][u] <= |trace|
  {}

  // ---- The verdict ----

  /** After |log| - 1 polls: settled before the deadline only when every file is covered, after it
      also when none is stale and the server may stay silent; and never before the quiet window is
      over. */
  ghost function Verdict(s: Store, trace: seq<Event>, log: seq<map<Uri, nat>>, at: map<Uri, nat>, targets: map<Uri, Mark>,
                         ticks: seq<Tick>, start: int, timeoutMs: int, republishes: bool): Outcome
    requires 0 < |log| <= |ticks| + 1
  {
    if |log| == 1 then StillWaiting
    else
      var now := ticks[|log| - 2].endTime;
      var quiet := QuietFor(trace, log, targets.Keys, ticks, start, now, 500);
      if quiet && All(s, trace, at, targets, false) then Settled
      else if now <= start + timeoutMs then StillWaiting
      else if quiet && !republishes && All(s, trace, at, targets, true) then Settled
      else NotSettled
  }

  ghost predicate All(s: Store, trace: seq<Event>, at: map<Uri, nat>, targets: map<Uri, Mark>, mayBeSilent: bool) {
    forall u | u in targets :: Accounted(s, trace, at, u, targets[u], mayBeSilent)
  }

  ghost predicate AllCovered(s: Store, trace: seq<Event>, at: map<Uri, nat>, uris: set<Uri>, marks: map<Uri, Mark>) {
    forall u | u in uris ::
      u in at && at[u] <= |trace| && Classify(StateWhen(s, trace, at, u), u, Target(s, marks, u)) == Covered
  }

  /** A settled wait accounts for every file, behind the quiet window. */
  lemma SettledAccounts(s: Store, trace: seq<Event>, log: seq<map<Uri, nat>>, at: map<Uri, nat>, targets: map<Uri, Mark>,
                        ticks: seq<Tick>, start: int, timeoutMs: int, republishes: bool)
    requires 0 < |log| <= |ticks| + 1
    requires Verdict(s, trace, log, at, targets, ticks, start, timeoutMs, republishes) == Settled
    ensures |log| > 1
    ensures QuietFor(trace, log, targets.Keys, ticks, start, ticks[|log| - 2].endTime, 500)
    ensures forall u | u in targets ::
              Accounted(s, trace, at, u, targets[u], !republishes && ticks[|log| - 2].endTime > start + timeoutMs)
  {
    hide QuietFor, Classify, StateWhen;
  }

  lemma VerdictIs(s: Store, trace: seq<Event>, log: seq<map<Uri, nat>>, at: map<Uri, nat>, targets: map<Uri, Mark>,
                  allCovered: bool, anyStale: bool, quiet: bool, ticks: seq<Tick>, start: int, timeoutMs: int, republishes: bool)
    requires 1 < |log| <= |ticks| + 1 && ClassOk(s, trace, at, targets.Keys, targets, allCovered, anyStale)
    requires quiet <==> QuietFor(trace, log, targets.Keys, ticks, start, ticks[|log| - 2].endTime, 500)
    ensures Verdict(s, trace, log, at, targets, ticks, start, timeoutMs, republishes)
            == if quiet && allCovered then Settled
               else if ticks[|log| - 2].endTime <= start + timeoutMs then StillWaiting
               else if quiet && !republishes && !anyStale then Settled
               else NotSettled
    ensures AtOk(trace, at, targets)
  {
    hide Classify, StateWhen, QuietFor;
    assert allCovered <==> All(s, trace, at, targets, false);
    assert !anyStale <==> All(s, trace, at, targets, true);
  }

  predicate AtOk(trace: seq<Event>, at: map<Uri, nat>, targets: map<Uri, Mark>) {
    forall u | u in targets :: u in at && at[u] <= |trace|
  }

  /** None of the first n polls ended the wait. */
  ghost predicate Waits(s: Store, trace: seq<Event>, log: seq<map<Uri, nat>>, ats: seq<map<Uri, nat>>, n: nat,
                        targets: map<Uri, Mark>, ticks: seq<Tick>, start: int, timeoutMs: int, republishes: bool) {
    && n <= |ats| && n < |log| <= |ticks| + 1
    && forall k: nat | k < n ::
         AtOk(trace, ats[k], targets)
         && Verdict(s, trace, log[..k + 2], ats[k], targets, ticks, start, timeoutMs, republishes) == StillWaiting
  }

  lemma NoPollYet(s: Store, trace: seq<Event>, log: seq<map<Uri, nat>>, targets: map<Uri, Mark>, ticks: seq<Tick>,
                  start: int, timeoutMs: int, republishes: bool)
    requires |log| == 1
    ensures Waits(s, trace, log, [], 0, targets, ticks, start, timeoutMs, republishes)
  {}

  lemma VerdictStays(s: Store, before: seq<Event>, trace: seq<Event>, log: seq<map<Uri, nat>>, at: map<Uri, nat>,
                     targets: map<Uri, Mark>, ticks: seq<Tick>, start: int, timeoutMs: int, republishes: bool)
    requires before <= trace && ReadsOk(before, log, targets.Keys) && |log| <= |ticks| + 1 && AtOk(before, at, targets)
    ensures Verdict(s, trace, log, at, targets, ticks, start, timeoutMs, republishes)
         == Verdict(s, before, log, at, targets, ticks, start, timeoutMs, republishes)
  {
    hide QuietFor, All;
    if |log| > 1 {
      QuietStays(before, trace, log, targets.Keys, ticks, start, ticks[|log| - 2].endTime, 500);
      AllStays(s, before, trace, at, targets, false);
      AllStays(s, before, trace, at, targets, true);
    }
  }

  lemma AllStays(s: Store, before: seq<Event>, trace: seq<Event>, at: map<Uri, nat>, targets: map<Uri, Mark>, mayBeSilent: bool)
    requires before <= trace && AtOk(before, at, targets)
    ensures All(s, trace, at, targets, mayBeSilent) <==> All(s, before, at, targets, mayBeSilent)
  {
    ReadsStay(s, before, trace, targets.Keys, at, at);
    hide Classify, StateWhen;
    forall u | u in targets ensures StateWhen(s, trace, at, u) == StateWhen(s, before, at, u) {
      assert u in targets.Keys;
    }
  }

  lemma PrefixReadsOk(trace: seq<Event>, log: seq<map<Uri, nat>>, uris: set<Uri>, n: nat)
    requires ReadsOk(trace, log, uris) && 0 < n <= |log|
    ensures ReadsOk(trace, log[..n], uris)
  {
    assert forall j | 0 <= j < n :: log[..n][j] == log[j];
  }

  lemma WaitsStay(s: Store, before: seq<Event>, trace: seq<Event>, log0: seq<map<Uri, nat>>, log: seq<map<Uri, nat>>,
                  ats0: seq<map<Uri, nat>>, ats: seq<map<Uri, nat>>, n: nat, targets: map<Uri, Mark>, ticks: seq<Tick>,
                  start: int, timeoutMs: int, republishes: bool)
    requires Waits(s, before, log0, ats0, n, targets, ticks, start, timeoutMs, republishes)
    requires before <= trace && log0 <= log && ats0 <= ats && |log| <= |ticks| + 1 && ReadsOk(before, log0, targets.Keys)
    ensures Waits(s, trace, log, ats, n, targets, ticks, start, timeoutMs, republishes)
  {
    hide Verdict, ReadsOk;
    forall k: nat | k < n
      ensures AtOk(trace, ats[k], targets)
      ensures Verdict(s, trace, log[..k + 2], ats[k], targets, ticks, start, timeoutMs, republishes) == StillWaiting
    {
      assert ats[k] == ats0[k] && log[..k + 2] == log0[..k + 2];
      PrefixReadsOk(before, log0, targets.Keys, k + 2);
      VerdictStays(s, before, trace, log0[..k + 2], ats0[k], targets, ticks, start, timeoutMs, republishes);
    }
  }

  lemma WaitsOnce(s: Store, trace: seq<Event>, log: seq<map<Uri, nat>>, ats: seq<map<Uri, nat>>, n: nat,
                  targets: map<Uri, Mark>, ticks: seq<Tick>, start: int, timeoutMs: int, republishes: bool)
    requires Waits(s, trace, log, ats, n, targets, ticks, start, timeoutMs, republishes)
    requires |ats| == n + 1 && |log| == n + 2 && AtOk(trace, ats[n], targets)
    requires Verdict(s, trace, log, ats[n], targets, ticks, start, timeoutMs, republishes) == StillWaiting
    ensures Waits(s, trace, log, ats, n + 1, targets, ticks, start, timeoutMs, republishes)
  {
    hide Verdict, AtOk;
    assert log[..n + 2] == log;
  }

  /** A poll that covers every file behind a quiet window settles. */
  lemma VerdictCovers(s: Store, trace: seq<Event>, log: seq<map<Uri, nat>>, at: map<Uri, nat>, uris: set<Uri>,
                      marks: map<Uri, Mark>, ticks: seq<Tick>, start: int, timeoutMs: int, republishes: bool)
    requires 1 < |log| <= |ticks| + 1
    ensures QuietFor(trace, log, uris, ticks, start, ticks[|log| - 2].endTime, 500) && AllCovered(s, trace, at, uris, marks) ==>
            Verdict(s, trace, log, at, Targets(s, marks, uris), ticks, start, timeoutMs, republishes) == Settled
  {
    hide QuietFor, Classify, StateWhen, Target;
    TargetKeys(s, marks, uris);
  }

  /** A poll that covers every file behind a quiet window is the last one and settles the wait. */
  ghost predicate FirstSettles(s: Store, trace: seq<Event>, log: seq<map<Uri, nat>>, ats: seq<map<Uri, nat>>, uris: set<Uri>,
                               marks: map<Uri, Mark>, ticks: seq<Tick>, start: int, out: Outcome) {
    |log| == |ats| + 1 <= |ticks| + 1 &&
    forall i | 0 <= i < |ats| && AllCovered(s, trace, ats[i], uris, marks)
               && QuietFor(trace, log[..i + 2], uris, ticks, start, ticks[i].endTime, 500) :: i + 1 == |ats| && out == Settled
  }

  lemma FirstSettlesIs(s: Store, trace: seq<Event>, log: seq<map<Uri, nat>>, ats: seq<map<Uri, nat>>, n: nat, uris: set<Uri>,
                       marks: map<Uri, Mark>, ticks: seq<Tick>, start: int, timeoutMs: int, republishes: bool, out: Outcome)
    requires Waits(s, trace, log, ats, n, Targets(s, marks, uris), ticks, start, timeoutMs, republishes)
    requires |log| == |ats| + 1 && n <= |ats| <= n + 1
    requires n < |ats| ==> out == Verdict(s, trace, log, ats[n], Targets(s, marks, uris), ticks, start, timeoutMs, republishes)
    ensures FirstSettles(s, trace, log, ats, uris, marks, ticks, start, out)
  {
    hide Verdict, QuietFor, AllCovered, Targets, AtOk;
    forall i | 0 <= i < |ats| && AllCovered(s, trace, ats[i], uris, marks)
               && QuietFor(trace, log[..i + 2], uris, ticks, start, ticks[i].endTime, 500)
      ensures i + 1 == |ats| && out == Settled
    {
      VerdictCovers(s, trace, log[..i + 2], ats[i], uris, marks, ticks, start, timeoutMs, republishes);
      if i == n {
        assert log[..i + 2] == log;
      }
    }
  }

  /** What holds before each poll. */
  ghost predicate WaitInv(s: Store, trace: seq<Event>, log: seq<map<Uri, nat>>, ats: seq<map<Uri, nat>>, n: nat, uris: set<Uri>,
                          marks: map<Uri, Mark>, seen: map<Uri, nat>, since: int, ticks: seq<Tick>, start: int,
                          timeoutMs: int, republishes: bool) {
    && n <= |ticks| && |log| == n + 1 && |ats| == n && ReadsOk(trace, log, uris)
    && SeenAt(s, trace, log[n], uris, seen) && SinceOk(trace, log, uris, ticks, start, since)
    && Waits(s, trace, log, ats, n, Targets(s, marks, uris), ticks, start, timeoutMs, republishes)
  }

  lemma WaitInvMeans(s: Store, trace: seq<Event>, log: seq<map<Uri, nat>>, ats: seq<map<Uri, nat>>, n: nat, uris: set<Uri>,
                     marks: map<Uri, Mark>, seen: map<Uri, nat>, since: int, ticks: seq<Tick>, start: int,
                     timeoutMs: int, republishes: bool)
    requires WaitInv(s, trace, log, ats, n, uris, marks, seen, since, ticks, start, timeoutMs, republishes)
    ensures n <= |ticks| && |log| == n + 1 && |ats| == n && ReadsOk(trace, log, uris)
    ensures Verdict(s, trace, log, if n == 0 then map[] else ats[n - 1], Targets(s, marks, uris), ticks,
                    start, timeoutMs, republishes) == StillWaiting
    ensures FirstSettles(s, trace, log, ats, uris, marks, ticks, start, StillWaiting)
    ensures FirstSettles(s, trace, log, ats, uris, marks, ticks, start, ContextEnded)
  {
    hide FirstSettles, Targets, SeenAt, SinceOk, ReadsOk;
    assert log[..n + 1] == log;
    FirstSettlesIs(s, trace, log, ats, n, uris, marks, ticks, start, timeoutMs, republishes, StillWaiting);
    FirstSettlesIs(s, trace, log, ats, n, uris, marks, ticks, start, timeoutMs, republishes, ContextEnded);
  }

  /** One poll more. */
  lemma WaitStep(s: Store, before: seq<Event>, more: seq<Event>, log0: seq<map<Uri, nat>>, ats0: seq<map<Uri, nat>>, n: nat,
                 uris: set<Uri>, marks: map<Uri, Mark>, seen0: map<Uri, nat>, seen: map<Uri, nat>, since0: int,
                 read: map<Uri, nat>, at: map<Uri, nat>, allCovered: bool, anyStale: bool, changed: bool,
                 ticks: seq<Tick>, start: int, timeoutMs: int, republishes: bool)
    requires WaitInv(s, before, log0, ats0, n, uris, marks, seen0, since0, ticks, start, timeoutMs, republishes) && n < |ticks|
    requires Targets(s, marks, uris).Keys == uris
    requires ReadOk(ApplyAll(s, before), more, read, uris, seen0, seen, changed)
    requires ClassOk(ApplyAll(s, before), more, at, uris, Targets(s, marks, uris), allCovered, anyStale)
    ensures var trace, log, ats := before + more, log0 + [Shifted(read, |before|)], ats0 + [Shifted(at, |before|)];
            var since := if changed then ticks[n].readTime else since0;
            var quiet := ticks[n].endTime - since >= 500;
            var verdict := if quiet && allCovered then Settled
                           else if ticks[n].endTime <= start + timeoutMs then StillWaiting
                           else if quiet && !republishes && !anyStale then Settled
                           else NotSettled;
            && |log| == n + 2 && |ats| == n + 1 && ReadsOk(trace, log, uris)
            && (quiet <==> QuietFor(trace, log, uris, ticks, start, ticks[n].endTime, 500))
            && verdict == Verdict(s, trace, log, ats[n], Targets(s, marks, uris), ticks, start, timeoutMs, republishes)
            && FirstSettles(s, trace, log, ats, uris, marks, ticks, start, verdict)
            && (verdict == StillWaiting ==>
                  WaitInv(s, trace, log, ats, n + 1, uris, marks, seen, since, ticks, start, timeoutMs, republishes))
  {
    hide ReadOk, ClassOk, Verdict, QuietFor, ReadsOk, SeenAt, SinceOk, Waits, FirstSettles, Targets, Shifted, Moved, ApplyAll, AtOk;
    var targets := Targets(s, marks, uris);
    var trace, log, ats := before + more, log0 + [Shifted(read, |before|)], ats0 + [Shifted(at, |before|)];
    var since := if changed then ticks[n].readTime else since0;
    var quiet := ticks[n].endTime - since >= 500;
    ReadsGrow(s, before, more, uris, log0, read, seen0, seen, changed);
    SinceGrows(before, trace, uris, log0, log, ticks, start, since0, since, changed);
    SinceIsQuiet(trace, log, uris, ticks, start, since, ticks[n].endTime);
    ClassShift(s, before, more, at, targets, allCovered, anyStale);
    VerdictIs(s, trace, log, ats[n], targets, allCovered, anyStale, quiet, ticks, start, timeoutMs, republishes);
    WaitsStay(s, before, trace, log0, log, ats0, ats, n, targets, ticks, start, timeoutMs, republishes);
    FirstSettlesIs(s, trace, log, ats, n, uris, marks, ticks, start, timeoutMs, republishes,
                   Verdict(s, trace, log, ats[n], targets, ticks, start, timeoutMs, republishes));
    if Verdict(s, trace, log, ats[n], targets, ticks, start, timeoutMs, republishes) == StillWaiting {
      WaitsOnce(s, trace, log, ats, n, targets, ticks, start, timeoutMs, republishes);
    }
  }

  lemma WaitOpens(s: Store, uris: set<Uri>, marks: map<Uri, Mark>, seen: map<Uri, nat>, ticks: seq<Tick>, start: int,
                  timeoutMs: int, republishes: bool)
    requires forall u | u in uris :: u in seen && seen[u] == Gen(s, u)
    ensures s == ApplyAll(s, []) && ReadsOk([], [Opening(uris)], uris)
    ensures WaitInv(s, [], [Opening(uris)], [], 0, uris, marks, seen, start, ticks, start, timeoutMs, republishes)
    ensures FirstSettles(s, [], [Opening(uris)], [], uris, marks, ticks, start, Settled)
  {
    hide Verdict;
    NoPollYet(s, [], [Opening(uris)], Targets(s, marks, uris), ticks, start, timeoutMs, republishes);
  }

  lemma ClassShift(s: Store, before: seq<Event>, more: seq<Event>, at0: map<Uri, nat>,
                   targets: map<Uri, Mark>, allCovered: bool, anyStale: bool)
    requires ClassOk(ApplyAll(s, before), more, at0, targets.Keys, targets, allCovered, anyStale)
    ensures ClassOk(s, before + more, Shifted(at0, |before|), targets.Keys, targets, allCovered, anyStale)
  {
    hide Classify, StateWhen, ApplyAll;
    var at := Shifted(at0, |before|);
    forall u | u in targets
      ensures StateWhen(s, before + more, at, u) == StateWhen(ApplyAll(s, before), more, at0, u)
    {
      LaterReadShifts(s, before, more, at0, at, u);
    }
  }

  /** A file without a mark is marked when the wait starts. */
  function Target(s: Store, marks: map<Uri, Mark>, u: Uri): Mark {
    if u in marks then marks[u] else Mark(Gen(s, u), 0)
  }

  // ---- What a verdict says about the publications ----

  /** The publications for a file in a stretch of events: the versions they carried, in order. */
  function Publications(es: seq<Event>, uri: Uri): seq<Option<int>>
    decreases |es|
  {
    if es == [] then []
    else
      var front, last := Publications(es[..|es| - 1], uri), es[|es| - 1];
      if last.Publish? && last.uri == uri then front + [last.version] else front
  }

  /** For this file the server reports only versions it has been sent, and the file is not closed. */
  predicate Honest(s: Store, e: Event, uri: Uri) {
    match e
    case Publish(u, Some(v)) => u == uri ==> u in s.sent && v <= s.sent[u]
    case Close(u) => u != uri
    case _ => true
  }

  predicate HonestRun(s: Store, es: seq<Event>, uri: Uri)
    decreases |es|
  {
    es == [] || (HonestRun(s, es[..|es| - 1], uri) && Honest(ApplyAll(s, es[..|es| - 1]), es[|es| - 1], uri))
  }

  /** Publication counters count publications; no send, reset or restart decreases them. */
  lemma {:induction false} CountersCount(s: Store, es: seq<Event>, uri: Uri)
    ensures Gen(ApplyAll(s, es), uri) == Gen(s, uri) + |Publications(es, uri)|
    decreases |es|
  {
    if es != [] {
      CountersCount(s, es[..|es| - 1], uri);
    }
  }

  /** What is recorded as reported for the file has been sent. */
  predicate VersionSane(s: Store, uri: Uri) {
    uri in s.version ==> uri in s.sent && s.version[uri] <= s.sent[uri]
  }

  lemma {:induction false} VersionStaysSane(s: Store, es: seq<Event>, uri: Uri)
    requires VersionSane(s, uri) && HonestRun(s, es, uri)
    ensures VersionSane(ApplyAll(s, es), uri)
    decreases |es|
  {
    if es != [] {
      VersionStaysSane(s, es[..|es| - 1], uri);
    }
  }

  /** Nothing newer than the bound has been reported unless a publication arrived after count g. */
  predicate OlderUnless(s: Store, uri: Uri, g: nat, bound: int) {
    Gen(s, uri) > g || uri !in s.version || s.version[uri] < bound
  }

  lemma {:induction false} OlderUntilPublished(s: Store, es: seq<Event>, uri: Uri, g: nat, bound: int)
    requires Gen(s, uri) >= g && OlderUnless(s, uri, g, bound)
    ensures OlderUnless(ApplyAll(s, es), uri, g, bound)
    decreases |es|
  {
    if es != [] {
      OlderUntilPublished(s, es[..|es| - 1], uri, g, bound);
      CountersCount(s, es[..|es| - 1], uri);
    }
  }

  function SentVersion(s: Store, uri: Uri): nat {
    if uri in s.sent then s.sent[uri] else 0
  }

  function Sends(es: seq<Event>, uri: Uri): nat
    decreases |es|
  {
    if es == [] then 0 else Sends(es[..|es| - 1], uri) + (if es[|es| - 1] == Send(uri) then 1 else 0)
  }

  /** While a document stays open, its version goes up by one with every text sent; after a close or a
      restart the count begins again. */
  lemma {:induction false} VersionsCountSends(s: Store, es: seq<Event>, uri: Uri)
    requires forall e | e in es :: e != Close(uri) && e != Restart
    ensures SentVersion(ApplyAll(s, es), uri) == SentVersion(s, uri) + Sends(es, uri)
    ensures SentVersion(Apply(s, Close(uri)), uri) == 0 && SentVersion(Apply(s, Restart), uri) == 0
    decreases |es|
  {
    if es != [] {
      var front := es[..|es| - 1];
      assert es[|es| - 1] in es;
      assert forall e | e in front :: e in es;
      VersionsCountSends(s, front, uri);
    }
  }

  predicate Wipes(e: Event, uri: Uri) {
    e == Forget(uri) || e == Restart
  }

  /** A reset or restart after the latest publication. */
  predicate Forgotten(es: seq<Event>, uri: Uri)
    decreases |es|
  {
    es != [] &&
    var last := es[|es| - 1];
    Wipes(last, uri) || (!(last.Publish? && last.uri == uri) && Forgotten(es[..|es| - 1], uri))
  }

  /** The recorded version is the one of the latest publication, unless that has been forgotten. */
  lemma {:induction false} ReportedIsLatest(s: Store, es: seq<Event>, uri: Uri)
    ensures var ps := Publications(es, uri);
            Reported(ApplyAll(s, es), uri)
            == if Forgotten(es, uri) then None else if ps == [] then Reported(s, uri) else ps[|ps| - 1]
    decreases |es|
  {
    if es != [] {
      ReportedIsLatest(s, es[..|es| - 1], uri);
    }
  }

  /** A document edit: the mark is taken, other things may happen, the change is sent, other things
      may happen again, and the version the document then has completes the mark. */
  function EditStart(s: Store, uri: Uri, mid: seq<Event>): Store {
    Apply(ApplyAll(s, mid), Send(uri))
  }

  function EditMark(s: Store, uri: Uri, mid: seq<Event>, mid': seq<Event>): Mark {
    var after := ApplyAll(EditStart(s, uri, mid), mid');
    Mark(Gen(s, uri), if uri in after.sent then after.sent[uri] else 0)
  }

  lemma HonestBefore(s: Store, es: seq<Event>, uri: Uri)
    requires HonestRun(s, es, uri) && es != []
    ensures HonestRun(s, es[..|es| - 1], uri) && Honest(ApplyAll(s, es[..|es| - 1]), es[|es| - 1], uri)
  {}

  lemma {:induction false} OlderWhileSent(s: Store, es: seq<Event>, uri: Uri, g: nat)
    requires Gen(s, uri) >= g && HonestRun(s, es, uri)
    requires Gen(s, uri) > g || uri !in s.version || (uri in s.sent && s.version[uri] < s.sent[uri])
    ensures var s' := ApplyAll(s, es);
            Gen(s', uri) > g || uri !in s'.version || (uri in s'.sent && s'.version[uri] < s'.sent[uri])
    decreases |es|
  {
    hide HonestRun, Publications;
    if es != [] {
      HonestBefore(s, es, uri);
      OlderWhileSent(s, es[..|es| - 1], uri, g);
      CountersCount(s, es[..|es| - 1], uri);
    }
  }

  /** From any reachable state, an edit's mark starts out with nothing newer reported. */
  lemma EditStartsOlder(s: Store, uri: Uri, mid: seq<Event>, mid': seq<Event>)
    requires VersionSane(s, uri) && HonestRun(s, mid, uri) && HonestRun(EditStart(s, uri, mid), mid', uri)
    ensures var after := ApplyAll(EditStart(s, uri, mid), mid');
            var mark := EditMark(s, uri, mid, mid');
            Gen(after, uri) >= mark.gen && (mark.version > 0 ==> OlderUnless(after, uri, mark.gen, mark.version))
  {
    VersionStaysSane(s, mid, uri);
    CountersCount(s, mid, uri);
    var sent := EditStart(s, uri, mid);
    assert uri in sent.version ==> sent.version[uri] < sent.sent[uri];
    OlderWhileSent(sent, mid', uri, Gen(s, uri));
    CountersCount(sent, mid', uri);
  }

  /** A file is silent exactly when nothing was published for it since its mark, across resets and
      restarts, so covered means that something was. Other files may come and go as they like. */
  lemma CoveredMeansPublished(s: Store, uri: Uri, mid: seq<Event>, mid': seq<Event>, es: seq<Event>)
    requires VersionSane(s, uri) && HonestRun(s, mid, uri) && HonestRun(EditStart(s, uri, mid), mid', uri)
    ensures var after := ApplyAll(EditStart(s, uri, mid), mid');
            var verdict := Classify(ApplyAll(after, es), uri, EditMark(s, uri, mid, mid'));
            var published := |Publications(mid, uri)| + |Publications(mid', uri)| + |Publications(es, uri)|;
            verdict == Silent <==> published == 0
  {
    var sent := EditStart(s, uri, mid);
    var after := ApplyAll(sent, mid');
    var mark := EditMark(s, uri, mid, mid');
    EditStartsOlder(s, uri, mid, mid');
    CountersCount(s, mid, uri);
    CountersCount(sent, mid', uri);
    CountersCount(after, es, uri);
    if mark.version > 0 {
      OlderUntilPublished(after, es, uri, mark.gen, mark.version);
    }
  }

  predicate OlderThan(p: Option<int>, mark: Mark) {
    mark.version > 0 && p.Some? && p.value < mark.version
  }

  /** A file published since its mark is classified stale exactly when its latest publication is
      for an older version and no reset or restart came after it; otherwise it is covered. */
  lemma StaleIffLatestIsOlder(s: Store, uri: Uri, mark: Mark, es: seq<Event>)
    requires Publications(es, uri) != [] && Gen(s, uri) >= mark.gen
    ensures var ps := Publications(es, uri);
            Classify(ApplyAll(s, es), uri, mark)
            == if OlderThan(ps[|ps| - 1], mark) && !Forgotten(es, uri) then Stale else Covered
  {
    ReportedIsLatest(s, es, uri);
    CountersCount(s, es, uri);
  }

  predicate AlreadyReported(s: Store, uri: Uri, mark: Mark) {
    mark.version > 0 && Reported(s, uri).Some? && Reported(s, uri).value >= mark.version
  }

  /** What a settled wait may be trusted for, exactly. From state s, in which the mark was taken,
      `before` happened until the wait and `trace` during it. A file counts as settled if and only
      if its latest publication since the mark is not for an older version, or was forgotten; or
      there is none, and either the server may stay silent or an earlier record still satisfies the
      mark. */
  lemma SettledIsNotStale(s: Store, before: seq<Event>, trace: seq<Event>, at: map<Uri, nat>,
                          u: Uri, mark: Mark, mayBeSilent: bool)
    requires Gen(s, u) == mark.gen && u in at && at[u] <= |trace|
    ensures var seen := before + trace[..at[u]];
            var ps := Publications(seen, u);
            Accounted(ApplyAll(s, before), trace, at, u, mark, mayBeSilent) <==>
            if ps != [] then !OlderThan(ps[|ps| - 1], mark) || Forgotten(seen, u)
            else mayBeSilent || (AlreadyReported(s, u, mark) && !Forgotten(seen, u))
  {
    var seen := before + trace[..at[u]];
    ApplyAllSplit(s, before, trace[..at[u]]);
    hide ApplyAll, Publications, Forgotten;
    ReportedIsLatest(s, seen, u);
    CountersCount(s, seen, u);
    if Publications(seen, u) != [] {
      StaleIffLatestIsOlder(s, u, mark, seen);
    }
  }

  /** The events from the moment a mark is taken to the last classification of its file. */
  function SinceMark(uri: Uri, mid: seq<Event>, mid': seq<Event>, later: seq<Event>): seq<Event> {
    mid + [Send(uri)] + (mid' + later)
  }

  lemma MarkToNow(s: Store, uri: Uri, mid: seq<Event>, mid': seq<Event>, later: seq<Event>)
    ensures ApplyAll(s, SinceMark(uri, mid, mid', later)) == ApplyAll(ApplyAll(EditStart(s, uri, mid), mid'), later)
  {
    hide Apply;
    assert (mid + [Send(uri)])[..|mid|] == mid;
    ApplyAllSplit(s, mid + [Send(uri)], mid' + later);
    ApplyAllSplit(EditStart(s, uri, mid), mid', later);
  }

  /** What "settled" is worth to the caller of an edit: from the moment its mark was taken until the
      file was last classified, something was published for it, and the latest such publication is
      not for an older version unless a reset or restart came after it; or nothing was published, the
      deadline has passed, and the server is one that may stay silent. */
  lemma SettledAnswersTheEdit(s: Store, uri: Uri, mid: seq<Event>, mid': seq<Event>, before: seq<Event>,
                              trace: seq<Event>, log: seq<map<Uri, nat>>, at: map<Uri, nat>, targets: map<Uri, Mark>,
                              ticks: seq<Tick>, start: int, timeoutMs: int, republishes: bool)
    requires VersionSane(s, uri) && HonestRun(s, mid, uri) && HonestRun(EditStart(s, uri, mid), mid', uri)
    requires 0 < |log| <= |ticks| + 1 && uri in targets && targets[uri] == EditMark(s, uri, mid, mid')
    requires var waiting := ApplyAll(ApplyAll(EditStart(s, uri, mid), mid'), before);
             Verdict(waiting, trace, log, at, targets, ticks, start, timeoutMs, republishes) == Settled
    ensures uri in at && at[uri] <= |trace| && |log| > 1
    ensures var seen := SinceMark(uri, mid, mid', before + trace[..at[uri]]);
            var ps := Publications(seen, uri);
            if ps == [] then !republishes && ticks[|log| - 2].endTime > start + timeoutMs
            else !OlderThan(ps[|ps| - 1], targets[uri]) || Forgotten(seen, uri)
  {
    hide ApplyAll, Publications, Forgotten, Verdict, Classify, HonestRun, VersionSane, EditStart, SinceMark, Accounted, QuietFor;
    var after, mark := ApplyAll(EditStart(s, uri, mid), mid'), targets[uri];
    SettledAccounts(ApplyAll(after, before), trace, log, at, targets, ticks, start, timeoutMs, republishes);
    var mayBeSilent := !republishes && ticks[|log| - 2].endTime > start + timeoutMs;
    AccountedNow(after, before, trace, at, uri, mark, mayBeSilent);
    var later := before + trace[..at[uri]];
    var seen := SinceMark(uri, mid, mid', later);
    MarkToNow(s, uri, mid, mid', later);
    CoveredMeansPublished(s, uri, mid, mid', later);
    PublishedSinceMark(s, uri, mid, mid', later);
    if Publications(seen, uri) != [] {
      StaleIffLatestIsOlder(s, uri, mark, seen);
    }
  }

  lemma AccountedNow(after: Store, before: seq<Event>, trace: seq<Event>, at: map<Uri, nat>, u: Uri, mark: Mark, mayBeSilent: bool)
    requires Accounted(ApplyAll(after, before), trace, at, u, mark, mayBeSilent)
    ensures u in at && at[u] <= |trace|
    ensures var c := Classify(ApplyAll(after, before + trace[..at[u]]), u, mark);
            c == Covered || (c == Silent && mayBeSilent)
  {
    ApplyAllSplit(after, before, trace[..at[u]]);
  }

  lemma PublishedSinceMark(s: Store, uri: Uri, mid: seq<Event>, mid': seq<Event>, later: seq<Event>)
    ensures |Publications(SinceMark(uri, mid, mid', later), uri)|
         == |Publications(mid, uri)| + |Publications(mid', uri)| + |Publications(later, uri)|
  {
    hide ApplyAll, Publications;
    MarkToNow(s, uri, mid, mid', later);
    CountersCount(s, SinceMark(uri, mid, mid', later), uri);
    CountersCount(s, mid, uri);
    CountersCount(EditStart(s, uri, mid), mid', uri);
    CountersCount(ApplyAll(EditStart(s, uri, mid), mid'), later, uri);
  }

  // ---- Where the guarantee ends ----

  /** A reset between an older publication and the poll hides that it was older. */
  lemma ResetHidesStale()
    ensures var uri := "f";
            var s := Store(map[uri := 3], map[uri := 4], map[uri := 4]);
            var mark := EditMark(s, uri, [], []);
            var after := EditStart(s, uri, []);
            && Classify(ApplyAll(after, [Publish(uri, Some(4))]), uri, mark) == Stale
            && Classify(ApplyAll(after, [Publish(uri, Some(4)), Forget(uri)]), uri, mark) == Covered
  {
    var uri := "f";
    var s := Store(map[uri := 3], map[uri := 4], map[uri := 4]);
    var after := EditStart(s, uri, []);
    var one, two := [Publish(uri, Some(4))], [Publish(uri, Some(4)), Forget(uri)];
    assert one[..|one| - 1] == [] && two[..|two| - 1] == one;
    assert ApplyAll(after, []) == after;
    assert ApplyAll(after, one) == Apply(after, one[0]);
    assert ApplyAll(after, two) == Apply(ApplyAll(after, one), two[1]);
  }

  /** A closed and reopened document counts as covered before anything is published: the recorded
      version survives the close while document versions start again at 1. */
  lemma ReopenedLooksCovered()
    ensures var uri := "f";
            var s := Apply(Store(map[uri := 3], map[uri := 4], map[uri := 4]), Close(uri));
            Classify(EditStart(s, uri, []), uri, EditMark(s, uri, [], [])) == Covered
  {
    var uri := "f";
    var s := Apply(Store(map[uri := 3], map[uri := 4], map[uri := 4]), Close(uri));
    assert ApplyAll(EditStart(s, uri, []), []) == EditStart(s, uri, []);
    assert EditMark(s, uri, [], []).version == 1;
  }
}

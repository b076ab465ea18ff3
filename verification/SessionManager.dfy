/**
 The session manager of internal/session/manager.go, with the objects and maps it updates in place,
 proved against the values of module Session; and what Evaluate and SimulateChain report.
 */
module SessionManager {
  import opened Wrappers
  import TextEdits
  import Differ
  import Session

  type Id = Session.Id
  type Uri = Session.Uri
  type Status = Session.Status
  type Call = Session.Call
  type Verdict = Session.Verdict
  type Snapshot = Differ.Snapshot

  // ---- Confidence ----

  datatype Confidence = High | Partial | Eventual | Low

  function EvalConfidence(scope: string, timedOut: bool, netDelta: int, activeProgress: bool): Confidence {
    if netDelta <= 0 && activeProgress then Low
    else if timedOut then Partial
    else if scope == "workspace" then Eventual
    else High
  }

  // ---- What Evaluate reads ----

  /** The answers an evaluation gets: the executor slot, the pulled diagnostics when the server is
      pulled and every pull succeeded, the cached ones, whether the wait settled, and whether
      progress is active afterwards. */
  datatype EvalIO = EvalIO(acquired: bool, pulled: Option<Snapshot>, cached: Snapshot, settled: bool, activeProgress: bool)

  /** Evaluate's reading of one file: what was pulled for it, else what is cached. */
  function Current(io: EvalIO, files: set<Uri>): Snapshot {
    map u | u in files ::
      if io.pulled.Some? && u in io.pulled.value then io.pulled.value[u] else Differ.Diagnostics(io.cached, u)
  }

  ghost predicate Enumerates(uris: seq<Uri>, files: set<Uri>) {
    && (forall u :: u in uris <==> u in files)
    && forall i, j | 0 <= i < j < |uris| :: uris[i] != uris[j]
  }

  /** netDelta is the change in errors and warnings from the baselines to the current diagnostics,
      whatever the order in which the files are counted. */
  ghost predicate IsDelta(netDelta: int, baselines: Snapshot, current: Snapshot) {
    forall uris | Enumerates(uris, baselines.Keys) ::
      netDelta == Differ.Total(current, uris) - Differ.Total(baselines, uris)
  }

  lemma {:induction false} TotalTakesOut(s: Snapshot, uris: seq<Uri>, i: nat)
    requires i < |uris|
    ensures Differ.Total(s, uris)
         == |Differ.Significant(Differ.Diagnostics(s, uris[i]))| + Differ.Total(s, uris[..i] + uris[i + 1..])
  {
    hide Differ.Significant;
    if i == 0 {
      assert uris[..0] + uris[1..] == uris[1..];
    } else {
      TotalTakesOut(s, uris[1..], i - 1);
      var rest := uris[..i] + uris[i + 1..];
      assert rest[0] == uris[0];
      assert rest[1..] == uris[1..][..i - 1] + uris[1..][i..];
    }
  }

  lemma TakeOut(uris: seq<Uri>, files: set<Uri>, i: nat)
    requires Enumerates(uris, files) && i < |uris|
    ensures Enumerates(uris[..i] + uris[i + 1..], files - {uris[i]})
  {
    var rest := uris[..i] + uris[i + 1..];
    forall u ensures u in rest <==> u in files - {uris[i]} {
      if u in files - {uris[i]} {
        var k :| 0 <= k < |uris| && uris[k] == u;
        assert rest[if k < i then k else k - 1] == u;
      }
    }
  }

  lemma {:induction false} EnumerationCounts(uris: seq<Uri>, files: set<Uri>)
    requires Enumerates(uris, files)
    ensures |uris| == |files|
    decreases |uris|
  {
    if uris == [] {
      assert files == {};
    } else {
      TakeOut(uris, files, 0);
      assert uris[..0] + uris[1..] == uris[1..];
      assert uris[0] in files;
      EnumerationCounts(uris[1..], files - {uris[0]});
    }
  }

  /** Go's map order does not matter to the sum. */
  lemma {:induction false} TotalIgnoresOrder(s: Snapshot, a: seq<Uri>, b: seq<Uri>, files: set<Uri>)
    requires Enumerates(a, files) && Enumerates(b, files)
    ensures Differ.Total(s, a) == Differ.Total(s, b)
    decreases |a|
  {
    hide Differ.Significant;
    EnumerationCounts(a, files);
    EnumerationCounts(b, files);
    if a != [] {
      assert a[0] in b;
      var i :| 0 <= i < |b| && b[i] == a[0];
      TotalTakesOut(s, b, i);
      TakeOut(a, files, 0);
      TakeOut(b, files, i);
      assert a[..0] + a[1..] == a[1..];
      TotalIgnoresOrder(s, a[1..], b[..i] + b[i + 1..], files - {a[0]});
    }
  }

  datatype EvaluationResult = EvaluationResult(
    introduced: seq<Differ.Entry>,
    resolved: seq<Differ.Entry>,
    netDelta: int,
    confidence: Confidence,
    timedOut: bool)

  /** What an evaluation reports. */
  ghost predicate Reports(r: EvaluationResult, baselines: Snapshot, scope: string, io: EvalIO) {
    && ListsDiff(r, baselines, Current(io, baselines.Keys))
    && r.netDelta == |r.introduced| - |r.resolved|
    && IsDelta(r.netDelta, baselines, Current(io, baselines.Keys))
    && r.timedOut == (baselines != map[] && io.pulled.None? && !io.settled)
    && r.confidence == EvalConfidence(scope, r.timedOut, r.netDelta, io.activeProgress)
  }

  /** The lists are the differences of the files, in some order of the files. */
  ghost predicate ListsDiff(r: EvaluationResult, baselines: Snapshot, current: Snapshot) {
    exists uris | Enumerates(uris, baselines.Keys) ::
      && r.introduced == Differ.AllIntroduced(baselines, current, uris)
      && r.resolved == Differ.AllResolved(baselines, current, uris)
  }

  /** The diagnostics an evaluation gets for one file. */
  predicate IsRead(io: EvalIO, u: Uri, ds: seq<Differ.Diagnostic>) {
    ds == if io.pulled.Some? && u in io.pulled.value then io.pulled.value[u]
          else if u in io.cached then io.cached[u] else []
  }

  /** An evaluation that reads for every file the very diagnostics of its baseline reports nothing. */
  lemma UnchangedReportsNothing(r: EvaluationResult, baselines: Snapshot, scope: string, io: EvalIO)
    requires Reports(r, baselines, scope, io)
    requires forall u | u in baselines :: IsRead(io, u, baselines[u])
    ensures r.netDelta == 0 && r.introduced == [] && r.resolved == []
  {
    hide IsDelta, Differ.AllIntroduced, Differ.AllResolved;
    var current := Current(io, baselines.Keys);
    var uris :| Enumerates(uris, baselines.Keys)
                && r.introduced == Differ.AllIntroduced(baselines, current, uris)
                && r.resolved == Differ.AllResolved(baselines, current, uris);
    assert forall u | u in uris :: Differ.Diagnostics(current, u) == Differ.Diagnostics(baselines, u);
    Differ.UnchangedIsEmpty(baselines, current, uris);
  }

  /** So an edit that leaves all diagnostics as they were when its file was first read, and as the
      other files' baselines have them, is reported to change nothing. */
  lemma HarmlessEditReportsNothing(s: Session.Session, w: Session.World, u: Uri, range: TextEdits.Range, text: string,
                                   edit: Session.EditIO, r: EvaluationResult, scope: string, io: EvalIO)
    requires Session.ReplayOk(s) && Session.EditSession(s, w, u, range, text, edit).2 == Session.Ok
    requires Reports(r, Session.EditSession(s, w, u, range, text, edit).0.baselines, scope, io)
    requires IsRead(io, u, if u in s.baselines then s.baselines[u] else edit.diagnostics)
    requires forall v | v in s.baselines && v != u :: IsRead(io, v, s.baselines[v])
    ensures r.netDelta == 0 && r.introduced == [] && r.resolved == []
  {
    hide Reports, Session.EditSession, Session.ReplayOk, IsRead;
    Session.EditDoes(s, w, u, range, text, edit);
    UnchangedReportsNothing(r, Session.EditSession(s, w, u, range, text, edit).0.baselines, scope, io);
  }

  /** A clean result is reported with high confidence exactly when it may be trusted: the scope is
      not the workspace, no work is in progress, and the diagnostics were pulled or settled, or
      there was no file to look at. One with new errors does not depend on progress. */
  lemma HighConfidenceIsEarned(r: EvaluationResult, baselines: Snapshot, scope: string, io: EvalIO)
    requires Reports(r, baselines, scope, io)
    ensures r.confidence == High <==>
            && scope != "workspace"
            && (baselines == map[] || io.pulled.Some? || io.settled)
            && (r.netDelta > 0 || !io.activeProgress)
    ensures r.confidence == Low <==> r.netDelta <= 0 && io.activeProgress
    ensures r.confidence == Partial <==>
            && baselines != map[] && io.pulled.None? && !io.settled && (r.netDelta > 0 || !io.activeProgress)
    ensures r.confidence == Eventual <==>
            && scope == "workspace" && (baselines == map[] || io.pulled.Some? || io.settled)
            && (r.netDelta > 0 || !io.activeProgress)
  {
    hide IsDelta, ListsDiff;
  }

  method ListFiles(files: set<Uri>) returns (uris: seq<Uri>)
    ensures Enumerates(uris, files)
  {
    uris := [];
    var left := files;
    while left != {}
      invariant left <= files && Enumerates(uris, files - left)
      decreases left
    {
      var u :| u in left;
      uris, left := uris + [u], left - {u};
    }
  }

  /** The part of Evaluate between its two status changes. */
  method Compare(baselines: Snapshot, scope: string, io: EvalIO) returns (r: EvaluationResult)
    ensures Reports(r, baselines, scope, io)
  {
    hide Differ.Total, Differ.Significant, Differ.AllIntroduced, Differ.AllResolved, Differ.Introduced, Differ.Resolved;
    var uris := ListFiles(baselines.Keys);
    var current := Current(io, baselines.Keys);
    var introduced, resolved, netDelta := Differ.NetDelta(uris, baselines, current);
    forall other | Enumerates(other, baselines.Keys)
      ensures netDelta == Differ.Total(current, other) - Differ.Total(baselines, other)
    {
      TotalIgnoresOrder(current, uris, other, baselines.Keys);
      TotalIgnoresOrder(baselines, uris, other, baselines.Keys);
    }
    assert netDelta == |introduced| - |resolved|;
    var timedOut := |uris| > 0 && io.pulled.None? && !io.settled;
    EnumerationCounts(uris, baselines.Keys);
    r := EvaluationResult(introduced, resolved, netDelta, EvalConfidence(scope, timedOut, netDelta, io.activeProgress), timedOut);
  }

  // ---- Commit and Discard loops ----

  /** Which writes and notifications of a loop over the files succeed. */
  datatype FilesIO = FilesIO(writable: set<Uri>, reachable: set<Uri>)

  lemma PartGrows(base: map<Uri, string>, texts: map<Uri, string>, keys: set<Uri>, u: Uri)
    requires u in texts
    ensures (base + Session.Part(texts, keys))[u := texts[u]] == base + Session.Part(texts, keys + {u})
  {}

  lemma PartOfNothing(base: map<Uri, string>, texts: map<Uri, string>, keys: set<Uri>)
    requires keys !! texts.Keys
    ensures base + Session.Part(texts, keys) == base
  {}

  lemma PartSkips(texts: map<Uri, string>, keys: set<Uri>, u: Uri)
    requires u !in texts
    ensures Session.Part(texts, keys + {u}) == Session.Part(texts, keys)
  {}

  // ---- Chains ----

  datatype ChainEdit = ChainEdit(uri: Uri, range: TextEdits.Range, text: string, edit: Session.EditIO, eval: EvalIO)

  datatype ChainStep = ChainStep(step: nat, netDelta: int, introduced: seq<Differ.Entry>)

  datatype ChainResult = ChainResult(steps: seq<ChainStep>, safeThrough: nat, cumulative: int)

  function ChainStepCalls(s: Session.System, id: Id, e: ChainEdit): (Session.System, Verdict) {
    var (edited, verdict) := Session.Step(s, Session.ApplyEdit(id, e.uri, e.range, e.text, e.edit));
    if verdict != Session.Ok then (edited, verdict)
    else Session.Step(edited, Session.Evaluate(id, e.eval.acquired))
  }

  /** Apply and evaluate one edit after the other; the first call that fails ends it. */
  function Chain(s: Session.System, id: Id, edits: seq<ChainEdit>): (Session.System, Verdict) {
    if edits == [] then (s, Session.Ok)
    else
      var (before, verdict) := Chain(s, id, edits[..|edits| - 1]);
      if verdict != Session.Ok then (before, verdict) else ChainStepCalls(before, id, edits[|edits| - 1])
  }

  lemma {:induction false} FailedChainEnds(s: Session.System, id: Id, edits: seq<ChainEdit>, i: nat)
    requires i <= |edits| && Chain(s, id, edits[..i]).1 != Session.Ok
    ensures Chain(s, id, edits) == Chain(s, id, edits[..i])
  {
    hide ChainStepCalls;
    if i == |edits| {
      assert edits[..i] == edits;
    } else {
      assert edits[..|edits| - 1][..i] == edits[..i];
      FailedChainEnds(s, id, edits[..|edits| - 1], i);
    }
  }

  lemma ChainGrows(s: Session.System, id: Id, edits: seq<ChainEdit>, i: nat)
    requires i < |edits| && Chain(s, id, edits[..i]).1 == Session.Ok
    ensures Chain(s, id, edits[..i + 1]) == ChainStepCalls(Chain(s, id, edits[..i]).0, id, edits[i])
  {
    hide ChainStepCalls;
    assert edits[..i + 1][..i] == edits[..i];
  }

  /** A step's delta compares the diagnostics read in that step with the baselines held after it. */
  ghost predicate StepReports(step: ChainStep, number: nat, after: Session.System, id: Id, io: EvalIO) {
    && step.step == number
    && id in after.sessions
    && IsDelta(step.netDelta, after.sessions[id].baselines, Current(io, after.sessions[id].baselines.Keys))
  }

  /** Each step reports on the state the chain had reached after it. */
  ghost predicate ChainReports(steps: seq<ChainStep>, s: Session.System, id: Id, edits: seq<ChainEdit>) {
    && |steps| == |edits|
    && forall k | 0 <= k < |edits| :: StepReports(steps[k], k + 1, Chain(s, id, edits[..k + 1]).0, id, edits[k].eval)
  }

  lemma StepsAreNumbered(steps: seq<ChainStep>, s: Session.System, id: Id, edits: seq<ChainEdit>)
    requires ChainReports(steps, s, id, edits)
    ensures forall k | 0 <= k < |steps| :: steps[k].step == k + 1
  {
    hide IsDelta, Chain;
  }

  lemma ReportsGrow(steps: seq<ChainStep>, s: Session.System, id: Id, edits: seq<ChainEdit>, i: nat, step: ChainStep)
    requires i < |edits| && ChainReports(steps, s, id, edits[..i])
    requires StepReports(step, i + 1, Chain(s, id, edits[..i + 1]).0, id, edits[i].eval)
    ensures ChainReports(steps + [step], s, id, edits[..i + 1])
  {
    hide StepReports, Chain;
    var more := edits[..i + 1];
    forall k | 0 <= k <= i
      ensures StepReports((steps + [step])[k], k + 1, Chain(s, id, more[..k + 1]).0, id, more[k].eval)
    {
      assert more[..k + 1] == edits[..k + 1];
      if k < i {
        assert edits[..i][..k + 1] == edits[..k + 1];
      }
    }
  }

  predicate Sticks(before: Snapshot, after: Snapshot) {
    forall u | u in before :: u in after && after[u] == before[u]
  }

  lemma EditKeepsBaselines(s: Session.Session, w: Session.World, e: ChainEdit)
    ensures Sticks(s.baselines, Session.EditSession(s, w, e.uri, e.range, e.text, e.edit).0.baselines)
  {
    hide TextEdits.ApplyRangeEdit;
  }

  lemma {:induction false} ChainKeepsBaselines(s: Session.System, id: Id, edits: seq<ChainEdit>, j: nat)
    requires j <= |edits| && id in Chain(s, id, edits[..j]).0.sessions
    ensures id in Chain(s, id, edits).0.sessions
    ensures Sticks(Chain(s, id, edits[..j]).0.sessions[id].baselines, Chain(s, id, edits).0.sessions[id].baselines)
  {
    hide Session.EditSession;
    if j == |edits| {
      assert edits[..j] == edits;
    } else {
      var front, last := edits[..|edits| - 1], edits[|edits| - 1];
      assert front[..j] == edits[..j];
      ChainKeepsBaselines(s, id, front, j);
      var before := Chain(s, id, front).0;
      EditKeepsBaselines(before.sessions[id], before.world, last);
    }
  }

  /** Baselines are never taken again, so between two steps with the same files the reported deltas
      differ by exactly the change in errors and warnings from one reading to the other. */
  lemma ChainDeltasCompose(steps: seq<ChainStep>, s: Session.System, id: Id, edits: seq<ChainEdit>, j: nat, k: nat, uris: seq<Uri>)
    requires ChainReports(steps, s, id, edits) && j <= k < |edits|
    requires id in Chain(s, id, edits[..j + 1]).0.sessions && id in Chain(s, id, edits[..k + 1]).0.sessions
    requires Enumerates(uris, Chain(s, id, edits[..j + 1]).0.sessions[id].baselines.Keys)
    requires Enumerates(uris, Chain(s, id, edits[..k + 1]).0.sessions[id].baselines.Keys)
    ensures var files := Chain(s, id, edits[..j + 1]).0.sessions[id].baselines.Keys;
            steps[k].netDelta - steps[j].netDelta
            == Differ.Total(Current(edits[k].eval, files), uris) - Differ.Total(Current(edits[j].eval, files), uris)
  {
    hide Chain, Differ.Total, Current;
    assert edits[..k + 1][..j + 1] == edits[..j + 1];
    ChainKeepsBaselines(s, id, edits[..k + 1], j + 1);
    var a := Chain(s, id, edits[..j + 1]).0.sessions[id].baselines;
    var b := Chain(s, id, edits[..k + 1]).0.sessions[id].baselines;
    assert forall u :: u in a.Keys <==> u in b.Keys;
    assert a.Keys == b.Keys;
    assert a == b;
  }

  function ChainCalls(id: Id, edits: seq<ChainEdit>): seq<Call> {
    if edits == [] then []
    else
      var e := edits[|edits| - 1];
      ChainCalls(id, edits[..|edits| - 1])
      + [Session.ApplyEdit(id, e.uri, e.range, e.text, e.edit), Session.Evaluate(id, e.eval.acquired)]
  }

  lemma {:induction false} FinalOfTwoMore(s: Session.System, calls: seq<Call>, a: Call, b: Call)
    ensures Session.Final(s, calls + [a, b]) == Session.Step(Session.Step(Session.Final(s, calls), a).0, b).0
    decreases |calls|
  {
    hide Session.Step;
    if calls == [] {
      assert [] + [a, b] == [a, b] && [a, b][1..] == [b] && [b][1..] == [];
      assert Session.Final(s, [a, b]) == Session.Final(Session.Step(s, a).0, [b]);
      assert Session.Final(Session.Step(s, a).0, [b]) == Session.Final(Session.Step(Session.Step(s, a).0, b).0, []);
    } else {
      assert (calls + [a, b])[1..] == calls[1..] + [a, b];
      FinalOfTwoMore(Session.Step(s, calls[0]).0, calls[1..], a, b);
    }
  }

  /** A chain that succeeds is the run of its edits, each followed by an evaluation. */
  lemma {:induction false} ChainIsRun(s: Session.System, id: Id, edits: seq<ChainEdit>)
    requires Chain(s, id, edits).1 == Session.Ok
    ensures Chain(s, id, edits).0 == Session.Final(s, ChainCalls(id, edits))
  {
    hide Session.Step;
    if edits != [] {
      var front, e := edits[..|edits| - 1], edits[|edits| - 1];
      ChainIsRun(s, id, front);
      FinalOfTwoMore(s, ChainCalls(id, front), Session.ApplyEdit(id, e.uri, e.range, e.text, e.edit),
                     Session.Evaluate(id, e.eval.acquired));
    }
  }

  /** safeThrough is the last step whose edits left the number of errors and warnings unchanged, 0
      when there is none; cumulative is the delta of the last step. */
  predicate Summarises(r: ChainResult) {
    && r.safeThrough <= |r.steps|
    && (r.safeThrough > 0 ==> r.steps[r.safeThrough - 1].netDelta == 0)
    && (forall k | r.safeThrough <= k < |r.steps| :: r.steps[k].netDelta != 0)
    && r.cumulative == if r.steps == [] then 0 else r.steps[|r.steps| - 1].netDelta
  }

  method Summarise(steps: seq<ChainStep>) returns (r: ChainResult)
    requires forall k | 0 <= k < |steps| :: steps[k].step == k + 1
    ensures r.steps == steps && Summarises(r)
  {
    var safe: nat, i: nat := 0, |steps|;
    while i > 0 && safe == 0
      invariant i <= |steps|
      invariant safe == 0 ==> forall k | i <= k < |steps| :: steps[k].netDelta != 0
      invariant safe > 0 ==> safe == i + 1 <= |steps| && steps[i].netDelta == 0
                             && forall k | safe <= k < |steps| :: steps[k].netDelta != 0
    {
      i := i - 1;
      if steps[i].netDelta == 0 {
        safe := steps[i].step;
      }
    }
    var cumulative := 0;
    if |steps| > 0 {
      cumulative := steps[|steps| - 1].netDelta;
    }
    r := ChainResult(steps, safe, cumulative);
  }

  // ---- Objects ----

  class SimulationSession {
    var status: Status
    var edits: seq<Session.AppliedEdit>
    var baselines: map<Uri, seq<Differ.Diagnostic>>
    var versions: map<Uri, nat>
    var contents: map<Uri, string>
    var originals: map<Uri, string>

    constructor ()
      ensures View() == Session.NEW
    {
      status, edits := Session.Created, [];
      baselines, versions, contents, originals := map[], map[], map[], map[];
    }

    function View(): Session.Session
      reads this
    {
      Session.Session(status, edits, baselines, versions, contents, originals)
    }

    method MarkDirty()
      modifies this`status
      ensures View() == old(View()).(status := Session.Dirty)
    {
      status := Session.Dirty;
    }

    method SetStatus(next: Status)
      modifies this`status
      ensures View() == old(View()).(status := next)
    {
      status := next;
    }
  }

  ghost function Views(sessions: map<Id, SimulationSession>): map<Id, Session.Session>
    reads sessions.Values
  {
    map id | id in sessions :: sessions[id].View()
  }

  lemma ViewsOfOne(sessions: map<Id, SimulationSession>, id: Id)
    requires id in sessions
    ensures Views(sessions) == Views(sessions - {id})[id := sessions[id].View()]
  {
    hide SimulationSession.View;
  }

  class Manager {
    var sessions: map<Id, SimulationSession>
    const inside: set<Uri>
    var disk: map<Uri, string>
    var server: map<Uri, string>

    ghost predicate Valid()
      reads this
    {
      forall a, b | a in sessions && b in sessions && a != b :: sessions[a] != sessions[b]
    }

    function World(): Session.World
      reads this
    {
      Session.World(inside, disk, server)
    }

    ghost function View(): Session.System
      reads this, sessions.Values
    {
      Session.System(Views(sessions), World())
    }

    constructor (world: Session.World)
      ensures Valid() && View() == Session.System(map[], world)
    {
      sessions := map[];
      inside, disk, server := world.inside, world.disk, world.server;
    }

    /** A method that touched one session object and the world did what Put does. */
    twostate lemma ChangedOne(id: Id)
      requires old(Valid()) && sessions == old(sessions) && id in sessions
      requires forall o | o in sessions.Values && o != sessions[id] :: unchanged(o)
      ensures Valid()
      ensures View().sessions == old(View()).sessions[id := sessions[id].View()]
    {
      hide SimulationSession.View;
      forall other | other in sessions && other != id
        ensures sessions[other].View() == old(sessions[other].View())
      {
        assert sessions[other] in sessions.Values;
      }
      var before, after := old(View()).sessions, View().sessions;
      assert after.Keys == sessions.Keys == before.Keys;
    }

    twostate lemma StillDistinct(id: Id)
      requires old(Valid()) && id in sessions && sessions == old(sessions)[id := sessions[id]]
      requires fresh(sessions[id])
      ensures Valid()
    {
      forall a, b | a in sessions && b in sessions && a != b ensures sessions[a] != sessions[b] {
        assert a != id ==> old(allocated(sessions[a]));
        assert b != id ==> old(allocated(sessions[b]));
      }
    }

    twostate lemma AddedOne(id: Id)
      requires id in sessions && sessions == old(sessions)[id := sessions[id]]
      requires forall o | o in old(sessions.Values) :: unchanged(o)
      ensures View().sessions == old(View()).sessions[id := sessions[id].View()]
    {
      hide SimulationSession.View, Views;
      var others := sessions - {id};
      assert others == old(sessions) - {id};
      assert forall o | o in others.Values :: o in old(sessions).Values;
      assert Views(others) == old(Views(others));
      ViewsOfOne(sessions, id);
      OldViewsWithout(id);
    }

    twostate lemma OldViewsWithout(id: Id)
      ensures old(Views(sessions)) - {id} == old(Views(sessions - {id}))
    {
      hide SimulationSession.View;
    }

    method CreateSession(id: Id)
      requires Valid() && id !in sessions
      modifies this
      ensures Valid() && View() == Session.Step(old(View()), Session.Create(id)).0
      ensures id in sessions && fresh(sessions[id]) && sessions == old(sessions)[id := sessions[id]]
    {
      var session := new SimulationSession();
      sessions := sessions[id := session];
      StillDistinct(id);
      AddedOne(id);
    }

    /** OpenDocument: the server has the text afterwards, unless sending fails. */
    method Send(u: Uri, text: string, ok: bool)
      modifies this`server
      ensures server == if ok then old(server)[u := text] else old(server)
    {
      if ok {
        server := server[u := text];
      }
    }

    method EstablishBaseline(session: SimulationSession, u: Uri, io: Session.EditIO) returns (ok: bool)
      modifies this`server, session
      ensures (session.View(), World()) == Session.Baseline(old(session.View()), old(World()), u, io)
      ensures ok == (u in disk && io.openSent) && (!ok ==> session.status == Session.Dirty)
      ensures ok ==> session.baselines == old(session.baselines)[u := io.diagnostics] && server == old(server)[u := disk[u]]
      ensures ok ==> session.status == old(session.status)
    {
      if u !in disk {
        session.MarkDirty();
        return false;
      }
      var text := disk[u];
      session.contents := session.contents[u := text];
      if u !in session.originals {
        session.originals := session.originals[u := text];
      }
      Send(u, text, io.openSent);
      if !io.openSent {
        session.MarkDirty();
        return false;
      }
      session.baselines := session.baselines[u := io.diagnostics];
      return true;
    }

    method SpliceAndSend(session: SimulationSession, u: Uri, range: TextEdits.Range, text: string, io: Session.EditIO)
        returns (ok: bool, version: nat)
      modifies this`server, session
      ensures (session.View(), World()) == Session.Splice(old(session.View()), old(World()), u, range, text, io)
      ensures ok == io.changeSent && u in session.versions && version == session.versions[u]
      ensures session.status == if ok then Session.Mutated else Session.Dirty
    {
      hide TextEdits.ApplyRangeEdit;
      version := (if u in session.versions then session.versions[u] else 0) + 1;
      session.versions := session.versions[u := version];
      var before := if u in session.contents then session.contents[u] else "";
      session.contents := session.contents[u := TextEdits.ApplyRangeEdit(before, range, text)];
      Send(u, session.contents[u], io.changeSent);
      if !io.changeSent {
        session.MarkDirty();
        return false, version;
      }
      session.edits := session.edits + [Session.AppliedEdit(u, range, text, version)];
      session.SetStatus(Session.Mutated);
      return true, version;
    }

    method ApplyEdit(id: Id, u: Uri, range: TextEdits.Range, text: string, io: Session.EditIO)
        returns (verdict: Verdict, version: nat)
      requires Valid()
      modifies this`server, sessions.Values
      ensures Valid()
      ensures (View(), verdict) == Session.Step(old(View()), Session.ApplyEdit(id, u, range, text, io))
      ensures verdict == Session.Ok ==> View().sessions[id].versions[u] == version
    {
      hide Session.Baseline, Session.Splice, TextEdits.ApplyRangeEdit;
      version := 0;
      if id !in sessions {
        return Session.NotFound, 0;
      }
      var session := sessions[id];
      if Session.IsTerminal(session.status) {
        verdict := Session.Refused;
      } else if u !in inside {
        verdict := Session.OutsideWorkspace;
      } else if !io.acquired {
        verdict := Session.NotAcquired;
      } else {
        var based := true;
        if u !in session.baselines {
          based := EstablishBaseline(session, u, io);
        }
        verdict := Session.Failed;
        if based {
          var ok;
          ok, version := SpliceAndSend(session, u, range, text, io);
          verdict := if ok then Session.Ok else Session.Failed;
        }
      }
      ChangedOne(id);
    }

    method Evaluate(id: Id, scope: string, io: EvalIO) returns (verdict: Verdict, result: Option<EvaluationResult>)
      requires Valid()
      modifies sessions.Values
      ensures Valid()
      ensures (View(), verdict) == Session.Step(old(View()), Session.Evaluate(id, io.acquired))
      ensures result.Some? <==> verdict == Session.Ok
      ensures result.Some? ==> id in sessions && Reports(result.value, View().sessions[id].baselines, scope, io)
    {
      hide Differ.Total, Differ.Significant;
      if id !in sessions {
        return Session.NotFound, None;
      }
      var session := sessions[id];
      if !Session.Evaluable(session.status) {
        verdict, result := Session.Refused, None;
      } else if !io.acquired {
        verdict, result := Session.NotAcquired, None;
      } else {
        session.SetStatus(Session.Evaluating);
        var report := Compare(session.baselines, scope, io);
        session.SetStatus(Session.Evaluated);
        verdict, result := Session.Ok, Some(report);
      }
      ChangedOne(id);
    }

    method Commit(id: Id, apply: bool, io: FilesIO)
        returns (verdict: Verdict, written: nat, patch: map<Uri, string>, ghost loop: Session.LoopIO, ghost notified: set<Uri>)
      requires Valid()
      modifies this`disk, this`server, sessions.Values
      ensures Valid()
      ensures var call := Session.Commit(id, apply, loop, notified);
              Session.Possible(old(View()), call) && (View(), verdict) == Session.Step(old(View()), call)
      ensures verdict == Session.Ok ==>
              patch == old(View()).sessions[id].contents && written == if apply then |patch| else 0
      ensures notified == loop.done * io.reachable && loop.done <= inside * io.writable
      ensures loop.failed.Some? ==> loop.failed.value !in inside * io.writable
    {
      written, patch, loop, notified := 0, map[], Session.LoopIO({}, None), {};
      if id !in sessions {
        return Session.NotFound, written, patch, loop, notified;
      }
      var session := sessions[id];
      if !Session.Evaluable(session.status) {
        ChangedOne(id);
        return Session.Refused, written, patch, loop, notified;
      }
      patch := session.contents;
      if apply {
        verdict, written, loop := WriteFiles(session, io);
        notified := loop.done * io.reachable;
        if verdict != Session.Ok {
          ChangedOne(id);
          return;
        }
      }
      session.SetStatus(Session.Committed);
      verdict := Session.Ok;
      ChangedOne(id);
    }

    /** Write one file and notify the server. */
    method WriteFile(session: SimulationSession, u: Uri, io: FilesIO, ghost start: Session.World, ghost done: set<Uri>)
      requires u in session.contents && u !in done
      requires disk == start.disk + Session.Part(session.contents, done)
      requires server == start.server + Session.Part(session.contents, done * io.reachable)
      modifies this`disk, this`server, session`status
      ensures disk == start.disk + Session.Part(session.contents, done + {u})
      ensures server == start.server + Session.Part(session.contents, (done + {u}) * io.reachable)
    {
      PartGrows(start.disk, session.contents, done, u);
      PartGrows(start.server, session.contents, done * io.reachable, u);
      hide Session.Part;
      var content := session.contents[u];
      disk := disk[u := content];
      Send(u, content, u in io.reachable);
      assert (done + {u}) * io.reachable
          == if u in io.reachable then done * io.reachable + {u} else done * io.reachable;
      if u !in io.reachable {
        session.MarkDirty();
      }
    }

    method WriteFiles(session: SimulationSession, io: FilesIO)
        returns (verdict: Verdict, written: nat, ghost loop: Session.LoopIO)
      modifies this`disk, this`server, session`status
      ensures Session.LoopOver(session.contents.Keys, loop) && loop.done <= inside * io.writable
      ensures disk == old(disk) + Session.Part(session.contents, loop.done)
      ensures server == old(server) + Session.Part(session.contents, loop.done * io.reachable)
      ensures loop.failed.Some? ==> loop.failed.value !in inside * io.writable
      ensures verdict == if loop.failed.Some? then Session.Failed else Session.Ok
      ensures verdict == Session.Failed ==> session.status == Session.Dirty
      ensures verdict == Session.Ok ==> written == |session.contents.Keys|
    {
      var left := session.contents.Keys;
      ghost var done := {};
      written := 0;
      PartOfNothing(disk, session.contents, {});
      PartOfNothing(server, session.contents, {});
      assert done * io.reachable == {};
      hide Session.Part;
      while left != {}
        invariant left !! done && left + done == session.contents.Keys && done <= inside * io.writable
        invariant written + |left| == |session.contents.Keys|
        invariant disk == old(disk) + Session.Part(session.contents, done)
        invariant server == old(server) + Session.Part(session.contents, done * io.reachable)
        decreases left
      {
        var u :| u in left;
        if u !in inside || u !in io.writable {
          session.MarkDirty();
          return Session.Failed, written, Session.LoopIO(done, Some(u));
        }
        WriteFile(session, u, io, old(World()), done);
        written := written + 1;
        done, left := done + {u}, left - {u};
      }
      return Session.Ok, written, Session.LoopIO(done, None);
    }

    method Discard(id: Id, acquired: bool, io: FilesIO) returns (verdict: Verdict, ghost loop: Session.LoopIO)
      requires Valid()
      modifies this`server, sessions.Values
      ensures Valid()
      ensures var call := Session.Discard(id, acquired, loop);
              Session.Possible(old(View()), call) && (View(), verdict) == Session.Step(old(View()), call)
      ensures loop.failed.Some? ==> loop.failed.value !in io.reachable
    {
      loop := Session.LoopIO({}, None);
      if id !in sessions {
        return Session.NotFound, loop;
      }
      var session := sessions[id];
      if Session.IsTerminal(session.status) {
        verdict := Session.Refused;
      } else if !acquired {
        verdict := Session.NotAcquired;
      } else {
        verdict, loop := Revert(session, io);
        if verdict == Session.Ok {
          session.SetStatus(Session.Discarded);
        }
      }
      ChangedOne(id);
    }

    method Revert(session: SimulationSession, io: FilesIO) returns (verdict: Verdict, ghost loop: Session.LoopIO)
      modifies this`server, session`status
      ensures Session.LoopOver(session.contents.Keys, loop)
      ensures server == old(server) + Session.Part(session.originals, loop.done)
      ensures loop.failed.Some? ==> loop.failed.value !in io.reachable
      ensures verdict == if loop.failed.Some? then Session.Failed else Session.Ok
      ensures session.status == if verdict == Session.Failed then Session.Dirty else old(session.status)
    {
      var left := session.contents.Keys;
      ghost var done := {};
      PartOfNothing(server, session.originals, {});
      hide Session.Part;
      while left != {}
        invariant left !! done && left + done == session.contents.Keys
        invariant server == old(server) + Session.Part(session.originals, done)
        invariant session.status == old(session.status)
        decreases left
      {
        var u :| u in left;
        if u in session.originals {
          var original := session.originals[u];
          if u !in io.reachable {
            session.MarkDirty();
            return Session.Failed, Session.LoopIO(done, Some(u));
          }
          PartGrows(old(server), session.originals, done, u);
          Send(u, original, true);
        } else {
          PartSkips(session.originals, done, u);
        }
        done, left := done + {u}, left - {u};
      }
      return Session.Ok, Session.LoopIO(done, None);
    }

    twostate lemma RemovedOne(id: Id)
      requires old(Valid()) && sessions == old(sessions) - {id}
      requires forall o | o in sessions.Values :: unchanged(o)
      ensures Valid()
      ensures View().sessions == old(View()).sessions - {id}
    {
      hide SimulationSession.View;
      forall other | other in sessions
        ensures sessions[other].View() == old(sessions[other].View())
      {
        assert sessions[other] in sessions.Values;
      }
    }

    method Destroy(id: Id) returns (verdict: Verdict)
      requires Valid()
      modifies this`sessions, sessions.Values
      ensures Valid()
      ensures (View(), verdict) == Session.Step(old(View()), Session.Destroy(id))
    {
      if id !in sessions {
        return Session.NotFound;
      }
      sessions[id].SetStatus(Session.Destroyed);
      sessions := sessions - {id};
      RemovedOne(id);
      verdict := Session.Ok;
    }

    /** One turn of SimulateChain's loop. */
    method SimulateStep(id: Id, e: ChainEdit, number: nat) returns (verdict: Verdict, step: Option<ChainStep>)
      requires Valid()
      modifies this`server, sessions.Values
      ensures Valid()
      ensures (View(), verdict) == ChainStepCalls(old(View()), id, e)
      ensures step.Some? <==> verdict == Session.Ok
      ensures step.Some? ==> StepReports(step.value, number, View(), id, e.eval)
    {
      hide Session.Step, IsDelta;
      var applied, version := ApplyEdit(id, e.uri, e.range, e.text, e.edit);
      if applied != Session.Ok {
        return applied, None;
      }
      var evaluated, report := Evaluate(id, "file", e.eval);
      if evaluated != Session.Ok {
        return evaluated, None;
      }
      return Session.Ok, Some(ChainStep(number, report.value.netDelta, report.value.introduced));
    }

    method SimulateChain(id: Id, edits: seq<ChainEdit>) returns (verdict: Verdict, result: Option<ChainResult>)
      requires Valid()
      modifies this`server, sessions.Values
      ensures Valid()
      ensures (View(), verdict) == Chain(old(View()), id, edits)
      ensures result.Some? <==> verdict == Session.Ok
      ensures result.Some? ==> Summarises(result.value) && ChainReports(result.value.steps, old(View()), id, edits)
    {
      hide Session.Step, StepReports, ChainStepCalls;
      var steps := [];
      for i := 0 to |edits|
        invariant sessions == old(sessions) && Valid()
        invariant (View(), Session.Ok) == Chain(old(View()), id, edits[..i])
        invariant ChainReports(steps, old(View()), id, edits[..i])
      {
        ChainGrows(old(View()), id, edits, i);
        ghost var was := steps;
        var done, step := SimulateStep(id, edits[i], i + 1);
        if done != Session.Ok {
          FailedChainEnds(old(View()), id, edits, i + 1);
          return done, None;
        }
        steps := steps + [step.value];
        ReportsGrow(was, old(View()), id, edits, i, step.value);
      }
      assert edits[..|edits|] == edits;
      StepsAreNumbered(steps, old(View()), id, edits);
      var summary := Summarise(steps);
      verdict, result := Session.Ok, Some(summary);
    }
  }
}

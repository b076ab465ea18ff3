/**
 Speculative sessions of internal/session/manager.go and types.go as values: what each public call
 does to a session, to the disk and to the text the language server holds, and what every run of
 calls keeps.
 */
module Session {
  import opened Wrappers
  import TextEdits
  import Differ

  type Id = string
  type Uri = string

  datatype Status = Created | Mutated | Evaluating | Evaluated | Committed | Discarded | Dirty | Destroyed

  datatype AppliedEdit = AppliedEdit(uri: Uri, range: TextEdits.Range, text: string, version: nat)

  datatype Session = Session(
    status: Status,
    edits: seq<AppliedEdit>,
    baselines: map<Uri, seq<Differ.Diagnostic>>,
    versions: map<Uri, nat>,
    contents: map<Uri, string>,
    originals: map<Uri, string>)

  const NEW := Session(Created, [], map[], map[], map[], map[])

  /** inside: the documents that path validation places inside the workspace, distinct ones being
      distinct files; disk: their files; server: the text last sent for each document. */
  datatype World = World(inside: set<Uri>, disk: map<Uri, string>, server: map<Uri, string>)

  datatype System = System(sessions: map<Id, Session>, world: World)

  predicate IsTerminal(status: Status) {
    status == Committed || status == Discarded || status == Destroyed || status == Dirty
  }

  predicate Evaluable(status: Status) {
    status == Mutated || status == Evaluated
  }

  // ---- Calls ----

  /** What the outside world answers during ApplyEdit: the executor slot, the baseline diagnostics,
      and the two notifications to the server. */
  datatype EditIO = EditIO(acquired: bool, diagnostics: seq<Differ.Diagnostic>, openSent: bool, changeSent: bool)

  /** The files dealt with before a loop over the files stopped, and where it failed, if it did. */
  datatype LoopIO = LoopIO(done: set<Uri>, failed: Option<Uri>)

  datatype Call =
    | Create(id: Id)
    | ApplyEdit(id: Id, uri: Uri, range: TextEdits.Range, text: string, io: EditIO)
    | Evaluate(id: Id, acquired: bool)
    | Commit(id: Id, apply: bool, loop: LoopIO, notified: set<Uri>)
    | Discard(id: Id, acquired: bool, loop: LoopIO)
    | Destroy(id: Id)

  predicate LoopOver(keys: set<Uri>, loop: LoopIO) {
    && loop.done <= keys
    && match loop.failed
       case None => loop.done == keys
       case Some(u) => u in keys && u !in loop.done
  }

  predicate Possible(s: System, call: Call) {
    match call
    case Create(id) => id !in s.sessions
    case Commit(id, apply, loop, notified) =>
      id in s.sessions && Evaluable(s.sessions[id].status) && apply ==>
        LoopOver(s.sessions[id].contents.Keys, loop) && notified <= loop.done
    case Discard(id, acquired, loop) =>
      id in s.sessions && !IsTerminal(s.sessions[id].status) && acquired ==>
        LoopOver(s.sessions[id].contents.Keys, loop)
    case _ => true
  }

  datatype Verdict = Ok | NotFound | Refused | OutsideWorkspace | NotAcquired | Failed

  // ---- What each call does ----

  /** The first edit of a file: read it, remember the original, open it, take the baseline. */
  function Baseline(s: Session, w: World, u: Uri, io: EditIO): (Session, World) {
    if u !in w.disk then (s.(status := Dirty), w)
    else
      var text := w.disk[u];
      var read := s.(contents := s.contents[u := text],
                     originals := if u in s.originals then s.originals else s.originals[u := text]);
      if !io.openSent then (read.(status := Dirty), w)
      else (read.(baselines := s.baselines[u := io.diagnostics]), w.(server := w.server[u := text]))
  }

  /** Count the version, splice the text, send it, record the edit. */
  function Splice(s: Session, w: World, u: Uri, range: TextEdits.Range, text: string, io: EditIO): (Session, World) {
    var version := (if u in s.versions then s.versions[u] else 0) + 1;
    var content := TextEdits.ApplyRangeEdit(if u in s.contents then s.contents[u] else "", range, text);
    var spliced := s.(versions := s.versions[u := version], contents := s.contents[u := content]);
    if !io.changeSent then (spliced.(status := Dirty), w)
    else (spliced.(edits := s.edits + [AppliedEdit(u, range, text, version)], status := Mutated),
          w.(server := w.server[u := content]))
  }

  function EditSession(s: Session, w: World, u: Uri, range: TextEdits.Range, text: string, io: EditIO): (Session, World, Verdict) {
    if IsTerminal(s.status) then (s, w, Refused)
    else if u !in w.inside then (s, w, OutsideWorkspace)
    else if !io.acquired then (s, w, NotAcquired)
    else
      var (based, world) := if u in s.baselines then (s, w) else Baseline(s, w, u, io);
      if based.status == Dirty then (based, world, Failed)
      else
        var (edited, world') := Splice(based, world, u, range, text, io);
        (edited, world', if edited.status == Dirty then Failed else Ok)
  }

  /** The entries of a map at the given keys. */
  function Part(texts: map<Uri, string>, keys: set<Uri>): map<Uri, string> {
    map u | u in texts && u in keys :: texts[u]
  }

  /** A failed notification marks the session dirty, but the loop goes on and ends as committed. */
  function CommitSession(s: Session, w: World, apply: bool, loop: LoopIO, notified: set<Uri>): (Session, World, Verdict) {
    if !Evaluable(s.status) then (s, w, Refused)
    else if !apply then (s.(status := Committed), w, Ok)
    else
      var w' := w.(disk := w.disk + Part(s.contents, loop.done), server := w.server + Part(s.contents, notified));
      if loop.failed.Some? then (s.(status := Dirty), w', Failed) else (s.(status := Committed), w', Ok)
  }

  function DiscardSession(s: Session, w: World, acquired: bool, loop: LoopIO): (Session, World, Verdict) {
    if IsTerminal(s.status) then (s, w, Refused)
    else if !acquired then (s, w, NotAcquired)
    else
      var w' := w.(server := w.server + Part(s.originals, loop.done));
      if loop.failed.Some? then (s.(status := Dirty), w', Failed) else (s.(status := Discarded), w', Ok)
  }

  function EvaluateSession(s: Session, acquired: bool): (Session, Verdict) {
    if !Evaluable(s.status) then (s, Refused)
    else if !acquired then (s, NotAcquired)
    else (s.(status := Evaluated), Ok)
  }

  function Put(s: System, id: Id, r: (Session, World, Verdict)): (System, Verdict) {
    (System(s.sessions[id := r.0], r.1), r.2)
  }

  function Step(s: System, call: Call): (System, Verdict) {
    match call
    case Create(id) => (s.(sessions := s.sessions[id := NEW]), Ok)
    case ApplyEdit(id, u, range, text, io) =>
      if id !in s.sessions then (s, NotFound)
      else Put(s, id, EditSession(s.sessions[id], s.world, u, range, text, io))
    case Evaluate(id, acquired) =>
      if id !in s.sessions then (s, NotFound)
      else
        var (session, verdict) := EvaluateSession(s.sessions[id], acquired);
        Put(s, id, (session, s.world, verdict))
    case Commit(id, apply, loop, notified) =>
      if id !in s.sessions then (s, NotFound)
      else Put(s, id, CommitSession(s.sessions[id], s.world, apply, loop, notified))
    case Discard(id, acquired, loop) =>
      if id !in s.sessions then (s, NotFound)
      else Put(s, id, DiscardSession(s.sessions[id], s.world, acquired, loop))
    case Destroy(id) =>
      if id !in s.sessions then (s, NotFound) else (s.(sessions := s.sessions - {id}), Ok)
  }

  predicate IsRun(s: System, calls: seq<Call>)
    decreases |calls|
  {
    calls == [] || (Possible(s, calls[0]) && IsRun(Step(s, calls[0]).0, calls[1..]))
  }

  function Final(s: System, calls: seq<Call>): System
    decreases |calls|
  {
    if calls == [] then s else Final(Step(s, calls[0]).0, calls[1..])
  }

  // ---- Replay ----

  function Count(edits: seq<AppliedEdit>, u: Uri): nat {
    if edits == [] then 0
    else Count(edits[..|edits| - 1], u) + (if edits[|edits| - 1].uri == u then 1 else 0)
  }

  /** The edits recorded for one file, folded over its original. */
  function Replay(original: string, edits: seq<AppliedEdit>, u: Uri): string {
    if edits == [] then original
    else
      var before, e := Replay(original, edits[..|edits| - 1], u), edits[|edits| - 1];
      if e.uri == u then TextEdits.ApplyRangeEdit(before, e.range, e.text) else before
  }

  /** The four maps have the same keys; versions count the recorded edits, each edit carries its own
      number, and contents are the replay of the edits over the originals. */
  predicate ReplayOk(s: Session) {
    s.status != Dirty ==>
      && s.contents.Keys == s.originals.Keys == s.baselines.Keys == s.versions.Keys
      && (forall u | u in s.contents ::
            s.versions[u] == Count(s.edits, u) && s.contents[u] == Replay(s.originals[u], s.edits, u))
      && Numbered(s.edits, s.contents.Keys)
      && (s.status == Created ==> s.edits == [])
  }

  lemma {:induction false} UntouchedFile(edits: seq<AppliedEdit>, u: Uri, original: string)
    requires forall i | 0 <= i < |edits| :: edits[i].uri != u
    ensures Count(edits, u) == 0 && Replay(original, edits, u) == original
  {
    if edits != [] {
      UntouchedFile(edits[..|edits| - 1], u, original);
    }
  }

  lemma OneMoreEdit(edits: seq<AppliedEdit>, e: AppliedEdit, u: Uri, original: string)
    ensures var more := edits + [e];
            && Count(more, u) == Count(edits, u) + (if e.uri == u then 1 else 0)
            && Replay(original, more, u)
               == if e.uri == u then TextEdits.ApplyRangeEdit(Replay(original, edits, u), e.range, e.text)
                  else Replay(original, edits, u)
  {
    hide TextEdits.ApplyRangeEdit;
    assert (edits + [e])[..|edits|] == edits;
  }

  /** What holds between opening a file and its first recorded edit. */
  predicate BasedOk(s: Session, u: Uri) {
    && s.contents.Keys == s.originals.Keys == s.baselines.Keys == s.versions.Keys + {u}
    && (forall v | v in s.contents ::
          (if v in s.versions then s.versions[v] else 0) == Count(s.edits, v)
          && s.contents[v] == Replay(s.originals[v], s.edits, v))
    && Numbered(s.edits, s.contents.Keys)
  }

  lemma BaselineKeepsReplay(s: Session, w: World, u: Uri, io: EditIO)
    requires ReplayOk(s) && !IsTerminal(s.status) && u !in s.baselines
    ensures Baseline(s, w, u, io).0.status == Dirty || BasedOk(Baseline(s, w, u, io).0, u)
  {
    hide TextEdits.ApplyRangeEdit, Count, Replay;
    if u in w.disk && io.openSent {
      UntouchedFile(s.edits, u, w.disk[u]);
      var s' := Baseline(s, w, u, io).0;
      assert s'.contents.Keys == s.contents.Keys + {u} && s'.baselines.Keys == s.baselines.Keys + {u};
      assert s'.originals.Keys == s.originals.Keys + {u};
      assert Numbered(s'.edits, s'.contents.Keys);
    }
  }

  lemma SpliceKeepsReplay(s: Session, w: World, u: Uri, range: TextEdits.Range, text: string, io: EditIO)
    requires BasedOk(s, u)
    ensures ReplayOk(Splice(s, w, u, range, text, io).0)
  {
    hide TextEdits.ApplyRangeEdit, Count, Replay;
    var s' := Splice(s, w, u, range, text, io).0;
    if s'.status != Dirty {
      var e := s'.edits[|s.edits|];
      assert s'.edits == s.edits + [e];
      assert s'.contents.Keys == s.contents.Keys && s'.versions.Keys == s.contents.Keys;
      forall v | v in s'.contents
        ensures s'.versions[v] == Count(s'.edits, v) && s'.contents[v] == Replay(s'.originals[v], s'.edits, v)
      {
        OneMoreEdit(s.edits, e, v, s.originals[v]);
      }
      OneMoreEdit(s.edits, e, u, "");
      NumberedStays(s.edits, e, s.contents.Keys);
    }
  }

  predicate Numbered(edits: seq<AppliedEdit>, files: set<Uri>) {
    forall i | 0 <= i < |edits| :: edits[i].uri in files && edits[i].version == Count(edits[..i + 1], edits[i].uri)
  }

  lemma NumberedStays(edits: seq<AppliedEdit>, e: AppliedEdit, files: set<Uri>)
    requires Numbered(edits, files) && e.uri in files && e.version == Count(edits + [e], e.uri)
    ensures Numbered(edits + [e], files)
  {
    hide Count;
    var more := edits + [e];
    forall i | 0 <= i < |more| ensures more[i].uri in files && more[i].version == Count(more[..i + 1], more[i].uri) {
      if i < |edits| {
        assert more[..i + 1] == edits[..i + 1];
      } else {
        assert more[..i + 1] == more;
      }
    }
  }

  lemma EditKeepsReplay(s: Session, w: World, u: Uri, range: TextEdits.Range, text: string, io: EditIO)
    requires ReplayOk(s)
    ensures ReplayOk(EditSession(s, w, u, range, text, io).0)
  {
    hide TextEdits.ApplyRangeEdit, Splice, Baseline, Count, Replay;
    if !IsTerminal(s.status) && u in w.inside && io.acquired {
      if u in s.baselines {
        assert s.versions.Keys + {u} == s.versions.Keys;
        SpliceKeepsReplay(s, w, u, range, text, io);
      } else {
        BaselineKeepsReplay(s, w, u, io);
        var (based, world) := Baseline(s, w, u, io);
        if based.status != Dirty {
          SpliceKeepsReplay(based, world, u, range, text, io);
        }
      }
    }
  }

  predicate AllReplayOk(s: System) {
    forall id | id in s.sessions :: ReplayOk(s.sessions[id])
  }

  lemma StepKeepsReplay(s: System, call: Call)
    requires AllReplayOk(s) && Possible(s, call)
    ensures AllReplayOk(Step(s, call).0)
  {
    hide EditSession, Count, Replay;
    match call
    case ApplyEdit(id, u, range, text, io) =>
      if id in s.sessions {
        EditKeepsReplay(s.sessions[id], s.world, u, range, text, io);
      }
    case _ =>
  }

  /** In every reachable state, every session that is not dirty replays: contents, originals,
      baselines and versions have the same keys, versions count the recorded edits, and contents are
      the fold of those edits over the originals. */
  lemma {:induction false} RunsReplay(s: System, calls: seq<Call>)
    requires AllReplayOk(s) && IsRun(s, calls)
    ensures AllReplayOk(Final(s, calls))
    decreases |calls|
  {
    hide Step, AllReplayOk;
    if calls != [] {
      StepKeepsReplay(s, calls[0]);
      RunsReplay(Step(s, calls[0]).0, calls[1..]);
    }
  }

  // ---- What one call does ----

  /** Which edits succeed, what each failure is called, and that a refused one changes nothing. */
  lemma EditVerdicts(s: Session, w: World, u: Uri, range: TextEdits.Range, text: string, io: EditIO)
    ensures var (s', w', verdict) := EditSession(s, w, u, range, text, io);
            var refused := s.status in {Committed, Discarded, Dirty, Destroyed};
            && (verdict == Refused <==> refused)
            && (verdict == OutsideWorkspace <==> !refused && u !in w.inside)
            && (verdict == NotAcquired <==> !refused && u in w.inside && !io.acquired)
            && (verdict == Ok <==>
                  && !refused && u in w.inside && io.acquired
                  && (u in s.baselines || (u in w.disk && io.openSent)) && io.changeSent)
            && (verdict == Failed ==> s'.status == Dirty)
            && (verdict != Ok && verdict != Failed ==> s' == s && w' == w)
            && w'.disk == w.disk && w'.inside == w.inside && verdict != NotFound
  {
    hide TextEdits.ApplyRangeEdit;
  }

  /** A successful edit takes the file's text, from the disk when it is the session's first edit of that
      file, splices the new text into it, sends it, records the edit under the next version, and keeps
      the file's baseline if it has one, or else takes the diagnostics that were read. */
  lemma EditDoes(s: Session, w: World, u: Uri, range: TextEdits.Range, text: string, io: EditIO)
    requires ReplayOk(s) && EditSession(s, w, u, range, text, io).2 == Ok
    ensures var (s', w', _) := EditSession(s, w, u, range, text, io);
            var before := if u in s.baselines then s.contents[u] else w.disk[u];
            var after := TextEdits.ApplyRangeEdit(before, range, text);
            var version := (if u in s.versions then s.versions[u] else 0) + 1;
            && s'.status == Mutated && s'.contents == s.contents[u := after] && w'.server == w.server[u := after]
            && s'.originals == (if u in s.originals then s.originals else s.originals[u := before])
            && s'.edits == s.edits + [AppliedEdit(u, range, text, version)] && s'.versions == s.versions[u := version]
            && s'.baselines == if u in s.baselines then s.baselines else s.baselines[u := io.diagnostics]
  {
    hide TextEdits.ApplyRangeEdit, Count, Replay;
    EditVerdicts(s, w, u, range, text, io);
    if u !in s.baselines {
      assert s.contents[u := w.disk[u]][u := TextEdits.ApplyRangeEdit(w.disk[u], range, text)]
          == s.contents[u := TextEdits.ApplyRangeEdit(w.disk[u], range, text)];
      assert w.server[u := w.disk[u]][u := TextEdits.ApplyRangeEdit(w.disk[u], range, text)]
          == w.server[u := TextEdits.ApplyRangeEdit(w.disk[u], range, text)];
    }
  }

  /** Only a mutated or evaluated session can be evaluated or committed, and any session that is not
      finished can be discarded; nothing else changes on refusal. */
  lemma OtherVerdicts(s: Session, w: World, acquired: bool, apply: bool, loop: LoopIO, notified: set<Uri>)
    ensures var ready := s.status in {Mutated, Evaluated};
            var finished := s.status in {Committed, Discarded, Dirty, Destroyed};
            var (evaluated, v1) := EvaluateSession(s, acquired);
            var (committed, w2, v2) := CommitSession(s, w, apply, loop, notified);
            var (discarded, w3, v3) := DiscardSession(s, w, acquired, loop);
            && v1 == (if !ready then Refused else if !acquired then NotAcquired else Ok)
            && evaluated == (if v1 == Ok then s.(status := Evaluated) else s)
            && v2 == (if !ready then Refused else if apply && loop.failed.Some? then Failed else Ok)
            && (v2 == Refused ==> committed == s && w2 == w)
            && (v2 == Ok ==> committed == s.(status := Committed))
            && (v2 == Failed ==> committed == s.(status := Dirty))
            && (!apply ==> w2 == w)
            && v3 == (if finished then Refused else if !acquired then NotAcquired
                      else if loop.failed.Some? then Failed else Ok)
            && (v3 == Refused || v3 == NotAcquired ==> discarded == s && w3 == w)
            && (v3 == Ok ==> discarded == s.(status := Discarded))
            && (v3 == Failed ==> discarded == s.(status := Dirty)) && w3.disk == w.disk
  {}

  // ---- Where baselines come from ----

  /** The diagnostics read by the first edit that opened the file, since the session began. */
  function FirstRead(s: System, calls: seq<Call>, id: Id, u: Uri): Option<seq<Differ.Diagnostic>>
    decreases |calls|
  {
    if calls == [] then None
    else
      var first, s' := calls[0], Step(s, calls[0]).0;
      if first.ApplyEdit? && first.id == id && first.uri == u && id in s.sessions && u !in s.sessions[id].baselines
         && id in s'.sessions && u in s'.sessions[id].baselines
      then Some(first.io.diagnostics)
      else FirstRead(s', calls[1..], id, u)
  }

  function BaselineOf(s: System, id: Id, u: Uri): Option<seq<Differ.Diagnostic>> {
    if id in s.sessions && u in s.sessions[id].baselines then Some(s.sessions[id].baselines[u]) else None
  }

  lemma StepKeepsBaseline(s: System, call: Call, id: Id, u: Uri)
    requires Possible(s, call) && call != Destroy(id)
    ensures var s' := Step(s, call).0;
            BaselineOf(s', id, u) ==
            if BaselineOf(s, id, u).Some? then BaselineOf(s, id, u)
            else if call.ApplyEdit? && call.id == id && call.uri == u && id in s.sessions
                    && id in s'.sessions && u in s'.sessions[id].baselines then Some(call.io.diagnostics)
            else None
  {
    hide EditSession;
    match call
    case ApplyEdit(id', v, range, text, io) =>
      if id' in s.sessions {
        EditKeepsBaseline(s.sessions[id'], s.world, v, range, text, io, u);
      }
    case _ =>
  }

  lemma EditKeepsBaseline(s: Session, w: World, v: Uri, range: TextEdits.Range, text: string, io: EditIO, u: Uri)
    ensures var s' := EditSession(s, w, v, range, text, io).0;
            && (u in s.baselines ==> u in s'.baselines && s'.baselines[u] == s.baselines[u])
            && (u !in s.baselines && u in s'.baselines ==> u == v && s'.baselines[u] == io.diagnostics)
  {
    hide TextEdits.ApplyRangeEdit;
  }

  /** A baseline is what the first edit that opened the file read, whatever happens after it. */
  lemma {:induction false} BaselineIsFirstRead(s: System, calls: seq<Call>, id: Id, u: Uri)
    requires IsRun(s, calls) && Destroy(id) !in calls
    ensures BaselineOf(Final(s, calls), id, u)
         == if BaselineOf(s, id, u).Some? then BaselineOf(s, id, u) else FirstRead(s, calls, id, u)
    decreases |calls|
  {
    hide Step, Possible;
    if calls != [] {
      assert calls[0] in calls && forall c | c in calls[1..] :: c in calls;
      StepKeepsBaseline(s, calls[0], id, u);
      BaselineIsFirstRead(Step(s, calls[0]).0, calls[1..], id, u);
    }
  }

  // ---- The server's text ----

  /** The server last saw a live session's contents, and a discarded session's originals. */
  predicate TextOk(s: Session, w: World) {
    && (!IsTerminal(s.status) || s.status == Committed ==> Part(w.server, s.contents.Keys) == s.contents)
    && (s.status == Discarded ==> Part(w.server, s.originals.Keys) == s.originals)
  }

  function Touched(s: Session): set<Uri> {
    s.contents.Keys + s.originals.Keys
  }

  ghost predicate SameOutside(w: World, w': World, keys: set<Uri>) {
    forall v | v !in keys :: (v in w'.server <==> v in w.server) && (v in w.server ==> w'.server[v] == w.server[v])
  }

  lemma SendOne(server: map<Uri, string>, contents: map<Uri, string>, u: Uri, text: string)
    requires Part(server, contents.Keys) == contents
    ensures Part(server[u := text], contents[u := text].Keys) == contents[u := text]
  {
    var after, sent := contents[u := text], server[u := text];
    forall v | v in after ensures v in sent && sent[v] == after[v] {
      assert v != u ==> v in Part(server, contents.Keys);
    }
  }

  lemma EditSendsOwn(s: Session, w: World, u: Uri, range: TextEdits.Range, text: string, io: EditIO)
    requires ReplayOk(s) && TextOk(s, w)
    ensures var (s', w', _) := EditSession(s, w, u, range, text, io);
            TextOk(s', w')
  {
    hide TextEdits.ApplyRangeEdit, Count, Replay, Part;
    if !IsTerminal(s.status) && u in w.inside && io.acquired {
      if u !in s.baselines && u in w.disk && io.openSent {
        SendOne(w.server, s.contents, u, w.disk[u]);
      }
      var (based, world) := if u in s.baselines then (s, w) else Baseline(s, w, u, io);
      if based.status != Dirty {
        SendOne(world.server, based.contents, u, TextEdits.ApplyRangeEdit(based.contents[u], range, text));
      }
    }
  }

  lemma EditSendsNothingElse(s: Session, w: World, u: Uri, range: TextEdits.Range, text: string, io: EditIO)
    ensures var (s', w', _) := EditSession(s, w, u, range, text, io);
            SameOutside(w, w', Touched(s'))
  {
    hide TextEdits.ApplyRangeEdit, SameOutside;
    SendsNothing(w, Touched(s));
    if !IsTerminal(s.status) && u in w.inside && io.acquired {
      var (based, world) := if u in s.baselines then (s, w) else Baseline(s, w, u, io);
      SentOneOutside(w, w, u, world.server, Touched(based));
      var (edited, world') := Splice(based, world, u, range, text, io);
      SentOneOutside(w, world, u, world'.server, Touched(edited));
    }
  }

  /** One more document sent, within the keys. */
  lemma SentOneOutside(w: World, before: World, u: Uri, server: map<Uri, string>, keys: set<Uri>)
    requires u in keys || server == before.server
    requires server == before.server || (u in server && server == before.server[u := server[u]])
    requires SameOutside(w, before, keys)
    ensures SameOutside(w, before.(server := server), keys)
  {}

  lemma PartOfUnion(server: map<Uri, string>, texts: map<Uri, string>, keys: set<Uri>)
    ensures keys == texts.Keys ==> Part(server + Part(texts, keys), texts.Keys) == texts
    ensures Part(server, texts.Keys) == texts ==> Part(server + Part(texts, keys), texts.Keys) == texts
  {}

  lemma PartSentOutside(w: World, disk: map<Uri, string>, texts: map<Uri, string>, keys: set<Uri>, more: set<Uri>)
    requires texts.Keys <= more
    ensures SameOutside(w, World(w.inside, disk, w.server + Part(texts, keys)), more)
  {}

  lemma OthersKeepText(s: Session, w: World, w': World, changed: set<Uri>)
    requires TextOk(s, w) && Touched(s) !! changed
    requires SameOutside(w, w', changed)
    ensures TextOk(s, w')
  {
    assert Part(w'.server, s.contents.Keys) == Part(w.server, s.contents.Keys);
    assert Part(w'.server, s.originals.Keys) == Part(w.server, s.originals.Keys);
  }

  lemma OwnTextOk(s: System, call: Call, id: Id)
    requires AllReplayOk(s) && Possible(s, call)
    requires !call.Create? && !call.Destroy? && call.id == id && id in s.sessions && TextOk(s.sessions[id], s.world)
    ensures var s' := Step(s, call).0;
            id in s'.sessions && TextOk(s'.sessions[id], s'.world)
  {
    hide TextEdits.ApplyRangeEdit, Count, Replay, EditSession, Part;
    var session, w := s.sessions[id], s.world;
    match call
    case ApplyEdit(_, u, range, text, io) => EditSendsOwn(session, w, u, range, text, io);
    case Commit(_, _, loop, notified) => PartOfUnion(w.server, session.contents, notified);
    case Discard(_, _, loop) => PartOfUnion(w.server, session.originals, loop.done);
    case _ =>
  }

  lemma SendsNothingElse(s: System, call: Call)
    requires !call.Create? && !call.Destroy? && call.id in s.sessions
    ensures var s' := Step(s, call).0;
            call.id in s'.sessions && SameOutside(s.world, s'.world, Touched(s'.sessions[call.id]))
  {
    hide EditSession, Part, SameOutside;
    var session, w := s.sessions[call.id], s.world;
    SendsNothing(w, Touched(session));
    match call
    case ApplyEdit(_, u, range, text, io) => EditSendsNothingElse(session, w, u, range, text, io);
    case Commit(_, _, loop, notified) =>
      PartSentOutside(w, w.disk + Part(session.contents, loop.done), session.contents, notified, Touched(session));
    case Discard(_, _, loop) =>
      PartSentOutside(w, w.disk, session.originals, loop.done, Touched(session));
    case _ =>
  }

  lemma SendsNothing(w: World, keys: set<Uri>)
    ensures SameOutside(w, w, keys)
  {}

  predicate TextOkAt(s: System, id: Id) {
    id in s.sessions ==> TextOk(s.sessions[id], s.world)
  }

  /** The call is not one of another live session that touches a file of this one. A finished
      session makes no such calls, and one that is destroyed is gone. */
  predicate LeavesAlone(s: System, call: Call, id: Id) {
    !call.Create? && !call.Destroy? && call.id != id && id in s.sessions
    && call.id in s.sessions && !IsTerminal(s.sessions[call.id].status) ==>
      call.id in Step(s, call).0.sessions && Touched(Step(s, call).0.sessions[call.id]) !! Touched(s.sessions[id])
  }

  lemma StepKeepsText(s: System, call: Call, id: Id)
    requires AllReplayOk(s) && Possible(s, call) && TextOkAt(s, id) && LeavesAlone(s, call, id)
    ensures TextOkAt(Step(s, call).0, id)
  {
    var s' := Step(s, call).0;
    if !call.Create? && !call.Destroy? && call.id in s.sessions && id in s.sessions {
      if call.id == id {
        OwnTextOk(s, call, id);
      } else if IsTerminal(s.sessions[call.id].status) {
        TerminalAcceptsOnlyDestroy(s, call);
      } else {
        SendsNothingElse(s, call);
        OnlyOneSession(s, call);
        hide Step, TextOk;
        OthersKeepText(s.sessions[id], s.world, s'.world, Touched(s'.sessions[call.id]));
      }
    } else if !call.Create? && call.id in s.sessions && !call.Destroy? {
      OnlyOneSession(s, call);
    }
  }

  lemma OnlyOneSession(s: System, call: Call)
    requires !call.Create? && !call.Destroy? && call.id in s.sessions
    ensures var s' := Step(s, call).0;
            && s'.sessions.Keys == s.sessions.Keys
            && forall other | other in s.sessions && other != call.id :: s'.sessions[other] == s.sessions[other]
  {
    hide EditSession, CommitSession, DiscardSession, EvaluateSession;
  }

  predicate AllLeaveAlone(s: System, calls: seq<Call>, id: Id)
    decreases |calls|
  {
    calls != [] ==> LeavesAlone(s, calls[0], id) && AllLeaveAlone(Step(s, calls[0]).0, calls[1..], id)
  }

  /** As long as no other live session touches a session's files: the text last sent for each of them
      is its contents while it is live and after its commit, and the original after its discard. */
  lemma {:induction false} RunsKeepText(s: System, calls: seq<Call>, id: Id)
    requires AllReplayOk(s) && TextOkAt(s, id) && IsRun(s, calls) && AllLeaveAlone(s, calls, id)
    ensures TextOkAt(Final(s, calls), id)
    decreases |calls|
  {
    hide Step, AllReplayOk, TextOkAt, LeavesAlone;
    if calls != [] {
      StepKeepsReplay(s, calls[0]);
      StepKeepsText(s, calls[0], id);
      RunsKeepText(Step(s, calls[0]).0, calls[1..], id);
    }
  }

  /** Live sessions touch disjoint files after every call of a live session. */
  predicate LiveApart(s: System, calls: seq<Call>)
    decreases |calls|
  {
    calls != [] ==> CallApart(s, calls[0]) && LiveApart(Step(s, calls[0]).0, calls[1..])
  }

  predicate CallApart(s: System, call: Call) {
    forall other | other in s.sessions && !IsTerminal(s.sessions[other].status) :: LeavesAlone(s, call, other)
  }

  predicate AllLiveTextOk(s: System) {
    forall id | id in s.sessions && !IsTerminal(s.sessions[id].status) :: TextOk(s.sessions[id], s.world)
  }

  lemma StepKeepsLiveText(s: System, call: Call)
    requires AllReplayOk(s) && Possible(s, call) && AllLiveTextOk(s) && CallApart(s, call)
    ensures AllLiveTextOk(Step(s, call).0)
  {
    var s' := Step(s, call).0;
    forall id | id in s'.sessions && !IsTerminal(s'.sessions[id].status) ensures TextOk(s'.sessions[id], s'.world) {
      WasLive(s, call, id);
      StepKeepsText(s, call, id);
    }
  }

  /** Only creation makes a session live. */
  lemma WasLive(s: System, call: Call, id: Id)
    requires Possible(s, call)
    requires id in Step(s, call).0.sessions && !IsTerminal(Step(s, call).0.sessions[id].status)
    ensures id in s.sessions ==> !IsTerminal(s.sessions[id].status)
    ensures id !in s.sessions ==> call == Create(id)
  {
    if !call.Create? && !call.Destroy? && call.id in s.sessions {
      OnlyOneSession(s, call);
      if IsTerminal(s.sessions[call.id].status) {
        TerminalAcceptsOnlyDestroy(s, call);
      }
    }
    hide EditSession, CommitSession, DiscardSession, EvaluateSession;
  }

  /** While concurrent sessions touch disjoint files, the server's text is every live session's
      contents. Files of finished sessions may be reused. */
  lemma {:induction false} RunsKeepLiveText(s: System, calls: seq<Call>)
    requires AllReplayOk(s) && AllLiveTextOk(s) && IsRun(s, calls) && LiveApart(s, calls)
    ensures AllLiveTextOk(Final(s, calls))
    decreases |calls|
  {
    hide Step, AllReplayOk, AllLiveTextOk, CallApart;
    if calls != [] {
      StepKeepsReplay(s, calls[0]);
      StepKeepsLiveText(s, calls[0]);
      RunsKeepLiveText(Step(s, calls[0]).0, calls[1..]);
    }
  }

  // ---- Safety ----

  /** The disk changes only in a commit with apply, from a session that may be committed, and then
      only in files the session has contents for, to those contents. */
  lemma DiskChangesOnlyInCommit(s: System, call: Call, u: Uri)
    requires Possible(s, call)
    ensures var s' := Step(s, call).0;
            (u in s'.world.disk) != (u in s.world.disk)
            || (u in s.world.disk && s'.world.disk[u] != s.world.disk[u])
            ==> && call.Commit? && call.apply && call.id in s.sessions && Evaluable(s.sessions[call.id].status)
                && u in s.sessions[call.id].contents && u in s'.world.disk
                && s'.world.disk[u] == s.sessions[call.id].contents[u]
  {
    hide TextEdits.ApplyRangeEdit;
  }

  predicate Writes(s: System, call: Call, u: Uri) {
    && call.Commit? && call.apply && call.id in s.sessions
    && Evaluable(s.sessions[call.id].status) && u in call.loop.done
  }

  /** The session that last wrote a file during a run, as it was then. */
  function LastWriter(s: System, calls: seq<Call>, u: Uri): Option<Session>
    decreases |calls|
  {
    if calls == [] then None
    else
      var later := LastWriter(Step(s, calls[0]).0, calls[1..], u);
      if later.Some? then later
      else if Writes(s, calls[0], u) then Some(s.sessions[calls[0].id])
      else None
  }

  function OnDisk(s: System, u: Uri): Option<string> {
    if u in s.world.disk then Some(s.world.disk[u]) else None
  }

  lemma DiskAfterStep(s: System, call: Call, u: Uri)
    requires Possible(s, call)
    ensures Writes(s, call, u) ==> u in s.sessions[call.id].contents
    ensures OnDisk(Step(s, call).0, u)
         == if Writes(s, call, u) then Some(s.sessions[call.id].contents[u]) else OnDisk(s, u)
  {
    hide TextEdits.ApplyRangeEdit, Baseline, Splice;
    match call
    case ApplyEdit(id, v, range, text, io) =>
      if id in s.sessions {
        EditLeavesDisk(s.sessions[id], s.world, v, range, text, io);
      }
    case _ =>
  }

  lemma EditLeavesDisk(s: Session, w: World, u: Uri, range: TextEdits.Range, text: string, io: EditIO)
    ensures EditSession(s, w, u, range, text, io).1.disk == w.disk
  {
    hide TextEdits.ApplyRangeEdit;
  }

  /** After any run, a file no commit wrote is as it was, and any other holds exactly the edits
      recorded for it by the session that wrote it last, folded over that session's original. */
  lemma {:induction false} DiskIsLastCommit(s: System, calls: seq<Call>, u: Uri)
    requires AllReplayOk(s) && IsRun(s, calls)
    ensures var writer := LastWriter(s, calls, u);
            if writer.None? then OnDisk(Final(s, calls), u) == OnDisk(s, u)
            else u in writer.value.originals
                 && OnDisk(Final(s, calls), u) == Some(Replay(writer.value.originals[u], writer.value.edits, u))
    decreases |calls|
  {
    hide Step, Count, Replay, AllReplayOk;
    if calls != [] {
      var s' := Step(s, calls[0]).0;
      StepKeepsReplay(s, calls[0]);
      DiskAfterStep(s, calls[0], u);
      DiskIsLastCommit(s', calls[1..], u);
      if Writes(s, calls[0], u) {
        ReplayOf(s, calls[0].id, u);
      }
    }
  }

  lemma ReplayOf(s: System, id: Id, u: Uri)
    requires AllReplayOk(s) && id in s.sessions && s.sessions[id].status != Dirty && u in s.sessions[id].contents
    ensures u in s.sessions[id].originals
    ensures s.sessions[id].contents[u] == Replay(s.sessions[id].originals[u], s.sessions[id].edits, u)
  {
    hide Count, Replay;
    assert ReplayOk(s.sessions[id]);
  }

  /** A successful commit with apply makes every touched file equal the contents; a successful
      discard leaves the server with the original of every file. */
  lemma CommitAndDiscardComplete(s: System, call: Call)
    requires Possible(s, call) && AllReplayOk(s) && Step(s, call).1 == Ok
    ensures call.Commit? && call.apply ==>
            Part(Step(s, call).0.world.disk, s.sessions[call.id].contents.Keys) == s.sessions[call.id].contents
    ensures call.Discard? ==>
            Part(Step(s, call).0.world.server, s.sessions[call.id].contents.Keys) == s.sessions[call.id].originals
  {
    hide EditSession, Count, Replay;
    if call.Commit? && call.apply {
      PartOfUnion(s.world.disk, s.sessions[call.id].contents, call.loop.done);
    } else if call.Discard? {
      PartOfUnion(s.world.server, s.sessions[call.id].originals, call.loop.done);
    }
  }

  /** A committed, discarded or dirty session accepts only Destroy: any other call on it is refused
      and changes nothing. */
  lemma TerminalAcceptsOnlyDestroy(s: System, call: Call)
    requires !call.Create? && call.id in s.sessions && IsTerminal(s.sessions[call.id].status)
    ensures if call.Destroy? then Step(s, call) == (s.(sessions := s.sessions - {call.id}), Ok)
            else Step(s, call) == (s, Refused)
  {
    hide Baseline, Splice;
    assert s.sessions[call.id := s.sessions[call.id]] == s.sessions;
  }

  /** Terminal sessions stay as they are in every run until they are destroyed. */
  lemma {:induction false} TerminalIsFrozen(s: System, calls: seq<Call>, id: Id)
    requires IsRun(s, calls) && id in s.sessions && IsTerminal(s.sessions[id].status)
    requires forall c | c in calls :: c != Destroy(id)
    ensures id in Final(s, calls).sessions && Final(s, calls).sessions[id] == s.sessions[id]
    decreases |calls|
  {
    if calls != [] {
      var call, rest := calls[0], calls[1..];
      assert call in calls;
      assert forall c | c in rest :: c in calls;
      var s' := Step(s, call).0;
      if !call.Create? && call.id == id {
        TerminalAcceptsOnlyDestroy(s, call);
      } else if !call.Create? && !call.Destroy? && call.id in s.sessions {
        OnlyOneSession(s, call);
      }
      hide EditSession, CommitSession, DiscardSession, EvaluateSession;
      assert s'.sessions[id] == s.sessions[id];
      TerminalIsFrozen(s', rest, id);
    }
  }

  /** The comment in Commit says a failed notification must leave the session dirty; the status set at
      the end overwrites the mark. An applying commit ends dirty exactly when a file could not be
      written, and committed otherwise, whichever files the server was told about; of the others it
      keeps the text it had. */
  lemma FailedNotificationIsForgotten(s: System, id: Id, loop: LoopIO, notified: set<Uri>)
    requires id in s.sessions && Evaluable(s.sessions[id].status)
    requires Possible(s, Commit(id, true, loop, notified))
    ensures var s' := Step(s, Commit(id, true, loop, notified)).0;
            && id in s'.sessions
            && (s'.sessions[id].status == Dirty <==> loop.failed.Some?)
            && (s'.sessions[id].status == Committed <==> loop.failed.None?)
            && forall u | u in loop.done && u !in notified ::
                 OnDisk(s', u) == Some(s.sessions[id].contents[u])
                 && (if u in s.world.server then u in s'.world.server && s'.world.server[u] == s.world.server[u]
                     else u !in s'.world.server)
  {}
}

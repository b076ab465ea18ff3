/** Phase enforcement: internal/phase/matcher.go, tracker.go and the tables of skills.go. */
module Phase {
  import opened Wrappers

  datatype PhaseDef = PhaseDef(name: string, allowed: seq<string>, forbidden: seq<string>)
  datatype Skill = Skill(name: string, phases: seq<PhaseDef>, globalForbidden: seq<string>)
  datatype Mode = Warn | Block

  type Configs = map<string, Skill>

  // ---- Patterns ----

  predicate MatchToolPattern(pattern: string, tool: string) {
    pattern == tool ||
    (|pattern| > 0 && pattern[|pattern| - 1] == '*' && pattern[..|pattern| - 1] <= tool)
  }

  predicate MatchesAny(patterns: seq<string>, tool: string) {
    exists p | p in patterns :: MatchToolPattern(p, tool)
  }

  // ---- One call ----

  /** The nearest phase from `from` on that allows the tool; the number of phases if none does. */
  function NearestAllowing(phases: seq<PhaseDef>, from: nat, tool: string): (k: nat)
    requires from <= |phases|
    ensures from <= k <= |phases|
    ensures k < |phases| ==> MatchesAny(phases[k].allowed, tool)
    ensures forall m | from <= m < k :: !MatchesAny(phases[m].allowed, tool)
    decreases |phases| - from
  {
    if from == |phases| || MatchesAny(phases[from].allowed, tool) then from
    else NearestAllowing(phases, from + 1, tool)
  }

  datatype Recovery =
    | NotUsed(skill: string)
    | CompleteFirst(phase: string, tools: seq<string>)
    | AvailableLater(tool: string, phase: string, next: string, tools: seq<string>)
    | CompleteCurrent(phase: string, tools: seq<string>)

  datatype Violation = Violation(tool: string, skill: string, phase: string, recovery: Recovery, blocked: bool)

  function BuildRecovery(skill: Skill, phase: nat, tool: string): Recovery
    requires phase < |skill.phases|
  {
    var k := NearestAllowing(skill.phases, phase + 1, tool);
    if k == |skill.phases| then CompleteCurrent(skill.phases[phase].name, skill.phases[phase].allowed)
    else
      var next := skill.phases[phase + 1];
      if k == phase + 1 then CompleteFirst(next.name, next.allowed)
      else AvailableLater(tool, skill.phases[k].name, next.name, next.allowed)
  }

  predicate ForbiddenIn(skill: Skill, phase: nat, tool: string)
    requires phase < |skill.phases|
  {
    MatchesAny(skill.globalForbidden, tool) || MatchesAny(skill.phases[phase].forbidden, tool)
  }

  /** The phase in force after a call of the tool. */
  function NextPhase(skill: Skill, phase: nat, tool: string): nat
    requires phase < |skill.phases|
  {
    if ForbiddenIn(skill, phase, tool) || MatchesAny(skill.phases[phase].allowed, tool) then phase
    else
      var k := NearestAllowing(skill.phases, phase + 1, tool);
      if k < |skill.phases| then k else phase
  }

  // ---- The tracker ----

  datatype State = State(active: string, phase: nat, mode: Mode, history: seq<string>)

  predicate ValidState(configs: Configs, s: State) {
    s.active != "" ==> s.active in configs && s.phase < |configs[s.active].phases|
  }

  datatype Event = Activate(skill: string, mode: Mode) | Deactivate | Call(tool: string)

  function Step(configs: Configs, s: State, e: Event): (s': State)
    requires ValidState(configs, s)
    ensures ValidState(configs, s')
  {
    match e
    case Activate(skill, mode) =>
      if s.active != "" || skill !in configs || configs[skill].phases == [] then s
      else State(skill, 0, mode, [])
    case Deactivate =>
      if s.active == "" then s else State("", 0, s.mode, [])
    case Call(tool) =>
      if s.active == "" then s
      else s.(phase := NextPhase(configs[s.active], s.phase, tool), history := s.history + [tool])
  }

  /** Whether a call goes through: no active skill, warn mode, or no pattern against it. */
  predicate LetThrough(configs: Configs, s: State, tool: string)
    requires ValidState(configs, s)
  {
    s.active == "" || s.mode == Warn || !ForbiddenIn(configs[s.active], s.phase, tool)
  }

  datatype ActivateError = AlreadyActive(skill: string) | UnknownSkill | NoPhases

  class Tracker {
    const configs: Configs
    var activeSkill: string
    var currentPhase: nat
    var mode: Mode
    var toolHistory: seq<string>

    function View(): State
      reads this
    {
      State(activeSkill, currentPhase, mode, toolHistory)
    }

    predicate Valid()
      reads this
    {
      ValidState(configs, View())
    }

    constructor (configs: Configs)
      ensures Valid() && View() == State("", 0, Warn, []) && this.configs == configs
    {
      this.configs := configs;
      activeSkill, currentPhase, mode, toolHistory := "", 0, Warn, [];
    }

    method ActivateSkill(skill: string, newMode: Mode) returns (err: Option<ActivateError>)
      requires Valid()
      modifies this
      ensures Valid() && View() == Step(configs, old(View()), Activate(skill, newMode))
      ensures err.None? <==> old(activeSkill) == "" && skill in configs && configs[skill].phases != []
    {
      if activeSkill != "" {
        return Some(AlreadyActive(activeSkill));
      }
      if skill !in configs {
        return Some(UnknownSkill);
      }
      if configs[skill].phases == [] {
        return Some(NoPhases);
      }
      activeSkill, currentPhase, mode, toolHistory := skill, 0, newMode, [];
      return None;
    }

    method DeactivateSkill()
      requires Valid()
      modifies this
      ensures Valid() && View() == Step(configs, old(View()), Deactivate)
    {
      if activeSkill == "" {
        return;
      }
      activeSkill, currentPhase, toolHistory := "", 0, [];
    }

    /** A call that goes through without a word is exactly one no pattern forbids; in block mode
        a violation is exactly a call that is not let through. */
    method CheckAndRecord(tool: string) returns (violation: Option<Violation>)
      requires Valid()
      modifies this
      ensures Valid() && View() == Step(configs, old(View()), Call(tool))
      ensures violation.None? <==>
              old(activeSkill) == "" || !ForbiddenIn(configs[old(activeSkill)], old(currentPhase), tool)
      ensures violation.Some? ==> (violation.value.blocked <==> !LetThrough(configs, old(View()), tool))
      ensures violation.Some? ==>
              && violation.value.tool == tool && violation.value.skill == old(activeSkill)
              && violation.value.phase == configs[old(activeSkill)].phases[old(currentPhase)].name
      ensures violation.Some? && MatchesAny(configs[old(activeSkill)].globalForbidden, tool) ==>
              violation.value.recovery == NotUsed(old(activeSkill))
      ensures violation.Some? && !MatchesAny(configs[old(activeSkill)].globalForbidden, tool) ==>
              violation.value.recovery == BuildRecovery(configs[old(activeSkill)], old(currentPhase), tool)
    {
      if activeSkill == "" {
        return None;
      }
      var skill := configs[activeSkill];
      toolHistory := toolHistory + [tool];
      var phase := skill.phases[currentPhase];
      if MatchesAny(skill.globalForbidden, tool) {
        return Some(Violation(tool, activeSkill, phase.name, NotUsed(activeSkill), mode == Block));
      }
      if MatchesAny(phase.forbidden, tool) {
        var recovery := BuildRecovery(skill, currentPhase, tool);
        return Some(Violation(tool, activeSkill, phase.name, recovery, mode == Block));
      }
      if MatchesAny(phase.allowed, tool) {
        return None;
      }
      var i := currentPhase + 1;
      while i < |skill.phases|
        invariant currentPhase < i <= |skill.phases|
        invariant NearestAllowing(skill.phases, currentPhase + 1, tool) == NearestAllowing(skill.phases, i, tool)
      {
        if MatchesAny(skill.phases[i].allowed, tool) {
          currentPhase := i;
          return None;
        }
        i := i + 1;
      }
      return None;
    }
  }

  // ---- Runs ----

  function Run(configs: Configs, s: State, es: seq<Event>): (s': State)
    requires ValidState(configs, s)
    ensures ValidState(configs, s')
    decreases |es|
  {
    if es == [] then s else Step(configs, Run(configs, s, es[..|es| - 1]), es[|es| - 1])
  }

  function Calls(es: seq<Event>): seq<string> {
    if es == [] then []
    else Calls(es[..|es| - 1]) + (if es[|es| - 1].Call? then [es[|es| - 1].tool] else [])
  }

  predicate StaysActive(es: seq<Event>) {
    forall e | e in es :: e != Deactivate
  }

  /** While a skill stays active it keeps its mode, its phase never decreases, and the history
      is exactly the calls made. */
  lemma {:induction false} PhaseIsMonotone(configs: Configs, s: State, es: seq<Event>)
    requires ValidState(configs, s) && s.active != "" && StaysActive(es)
    ensures var s' := Run(configs, s, es);
            && s'.active == s.active && s'.mode == s.mode
            && s.phase <= s'.phase < |configs[s.active].phases|
            && s'.history == s.history + Calls(es)
    decreases |es|
  {
    if es != [] {
      var front := es[..|es| - 1];
      assert forall e | e in front :: e in es;
      PhaseIsMonotone(configs, s, front);
      assert es[|es| - 1] in es;
    }
  }

  lemma {:induction false} RunSplit(configs: Configs, s: State, es: seq<Event>, i: nat)
    requires ValidState(configs, s) && i <= |es|
    ensures Run(configs, s, es) == Run(configs, Run(configs, s, es[..i]), es[i..])
    decreases |es|
  {
    if i < |es| {
      assert es[..|es| - 1][..i] == es[..i] && es[..|es| - 1][i..] == es[i..][..|es| - i - 1];
      RunSplit(configs, s, es[..|es| - 1], i);
    } else {
      assert es[..i] == es;
    }
  }

  function StateAt(configs: Configs, s: State, es: seq<Event>, i: nat): State
    requires ValidState(configs, s) && i <= |es|
  {
    Run(configs, s, es[..i])
  }

  /** Monotone between any two points of a run in which the skill stays active. */
  lemma PhasesAscend(configs: Configs, s: State, es: seq<Event>, i: nat, j: nat)
    requires ValidState(configs, s) && s.active != "" && StaysActive(es)
    requires i <= j <= |es|
    ensures var a, b := StateAt(configs, s, es, i), StateAt(configs, s, es, j);
            a.active == b.active == s.active && a.mode == b.mode == s.mode && a.phase <= b.phase
  {
    assert forall e | e in es[..i] :: e in es;
    assert forall e | e in es[..j] :: e in es;
    PhaseIsMonotone(configs, s, es[..i]);
    PhaseIsMonotone(configs, s, es[..j]);
    RunSplit(configs, s, es[..j], i);
    assert es[..j][..i] == es[..i];
    assert forall e | e in es[..j][i..] :: e in es[..j];
    PhaseIsMonotone(configs, StateAt(configs, s, es, i), es[..j][i..]);
  }

  /** The phase changes only on a permitted call, and then to the nearest later phase that
      allows the tool. */
  lemma AdvanceIsToNearest(configs: Configs, s: State, es: seq<Event>, i: nat)
    requires ValidState(configs, s) && s.active != "" && StaysActive(es) && i < |es|
    requires StateAt(configs, s, es, i + 1).phase != StateAt(configs, s, es, i).phase
    ensures var a, b := StateAt(configs, s, es, i).phase, StateAt(configs, s, es, i + 1).phase;
            var skill := configs[s.active];
            && es[i].Call? && a < b < |skill.phases|
            && !ForbiddenIn(skill, a, es[i].tool)
            && MatchesAny(skill.phases[b].allowed, es[i].tool)
            && forall m | a <= m < b :: !MatchesAny(skill.phases[m].allowed, es[i].tool)
  {
    PhasesAscend(configs, s, es, 0, i);
    assert es[..0] == [];
    assert es[..i + 1][..i] == es[..i];
    assert es[i] in es;
  }

  predicate ForbiddenOutside(skill: Skill, tool: string, k: nat) {
    forall m | 0 <= m < |skill.phases| && m != k :: ForbiddenIn(skill, m, tool)
  }

  /** In block mode, a tool forbidden in every phase but k is let through in one contiguous window
      only, while phase k is in force, and never after phase k is left. */
  lemma OneWindow(configs: Configs, s: State, es: seq<Event>, tool: string, k: nat, i: nat, j: nat)
    requires ValidState(configs, s) && s.active != "" && s.mode == Block && StaysActive(es)
    requires ForbiddenOutside(configs[s.active], tool, k)
    requires i <= j <= |es| && LetThrough(configs, StateAt(configs, s, es, i), tool)
    ensures StateAt(configs, s, es, i).phase == k
    ensures LetThrough(configs, StateAt(configs, s, es, j), tool) ==>
            forall m | i <= m <= j :: StateAt(configs, s, es, m).phase == k
    ensures StateAt(configs, s, es, j).phase != k ==>
            forall m | j <= m <= |es| :: !LetThrough(configs, StateAt(configs, s, es, m), tool)
  {
    PhasesAscend(configs, s, es, i, i);
    PhasesAscend(configs, s, es, i, j);
    forall m | i <= m <= j
      ensures LetThrough(configs, StateAt(configs, s, es, j), tool) ==> StateAt(configs, s, es, m).phase == k
    {
      PhasesAscend(configs, s, es, i, m);
      PhasesAscend(configs, s, es, m, j);
    }
    forall m | j <= m <= |es|
      ensures StateAt(configs, s, es, j).phase != k ==> !LetThrough(configs, StateAt(configs, s, es, m), tool)
    {
      PhasesAscend(configs, s, es, j, m);
    }
  }

  // ---- Which phases a run can enter ----

  /** Some call moves the tracker from phase a straight to phase b. */
  ghost predicate CanAdvance(skill: Skill, a: nat, b: nat)
    requires a < |skill.phases|
  {
    a < b && exists tool: string :: NextPhase(skill, a, tool) == b
  }

  /** A chain of single advances leads from one phase to the other. */
  ghost predicate Reachable(skill: Skill, from: nat, k: nat)
    decreases k
  {
    k == from
    || exists a | from <= a < k && a < |skill.phases| :: Reachable(skill, from, a) && CanAdvance(skill, a, k)
  }

  /** A phase that is not reachable is never in force. */
  lemma NeverEntered(configs: Configs, s: State, es: seq<Event>, k: nat)
    requires ValidState(configs, s) && s.active != "" && StaysActive(es)
    requires !Reachable(configs[s.active], s.phase, k)
    ensures Run(configs, s, es).phase != k
  {
    ReachesOnly(configs, s, es);
  }

  lemma {:induction false} ReachesOnly(configs: Configs, s: State, es: seq<Event>)
    requires ValidState(configs, s) && s.active != "" && StaysActive(es)
    ensures Reachable(configs[s.active], s.phase, Run(configs, s, es).phase)
    decreases |es|
  {
    if es != [] {
      var front, last := es[..|es| - 1], es[|es| - 1];
      assert forall e | e in front :: e in es;
      ReachesOnly(configs, s, front);
      PhaseIsMonotone(configs, s, front);
      assert last in es;
      var skill, a := configs[s.active], Run(configs, s, front).phase;
      if last.Call? && NextPhase(skill, a, last.tool) != a {
        assert CanAdvance(skill, a, NextPhase(skill, a, last.tool));
      }
    }
  }

  /** The calls that lead to a reachable phase. */
  lemma {:induction false} CallsReaching(configs: Configs, s: State, k: nat) returns (es: seq<Event>)
    requires ValidState(configs, s) && s.active != "" && Reachable(configs[s.active], s.phase, k)
    ensures StaysActive(es) && Run(configs, s, es).phase == k
    decreases k
  {
    es := [];
    if k != s.phase {
      var skill := configs[s.active];
      var a :| s.phase <= a < k && a < |skill.phases| && Reachable(skill, s.phase, a) && CanAdvance(skill, a, k);
      var front := CallsReaching(configs, s, a);
      PhaseIsMonotone(configs, s, front);
      var tool: string :| NextPhase(skill, a, tool) == k;
      es := front + [Call(tool)];
      assert es[..|es| - 1] == front;
    }
  }

  /** Some run in which the skill stays active brings the phase into force. */
  ghost predicate Enterable(configs: Configs, s: State, k: nat)
    requires ValidState(configs, s)
  {
    exists es: seq<Event> | StaysActive(es) :: Run(configs, s, es).phase == k
  }

  /** A phase can come into force exactly when it is reachable. */
  lemma EnterableIffReachable(configs: Configs, s: State, k: nat)
    requires ValidState(configs, s) && s.active != ""
    ensures Enterable(configs, s, k) <==> Reachable(configs[s.active], s.phase, k)
  {
    if Reachable(configs[s.active], s.phase, k) {
      var es := CallsReaching(configs, s, k);
    } else {
      forall es: seq<Event> | StaysActive(es) ensures Run(configs, s, es).phase != k {
        NeverEntered(configs, s, es, k);
      }
    }
  }

  /** In block mode, some run lets the tool through before phase m comes into force. */
  ghost predicate EarlyCall(configs: Configs, s: State, tool: string, m: nat)
    requires ValidState(configs, s)
  {
    exists es: seq<Event> | StaysActive(es) ::
      Run(configs, s, es).phase < m && LetThrough(configs, Run(configs, s, es), tool)
  }

  ghost predicate ReachablyFree(skill: Skill, from: nat, tool: string, m: nat) {
    exists a: nat | a < m && a < |skill.phases| :: Reachable(skill, from, a) && !ForbiddenIn(skill, a, tool)
  }

  /** It happens exactly when some reachable earlier phase does not forbid the tool. */
  lemma EarlyCallIffReachablyFree(configs: Configs, s: State, tool: string, m: nat)
    requires ValidState(configs, s) && s.active != "" && s.mode == Block
    ensures EarlyCall(configs, s, tool, m) <==> ReachablyFree(configs[s.active], s.phase, tool, m)
  {
    hide ForbiddenIn, Reachable, Run;
    var skill := configs[s.active];
    if ReachablyFree(skill, s.phase, tool, m) {
      var a: nat :| a < m && a < |skill.phases| && Reachable(skill, s.phase, a) && !ForbiddenIn(skill, a, tool);
      var es := CallsReaching(configs, s, a);
      PhaseIsMonotone(configs, s, es);
      assert LetThrough(configs, Run(configs, s, es), tool);
    } else {
      forall es: seq<Event> | StaysActive(es) && Run(configs, s, es).phase < m
        ensures !LetThrough(configs, Run(configs, s, es), tool)
      {
        PhaseIsMonotone(configs, s, es);
        ReachesOnly(configs, s, es);
      }
    }
  }

  // ---- What the patterns of a table decide ----

  predicate IsWildcard(pattern: string) {
    |pattern| > 0 && pattern[|pattern| - 1] == '*'
  }

  function Stem(pattern: string): string
    requires IsWildcard(pattern)
  {
    pattern[..|pattern| - 1]
  }

  /** Some tool the pattern names is named by none of the others: the very name of an exact pattern,
      or, behind the stem of a wildcard, one that no stem in its way covers. */
  predicate Escapes(pattern: string, others: seq<string>) {
    if IsWildcard(pattern) then forall p | p in others && IsWildcard(p) :: !(Stem(p) <= Stem(pattern))
    else !MatchesAny(others, pattern)
  }

  const ENOUGH_CHARS: nat := 0xd800

  function CharsAt(patterns: seq<string>, i: nat): (cs: set<char>)
    ensures |cs| <= |patterns|
    ensures forall p | p in patterns && i < |p| :: p[i] in cs
  {
    if patterns == [] then {}
    else
      var rest := CharsAt(patterns[1..], i);
      if i < |patterns[0]| then rest + {patterns[0][i]} else rest
  }

  /** A character that is not among fewer than n others is found below n. */
  lemma {:induction false} FreshChar(cs: set<char>, n: nat) returns (c: char)
    requires |cs| < n <= ENOUGH_CHARS
    ensures c !in cs && c as int < n
  {
    c := (n - 1) as char;
    if c in cs {
      c := FreshChar(cs - {c}, n - 1);
    }
  }

  lemma EscapesIffSomeTool(pattern: string, others: seq<string>)
    requires |others| < ENOUGH_CHARS
    ensures Escapes(pattern, others) <==>
            exists tool: string :: MatchToolPattern(pattern, tool) && !MatchesAny(others, tool)
  {
    if !IsWildcard(pattern) {
      assert MatchToolPattern(pattern, pattern);
    } else if Escapes(pattern, others) {
      var c := FreshChar(CharsAt(others, |Stem(pattern)|), ENOUGH_CHARS);
      var tool := Stem(pattern) + [c];
      forall p | p in others && MatchToolPattern(p, tool)
        ensures (IsWildcard(p) && Stem(p) <= Stem(pattern)) || (|Stem(pattern)| < |p| && p[|Stem(pattern)|] == c)
      {
        PatternHits(p, Stem(pattern), c);
      }
      assert MatchToolPattern(pattern, tool);
    } else {
      var p :| p in others && IsWildcard(p) && Stem(p) <= Stem(pattern);
      forall tool: string | MatchToolPattern(pattern, tool) ensures MatchesAny(others, tool) {
        assert Stem(pattern) <= tool && Stem(p) <= tool;
        assert MatchToolPattern(p, tool);
      }
    }
  }

  lemma PatternHits(p: string, stem: string, c: char)
    requires MatchToolPattern(p, stem + [c])
    ensures (IsWildcard(p) && Stem(p) <= stem) || (|stem| < |p| && p[|stem|] == c)
  {
    var tool := stem + [c];
    if p == tool {
      assert p[|stem|] == c;
    } else if |Stem(p)| <= |stem| {
      assert Stem(p) == tool[..|Stem(p)|] == stem[..|Stem(p)|];
    } else {
      assert p[|stem|] == Stem(p)[|stem|] == tool[|stem|] == c;
    }
  }

  /** The patterns that keep a call from moving the tracker from phase a to phase b: whatever forbids
      it, and whatever allows it before b. */
  function InTheWay(skill: Skill, a: nat, b: nat): seq<string>
    requires a < |skill.phases| && b <= |skill.phases|
  {
    skill.globalForbidden + skill.phases[a].forbidden + AllowedIn(skill.phases, a, b)
  }

  function AllowedIn(phases: seq<PhaseDef>, a: nat, b: nat): seq<string>
    requires b <= |phases|
    decreases b - a
  {
    if a >= b then [] else phases[a].allowed + AllowedIn(phases, a + 1, b)
  }

  lemma MatchesEither(p: seq<string>, q: seq<string>, tool: string)
    ensures MatchesAny(p + q, tool) <==> MatchesAny(p, tool) || MatchesAny(q, tool)
  {
    hide MatchToolPattern;
  }

  lemma {:induction false} AllowedOnTheWay(phases: seq<PhaseDef>, a: nat, b: nat, tool: string)
    requires a <= b < |phases|
    ensures NearestAllowing(phases, a, tool) == b <==>
            !MatchesAny(AllowedIn(phases, a, b), tool) && MatchesAny(phases[b].allowed, tool)
    decreases b - a
  {
    hide MatchesAny;
    if a < b {
      AllowedOnTheWay(phases, a + 1, b, tool);
      MatchesEither(phases[a].allowed, AllowedIn(phases, a + 1, b), tool);
    } else {
      NothingMatches(tool);
    }
  }

  lemma NothingMatches(tool: string)
    ensures !MatchesAny([], tool)
  {}

  lemma AdvancesIffNotInTheWay(skill: Skill, a: nat, b: nat, tool: string)
    requires a < b < |skill.phases|
    ensures NextPhase(skill, a, tool) == b <==>
            !MatchesAny(InTheWay(skill, a, b), tool) && MatchesAny(skill.phases[b].allowed, tool)
  {
    hide MatchesAny, AllowedIn;
    AllowedOnTheWay(skill.phases, a, b, tool);
    MatchesEither(skill.globalForbidden + skill.phases[a].forbidden, AllowedIn(skill.phases, a, b), tool);
    MatchesEither(skill.globalForbidden, skill.phases[a].forbidden, tool);
  }

  /** Whether one phase can follow another can be read off the table: some pattern that the later
      phase allows escapes all patterns in the way. */
  lemma CanAdvanceIffEscapes(skill: Skill, a: nat, b: nat)
    requires a < b < |skill.phases| && |InTheWay(skill, a, b)| < ENOUGH_CHARS
    ensures CanAdvance(skill, a, b) <==>
            exists q | q in skill.phases[b].allowed :: Escapes(q, InTheWay(skill, a, b))
  {
    hide InTheWay, NextPhase, Escapes, MatchToolPattern;
    var others := InTheWay(skill, a, b);
    forall tool: string ensures NextPhase(skill, a, tool) == b <==>
      !MatchesAny(others, tool) && MatchesAny(skill.phases[b].allowed, tool)
    {
      AdvancesIffNotInTheWay(skill, a, b, tool);
    }
    forall q | q in skill.phases[b].allowed
      ensures Escapes(q, others) <==> exists tool: string :: MatchToolPattern(q, tool) && !MatchesAny(others, tool)
    {
      EscapesIffSomeTool(q, others);
    }
  }

  // ---- Whether the advice helps ----

  function Advised(r: Recovery): seq<string> {
    match r
    case NotUsed(_) => []
    case CompleteFirst(_, tools) => tools
    case AvailableLater(_, _, _, tools) => tools
    case CompleteCurrent(_, tools) => tools
  }

  /** Some tool named in the advice gets the caller out of the phase in which it was given. */
  ghost predicate LeadsOn(skill: Skill, phase: nat, r: Recovery)
    requires phase < |skill.phases|
  {
    exists tool: string :: MatchesAny(Advised(r), tool) && NextPhase(skill, phase, tool) != phase
  }

  /** The advice given for a refused tool leads on exactly when some later phase allows that tool and
      the next phase can be entered. */
  lemma AdviceLeadsOnIff(skill: Skill, phase: nat, tool: string)
    requires phase < |skill.phases|
    ensures LeadsOn(skill, phase, BuildRecovery(skill, phase, tool)) <==>
            NearestAllowing(skill.phases, phase + 1, tool) < |skill.phases| && CanAdvance(skill, phase, phase + 1)
  {
    hide MatchesAny;
    if phase + 1 < |skill.phases| {
      forall other: string
        ensures NextPhase(skill, phase, other) == phase + 1 ==> MatchesAny(skill.phases[phase + 1].allowed, other)
        ensures MatchesAny(skill.phases[phase + 1].allowed, other) ==> NextPhase(skill, phase, other) in {phase, phase + 1}
      {}
    }
    forall other: string | MatchesAny(skill.phases[phase].allowed, other)
      ensures NextPhase(skill, phase, other) == phase
    {}
  }

  // ---- Built-in skills ----

  const REFACTOR := Skill("lsp-refactor", [
    PhaseDef("blast_radius", ["blast_radius", "go_to_symbol", "find_references"],
             ["apply_edit", "simulate_*", "preview_edit", "Edit", "Write"]),
    PhaseDef("speculative_preview", ["open_document", "get_diagnostics", "preview_edit", "simulate_chain"],
             ["apply_edit", "Edit", "Write"]),
    PhaseDef("apply", ["apply_edit", "refactor", "format_document", "Edit", "Write"],
             ["simulate_*", "preview_edit", "rename_symbol"]),
    PhaseDef("build_verification", ["get_diagnostics", "run_build"], ["apply_edit", "Edit", "Write"]),
    PhaseDef("test_execution", ["get_tests_for_file", "run_tests"], ["apply_edit", "Edit", "Write"])],
    ["rename_symbol"])

  const SAFE_EDIT := Skill("lsp-safe-edit", [
    PhaseDef("setup", ["start_lsp", "open_document", "get_diagnostics"], ["apply_edit", "Edit", "Write"]),
    PhaseDef("speculative_preview", ["preview_edit", "simulate_chain"], ["apply_edit", "Edit", "Write"]),
    PhaseDef("apply", ["apply_edit", "Edit", "Write"], ["simulate_*", "preview_edit"]),
    PhaseDef("verify_and_fix", ["get_diagnostics", "suggest_fixes", "apply_edit", "format_document"],
             ["simulate_*", "preview_edit", "run_build", "run_tests"])],
    ["rename_symbol", "blast_radius"])

  const RENAME := Skill("lsp-rename", [
    PhaseDef("prerequisites", ["start_lsp"], []),
    PhaseDef("preview", ["go_to_symbol", "prepare_rename", "find_references", "rename_symbol"],
             ["apply_edit", "Edit", "Write"]),
    PhaseDef("execute", ["get_diagnostics", "rename_symbol", "apply_edit"],
             ["simulate_*", "preview_edit", "run_build"])],
    ["format_document", "run_tests"])

  const VERIFY := Skill("lsp-verify", [
    PhaseDef("test_correlation", ["get_tests_for_file"], ["apply_edit", "Edit", "Write"]),
    PhaseDef("diagnostics", ["start_lsp", "get_diagnostics"], ["apply_edit", "Edit", "Write"]),
    PhaseDef("build", ["run_build"], ["apply_edit", "Edit", "Write"]),
    PhaseDef("tests", ["run_tests", "Bash"], ["apply_edit", "Edit", "Write"]),
    PhaseDef("fix_and_format", ["suggest_fixes", "apply_edit", "format_document", "get_diagnostics"],
             ["simulate_*", "preview_edit", "run_build", "run_tests"])],
    ["simulate_*", "preview_edit", "rename_symbol"])

  const BUILTIN: Configs := map["lsp-rename" := RENAME, "lsp-refactor" := REFACTOR,
                                "lsp-safe-edit" := SAFE_EDIT, "lsp-verify" := VERIFY]

  lemma ExactPattern(pattern: string, tool: string)
    requires |pattern| > 0 && pattern[|pattern| - 1] != '*'
    ensures MatchToolPattern(pattern, tool) <==> pattern == tool
  {}

  /** apply_edit during lsp-refactor: only in the apply phase, in one window, never after it. */
  lemma RefactorEditsInOneWindow(s: State, es: seq<Event>, i: nat, j: nat)
    requires ValidState(BUILTIN, s) && s.active == "lsp-refactor" && s.mode == Block && StaysActive(es)
    requires i <= j <= |es| && LetThrough(BUILTIN, StateAt(BUILTIN, s, es, i), "apply_edit")
    ensures StateAt(BUILTIN, s, es, i).phase == 2
    ensures StateAt(BUILTIN, s, es, j).phase != 2 ==>
            forall m | j <= m <= |es| :: !LetThrough(BUILTIN, StateAt(BUILTIN, s, es, m), "apply_edit")
  {
    forall m | 0 <= m < 5 && m != 2 ensures ForbiddenIn(REFACTOR, m, "apply_edit") {
      assert "apply_edit" in REFACTOR.phases[m].forbidden;
      assert MatchToolPattern("apply_edit", "apply_edit");
    }
    OneWindow(BUILTIN, s, es, "apply_edit", 2, i, j);
  }

  /** Every tool of lsp-safe-edit's apply phase is forbidden in both phases before it, so no run
      ever enters that phase. */
  lemma SafeEditNeverApplies(s: State, es: seq<Event>)
    requires ValidState(BUILTIN, s) && s.active == "lsp-safe-edit" && s.phase < 2 && StaysActive(es)
    ensures !Enterable(BUILTIN, s, 2) && Run(BUILTIN, s, es).phase != 2
  {
    forall a | 0 <= a < 2 ensures !CanAdvance(SAFE_EDIT, a, 2) {
      forall tool: string ensures NextPhase(SAFE_EDIT, a, tool) != 2 {
        ApplyToolsForbidden(a, tool);
      }
    }
    EnterableIffReachable(BUILTIN, s, 2);
    NeverEntered(BUILTIN, s, es, 2);
  }

  lemma ApplyToolsForbidden(a: nat, tool: string)
    requires a < 2
    ensures MatchesAny(SAFE_EDIT.phases[2].allowed, tool) ==> ForbiddenIn(SAFE_EDIT, a, tool)
  {
    ExactPattern("apply_edit", tool);
    ExactPattern("Edit", tool);
    ExactPattern("Write", tool);
    if MatchesAny(SAFE_EDIT.phases[2].allowed, tool) {
      assert tool in SAFE_EDIT.phases[a].forbidden;
      assert MatchToolPattern(tool, tool);
    }
  }

  /** The advice given when apply_edit is refused in the preview phase names only tools that are
      refused there as well. */
  lemma SafeEditRecoveryIsCircular()
    ensures var advice := BuildRecovery(SAFE_EDIT, 1, "apply_edit");
            && ForbiddenIn(SAFE_EDIT, 1, "apply_edit")
            && advice.CompleteFirst? && !LeadsOn(SAFE_EDIT, 1, advice)
            && forall tool | tool in advice.tools :: ForbiddenIn(SAFE_EDIT, 1, tool)
  {
    assert "apply_edit" in SAFE_EDIT.phases[2].allowed && "apply_edit" in SAFE_EDIT.phases[1].forbidden;
    assert MatchToolPattern("apply_edit", "apply_edit");
    forall tool | tool in SAFE_EDIT.phases[2].allowed ensures ForbiddenIn(SAFE_EDIT, 1, tool) {
      assert MatchToolPattern(tool, tool);
      ApplyToolsForbidden(1, tool);
    }
    forall tool: string ensures NextPhase(SAFE_EDIT, 1, tool) != 2 {
      ApplyToolsForbidden(1, tool);
    }
    AdviceLeadsOnIff(SAFE_EDIT, 1, "apply_edit");
  }

  /** During lsp-verify, edits go through only in the last phase; from then on the run stays there. */
  lemma VerifyEditsOnlyAtTheEnd(s: State, es: seq<Event>, i: nat)
    requires ValidState(BUILTIN, s) && s.active == "lsp-verify" && s.mode == Block && StaysActive(es)
    requires i <= |es| && LetThrough(BUILTIN, StateAt(BUILTIN, s, es, i), "apply_edit")
    ensures forall m | i <= m <= |es| :: StateAt(BUILTIN, s, es, m).phase == 4
  {
    forall m | 0 <= m < 5 && m != 4 ensures ForbiddenIn(VERIFY, m, "apply_edit") {
      assert "apply_edit" in VERIFY.phases[m].forbidden;
      assert MatchToolPattern("apply_edit", "apply_edit");
    }
    OneWindow(BUILTIN, s, es, "apply_edit", 4, i, i);
    forall m | i <= m <= |es| ensures StateAt(BUILTIN, s, es, m).phase == 4 {
      PhasesAscend(BUILTIN, s, es, i, m);
    }
  }

  predicate IsEdit(tool: string) {
    tool in ["apply_edit", "Edit", "Write"]
  }

  /** No run of lsp-refactor or lsp-verify lets an edit through before their phase for edits, but runs
      of lsp-rename do. */
  lemma EditsBeforeTheirPhase(s: State, tool: string)
    requires ValidState(BUILTIN, s) && s.active != "" && s.mode == Block && s.phase == 0 && IsEdit(tool)
    ensures s.active == "lsp-refactor" ==> !EarlyCall(BUILTIN, s, tool, 2)
    ensures s.active == "lsp-verify" ==> !EarlyCall(BUILTIN, s, tool, 4)
    ensures s.active == "lsp-rename" ==> EarlyCall(BUILTIN, s, tool, 2)
  {
    hide EarlyCall, Reachable;
    assert MatchToolPattern(tool, tool);
    if s.active == "lsp-refactor" {
      EarlyCallIffReachablyFree(BUILTIN, s, tool, 2);
      assert forall a | 0 <= a < 2 :: tool in REFACTOR.phases[a].forbidden;
    } else if s.active == "lsp-verify" {
      EarlyCallIffReachablyFree(BUILTIN, s, tool, 4);
      assert forall a | 0 <= a < 4 :: tool in VERIFY.phases[a].forbidden;
    } else if s.active == "lsp-rename" {
      EarlyCallIffReachablyFree(BUILTIN, s, tool, 2);
      RenameStartsFree(tool);
    }
  }

  lemma RenameStartsFree(tool: string)
    requires IsEdit(tool)
    ensures Reachable(RENAME, 0, 0) && !ForbiddenIn(RENAME, 0, tool)
  {
    forall p | p in RENAME.globalForbidden + RENAME.phases[0].forbidden ensures !MatchToolPattern(p, tool) {
      ExactPattern(p, tool);
    }
  }

  /** lsp-rename's first phase forbids nothing, so apply_edit as the first call is let through and
      skips the preview phase that would refuse it. */
  lemma RenameEditSkipsPreview(s: State)
    requires ValidState(BUILTIN, s) && s.active == "lsp-rename" && s.mode == Block && s.phase == 0
    ensures LetThrough(BUILTIN, s, "apply_edit") && ForbiddenIn(RENAME, 1, "apply_edit")
    ensures Step(BUILTIN, s, Call("apply_edit")).phase == 2
  {
    assert MatchToolPattern("apply_edit", "apply_edit");
    assert "apply_edit" in RENAME.phases[1].forbidden && "apply_edit" in RENAME.phases[2].allowed;
    forall p | p in RENAME.globalForbidden + RENAME.phases[0].allowed + RENAME.phases[1].allowed
      ensures !MatchToolPattern(p, "apply_edit")
    {
      ExactPattern(p, "apply_edit");
    }
  }
}

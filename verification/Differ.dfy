/** The diagnostic diff of internal/session/differ.go: a multiset difference computed with
    count maps over string fingerprints. */
module Differ {
  import opened Wrappers

  datatype Key = Key(startLine: int, startChar: int, endLine: int, endChar: int, message: string, severity: int)
  datatype Diagnostic = Diagnostic(key: Key, source: string)
  datatype Entry = Entry(line: int, col: int, message: string, severity: string, source: string)

  // ---- Fingerprints ----

  const NUL: string := "\U{0}"

  function Fingerprint(k: Key): string {
    Decimal(k.startLine) + NUL + (Decimal(k.startChar) + NUL + (Decimal(k.endLine) + NUL
      + (Decimal(k.endChar) + NUL + (k.message + NUL + Decimal(k.severity)))))
  }

  lemma DecimalHasNoNul(n: int)
    ensures '\U{0}' !in Decimal(n)
  {
    var d := Digits(if n < 0 then -n else n);
    assert forall c | c in d :: c != '\U{0}';
  }

  function FirstNul(s: string): nat {
    if s == [] || s[0] == '\U{0}' then 0 else 1 + FirstNul(s[1..])
  }

  function LastNul(s: string): int {
    if s == [] || s[|s| - 1] == '\U{0}' then |s| - 1 else LastNul(s[..|s| - 1])
  }

  lemma {:induction false} FirstNulBehind(a: string, x: string)
    requires '\U{0}' !in a
    ensures FirstNul(a + NUL + x) == |a|
  {
    if a != [] {
      assert a[0] in a;
      assert (a + NUL + x)[1..] == a[1..] + NUL + x;
      FirstNulBehind(a[1..], x);
    }
  }

  lemma {:induction false} LastNulBefore(x: string, a: string)
    requires '\U{0}' !in a
    ensures LastNul(x + NUL + a) == |x|
  {
    if a != [] {
      assert a[|a| - 1] in a;
      assert (x + NUL + a)[..|x| + |a|] == x + NUL + a[..|a| - 1];
      LastNulBefore(x, a[..|a| - 1]);
    }
  }

  lemma FirstField(a: string, x: string, b: string, y: string)
    requires '\U{0}' !in a && '\U{0}' !in b
    requires a + NUL + x == b + NUL + y
    ensures a == b && x == y
  {
    FirstNulBehind(a, x);
    FirstNulBehind(b, y);
    assert (a + NUL + x)[..|a|] == a && (b + NUL + y)[..|b|] == b;
    assert (a + NUL + x)[|a| + 1..] == x && (b + NUL + y)[|b| + 1..] == y;
  }

  lemma LastField(x: string, a: string, y: string, b: string)
    requires '\U{0}' !in a && '\U{0}' !in b
    requires x + NUL + a == y + NUL + b
    ensures a == b && x == y
  {
    LastNulBefore(x, a);
    LastNulBefore(y, b);
    assert (x + NUL + a)[..|x|] == x && (y + NUL + b)[..|y|] == y;
    assert (x + NUL + a)[|x| + 1..] == a && (y + NUL + b)[|y| + 1..] == b;
  }

  /** Fingerprints tell ranges, messages and severities apart, even when messages contain NUL. */
  lemma FingerprintInjective(k: Key, m: Key)
    requires Fingerprint(k) == Fingerprint(m)
    ensures k == m
  {
    DecimalHasNoNul(k.startLine); DecimalHasNoNul(m.startLine);
    DecimalHasNoNul(k.startChar); DecimalHasNoNul(m.startChar);
    DecimalHasNoNul(k.endLine); DecimalHasNoNul(m.endLine);
    DecimalHasNoNul(k.endChar); DecimalHasNoNul(m.endChar);
    DecimalHasNoNul(k.severity); DecimalHasNoNul(m.severity);
    var k5, m5 := k.message + NUL + Decimal(k.severity), m.message + NUL + Decimal(m.severity);
    var k4, m4 := Decimal(k.endChar) + NUL + k5, Decimal(m.endChar) + NUL + m5;
    var k3, m3 := Decimal(k.endLine) + NUL + k4, Decimal(m.endLine) + NUL + m4;
    var k2, m2 := Decimal(k.startChar) + NUL + k3, Decimal(m.startChar) + NUL + m3;
    FirstField(Decimal(k.startLine), k2, Decimal(m.startLine), m2);
    FirstField(Decimal(k.startChar), k3, Decimal(m.startChar), m3);
    FirstField(Decimal(k.endLine), k4, Decimal(m.endLine), m4);
    FirstField(Decimal(k.endChar), k5, Decimal(m.endChar), m5);
    LastField(k.message, Decimal(k.severity), m.message, Decimal(m.severity));
    DecimalInjective(k.startLine, m.startLine);
    DecimalInjective(k.startChar, m.startChar);
    DecimalInjective(k.endLine, m.endLine);
    DecimalInjective(k.endChar, m.endChar);
    DecimalInjective(k.severity, m.severity);
  }

  // ---- The diff as a computation on multisets of fingerprints ----

  function Significant(ds: seq<Diagnostic>): seq<Diagnostic> {
    if ds == [] then []
    else (if ds[0].key.severity <= 2 then [ds[0]] else []) + Significant(ds[1..])
  }

  function Prints(ds: seq<Diagnostic>): seq<string> {
    seq(|ds|, i requires 0 <= i < |ds| => Fingerprint(ds[i].key))
  }

  function Keys(ds: seq<Diagnostic>): seq<Key> {
    seq(|ds|, i requires 0 <= i < |ds| => ds[i].key)
  }

  /** The diagnostics left over once each one that is still budgeted has used up its share. */
  function Unmatched(budget: multiset<string>, ds: seq<Diagnostic>): seq<Diagnostic> {
    if ds == [] then []
    else
      var fp := Fingerprint(ds[0].key);
      if budget[fp] > 0 then Unmatched(budget - multiset{fp}, ds[1..])
      else [ds[0]] + Unmatched(budget, ds[1..])
  }

  /** The diagnostics that use up the budget, first come first served. */
  function Matched(budget: multiset<string>, ds: seq<Diagnostic>): seq<Diagnostic> {
    if ds == [] then []
    else
      var fp := Fingerprint(ds[0].key);
      if budget[fp] > 0 then [ds[0]] + Matched(budget - multiset{fp}, ds[1..])
      else Matched(budget, ds[1..])
  }

  function Introduced(baseline: seq<Diagnostic>, current: seq<Diagnostic>): seq<Diagnostic> {
    Unmatched(multiset(Prints(Significant(baseline))), Significant(current))
  }

  function Resolved(baseline: seq<Diagnostic>, current: seq<Diagnostic>): seq<Diagnostic> {
    Matched(multiset(Prints(Significant(baseline))) - multiset(Prints(Significant(current))), Significant(baseline))
  }

  function SeverityString(severity: int): string {
    match severity
    case 1 => "error"
    case 2 => "warning"
    case 3 => "info"
    case 4 => "hint"
    case _ => "unknown"
  }

  function ToEntry(d: Diagnostic): Entry {
    Entry(d.key.startLine + 1, d.key.startChar + 1, d.key.message, SeverityString(d.key.severity), d.source)
  }

  function Entries(ds: seq<Diagnostic>): seq<Entry> {
    seq(|ds|, i requires 0 <= i < |ds| => ToEntry(ds[i]))
  }

  // ---- The loops ----

  lemma SignificantStep(out: seq<Diagnostic>, ds: seq<Diagnostic>, i: nat)
    requires i < |ds|
    ensures out + Significant(ds[i..])
         == (if ds[i].key.severity <= 2 then out + [ds[i]] else out) + Significant(ds[i + 1..])
  {
    hide Fingerprint;
    assert ds[i..][1..] == ds[i + 1..];
    assert out + ([ds[i]] + Significant(ds[i + 1..])) == (out + [ds[i]]) + Significant(ds[i + 1..]);
  }

  method FilterSignificant(ds: seq<Diagnostic>) returns (out: seq<Diagnostic>)
    ensures out == Significant(ds)
  {
    hide Fingerprint;
    out := [];
    for i := 0 to |ds|
      invariant Significant(ds) == out + Significant(ds[i..])
    {
      SignificantStep(out, ds, i);
      if ds[i].key.severity <= 2 {
        out := out + [ds[i]];
      }
    }
  }

  function Count(m: map<string, nat>, fp: string): nat {
    if fp in m then m[fp] else 0
  }

  ghost predicate Counts(m: map<string, nat>, budget: multiset<string>) {
    forall fp :: Count(m, fp) == budget[fp]
  }

  lemma PrintsStep(ds: seq<Diagnostic>, i: nat)
    requires i < |ds|
    ensures Prints(ds[..i + 1]) == Prints(ds[..i]) + [Fingerprint(ds[i].key)]
  {
    hide Fingerprint;
  }

  lemma EntriesStep(ds: seq<Diagnostic>, d: Diagnostic)
    ensures Entries(ds + [d]) == Entries(ds) + [ToEntry(d)]
  {}

  method CountPrints(ds: seq<Diagnostic>) returns (count: map<string, nat>)
    ensures Counts(count, multiset(Prints(ds)))
  {
    hide Fingerprint;
    count := map[];
    for i := 0 to |ds|
      invariant Counts(count, multiset(Prints(ds[..i])))
    {
      var fp := Fingerprint(ds[i].key);
      PrintsStep(ds, i);
      count := count[fp := Count(count, fp) + 1];
    }
    assert ds[..|ds|] == ds;
  }

  method CollectUnmatched(baseCount: map<string, nat>, ghost budget: multiset<string>, current: seq<Diagnostic>)
      returns (introduced: seq<Entry>)
    requires Counts(baseCount, budget)
    ensures introduced == Entries(Unmatched(budget, current))
  {
    hide Fingerprint;
    var remaining: map<string, nat> := baseCount;
    ghost var left, found := budget, [];
    introduced := [];
    for i := 0 to |current|
      invariant Counts(remaining, left)
      invariant introduced == Entries(found)
      invariant Unmatched(budget, current) == found + Unmatched(left, current[i..])
    {
      var fp := Fingerprint(current[i].key);
      assert current[i..][1..] == current[i + 1..];
      if Count(remaining, fp) > 0 {
        remaining := remaining[fp := Count(remaining, fp) - 1];
        left := left - multiset{fp};
      } else {
        introduced := introduced + [ToEntry(current[i])];
        EntriesStep(found, current[i]);
        found := found + [current[i]];
      }
    }
  }

  lemma UsedOnce(budget: multiset<string>, used: multiset<string>, fp: string)
    ensures var left := budget - used;
            budget - (used + multiset{fp}) == if left[fp] > 0 then left - multiset{fp} else left
  {}

  lemma CountsUseOne(m: map<string, nat>, left: multiset<string>, fp: string)
    requires Counts(m, left)
    ensures if Count(m, fp) > 0 then Counts(m[fp := Count(m, fp) - 1], left - multiset{fp}) && left[fp] > 0
            else left[fp] == 0
  {
    hide Fingerprint;
  }

  method UseUp(baseCount: map<string, nat>, ghost budget: multiset<string>, current: seq<Diagnostic>)
      returns (remaining: map<string, nat>)
    requires Counts(baseCount, budget)
    ensures Counts(remaining, budget - multiset(Prints(current)))
  {
    hide Fingerprint, Counts;
    remaining := baseCount;
    assert budget - multiset(Prints(current[..0])) == budget;
    for i := 0 to |current|
      invariant Counts(remaining, budget - multiset(Prints(current[..i])))
    {
      var fp := Fingerprint(current[i].key);
      PrintsStep(current, i);
      ghost var used := multiset(Prints(current[..i]));
      assert multiset(Prints(current[..i + 1])) == used + multiset{fp};
      UsedOnce(budget, used, fp);
      CountsUseOne(remaining, budget - used, fp);
      if Count(remaining, fp) > 0 {
        remaining := remaining[fp := Count(remaining, fp) - 1];
      }
    }
    assert current[..|current|] == current;
  }

  method CollectMatched(counts: map<string, nat>, ghost budget: multiset<string>, baseline: seq<Diagnostic>)
      returns (resolved: seq<Entry>)
    requires Counts(counts, budget)
    ensures resolved == Entries(Matched(budget, baseline))
  {
    hide Fingerprint;
    var remaining: map<string, nat> := counts;
    ghost var left, found := budget, [];
    resolved := [];
    for i := 0 to |baseline|
      invariant Counts(remaining, left)
      invariant resolved == Entries(found)
      invariant Matched(budget, baseline) == found + Matched(left, baseline[i..])
    {
      var fp := Fingerprint(baseline[i].key);
      assert baseline[i..][1..] == baseline[i + 1..];
      if Count(remaining, fp) > 0 {
        remaining := remaining[fp := Count(remaining, fp) - 1];
        left := left - multiset{fp};
        resolved := resolved + [ToEntry(baseline[i])];
        EntriesStep(found, baseline[i]);
        found := found + [baseline[i]];
      }
    }
  }

  method DiffDiagnostics(baseline: seq<Diagnostic>, current: seq<Diagnostic>)
      returns (introduced: seq<Entry>, resolved: seq<Entry>)
    ensures introduced == Entries(Introduced(baseline, current))
    ensures resolved == Entries(Resolved(baseline, current))
  {
    var base := FilterSignificant(baseline);
    var cur := FilterSignificant(current);
    ghost var budget := multiset(Prints(base));
    var baseCount := CountPrints(base);
    introduced := CollectUnmatched(baseCount, budget, cur);
    var remaining := UseUp(baseCount, budget, cur);
    resolved := CollectMatched(remaining, budget - multiset(Prints(cur)), base);
  }

  // ---- What the diff means ----

  lemma PrintsCons(ds: seq<Diagnostic>)
    requires ds != []
    ensures Prints(ds) == [Fingerprint(ds[0].key)] + Prints(ds[1..])
    ensures multiset(Prints(ds)) == multiset{Fingerprint(ds[0].key)} + multiset(Prints(ds[1..]))
  {
    hide Fingerprint;
  }

  lemma {:induction false} UnmatchedIsDifference(budget: multiset<string>, ds: seq<Diagnostic>)
    ensures multiset(Prints(Unmatched(budget, ds))) == multiset(Prints(ds)) - budget
  {
    hide Fingerprint;
    if ds != [] {
      var fp := Fingerprint(ds[0].key);
      PrintsCons(ds);
      if budget[fp] > 0 {
        UnmatchedIsDifference(budget - multiset{fp}, ds[1..]);
      } else {
        UnmatchedIsDifference(budget, ds[1..]);
        PrintsCons(Unmatched(budget, ds));
        assert Unmatched(budget, ds)[1..] == Unmatched(budget, ds[1..]);
      }
    }
  }

  lemma {:induction false} MatchedIsBudget(budget: multiset<string>, ds: seq<Diagnostic>)
    requires budget <= multiset(Prints(ds))
    ensures multiset(Prints(Matched(budget, ds))) == budget
  {
    hide Fingerprint;
    if ds != [] {
      var fp := Fingerprint(ds[0].key);
      PrintsCons(ds);
      if budget[fp] > 0 {
        MatchedIsBudget(budget - multiset{fp}, ds[1..]);
        PrintsCons(Matched(budget, ds));
        assert Matched(budget, ds)[1..] == Matched(budget - multiset{fp}, ds[1..]);
      } else {
        MatchedIsBudget(budget, ds[1..]);
      }
    }
  }

  /** Because fingerprints are injective, counting them is counting keys. */
  lemma {:induction false} KeyCount(ds: seq<Diagnostic>, k: Key)
    ensures multiset(Keys(ds))[k] == multiset(Prints(ds))[Fingerprint(k)]
  {
    hide Fingerprint;
    if ds != [] {
      KeyCount(ds[1..], k);
      PrintsCons(ds);
      assert Keys(ds) == [ds[0].key] + Keys(ds[1..]);
      if Fingerprint(ds[0].key) == Fingerprint(k) {
        FingerprintInjective(ds[0].key, k);
      }
    }
  }

  lemma DifferenceOfKeys(a: seq<Diagnostic>, b: seq<Diagnostic>, c: seq<Diagnostic>)
    requires multiset(Prints(c)) == multiset(Prints(a)) - multiset(Prints(b))
    ensures multiset(Keys(c)) == multiset(Keys(a)) - multiset(Keys(b))
  {
    forall k ensures multiset(Keys(c))[k] == (multiset(Keys(a)) - multiset(Keys(b)))[k] {
      KeyCount(a, k);
      KeyCount(b, k);
      KeyCount(c, k);
    }
  }

  function SignificantKeys(ds: seq<Diagnostic>): multiset<Key> {
    multiset(Keys(Significant(ds)))
  }

  /** The diff is the multiset difference of errors and warnings, in both directions. */
  lemma DiffIsMultisetDifference(baseline: seq<Diagnostic>, current: seq<Diagnostic>)
    ensures multiset(Keys(Introduced(baseline, current))) == SignificantKeys(current) - SignificantKeys(baseline)
    ensures multiset(Keys(Resolved(baseline, current))) == SignificantKeys(baseline) - SignificantKeys(current)
  {
    var base, cur := Significant(baseline), Significant(current);
    UnmatchedIsDifference(multiset(Prints(base)), cur);
    DifferenceOfKeys(cur, base, Introduced(baseline, current));
    MatchedIsBudget(multiset(Prints(base)) - multiset(Prints(cur)), base);
    DifferenceOfKeys(base, cur, Resolved(baseline, current));
  }

  /** Nothing is lost or invented: baseline plus introduced is current plus resolved. */
  lemma DiffConserves(baseline: seq<Diagnostic>, current: seq<Diagnostic>)
    ensures SignificantKeys(baseline) + multiset(Keys(Introduced(baseline, current)))
         == SignificantKeys(current) + multiset(Keys(Resolved(baseline, current)))
    ensures |Introduced(baseline, current)| - |Resolved(baseline, current)|
         == |Significant(current)| - |Significant(baseline)|
  {
    DiffIsMultisetDifference(baseline, current);
    var b, c := SignificantKeys(baseline), SignificantKeys(current);
    assert b + (c - b) == c + (b - c);
    assert |b + (c - b)| == |c + (b - c)|;
  }

  lemma {:induction false} SignificantCount(ds: seq<Diagnostic>, k: Key)
    ensures SignificantKeys(ds)[k] == if k.severity <= 2 then multiset(Keys(ds))[k] else 0
  {
    if ds != [] {
      SignificantCount(ds[1..], k);
      KeysCons(ds);
      var rest := Significant(ds[1..]);
      if ds[0].key.severity <= 2 {
        assert Significant(ds) == [ds[0]] + rest;
        KeysCons([ds[0]] + rest);
        assert ([ds[0]] + rest)[1..] == rest;
      } else {
        assert Significant(ds) == rest;
      }
    }
  }

  lemma KeysCons(ds: seq<Diagnostic>)
    requires ds != []
    ensures multiset(Keys(ds)) == multiset{ds[0].key} + multiset(Keys(ds[1..]))
  {
    assert Keys(ds) == [ds[0].key] + Keys(ds[1..]);
  }

  /** How often a range, message and severity is reported: errors and warnings by how often there are
      more of them now, or fewer, and anything else never. */
  lemma ReportedHowOften(baseline: seq<Diagnostic>, current: seq<Diagnostic>, k: Key)
    ensures var before, now := multiset(Keys(baseline))[k], multiset(Keys(current))[k];
            && multiset(Keys(Introduced(baseline, current)))[k] == (if k.severity <= 2 && now > before then now - before else 0)
            && multiset(Keys(Resolved(baseline, current)))[k] == (if k.severity <= 2 && before > now then before - now else 0)
  {
    hide Introduced, Resolved, SignificantKeys;
    DiffIsMultisetDifference(baseline, current);
    SignificantCount(baseline, k);
    SignificantCount(current, k);
  }

  /** What an entry shows: the start counted from 1, the message and source as they are, and a word for
      the severity. */
  lemma EntryShows(d: Diagnostic)
    ensures var e := ToEntry(d);
            && e.line - 1 == d.key.startLine && e.col - 1 == d.key.startChar
            && e.message == d.key.message && e.source == d.source
            && (e.severity == "error" <==> d.key.severity == 1) && (e.severity == "warning" <==> d.key.severity == 2)
            && (e.severity == "info" <==> d.key.severity == 3) && (e.severity == "hint" <==> d.key.severity == 4)
            && (e.severity == "unknown" <==> d.key.severity !in {1, 2, 3, 4})
  {
    var words := ["error", "warning", "info", "hint", "unknown"];
    assert words[0][0] == 'e' && words[1][0] == 'w' && words[2][0] == 'i' && words[3][0] == 'h' && words[4][0] == 'u';
    assert ToEntry(d).severity in words;
  }

  // ---- DiagnosticsEqual ----

  predicate DiagnosticsEqual(a: Diagnostic, b: Diagnostic) {
    a.key == b.key && (a.source == "" || b.source == "" || a.source == b.source)
  }

  predicate Cancel(a: Diagnostic, b: Diagnostic) {
    Introduced([a], [b]) == [] && Resolved([a], [b]) == []
  }

  lemma SignificantSingle(d: Diagnostic)
    requires d.key.severity <= 2
    ensures Significant([d]) == [d] && SignificantKeys([d]) == multiset{d.key}
  {
    assert [d][1..] == [];
    assert Keys([d]) == [d.key];
  }

  /** The file's own comment says the diff compares with DiagnosticsEqual. Equal diagnostics do
      cancel, but so do diagnostics with different sources: the fingerprint does not see them. */
  lemma CancellingDiagnostics(a: Diagnostic, b: Diagnostic)
    requires a.key.severity <= 2 && b.key.severity <= 2
    ensures Cancel(a, b) <==> a.key == b.key
    ensures DiagnosticsEqual(a, b) <==> Cancel(a, b) && (a.source == "" || b.source == "" || a.source == b.source)
  {
    hide Fingerprint, Introduced, Resolved, Significant, SignificantKeys;
    SignificantSingle(a);
    SignificantSingle(b);
    DiffIsMultisetDifference([a], [b]);
    EmptyKeys(Introduced([a], [b]));
    EmptyKeys(Resolved([a], [b]));
    assert (multiset{b.key} - multiset{a.key})[b.key] == if a.key == b.key then 0 else 1;
  }

  lemma EmptyKeys(ds: seq<Diagnostic>)
    ensures ds == [] <==> multiset(Keys(ds)) == multiset{}
  {
    hide Fingerprint;
    if ds != [] {
      assert Keys(ds)[0] in multiset(Keys(ds));
    }
  }

  // ---- Evaluate's net_delta ----

  type Snapshot = map<string, seq<Diagnostic>>

  function Diagnostics(s: Snapshot, uri: string): seq<Diagnostic> {
    if uri in s then s[uri] else []
  }

  function Total(s: Snapshot, uris: seq<string>): nat {
    if uris == [] then 0 else |Significant(Diagnostics(s, uris[0]))| + Total(s, uris[1..])
  }

  lemma TotalStep(s: Snapshot, uris: seq<string>, i: nat)
    requires i < |uris|
    ensures Total(s, uris[i..]) == |Significant(Diagnostics(s, uris[i]))| + Total(s, uris[i + 1..])
  {
    assert uris[i..][1..] == uris[i + 1..];
  }

  /** What is new, file by file. */
  function AllIntroduced(baselines: Snapshot, current: Snapshot, uris: seq<string>): seq<Entry> {
    if uris == [] then []
    else Entries(Introduced(Diagnostics(baselines, uris[0]), Diagnostics(current, uris[0])))
         + AllIntroduced(baselines, current, uris[1..])
  }

  function AllResolved(baselines: Snapshot, current: Snapshot, uris: seq<string>): seq<Entry> {
    if uris == [] then []
    else Entries(Resolved(Diagnostics(baselines, uris[0]), Diagnostics(current, uris[0])))
         + AllResolved(baselines, current, uris[1..])
  }

  lemma EntriesLength(ds: seq<Diagnostic>)
    ensures |Entries(ds)| == |ds|
  {}

  lemma ListsOfNothing(baselines: Snapshot, current: Snapshot)
    ensures AllIntroduced(baselines, current, []) == [] && AllResolved(baselines, current, []) == []
    ensures Total(baselines, []) == 0 && Total(current, []) == 0
  {}

  lemma ListsStep(baselines: Snapshot, current: Snapshot, uris: seq<string>, i: nat, introduced: seq<Entry>, resolved: seq<Entry>)
    requires i < |uris|
    ensures var base, cur := Diagnostics(baselines, uris[i]), Diagnostics(current, uris[i]);
            && introduced + AllIntroduced(baselines, current, uris[i..])
               == introduced + Entries(Introduced(base, cur)) + AllIntroduced(baselines, current, uris[i + 1..])
            && resolved + AllResolved(baselines, current, uris[i..])
               == resolved + Entries(Resolved(base, cur)) + AllResolved(baselines, current, uris[i + 1..])
  {
    hide Introduced, Resolved, Entries;
    var base, cur, rest := Diagnostics(baselines, uris[i]), Diagnostics(current, uris[i]), uris[i + 1..];
    assert uris[i..][1..] == rest && uris[i..][0] == uris[i];
    var a, b := AllIntroduced(baselines, current, rest), AllResolved(baselines, current, rest);
    assert AllIntroduced(baselines, current, uris[i..]) == Entries(Introduced(base, cur)) + a;
    assert AllResolved(baselines, current, uris[i..]) == Entries(Resolved(base, cur)) + b;
    hide AllIntroduced, AllResolved, Diagnostics;
    Assoc(introduced, Entries(Introduced(base, cur)), a);
    Assoc(resolved, Entries(Resolved(base, cur)), b);
  }

  lemma Assoc(a: seq<Entry>, b: seq<Entry>, c: seq<Entry>)
    ensures a + (b + c) == a + b + c
  {}

  /** Diagnostics that did not change are neither introduced nor resolved. */
  lemma {:induction false} UnchangedIsEmpty(baselines: Snapshot, current: Snapshot, uris: seq<string>)
    requires forall u | u in uris :: Diagnostics(current, u) == Diagnostics(baselines, u)
    ensures AllIntroduced(baselines, current, uris) == [] && AllResolved(baselines, current, uris) == []
  {
    hide Introduced, Resolved;
    if uris != [] {
      var ds := Diagnostics(baselines, uris[0]);
      assert uris[0] in uris && forall u | u in uris[1..] :: u in uris;
      SameIsEmpty(ds);
      UnchangedIsEmpty(baselines, current, uris[1..]);
    }
  }

  lemma SameIsEmpty(ds: seq<Diagnostic>)
    ensures Introduced(ds, ds) == [] && Resolved(ds, ds) == []
  {
    hide Introduced, Resolved, SignificantKeys;
    DiffIsMultisetDifference(ds, ds);
    EmptyKeys(Introduced(ds, ds));
    EmptyKeys(Resolved(ds, ds));
  }

  /** The loop of Evaluate over the baseline files, in whatever order they come. */
  method NetDelta(uris: seq<string>, baselines: Snapshot, current: Snapshot)
      returns (introduced: seq<Entry>, resolved: seq<Entry>, netDelta: int)
    ensures netDelta == |introduced| - |resolved|
    ensures netDelta == Total(current, uris) - Total(baselines, uris)
    ensures introduced == AllIntroduced(baselines, current, uris) && resolved == AllResolved(baselines, current, uris)
  {
    hide Total, Significant, AllIntroduced, AllResolved, Entries;
    introduced, resolved := [], [];
    ListsOfNothing(baselines, current);
    assert uris[0..] == uris;
    for i := 0 to |uris|
      invariant AllIntroduced(baselines, current, uris) == introduced + AllIntroduced(baselines, current, uris[i..])
      invariant AllResolved(baselines, current, uris) == resolved + AllResolved(baselines, current, uris[i..])
      invariant |introduced| - |resolved| + Total(current, uris[i..]) - Total(baselines, uris[i..])
             == Total(current, uris) - Total(baselines, uris)
    {
      var base, cur := Diagnostics(baselines, uris[i]), Diagnostics(current, uris[i]);
      var more, fewer := DiffDiagnostics(base, cur);
      DiffConserves(base, cur);
      EntriesLength(Introduced(base, cur));
      EntriesLength(Resolved(base, cur));
      ListsStep(baselines, current, uris, i, introduced, resolved);
      TotalStep(current, uris, i);
      TotalStep(baselines, uris, i);
      introduced, resolved := introduced + more, resolved + fewer;
    }
    assert uris[|uris|..] == [];
    netDelta := |introduced| - |resolved|;
  }

  function FileDelta(a: seq<Diagnostic>, b: seq<Diagnostic>): int {
    |Introduced(a, b)| - |Resolved(a, b)|
  }

  function Delta(a: Snapshot, b: Snapshot, uris: seq<string>): int {
    if uris == [] then 0
    else FileDelta(Diagnostics(a, uris[0]), Diagnostics(b, uris[0])) + Delta(a, b, uris[1..])
  }

  function ChainDelta(chain: seq<Snapshot>, uris: seq<string>): int {
    if |chain| < 2 then 0 else Delta(chain[0], chain[1], uris) + ChainDelta(chain[1..], uris)
  }

  lemma {:induction false} DeltaIsTotalChange(a: Snapshot, b: Snapshot, uris: seq<string>)
    ensures Delta(a, b, uris) == Total(b, uris) - Total(a, uris)
  {
    if uris != [] {
      DiffConserves(Diagnostics(a, uris[0]), Diagnostics(b, uris[0]));
      DeltaIsTotalChange(a, b, uris[1..]);
    }
  }

  /** The deltas of the steps of a chain add up to the delta from its first to its last snapshot. */
  lemma {:induction false} DeltaIsAdditive(chain: seq<Snapshot>, uris: seq<string>)
    requires chain != []
    ensures ChainDelta(chain, uris) == Delta(chain[0], chain[|chain| - 1], uris)
  {
    hide Delta, Total;
    DeltaIsTotalChange(chain[0], chain[|chain| - 1], uris);
    if |chain| >= 2 {
      DeltaIsTotalChange(chain[0], chain[1], uris);
      DeltaIsAdditive(chain[1..], uris);
      DeltaIsTotalChange(chain[1], chain[|chain| - 1], uris);
    }
  }
}

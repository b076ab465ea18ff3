/** Symbol trees of internal/tools/change_impact.go: rebuilding nesting from a flat list, and the
    smallest symbol around a position. */
module Symbols {
  import opened Wrappers

  datatype Position = Position(line: int, character: int)
  datatype Range = Range(start: Position, end: Position)

  /** name stands for everything about a symbol that re-nesting carries along unchanged. */
  datatype Symbol = Symbol(name: string, range: Range, children: seq<Symbol>, renested: bool)

  predicate PositionLE(a: Position, b: Position) {
    if a.line != b.line then a.line < b.line else a.character <= b.character
  }

  predicate Contains(outer: Range, inner: Range) {
    PositionLE(outer.start, inner.start) && PositionLE(inner.end, outer.end) && outer != inner
  }

  lemma ContainsIsAnOrder(a: Range, b: Range, c: Range)
    ensures Contains(a, b) ==> !Contains(b, a)
    ensures Contains(a, b) && Contains(b, c) ==> Contains(a, c)
  {}

  // ---- Sorting ----

  /** By start; for equal starts the longer range first. */
  predicate Less(a: Range, b: Range) {
    if a.start != b.start then PositionLE(a.start, b.start) else a.end != b.end && PositionLE(b.end, a.end)
  }

  function InsertSorted(sorted: seq<Symbol>, x: Symbol): seq<Symbol> {
    if sorted != [] && Less(x.range, sorted[|sorted| - 1].range)
    then InsertSorted(sorted[..|sorted| - 1], x) + [sorted[|sorted| - 1]]
    else sorted + [x]
  }

  /** What sort.SliceStable computes: elements with equal keys keep their order. */
  function StableSort(syms: seq<Symbol>): seq<Symbol> {
    if syms == [] then [] else InsertSorted(StableSort(syms[..|syms| - 1]), syms[|syms| - 1])
  }

  predicate Sorted(syms: seq<Symbol>) {
    forall i, j | 0 <= i < j < |syms| :: !Less(syms[j].range, syms[i].range)
  }

  /** The elements with a given range, in order. */
  function WithRange(syms: seq<Symbol>, r: Range): seq<Symbol> {
    if syms == [] then []
    else WithRange(syms[..|syms| - 1], r) + (if syms[|syms| - 1].range == r then [syms[|syms| - 1]] else [])
  }

  lemma {:induction false} InsertSortedMembers(sorted: seq<Symbol>, x: Symbol)
    ensures forall s :: s in InsertSorted(sorted, x) <==> s in sorted || s == x
  {
    hide Less;
    if sorted != [] && Less(x.range, sorted[|sorted| - 1].range) {
      var front, last := sorted[..|sorted| - 1], sorted[|sorted| - 1];
      InsertSortedMembers(front, x);
      assert sorted == front + [last];
    }
  }

  lemma {:induction false} InsertSortedSorts(sorted: seq<Symbol>, x: Symbol)
    requires Sorted(sorted)
    ensures Sorted(InsertSorted(sorted, x))
  {
    if sorted != [] && Less(x.range, sorted[|sorted| - 1].range) {
      var front, last := sorted[..|sorted| - 1], sorted[|sorted| - 1];
      InsertSortedSorts(front, x);
      InsertSortedMembers(front, x);
      var s := InsertSorted(front, x);
      forall i | 0 <= i < |s| ensures !Less(last.range, s[i].range) {
        assert s[i] in s;
      }
    }
  }

  lemma {:induction false} InsertSortedStable(sorted: seq<Symbol>, x: Symbol, r: Range)
    ensures WithRange(InsertSorted(sorted, x), r) == WithRange(sorted, r) + (if x.range == r then [x] else [])
  {
    if sorted != [] && Less(x.range, sorted[|sorted| - 1].range) {
      var front, last := sorted[..|sorted| - 1], sorted[|sorted| - 1];
      InsertSortedStable(front, x, r);
      assert InsertSorted(sorted, x)[..|InsertSorted(front, x)|] == InsertSorted(front, x);
    } else {
      assert (sorted + [x])[..|sorted|] == sorted;
    }
  }

  lemma {:induction false} StableSortSorts(syms: seq<Symbol>)
    ensures Sorted(StableSort(syms))
    ensures forall s :: s in StableSort(syms) <==> s in syms
  {
    hide Sorted;
    if syms != [] {
      var front, last := syms[..|syms| - 1], syms[|syms| - 1];
      StableSortSorts(front);
      InsertSortedSorts(StableSort(front), last);
      InsertSortedMembers(StableSort(front), last);
      assert syms == front + [last];
    } else {
      assert Sorted([]) by { SortedEmpty(); }
    }
  }

  lemma SortedEmpty()
    ensures Sorted([])
  {}

  lemma {:induction false} StableSortStable(syms: seq<Symbol>, r: Range)
    ensures WithRange(StableSort(syms), r) == WithRange(syms, r)
  {
    if syms != [] {
      StableSortStable(syms[..|syms| - 1], r);
      InsertSortedStable(StableSort(syms[..|syms| - 1]), syms[|syms| - 1], r);
    }
  }

  // ---- Insertion ----

  /** Put sym into the first tree that contains it, in that tree as deep as the same rule leads;
      otherwise behind the last tree. A symbol that gets a parent is marked. */
  function Place(forest: seq<Symbol>, sym: Symbol, nested: bool): seq<Symbol> {
    if forest == [] then [if nested then sym.(renested := true) else sym]
    else if Contains(forest[0].range, sym.range) then
      [forest[0].(children := Place(forest[0].children, sym, true))] + forest[1..]
    else [forest[0]] + Place(forest[1..], sym, nested)
  }

  function PlaceAll(forest: seq<Symbol>, syms: seq<Symbol>): seq<Symbol>
    decreases |syms|
  {
    if syms == [] then forest else PlaceAll(Place(forest, syms[0], false), syms[1..])
  }

  function Renest(syms: seq<Symbol>): seq<Symbol> {
    PlaceAll([], StableSort(syms))
  }

  /** No tree before index i takes the symbol, so the search may start there. */
  lemma PrefixCons(forest: seq<Symbol>, i: nat, rest: seq<Symbol>)
    requires 0 < i <= |forest|
    ensures [forest[0]] + (forest[1..][..i - 1] + rest) == forest[..i] + rest
  {
    assert forest[..i] == [forest[0]] + forest[1..][..i - 1];
  }

  lemma {:induction false} PlaceSkips(forest: seq<Symbol>, sym: Symbol, nested: bool, i: nat)
    requires i <= |forest|
    requires forall k | 0 <= k < i :: !Contains(forest[k].range, sym.range)
    ensures Place(forest, sym, nested) == forest[..i] + Place(forest[i..], sym, nested)
  {
    if i == 0 {
      assert forest[..0] + Place(forest[0..], sym, nested) == Place(forest, sym, nested) by {
        assert forest[0..] == forest;
      }
    } else {
      PlaceSkips(forest[1..], sym, nested, i - 1);
      assert forest[1..][i - 1..] == forest[i..];
      hide Place, Contains;
      PrefixCons(forest, i, Place(forest[i..], sym, nested));
    }
  }

  method InsertNested(root: Symbol, sym: Symbol) returns (updated: Symbol, placed: bool)
    ensures placed <==> Contains(root.range, sym.range)
    ensures updated == if placed then root.(children := Place(root.children, sym, true)) else root
    decreases root
  {
    if !Contains(root.range, sym.range) {
      return root, false;
    }
    var i := 0;
    while i < |root.children|
      invariant 0 <= i <= |root.children|
      invariant forall k | 0 <= k < i :: !Contains(root.children[k].range, sym.range)
    {
      var child, ok := InsertNested(root.children[i], sym);
      if ok {
        PlaceSkips(root.children, sym, true, i);
        assert root.children[i := child]
            == root.children[..i] + ([child] + root.children[i..][1..]);
        return root.(children := root.children[i := child]), true;
      }
      i := i + 1;
    }
    PlaceSkips(root.children, sym, true, i);
    assert root.children[..i] == root.children && root.children[i..] == [];
    return root.(children := root.children + [sym.(renested := true)]), true;
  }

  method RenestFlatSymbols(syms: seq<Symbol>) returns (roots: seq<Symbol>)
    ensures roots == Renest(syms)
  {
    if |syms| < 2 {
      if |syms| == 1 {
        assert syms[..0] == [] && StableSort(syms) == [] + syms && syms[1..] == [];
        assert PlaceAll([], syms) == PlaceAll(Place([], syms[0], false), syms[1..]);
      }
      return syms;
    }
    var ordered := StableSort(syms);
    roots := [];
    for n := 0 to |ordered|
      invariant PlaceAll([], ordered) == PlaceAll(roots, ordered[n..])
    {
      var sym := ordered[n];
      assert ordered[n..][1..] == ordered[n + 1..];
      var placed, i := false, 0;
      ghost var before := roots;
      while i < |roots| && !placed
        invariant 0 <= i <= |roots|
        invariant !placed ==> roots == before && forall k | 0 <= k < i :: !Contains(roots[k].range, sym.range)
        invariant placed ==> roots == Place(before, sym, false)
        decreases |roots| - i, !placed
      {
        var updated, ok := InsertNested(roots[i], sym);
        if ok {
          PlaceSkips(roots, sym, false, i);
          assert roots[i := updated] == roots[..i] + ([updated] + roots[i..][1..]);
          roots := roots[i := updated];
          placed := true;
        } else {
          i := i + 1;
        }
      }
      if !placed {
        PlaceSkips(roots, sym, false, i);
        assert roots[..i] == roots && roots[i..] == [];
        roots := roots + [sym];
      }
    }
  }

  // ---- Nothing is lost ----

  datatype Item = Item(name: string, range: Range)

  /** Every symbol at any depth, as often as it occurs. */
  function Items(forest: seq<Symbol>): multiset<Item> {
    if forest == [] then multiset{}
    else multiset{Item(forest[0].name, forest[0].range)} + Items(forest[0].children) + Items(forest[1..])
  }

  lemma ItemsCons(s: Symbol, rest: seq<Symbol>)
    ensures Items([s] + rest) == multiset{Item(s.name, s.range)} + Items(s.children) + Items(rest)
  {
    assert ([s] + rest)[1..] == rest;
  }

  lemma {:induction false} ItemsAppend(a: seq<Symbol>, b: seq<Symbol>)
    ensures Items(a + b) == Items(a) + Items(b)
  {
    hide Items;
    if a == [] {
      assert a + b == b;
      ItemsEmpty();
    } else {
      ItemsAppend(a[1..], b);
      ItemsCons(a[0], a[1..] + b);
      ItemsCons(a[0], a[1..]);
      assert [a[0]] + (a[1..] + b) == a + b && [a[0]] + a[1..] == a;
    }
  }

  lemma ItemsEmpty()
    ensures Items([]) == multiset{}
  {}

  lemma {:induction false} PlaceKeepsItems(forest: seq<Symbol>, sym: Symbol, nested: bool)
    ensures Items(Place(forest, sym, nested)) == Items(forest) + Items([sym])
  {
    hide Items, Contains;
    ItemsEmpty();
    if forest == [] {
      var leaf := if nested then sym.(renested := true) else sym;
      ItemsCons(leaf, []);
      ItemsCons(sym, []);
      assert [leaf] + [] == [leaf] && [sym] + [] == [sym];
    } else {
      var first, rest := forest[0], forest[1..];
      assert [first] + rest == forest;
      ItemsCons(first, rest);
      if Contains(first.range, sym.range) {
        PlaceKeepsItems(first.children, sym, true);
        ItemsCons(first.(children := Place(first.children, sym, true)), rest);
      } else {
        PlaceKeepsItems(rest, sym, nested);
        ItemsCons(first, Place(rest, sym, nested));
      }
    }
  }

  lemma {:induction false} SortKeepsItems(syms: seq<Symbol>)
    ensures Items(StableSort(syms)) == Items(syms)
  {
    hide Items, InsertSorted;
    if syms != [] {
      var front, last := syms[..|syms| - 1], syms[|syms| - 1];
      SortKeepsItems(front);
      InsertKeepsItems(StableSort(front), last);
      ItemsAppend(front, [last]);
      assert syms == front + [last];
    }
  }

  lemma {:induction false} InsertKeepsItems(sorted: seq<Symbol>, x: Symbol)
    ensures Items(InsertSorted(sorted, x)) == Items(sorted) + Items([x])
  {
    hide Items, Less;
    if sorted != [] && Less(x.range, sorted[|sorted| - 1].range) {
      var front, last := sorted[..|sorted| - 1], sorted[|sorted| - 1];
      InsertKeepsItems(front, x);
      ItemsAppend(InsertSorted(front, x), [last]);
      ItemsAppend(front, [last]);
      assert sorted == front + [last];
    } else {
      ItemsAppend(sorted, [x]);
    }
  }

  lemma {:induction false} PlaceAllKeepsItems(forest: seq<Symbol>, syms: seq<Symbol>)
    ensures Items(PlaceAll(forest, syms)) == Items(forest) + Items(syms)
    decreases |syms|
  {
    hide Items, Place;
    if syms == [] {
      ItemsEmpty();
    } else {
      PlaceKeepsItems(forest, syms[0], false);
      PlaceAllKeepsItems(Place(forest, syms[0], false), syms[1..]);
      ItemsAppend([syms[0]], syms[1..]);
      assert [syms[0]] + syms[1..] == syms;
    }
  }

  /** Re-nesting any list of trees keeps every symbol at any depth, exactly as often. */
  lemma RenestIsPermutation(syms: seq<Symbol>)
    ensures Items(Renest(syms)) == Items(syms)
  {
    PlaceAllKeepsItems([], StableSort(syms));
    SortKeepsItems(syms);
  }

  // ---- Any flat list: children strictly inside, no sibling inside another ----

  function Ranges(forest: seq<Symbol>): set<Range> {
    if forest == [] then {} else {forest[0].range} + Ranges(forest[0].children) + Ranges(forest[1..])
  }

  predicate Inside(outer: Range, rs: set<Range>) {
    forall r | r in rs :: Contains(outer, r)
  }

  function Tops(forest: seq<Symbol>): set<Range> {
    if forest == [] then {} else {forest[0].range} + Tops(forest[1..])
  }

  predicate Unrelated(a: Range, rs: set<Range>) {
    forall r | r in rs :: !Contains(a, r) && !Contains(r, a)
  }

  /** Descendants lie strictly inside their ancestors, and no sibling contains another. */
  predicate Tidy(forest: seq<Symbol>) {
    forest == [] ||
    (&& Inside(forest[0].range, Ranges(forest[0].children))
     && Unrelated(forest[0].range, Tops(forest[1..]))
     && Tidy(forest[0].children) && Tidy(forest[1..]))
  }

  /** A symbol later in the sort order contains nothing placed before it. */
  predicate NotBefore(r: Range, rs: set<Range>) {
    forall q | q in rs :: !Less(r, q)
  }

  lemma LaterContainsNothing(r: Range, rs: set<Range>)
    requires NotBefore(r, rs)
    ensures forall q | q in rs :: !Contains(r, q)
  {}

  lemma {:induction false} PlaceRanges(forest: seq<Symbol>, sym: Symbol, nested: bool)
    requires sym.children == []
    ensures Ranges(Place(forest, sym, nested)) == Ranges(forest) + {sym.range}
    ensures Tops(forest) <= Tops(Place(forest, sym, nested)) <= Tops(forest) + {sym.range}
  {
    hide Contains;
    var placed := Place(forest, sym, nested);
    if forest == [] {
      assert placed[1..] == [];
    } else if Contains(forest[0].range, sym.range) {
      PlaceRanges(forest[0].children, sym, true);
      assert placed[1..] == forest[1..];
    } else {
      PlaceRanges(forest[1..], sym, nested);
      assert placed[1..] == Place(forest[1..], sym, nested);
    }
  }

  lemma {:induction false} TopsAreRanges(forest: seq<Symbol>)
    ensures Tops(forest) <= Ranges(forest)
  {
    if forest != [] {
      TopsAreRanges(forest[1..]);
    }
  }

  lemma {:induction false} PlaceKeepsTidy(forest: seq<Symbol>, sym: Symbol, nested: bool)
    requires Tidy(forest) && sym.children == [] && NotBefore(sym.range, Ranges(forest))
    ensures Tidy(Place(forest, sym, nested))
  {
    LaterContainsNothing(sym.range, Ranges(forest));
    hide Contains, Less;
    var placed := Place(forest, sym, nested);
    if forest == [] {
      assert placed[1..] == [] && placed[0].children == [];
    } else if Contains(forest[0].range, sym.range) {
      PlaceKeepsTidy(forest[0].children, sym, true);
      PlaceRanges(forest[0].children, sym, true);
      assert placed[1..] == forest[1..];
    } else {
      PlaceKeepsTidy(forest[1..], sym, nested);
      PlaceRanges(forest[1..], sym, nested);
      assert placed[1..] == Place(forest[1..], sym, nested);
    }
  }

  predicate Flat(syms: seq<Symbol>) {
    forall s | s in syms :: s.children == [] && !s.renested
  }

  lemma {:induction false} PlaceAllKeepsTidy(forest: seq<Symbol>, syms: seq<Symbol>)
    requires Tidy(forest) && Flat(syms) && Sorted(syms)
    requires forall s | s in syms :: NotBefore(s.range, Ranges(forest))
    ensures Tidy(PlaceAll(forest, syms))
    decreases |syms|
  {
    if syms != [] {
      assert syms[0] in syms;
      PlaceKeepsTidy(forest, syms[0], false);
      PlaceRanges(forest, syms[0], false);
      var next := Place(forest, syms[0], false);
      forall s | s in syms[1..] ensures s in syms && NotBefore(s.range, Ranges(next)) {
        var i :| 0 <= i < |syms[1..]| && syms[1..][i] == s;
        assert syms[i + 1] == s && !Less(syms[i + 1].range, syms[0].range);
      }
      PlaceAllKeepsTidy(next, syms[1..]);
    }
  }

  /** Siblings on every level are in the order of their starts, by line and then by character. */
  predicate InOrder(forest: seq<Symbol>) {
    forest == [] ||
    (&& StartsBefore(forest[0].range, Tops(forest[1..])) && InOrder(forest[0].children) && InOrder(forest[1..]))
  }

  predicate StartsBefore(r: Range, rs: set<Range>) {
    forall q | q in rs ::
      r.start.line < q.start.line || (r.start.line == q.start.line && r.start.character <= q.start.character)
  }

  predicate AllStartBefore(rs: set<Range>, r: Range) {
    forall q | q in rs ::
      q.start.line < r.start.line || (q.start.line == r.start.line && q.start.character <= r.start.character)
  }

  lemma LaterStartsLater(r: Range, rs: set<Range>)
    requires NotBefore(r, rs)
    ensures AllStartBefore(rs, r)
  {}

  lemma {:induction false} PlaceKeepsOrder(forest: seq<Symbol>, sym: Symbol, nested: bool)
    requires InOrder(forest) && sym.children == [] && AllStartBefore(Ranges(forest), sym.range)
    ensures InOrder(Place(forest, sym, nested))
  {
    hide Contains;
    var placed := Place(forest, sym, nested);
    if forest == [] {
      assert placed[1..] == [] && placed[0].children == [];
    } else if Contains(forest[0].range, sym.range) {
      PlaceKeepsOrder(forest[0].children, sym, true);
      assert placed[1..] == forest[1..];
    } else {
      PlaceKeepsOrder(forest[1..], sym, nested);
      PlaceRanges(forest[1..], sym, nested);
      assert placed[1..] == Place(forest[1..], sym, nested);
      assert forest[0].range in Ranges(forest);
    }
  }

  lemma {:induction false} PlaceAllKeepsOrder(forest: seq<Symbol>, syms: seq<Symbol>)
    requires InOrder(forest) && Flat(syms) && Sorted(syms)
    requires forall s | s in syms :: NotBefore(s.range, Ranges(forest))
    ensures InOrder(PlaceAll(forest, syms))
    decreases |syms|
  {
    hide InOrder, Less;
    if syms != [] {
      assert syms[0] in syms;
      LaterStartsLater(syms[0].range, Ranges(forest));
      PlaceKeepsOrder(forest, syms[0], false);
      PlaceRanges(forest, syms[0], false);
      var next := Place(forest, syms[0], false);
      forall s | s in syms[1..] ensures s in syms && NotBefore(s.range, Ranges(next)) {
        var i :| 0 <= i < |syms[1..]| && syms[1..][i] == s;
        assert syms[i + 1] == s && !Less(syms[i + 1].range, syms[0].range);
      }
      PlaceAllKeepsOrder(next, syms[1..]);
    }
  }

  /** Re-nesting a flat list puts every list of siblings in order. */
  lemma RenestIsInOrder(syms: seq<Symbol>)
    requires Flat(syms)
    ensures InOrder(Renest(syms))
  {
    StableSortSorts(syms);
    PlaceAllKeepsOrder([], StableSort(syms));
  }

  /** For any flat list, every child lies strictly inside its parent and no sibling strictly
      contains another. */
  lemma RenestIsTidy(syms: seq<Symbol>)
    requires Flat(syms)
    ensures Tidy(Renest(syms))
  {
    StableSortSorts(syms);
    PlaceAllKeepsTidy([], StableSort(syms));
  }

  // ---- The renested mark ----

  predicate Marked(forest: seq<Symbol>, nested: bool) {
    forest == [] ||
    (forest[0].renested == nested && Marked(forest[0].children, true) && Marked(forest[1..], nested))
  }

  lemma {:induction false} PlaceKeepsMarks(forest: seq<Symbol>, sym: Symbol, nested: bool)
    requires Marked(forest, nested) && sym.children == [] && !sym.renested
    ensures Marked(Place(forest, sym, nested), nested)
  {
    hide Contains;
    var placed := Place(forest, sym, nested);
    if forest == [] {
      assert placed[1..] == [] && placed[0].children == [];
    } else if Contains(forest[0].range, sym.range) {
      PlaceKeepsMarks(forest[0].children, sym, true);
      assert placed[1..] == forest[1..];
    } else {
      PlaceKeepsMarks(forest[1..], sym, nested);
      assert placed[1..] == Place(forest[1..], sym, nested);
    }
  }

  lemma {:induction false} PlaceAllKeepsMarks(forest: seq<Symbol>, syms: seq<Symbol>)
    requires Marked(forest, false) && Flat(syms)
    ensures Marked(PlaceAll(forest, syms), false)
    decreases |syms|
  {
    if syms != [] {
      assert syms[0] in syms;
      PlaceKeepsMarks(forest, syms[0], false);
      assert forall s | s in syms[1..] :: s in syms;
      PlaceAllKeepsMarks(Place(forest, syms[0], false), syms[1..]);
    }
  }

  /** Exactly the symbols that received a parent carry the mark. */
  lemma RenestMarksNested(syms: seq<Symbol>)
    requires Flat(syms)
    ensures Marked(Renest(syms), false)
  {
    StableSortSorts(syms);
    PlaceAllKeepsMarks([], StableSort(syms));
  }

  // ---- When every parent is the innermost enclosing symbol ----

  predicate Comparable(a: Range, b: Range) {
    a == b || Contains(a, b) || Contains(b, a)
  }

  /** The ranges around each range form a chain. */
  ghost predicate Chained(rs: set<Range>) {
    forall a, b, s | a in rs && b in rs && s in rs && Contains(a, s) && Contains(b, s) :: Comparable(a, b)
  }

  /** In the forest, every symbol's parent lies within every other range of the universe that
      encloses the symbol, and a root has no encloser: parents are innermost. */
  predicate Innermost(forest: seq<Symbol>, parent: Option<Range>, universe: set<Range>) {
    forest == [] ||
    (&& (forall r | r in universe && Contains(r, forest[0].range) ::
           parent.Some? && (r == parent.value || Contains(r, parent.value)))
     && (parent.Some? ==> Contains(parent.value, forest[0].range))
     && Innermost(forest[0].children, Some(forest[0].range), universe)
     && Innermost(forest[1..], parent, universe))
  }

  predicate Separate(rs: set<Range>, qs: set<Range>) {
    forall r, q | r in rs && q in qs :: !Comparable(r, q)
  }

  /** Tidy, and moreover symbols in different sibling trees are never nested. */
  predicate Laminar(forest: seq<Symbol>) {
    forest == [] ||
    (&& Inside(forest[0].range, Ranges(forest[0].children))
     && Separate({forest[0].range} + Ranges(forest[0].children), Ranges(forest[1..]))
     && Laminar(forest[0].children) && Laminar(forest[1..]))
  }

  ghost predicate ChainedAt(rs: set<Range>, s: Range) {
    forall a, b | a in rs && b in rs && Contains(a, s) && Contains(b, s) :: Comparable(a, b)
  }

  lemma {:induction false} PlaceKeepsLaminar(forest: seq<Symbol>, sym: Symbol, nested: bool)
    requires Laminar(forest) && sym.children == [] && NotBefore(sym.range, Ranges(forest))
    requires sym.range !in Ranges(forest) && ChainedAt(Ranges(forest), sym.range)
    ensures Laminar(Place(forest, sym, nested))
  {
    LaterContainsNothing(sym.range, Ranges(forest));
    var placed := Place(forest, sym, nested);
    if forest == [] {
      assert placed[1..] == [] && placed[0].children == [];
    } else if Contains(forest[0].range, sym.range) {
      PlaceKeepsLaminar(forest[0].children, sym, true);
      PlaceRanges(forest[0].children, sym, true);
      assert placed[1..] == forest[1..];
      JoinSeparate(forest[0].range, Ranges(forest[0].children), Ranges(forest[1..]), sym.range);
    } else {
      PlaceKeepsLaminar(forest[1..], sym, nested);
      PlaceRanges(forest[1..], sym, nested);
      assert placed[1..] == Place(forest[1..], sym, nested);
      PassSeparate(forest[0].range, Ranges(forest[0].children), Ranges(forest[1..]), sym.range);
    }
  }

  lemma JoinSeparate(top: Range, below: set<Range>, others: set<Range>, s: Range)
    requires Separate({top} + below, others) && Contains(top, s)
    requires ChainedAt({top} + below + others, s)
    requires s !in others && forall q | q in others :: !Contains(s, q)
    ensures Separate({top} + (below + {s}), others)
  {
    hide Contains;
    assert top in {top} + below;
  }

  lemma PassSeparate(top: Range, below: set<Range>, others: set<Range>, s: Range)
    requires Separate({top} + below, others) && !Contains(top, s) && Inside(top, below)
    requires s !in {top} + below && forall q | q in {top} + below :: !Contains(s, q)
    ensures Separate({top} + below, others + {s})
  {
    forall q | q in below ensures !Contains(q, s) {
      ContainsIsAnOrder(top, q, s);
    }
  }

  predicate DistinctRanges(syms: seq<Symbol>) {
    forall i, j | 0 <= i < j < |syms| :: syms[i].range != syms[j].range
  }

  function RangeSet(syms: seq<Symbol>): set<Range> {
    set s | s in syms :: s.range
  }

  /** What is still to be placed comes after, and differs from, everything placed. */
  predicate StillToCome(syms: seq<Symbol>, rs: set<Range>) {
    && Flat(syms) && Sorted(syms) && DistinctRanges(syms)
    && forall s | s in syms :: NotBefore(s.range, rs) && s.range !in rs
  }

  lemma NextToCome(syms: seq<Symbol>, rs: set<Range>)
    requires syms != [] && StillToCome(syms, rs)
    ensures StillToCome(syms[1..], rs + {syms[0].range})
    ensures RangeSet(syms) == {syms[0].range} + RangeSet(syms[1..])
  {
    hide Less;
    var rest := syms[1..];
    forall s | s in rest ensures s in syms && NotBefore(s.range, rs + {syms[0].range}) && s.range !in rs + {syms[0].range} {
      var i :| 0 <= i < |rest| && rest[i] == s;
      assert syms[i + 1] == s && !Less(syms[i + 1].range, syms[0].range);
    }
    assert syms == [syms[0]] + rest;
  }

  lemma {:induction false} PlaceAllKeepsLaminar(forest: seq<Symbol>, syms: seq<Symbol>, universe: set<Range>)
    requires Laminar(forest) && StillToCome(syms, Ranges(forest))
    requires Ranges(forest) + RangeSet(syms) == universe && Chained(universe)
    ensures Laminar(PlaceAll(forest, syms))
    decreases |syms|
  {
    hide Contains, Less, Laminar, Comparable, Place;
    if syms != [] {
      var s0 := syms[0];
      assert s0 in syms && s0.range in RangeSet(syms);
      NextToCome(syms, Ranges(forest));
      PlaceKeepsLaminar(forest, s0, false);
      PlaceRanges(forest, s0, false);
      assert Ranges(forest) + {s0.range} + RangeSet(syms[1..]) == universe;
      PlaceAllKeepsLaminar(Place(forest, s0, false), syms[1..], universe);
    }
  }

  lemma {:induction false} LaminarIsInnermost(forest: seq<Symbol>, parent: Option<Range>, universe: set<Range>)
    requires Laminar(forest)
    requires parent.Some? ==> Inside(parent.value, Ranges(forest))
    requires forall r | r in universe :: r in Ranges(forest) || Outer(r, parent, Ranges(forest))
    ensures Innermost(forest, parent, universe)
  {
    if forest != [] {
      var top, below, others := forest[0].range, Ranges(forest[0].children), Ranges(forest[1..]);
      assert top in {top} + below;
      forall r | r in universe
        ensures Contains(r, top) ==> parent.Some? && (r == parent.value || Contains(r, parent.value))
        ensures r in below || Outer(r, Some(top), below)
        ensures r in others || Outer(r, parent, others)
      {
        WhereIs(r, top, below, others, parent);
      }
      LaminarIsInnermost(forest[0].children, Some(top), universe);
      LaminarIsInnermost(forest[1..], parent, universe);
    }
  }

  /** A range outside a forest either encloses its parent or encloses nothing in it. */
  predicate Outer(r: Range, parent: Option<Range>, rs: set<Range>) {
    (parent.Some? && (r == parent.value || Contains(r, parent.value))) || forall q | q in rs :: !Contains(r, q)
  }

  lemma WhereIs(r: Range, top: Range, below: set<Range>, others: set<Range>, parent: Option<Range>)
    requires Inside(top, below) && Separate({top} + below, others)
    requires parent.Some? ==> Inside(parent.value, {top} + below + others)
    requires r in {top} + below + others || Outer(r, parent, {top} + below + others)
    ensures Contains(r, top) ==> parent.Some? && (r == parent.value || Contains(r, parent.value))
    ensures r in below || Outer(r, Some(top), below)
    ensures r in others || Outer(r, parent, others)
  {
    ContainsIsAnOrder(top, r, top);
    if parent.Some? {
      ContainsIsAnOrder(r, parent.value, top);
    }
    hide Contains;
    assert top in {top} + below;
  }

  lemma {:induction false} InnermostIsChained(forest: seq<Symbol>, parent: Option<Range>, universe: set<Range>)
    requires Innermost(forest, parent, universe)
    requires parent.Some? ==> forall a, b | a in universe && b in universe
               && (a == parent.value || Contains(a, parent.value)) && (b == parent.value || Contains(b, parent.value))
               :: Comparable(a, b)
    ensures forall s | s in Ranges(forest) :: ChainedAt(universe, s)
  {
    hide Contains;
    if forest != [] {
      assert ChainedAt(universe, forest[0].range);
      InnermostIsChained(forest[0].children, Some(forest[0].range), universe);
      InnermostIsChained(forest[1..], parent, universe);
    }
  }

  /** For pairwise distinct ranges, re-nesting gives every symbol its innermost enclosing symbol as
      parent exactly when the symbols around each symbol form a chain. */
  lemma RenestInnermostIffChained(syms: seq<Symbol>)
    requires Flat(syms) && DistinctRanges(syms)
    ensures Ranges(Renest(syms)) == RangeSet(syms)
    ensures Innermost(Renest(syms), None, RangeSet(syms)) <==> Chained(RangeSet(syms))
  {
    var sorted, rs := StableSort(syms), RangeSet(syms);
    StableSortSorts(syms);
    SortKeepsDistinct(syms);
    PlaceAllRanges([], sorted);
    if Chained(rs) {
      PlaceAllKeepsLaminar([], sorted, rs);
      LaminarIsInnermost(Renest(syms), None, rs);
    }
    if Innermost(Renest(syms), None, rs) {
      InnermostIsChained(Renest(syms), None, rs);
    }
  }

  lemma {:induction false} PlaceAllRanges(forest: seq<Symbol>, syms: seq<Symbol>)
    requires Flat(syms)
    ensures Ranges(PlaceAll(forest, syms)) == Ranges(forest) + RangeSet(syms)
    decreases |syms|
  {
    hide Place;
    if syms != [] {
      var s0, rest := syms[0], syms[1..];
      assert s0 in syms;
      PlaceRanges(forest, s0, false);
      assert forall s | s in rest :: s in syms;
      PlaceAllRanges(Place(forest, s0, false), rest);
      assert RangeSet(syms) == {s0.range} + RangeSet(rest) by {
        assert syms == [s0] + rest;
      }
    }
  }

  lemma SortKeepsDistinct(syms: seq<Symbol>)
    requires Flat(syms) && DistinctRanges(syms)
    ensures Flat(StableSort(syms)) && DistinctRanges(StableSort(syms)) && RangeSet(StableSort(syms)) == RangeSet(syms)
  {
    var sorted := StableSort(syms);
    StableSortSorts(syms);
    forall i, j | 0 <= i < j < |sorted| ensures sorted[i].range != sorted[j].range {
      var r := sorted[j].range;
      DistinctMeansOne(syms, r);
      StableSortStable(syms, r);
      TwoWithRange(sorted, i, j);
    }
  }

  lemma {:induction false} DistinctMeansOne(syms: seq<Symbol>, r: Range)
    requires DistinctRanges(syms)
    ensures |WithRange(syms, r)| <= 1
    ensures (forall s | s in syms :: s.range != r) ==> WithRange(syms, r) == []
  {
    if syms != [] {
      var front := syms[..|syms| - 1];
      DistinctMeansOne(front, r);
      assert forall s | s in front :: s in syms;
      assert syms[|syms| - 1] in syms;
    }
  }

  lemma {:induction false} TwoWithRange(syms: seq<Symbol>, i: nat, j: nat)
    requires i < j < |syms|
    ensures syms[i].range == syms[j].range ==> |WithRange(syms, syms[j].range)| >= 2
  {
    var r := syms[j].range;
    if j == |syms| - 1 {
      if syms[i].range == r { OneWithRange(syms[..j], i); }
    } else {
      TwoWithRange(syms[..|syms| - 1], i, j);
    }
  }

  lemma {:induction false} OneWithRange(syms: seq<Symbol>, i: nat)
    requires i < |syms|
    ensures |WithRange(syms, syms[i].range)| >= 1
  {
    if i < |syms| - 1 {
      OneWithRange(syms[..|syms| - 1], i);
    }
  }

  predicate Before(a: Position, b: Position) {
    !PositionLE(b, a)
  }

  predicate NestedOrDisjoint(a: Range, b: Range) {
    Comparable(a, b) || PositionLE(a.end, b.start) || PositionLE(b.end, a.start)
  }

  /** Non-empty ranges that are pairwise nested or disjoint are chained. */
  lemma NestedOrDisjointIsChained(rs: set<Range>)
    requires forall a, b | a in rs && b in rs :: NestedOrDisjoint(a, b)
    requires forall a | a in rs :: Before(a.start, a.end)
    ensures Chained(rs)
  {
    forall a, b, s | a in rs && b in rs && s in rs && Contains(a, s) && Contains(b, s) ensures Comparable(a, b) {
      assert NestedOrDisjoint(a, b) && Before(s.start, s.end);
    }
  }

  /** An empty range on the border of two adjacent ranges lies in both: nested-or-disjoint alone is
      not enough for a unique innermost symbol. */
  lemma EmptyRangeOnBorder()
    ensures var a := Range(Position(0, 0), Position(0, 5));
            var b := Range(Position(0, 5), Position(0, 9));
            var s := Range(Position(0, 5), Position(0, 5));
            && NestedOrDisjoint(a, b) && NestedOrDisjoint(a, s) && NestedOrDisjoint(b, s)
            && !Chained({a, b, s})
  {
    var a := Range(Position(0, 0), Position(0, 5));
    var b := Range(Position(0, 5), Position(0, 9));
    var s := Range(Position(0, 5), Position(0, 5));
    assert Contains(a, s) && Contains(b, s) && !Comparable(a, b);
    assert a in {a, b, s} && b in {a, b, s} && s in {a, b, s};
  }

  // ---- Lists that are already trees ----

  predicate RootsApart(syms: seq<Symbol>) {
    forall i, j | 0 <= i < |syms| && 0 <= j < |syms| :: !Contains(syms[i].range, syms[j].range)
  }

  lemma {:induction false} PlaceAllAppends(forest: seq<Symbol>, syms: seq<Symbol>)
    requires RootsApart(forest + syms)
    ensures PlaceAll(forest, syms) == forest + syms
    decreases |syms|
  {
    hide Contains;
    if syms == [] {
      assert forest + syms == forest;
    } else {
      var all := forest + syms;
      forall k | 0 <= k < |forest| ensures !Contains(forest[k].range, syms[0].range) {
        assert all[k] == forest[k] && all[|forest|] == syms[0];
      }
      PlaceSkips(forest, syms[0], false, |forest|);
      assert forest[..|forest|] == forest && forest[|forest|..] == [];
      assert all == (forest + [syms[0]]) + syms[1..];
      PlaceAllAppends(forest + [syms[0]], syms[1..]);
    }
  }

  /** Trees none of whose roots contains another pass through unchanged but sorted by position. */
  lemma TreesPassThrough(syms: seq<Symbol>)
    requires RootsApart(syms)
    ensures Renest(syms) == StableSort(syms)
  {
    var sorted := StableSort(syms);
    StableSortSorts(syms);
    forall i, j | 0 <= i < |sorted| && 0 <= j < |sorted| ensures !Contains(sorted[i].range, sorted[j].range) {
      assert sorted[i] in sorted && sorted[j] in sorted;
      var k, m :| 0 <= k < |syms| && 0 <= m < |syms| && syms[k] == sorted[i] && syms[m] == sorted[j];
    }
    assert [] + sorted == sorted;
    PlaceAllAppends([], sorted);
  }

  // ---- The smallest symbol around a position ----

  /** Start inclusive, end exclusive. */
  predicate PositionInRange(p: Position, r: Range) {
    PositionLE(r.start, p) && !PositionLE(r.end, p)
  }

  /** The source's own sequence of tests decides the same. */
  predicate PositionTests(p: Position, r: Range) {
    && !(p.line < r.start.line || p.line > r.end.line)
    && !(p.line == r.start.line && p.character < r.start.character)
    && !(p.line == r.end.line && p.character >= r.end.character)
  }

  /** Fewer lines first, then fewer characters. */
  predicate Smaller(a: Range, b: Range) {
    var aLines, bLines := a.end.line - a.start.line, b.end.line - b.start.line;
    if aLines != bLines then aLines < bLines
    else a.end.character - a.start.character < b.end.character - b.start.character
  }

  function Pick(best: Option<Symbol>, candidate: Option<Symbol>): Option<Symbol> {
    if candidate.None? || (best.Some? && !Smaller(candidate.value.range, best.value.range)) then best else candidate
  }

  /** The result of the search when `best` has been found before. */
  function BestFrom(forest: seq<Symbol>, pos: Position, best: Option<Symbol>): Option<Symbol>
    decreases forest
  {
    if forest == [] then best
    else if !PositionTests(pos, forest[0].range) then BestFrom(forest[1..], pos, best)
    else
      BestFrom(forest[1..], pos, Pick(Pick(best, Some(forest[0])), BestFrom(forest[0].children, pos, None)))
  }

  method FindEnclosingSymbolAt(syms: seq<Symbol>, pos: Position) returns (best: Option<Symbol>)
    ensures best == BestFrom(syms, pos, None)
    decreases syms
  {
    best := None;
    for i := 0 to |syms|
      invariant BestFrom(syms, pos, None) == BestFrom(syms[i..], pos, best)
    {
      assert syms[i..][1..] == syms[i + 1..];
      if !PositionTests(pos, syms[i].range) {
        continue;
      }
      best := Pick(best, Some(syms[i]));
      var child := FindEnclosingSymbolAt(syms[i].children, pos);
      best := Pick(best, child);
    }
  }

  /** The symbols at any depth. */
  function Nodes(forest: seq<Symbol>): set<Symbol> {
    if forest == [] then {} else {forest[0]} + Nodes(forest[0].children) + Nodes(forest[1..])
  }

  /** The symbols the search looks at: they and all their ancestors contain the position. */
  function Visited(forest: seq<Symbol>, pos: Position): set<Symbol> {
    if forest == [] then {}
    else (if PositionTests(pos, forest[0].range) then {forest[0]} + Visited(forest[0].children, pos) else {})
         + Visited(forest[1..], pos)
  }

  predicate SmallestOf(best: Option<Symbol>, candidates: set<Symbol>) {
    if best.None? then candidates == {}
    else best.value in candidates && forall c | c in candidates :: !Smaller(c.range, best.value.range)
  }

  lemma PickIsSmallest(a: Option<Symbol>, b: Option<Symbol>, as_: set<Symbol>, bs: set<Symbol>)
    requires SmallestOf(a, as_) && SmallestOf(b, bs)
    ensures SmallestOf(Pick(a, b), as_ + bs)
  {}

  lemma {:induction false} BestIsSmallestVisited(forest: seq<Symbol>, pos: Position, best: Option<Symbol>, seen: set<Symbol>)
    requires SmallestOf(best, seen)
    ensures SmallestOf(BestFrom(forest, pos, best), seen + Visited(forest, pos))
    decreases forest
  {
    hide Smaller, Pick, PositionTests, SmallestOf;
    if forest == [] {
      assert seen + {} == seen;
    } else if !PositionTests(pos, forest[0].range) {
      BestIsSmallestVisited(forest[1..], pos, best, seen);
      assert seen + Visited(forest, pos) == seen + Visited(forest[1..], pos);
    } else {
      var below := Visited(forest[0].children, pos);
      Singleton(forest[0]);
      PickIsSmallest(best, Some(forest[0]), seen, {forest[0]});
      Nothing();
      BestIsSmallestVisited(forest[0].children, pos, None, {});
      assert {} + below == below;
      PickIsSmallest(Pick(best, Some(forest[0])), BestFrom(forest[0].children, pos, None), seen + {forest[0]}, below);
      var all := seen + {forest[0]} + below;
      BestIsSmallestVisited(forest[1..], pos,
        Pick(Pick(best, Some(forest[0])), BestFrom(forest[0].children, pos, None)), all);
      assert all + Visited(forest[1..], pos) == seen + Visited(forest, pos);
    }
  }

  lemma Singleton(s: Symbol)
    ensures SmallestOf(Some(s), {s})
  {}

  lemma Nothing()
    ensures SmallestOf(None, {})
  {}

  predicate Within(outer: Range, inner: Range) {
    PositionLE(outer.start, inner.start) && PositionLE(inner.end, outer.end)
  }

  /** Every child lies within its parent. */
  predicate ChildrenWithin(forest: seq<Symbol>) {
    forest == [] ||
    ((forall c | c in forest[0].children :: Within(forest[0].range, c.range))
     && ChildrenWithin(forest[0].children) && ChildrenWithin(forest[1..]))
  }

  lemma TestsAreIntervals(p: Position, r: Range)
    ensures PositionTests(p, r) <==> PositionInRange(p, r)
  {}

  lemma {:induction false} NothingBelow(forest: seq<Symbol>, pos: Position, outer: Range)
    requires ChildrenWithin(forest) && !PositionInRange(pos, outer)
    requires forall c | c in forest :: Within(outer, c.range)
    ensures forall c | c in Nodes(forest) :: !PositionInRange(pos, c.range)
  {
    if forest != [] {
      assert forest[0] in forest;
      NothingBelow(forest[0].children, pos, forest[0].range);
      NothingBelow(forest[1..], pos, outer);
    }
  }

  lemma {:induction false} VisitedIsAll(forest: seq<Symbol>, pos: Position)
    requires ChildrenWithin(forest)
    ensures Visited(forest, pos) == set s | s in Nodes(forest) && PositionInRange(pos, s.range)
  {
    if forest != [] {
      VisitedIsAll(forest[1..], pos);
      VisitedIsAll(forest[0].children, pos);
      TestsAreIntervals(pos, forest[0].range);
      if !PositionInRange(pos, forest[0].range) {
        NothingBelow(forest[0].children, pos, forest[0].range);
      }
    }
  }

  lemma SmallestMeans(forest: seq<Symbol>, pos: Position, best: Option<Symbol>)
    ensures SmallestOf(best, set s | s in Nodes(forest) && PositionInRange(pos, s.range)) ==>
            && (best.None? <==> forall s | s in Nodes(forest) :: !PositionInRange(pos, s.range))
            && (best.Some? ==>
                  && best.value in Nodes(forest) && PositionInRange(pos, best.value.range)
                  && forall s | s in Nodes(forest) && PositionInRange(pos, s.range) ::
                       var b, r := best.value.range, s.range;
                       var bestLines, lines := b.end.line - b.start.line, r.end.line - r.start.line;
                       || bestLines < lines
                       || (bestLines == lines
                           && b.end.character - b.start.character <= r.end.character - r.start.character))
  {
    hide Nodes, PositionInRange;
    var candidates := set s | s in Nodes(forest) && PositionInRange(pos, s.range);
    assert forall s :: s in candidates <==> s in Nodes(forest) && PositionInRange(pos, s.range);
  }

  /** On any forest whose children lie within their parents, the search finds nothing exactly when
      no symbol at any depth contains the position, and otherwise a containing symbol whose span
      (lines, then characters) is minimal among all containing symbols. */
  lemma EnclosingIsSmallest(forest: seq<Symbol>, pos: Position)
    requires ChildrenWithin(forest)
    ensures SmallestOf(BestFrom(forest, pos, None), set s | s in Nodes(forest) && PositionInRange(pos, s.range))
    ensures var best := BestFrom(forest, pos, None);
            && (best.None? <==> forall s | s in Nodes(forest) :: !PositionInRange(pos, s.range))
            && (best.Some? ==>
                  && best.value in Nodes(forest) && PositionInRange(pos, best.value.range)
                  && forall s | s in Nodes(forest) && PositionInRange(pos, s.range) ::
                       var b, r := best.value.range, s.range;
                       var bestLines, lines := b.end.line - b.start.line, r.end.line - r.start.line;
                       || bestLines < lines
                       || (bestLines == lines
                           && b.end.character - b.start.character <= r.end.character - r.start.character))
  {
    SmallestMeans(forest, pos, BestFrom(forest, pos, None));
    hide Smaller, PositionInRange, SmallestOf;
    Nothing();
    BestIsSmallestVisited(forest, pos, None, {});
    assert {} + Visited(forest, pos) == Visited(forest, pos);
    VisitedIsAll(forest, pos);
  }
}

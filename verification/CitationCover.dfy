/**
 Grounding quotes in cited passages, from app/chatbot/hybrid_grounding.py: the view of a
 text with line breaks rendered as spaces, the place of a quote, and the choice of
 citations that cover it.
 */
module CitationCover {
  import opened Options
  import opened Sequences
  import opened TextSearch

  // ----- the line-break view ---------------------------------------------------------

  predicate Blank(c: char) {
    c == ' ' || c == '\t' || c == '\r' || c == '\n'
  }

  predicate Breaks(c: char) {
    c == '\r' || c == '\n'
  }

  // A viewed character and the range of the text that it stands for.
  datatype Cell = Cell(c: char, start: nat, end: nat)

  // The end of the run of blanks and line breaks that starts here.
  function RunEnd(text: string, i: nat): (end: nat)
    requires i <= |text|
    ensures i <= end <= |text| && (forall k | i <= k < end :: Blank(text[k])) && (end < |text| ==> !Blank(text[end]))
    decreases |text| - i
  {
    if i < |text| && Blank(text[i]) then RunEnd(text, i + 1) else i
  }

  predicate HasBreak(text: string, i: nat, end: nat)
    requires i <= end <= |text|
  {
    exists k | i <= k < end :: Breaks(text[k])
  }

  // The cell that starts at i: a run with a line break becomes one space, every other
  // character stays.
  function FirstCell(text: string, i: nat): (cell: Cell)
    requires i < |text|
    ensures cell.start == i < cell.end <= |text|
  {
    if HasBreak(text, i, RunEnd(text, i)) then Cell(' ', i, RunEnd(text, i)) else Cell(text[i], i, i + 1)
  }

  function View(text: string, i: nat): (cells: seq<Cell>)
    requires i <= |text|
    decreases |text| - i
  {
    if i == |text| then [] else [FirstCell(text, i)] + View(text, FirstCell(text, i).end)
  }

  function Chars(cells: seq<Cell>): (cs: string)
    ensures |cs| == |cells|
  {
    seq(|cells|, i requires 0 <= i < |cells| => cells[i].c)
  }

  function Viewed(text: string): string {
    Chars(View(text, 0))
  }

  lemma ViewUnfolds(text: string, i: nat)
    requires i <= |text|
    ensures View(text, i) == if i == |text| then [] else [FirstCell(text, i)] + View(text, FirstCell(text, i).end)
  {
  }

  // The ranges follow one another without a gap from the first to the last.
  ghost predicate Tiles(cells: seq<Cell>, from: nat, to: nat) {
    if cells == [] then from == to
    else cells[0].start == from && from < cells[0].end && Tiles(cells[1..], cells[0].end, to)
  }

  /** The ranges of the view tile the text. */
  lemma {:induction false} ViewTiles(text: string, i: nat)
    requires i <= |text|
    ensures Tiles(View(text, i), i, |text|)
    decreases |text| - i
  {
    if i < |text| {
      ViewTiles(text, FirstCell(text, i).end);
      assert View(text, i)[1..] == View(text, FirstCell(text, i).end);
    }
  }

  // ----- the scanner ---------------------------------------------------------------------

  // The leftmost place at or after the cursor where horizontal blanks lead to a line break.
  method NextBreak(text: string, cursor: nat) returns (found: Option<nat>)
    requires cursor <= |text|
    ensures found.Some? ==> cursor <= found.value < |text| && HasBreak(text, found.value, RunEnd(text, found.value))
    ensures forall k: nat | cursor <= k < (if found.Some? then found.value else |text|) ::
      !HasBreak(text, k, RunEnd(text, k))
  {
    var i := cursor;
    while i < |text|
      invariant cursor <= i <= |text|
      invariant forall k: nat | cursor <= k < i :: !HasBreak(text, k, RunEnd(text, k))
    {
      var j := i;
      while j < |text| && (text[j] == ' ' || text[j] == '\t')
        invariant i <= j <= |text| && forall k | i <= k < j :: text[k] == ' ' || text[k] == '\t'
      {
        j := j + 1;
      }
      RunThrough(text, i, j);
      if j < |text| && Breaks(text[j]) {
        return Some(i);
      }
      i := i + 1;
    }
    found := None;
  }

  // Horizontal blanks do not end a run, and bring no line break.
  lemma {:induction false} RunThrough(text: string, i: nat, j: nat)
    requires i <= j <= |text| && forall k | i <= k < j :: text[k] == ' ' || text[k] == '\t'
    ensures RunEnd(text, i) == RunEnd(text, j)
    ensures HasBreak(text, i, RunEnd(text, i)) == HasBreak(text, j, RunEnd(text, j))
    ensures j < |text| && Breaks(text[j]) ==> HasBreak(text, j, RunEnd(text, j))
    ensures j < |text| && !Blank(text[j]) ==> !HasBreak(text, j, RunEnd(text, j))
    decreases j - i
  {
    if i < j {
      RunThrough(text, i + 1, j);
    }
  }

  // The characters from i to j, each a cell of its own.
  function Singles(text: string, i: nat, j: nat): (cells: seq<Cell>)
    requires i <= j <= |text|
    ensures |cells| == j - i
  {
    seq(j - i, k requires 0 <= k < j - i => Cell(text[i + k], i + k, i + k + 1))
  }

  lemma SinglesUnfold(text: string, i: nat, j: nat)
    requires i < j <= |text|
    ensures Singles(text, i, j) == [Cell(text[i], i, i + 1)] + Singles(text, i + 1, j)
  {
  }

  // A place where no break starts is a cell of its own.
  lemma PlainCell(text: string, i: nat)
    requires i < |text| && !HasBreak(text, i, RunEnd(text, i))
    ensures View(text, i) == [Cell(text[i], i, i + 1)] + View(text, i + 1)
  {
    hide View, RunEnd, HasBreak;
    ViewUnfolds(text, i);
  }

  lemma ConsJoins(cell: Cell, cells: seq<Cell>, rest: seq<Cell>)
    ensures [cell] + (cells + rest) == [cell] + cells + rest
  {
  }

  // Nothing but single characters before the next break.
  lemma {:induction false} PlainPart(text: string, i: nat, j: nat)
    requires i <= j <= |text| && forall k: nat | i <= k < j :: !HasBreak(text, k, RunEnd(text, k))
    ensures View(text, i) == Singles(text, i, j) + View(text, j)
    decreases j - i
  {
    hide View, RunEnd, HasBreak;
    if i == j {
      assert Singles(text, i, j) == [];
    } else {
      hide Singles;
      PlainCell(text, i);
      PlainPart(text, i + 1, j);
      SinglesUnfold(text, i, j);
      ConsJoins(Cell(text[i], i, i + 1), Singles(text, i + 1, j), View(text, j));
    }
  }

  method LineBreakView(text: string) returns (cells: seq<Cell>)
    ensures cells == View(text, 0)
  {
    cells := [];
    var cursor := 0;
    while cursor < |text|
      invariant cursor <= |text| && cells + View(text, cursor) == View(text, 0)
    {
      var next := NextBreak(text, cursor);
      var stop := if next.Some? then next.value else |text|;
      PlainPart(text, cursor, stop);
      cells := cells + Singles(text, cursor, stop);
      cursor := stop;
      if next.Some? {
        var end := RunEnd(text, stop);
        cells := cells + [Cell(' ', stop, end)];
        cursor := end;
      }
    }
  }

  // ----- the view of a slice ------------------------------------------------------------

  lemma {:induction false} RunEndOfPrefix(text: string, i: nat, e: nat)
    requires i <= e <= |text|
    ensures RunEnd(text[..e], i) == if RunEnd(text, i) <= e then RunEnd(text, i) else e
    decreases e - i
  {
    if i < e { RunEndOfPrefix(text, i + 1, e); }
  }

  lemma FirstCellOfPrefix(text: string, i: nat, e: nat)
    requires i < e <= |text| && FirstCell(text, i).end <= e
    ensures FirstCell(text[..e], i) == FirstCell(text, i)
  {
    RunEndOfPrefix(text, i, e);
    if HasBreak(text, i, RunEnd(text, i)) {
      var k :| i <= k < RunEnd(text, i) && Breaks(text[k]);
      assert Breaks(text[..e][k]);
    }
  }

  // Cutting a text behind a cell leaves the cells before the cut as they are.
  lemma {:induction false} ViewOfPrefix(text: string, i: nat, k: nat)
    requires i <= |text| && 0 < k <= |View(text, i)|
    ensures var e := View(text, i)[k - 1].end;
      i < e <= |text| && View(text[..e], i) == View(text, i)[..k]
    decreases k
  {
    hide View, RunEnd, HasBreak, FirstCell;
    ViewUnfolds(text, i);
    var cells := View(text, i);
    var next := cells[0].end;
    assert cells[1..] == View(text, next);
    var e := cells[k - 1].end;
    if k > 1 {
      ViewOfPrefix(text, next, k - 1);
      assert View(text, next)[k - 2] == cells[k - 1];
      assert cells[..k] == [cells[0]] + cells[1..][..k - 1];
    }
    FirstCellOfPrefix(text, i, e);
    ViewUnfolds(text[..e], i);
    ViewUnfolds(text[..e], e);
    assert k == 1 ==> cells[..k] == [cells[0]] + [];
  }

  lemma {:induction false} RunEndShifts(text: string, s: nat, i: nat)
    requires s + i <= |text|
    ensures RunEnd(text[s..], i) + s == RunEnd(text, s + i)
    decreases |text| - i
  {
    if s + i < |text| { RunEndShifts(text, s, i + 1); }
  }

  lemma BreakShifts(text: string, s: nat, i: nat, end: nat)
    requires s + i <= s + end <= |text|
    ensures HasBreak(text[s..], i, end) == HasBreak(text, s + i, s + end)
  {
    if HasBreak(text, s + i, s + end) {
      var k :| s + i <= k < s + end && Breaks(text[k]);
      assert Breaks(text[s..][k - s]);
    }
  }

  lemma FirstCellShifts(text: string, s: nat, i: nat)
    requires s + i < |text|
    ensures FirstCell(text, s + i).c == FirstCell(text[s..], i).c
    ensures FirstCell(text, s + i).end == s + FirstCell(text[s..], i).end
  {
    hide HasBreak, RunEnd;
    RunEndShifts(text, s, i);
    BreakShifts(text, s, i, RunEnd(text[s..], i));
  }

  lemma {:induction false} ViewShifts(text: string, s: nat, i: nat)
    requires s + i <= |text|
    ensures Chars(View(text[s..], i)) == Chars(View(text, s + i))
    decreases |text| - i
  {
    hide View, FirstCell, Chars;
    ViewUnfolds(text[s..], i);
    ViewUnfolds(text, s + i);
    if s + i < |text| {
      FirstCellShifts(text, s, i);
      var next := FirstCell(text[s..], i).end;
      ViewShifts(text, s, next);
      CharsOfCons(FirstCell(text[s..], i), View(text[s..], next));
      CharsOfCons(FirstCell(text, s + i), View(text, s + next));
    }
  }

  lemma CharsOfCons(cell: Cell, cells: seq<Cell>)
    ensures Chars([cell] + cells) == [cell.c] + Chars(cells)
  {
  }

  lemma {:induction false} ViewFromCell(text: string, i: nat, a: nat)
    requires i <= |text| && a < |View(text, i)|
    ensures i <= View(text, i)[a].start <= |text| && View(text, View(text, i)[a].start) == View(text, i)[a..]
    decreases |text| - i
  {
    var cells := View(text, i);
    if a > 0 {
      assert cells[1..] == View(text, cells[0].end);
      ViewFromCell(text, cells[0].end, a - 1);
      assert cells[1..][a - 1] == cells[a] && cells[1..][a - 1..] == cells[a..];
    }
  }

  /** The slice between two cells has exactly the view of those cells. */
  lemma SliceViews(text: string, a: nat, b: nat)
    requires a < b <= |View(text, 0)|
    ensures var cells := View(text, 0);
      && cells[a].start < cells[b - 1].end <= |text|
      && Viewed(text[cells[a].start..cells[b - 1].end]) == Viewed(text)[a..b]
  {
    hide View;
    var cells := View(text, 0);
    ViewFromCell(text, 0, a);
    var s := cells[a].start;
    ViewOfPrefix(text, s, b - a);
    assert View(text, s)[b - a - 1] == cells[b - 1];
    var e := cells[b - 1].end;
    ViewShifts(text[..e], s, 0);
    assert text[..e][s..] == text[s..e];
    assert cells[a..][..b - a] == cells[a..b];
  }

  // ----- the place of a quote -----------------------------------------------------------------

  datatype Place = At(start: nat, end: nat) | Ambiguous | NotFound

  ghost predicate OccursSomewhere(text: string, part: string) {
    exists k: nat :: Occurs(text, part, k)
  }

  ghost predicate OccursInOnePlace(text: string, part: string) {
    exists at: nat :: OccursOnce(text, part, at)
  }

  // Where the quote stands, exactly or up to line breaks; a quote with two places is refused.
  method QuoteSpan(text: string, quote: string) returns (place: Place)
    ensures place.At? ==> place.start <= place.end <= |text| && Viewed(text[place.start..place.end]) == Viewed(quote)
    ensures forall at: nat | OccursOnce(text, quote, at) :: place == At(at, at + |quote|)
    ensures place.At? <==>
      OccursInOnePlace(text, quote) || (!OccursSomewhere(text, quote) && OccursInOnePlace(Viewed(text), Viewed(quote)))
    ensures place.NotFound? <==> !OccursSomewhere(text, quote) && !OccursSomewhere(Viewed(text), Viewed(quote))
  {
    hide View;
    var start := Find(text, quote, 0);
    if start.Some? {
      assert Occurs(text, quote, start.value);
      var second := Find(text, quote, start.value + 1);
      if second.Some? {
        assert Occurs(text, quote, second.value);
        return Ambiguous;
      }
      assert OccursOnce(text, quote, start.value);
      return At(start.value, start.value + |quote|);
    }
    var cells := LineBreakView(text);
    var quoted := LineBreakView(quote);
    var viewed, wanted := Chars(cells), Chars(quoted);
    start := Find(viewed, wanted, 0);
    if start.None? {
      return NotFound;
    }
    var second := Find(viewed, wanted, start.value + 1);
    if second.Some? {
      assert Occurs(viewed, wanted, start.value) && Occurs(viewed, wanted, second.value);
      return Ambiguous;
    }
    assert Occurs(text, "", 0);
    ViewOfSomething(quote);
    assert OccursOnce(viewed, wanted, start.value);
    SliceViews(text, start.value, start.value + |wanted|);
    place := At(cells[start.value].start, cells[start.value + |wanted| - 1].end);
  }

  lemma ViewOfSomething(text: string)
    ensures text != "" ==> View(text, 0) != []
  {
  }

  // ----- covering a span with citations -----------------------------------------------------------

  // A citation: the part of the passage it stands for.
  datatype Reference = Reference(start: nat, end: nat)

  predicate CoversAt(r: Reference, x: nat) {
    r.start <= x < r.end
  }

  predicate Contains(r: Reference, start: nat, end: nat) {
    r.start <= start && r.end >= end
  }

  ghost predicate CoveredBy(refs: seq<Reference>, chosen: set<nat>, x: nat) {
    exists i :: i in chosen && i < |refs| && CoversAt(refs[i], x)
  }

  predicate Uncovered(refs: seq<Reference>, x: nat) {
    forall i | 0 <= i < |refs| :: !CoversAt(refs[i], x)
  }

  // Together the chosen citations leave no hole in the span.
  ghost predicate Covers(refs: seq<Reference>, chosen: set<nat>, start: nat, end: nat) {
    forall x: nat | start <= x < end :: CoveredBy(refs, chosen, x)
  }

  ghost predicate HasHole(refs: seq<Reference>, start: nat, end: nat) {
    exists x: nat :: start <= x < end && Uncovered(refs, x)
  }

  // Each chosen citation covers its point, and reaches furthest among those that do.
  ghost predicate Greedy(refs: seq<Reference>, chosen: seq<nat>, points: seq<nat>) {
    && |points| == |chosen| + 1
    && (forall i | 0 <= i < |chosen| ::
      && chosen[i] < |refs| && CoversAt(refs[chosen[i]], points[i]) && points[i + 1] == refs[chosen[i]].end
      && forall k | 0 <= k < |refs| && CoversAt(refs[k], points[i]) :: refs[k].end <= points[i + 1])
    && (forall i, j :: 0 <= i < j < |points| ==> points[i] < points[j])
  }

  lemma GreedyMore(refs: seq<Reference>, chosen: seq<nat>, points: seq<nat>, next: nat)
    requires Greedy(refs, chosen, points) && next < |refs| && CoversAt(refs[next], points[|chosen|])
    requires forall k | 0 <= k < |refs| && CoversAt(refs[k], points[|chosen|]) :: refs[k].end <= refs[next].end
    ensures Greedy(refs, chosen + [next], points + [refs[next].end])
  {
  }

  // No citation covers two of the points, so any cover needs one for each.
  lemma {:induction false} CoverNeedsOneEach(refs: seq<Reference>, chosen: seq<nat>, points: seq<nat>, other: set<nat>,
                                             n: nat)
    requires Greedy(refs, chosen, points) && n <= |chosen|
    requires forall i | 0 <= i < n :: CoveredBy(refs, other, points[i])
    ensures n <= |other|
    decreases n
  {
    if n > 0 {
      assert CoveredBy(refs, other, points[n - 1]);
      var k :| k in other && k < |refs| && CoversAt(refs[k], points[n - 1]);
      forall i | 0 <= i < n - 1 ensures CoveredBy(refs, other - {k}, points[i]) {
        var m :| m in other && m < |refs| && CoversAt(refs[m], points[i]);
        assert CoversAt(refs[m], points[i]) && refs[m].end <= points[i + 1] <= points[n - 1];
        assert m in other - {k};
      }
      CoverNeedsOneEach(refs, chosen, points, other - {k}, n - 1);
    }
  }

  lemma GreedyIsMinimal(refs: seq<Reference>, chosen: seq<nat>, points: seq<nat>, start: nat, end: nat, other: set<nat>)
    requires Greedy(refs, chosen, points) && points[0] == start && (chosen != [] ==> points[|chosen| - 1] < end)
    requires Covers(refs, other, start, end)
    ensures |chosen| <= |other|
  {
    forall i | 0 <= i < |chosen| ensures CoveredBy(refs, other, points[i]) {
      assert start <= points[0] <= points[i] <= points[|chosen| - 1] < end;
    }
    CoverNeedsOneEach(refs, chosen, points, other, |chosen|);
  }

  // Among the first n citations, this one covers the cursor and reaches furthest, the anchor
  // before others that reach as far.
  predicate ReachesFurthest(refs: seq<Reference>, n: nat, cursor: nat, anchor: nat, best: nat) {
    && best < n <= |refs| && CoversAt(refs[best], cursor)
    && (forall k | 0 <= k < n && CoversAt(refs[k], cursor) :: refs[k].end <= refs[best].end)
    && (anchor < n && CoversAt(refs[anchor], cursor) && refs[anchor].end == refs[best].end ==> best == anchor)
    && (best != anchor ==> forall k | 0 <= k < best && CoversAt(refs[k], cursor) :: refs[k].end < refs[best].end)
  }

  method Furthest(refs: seq<Reference>, cursor: nat, anchor: nat) returns (best: Option<nat>)
    ensures best.None? <==> Uncovered(refs, cursor)
    ensures best.Some? ==> ReachesFurthest(refs, |refs|, cursor, anchor, best.value)
  {
    best := None;
    for i := 0 to |refs|
      invariant best.None? <==> forall k | 0 <= k < i :: !CoversAt(refs[k], cursor)
      invariant best.Some? ==> ReachesFurthest(refs, i, cursor, anchor, best.value)
    {
      if refs[i].start <= cursor < refs[i].end {
        if best.None? || refs[i].end > refs[best.value].end || (refs[i].end == refs[best.value].end && i == anchor) {
          best := Some(i);
        }
      }
    }
  }

  function Width(r: Reference): int {
    r.end - r.start
  }

  // The first of the narrowest among the first n citations that hold the span.
  ghost predicate Leftmost(refs: seq<Reference>, n: nat, start: nat, end: nat, best: nat)
    requires n <= |refs| && best < n
  {
    && (forall k | 0 <= k < n && Contains(refs[k], start, end) :: Width(refs[best]) <= Width(refs[k]))
    && (forall k | 0 <= k < best && Contains(refs[k], start, end) :: Width(refs[best]) < Width(refs[k]))
  }

  // The narrowest citation that holds the whole span, the anchor first of all; among equally
  // narrow ones the first.
  method Narrowest(refs: seq<Reference>, start: nat, end: nat, anchor: nat) returns (best: Option<nat>)
    ensures best.None? <==> forall k | 0 <= k < |refs| :: !Contains(refs[k], start, end)
    ensures best.Some? ==> best.value < |refs| && Contains(refs[best.value], start, end)
    ensures anchor < |refs| && Contains(refs[anchor], start, end) ==> best == Some(anchor)
    ensures best.Some? && best.value != anchor ==> Leftmost(refs, |refs|, start, end, best.value)
  {
    best := None;
    for i := 0 to |refs|
      invariant best.None? <==> forall k | 0 <= k < i :: !Contains(refs[k], start, end)
      invariant best.Some? ==> best.value < i && Contains(refs[best.value], start, end)
      invariant anchor < i && Contains(refs[anchor], start, end) ==> best == Some(anchor)
      invariant best.Some? && best.value != anchor ==> Leftmost(refs, i, start, end, best.value)
    {
      if refs[i].start <= start && end <= refs[i].end {
        if best.None? || i == anchor || (best.value != anchor && Width(refs[i]) < Width(refs[best.value])) {
          best := Some(i);
        }
      }
    }
  }

  /** Citation cover: the chosen citations leave no hole in the quoted span, no other
      choice needs fewer, and the span is refused exactly when the citations of the
      passage have a hole in it. */
  method CoverSpan(refs: seq<Reference>, start: nat, end: nat, anchor: nat) returns (cover: Option<seq<nat>>)
    ensures cover.None? <==> HasHole(refs, start, end)
    ensures cover.Some? ==>
      Distinct(cover.value) && Below(cover.value, |refs|) && Covers(refs, SetOf(cover.value), start, end)
    ensures cover.Some? && start < end ==> forall other: set<nat> | Covers(refs, other, start, end) ::
      |cover.value| <= |other|
    ensures anchor < |refs| && Contains(refs[anchor], start, end) ==> cover == Some([anchor])
  {
    var whole := Narrowest(refs, start, end, anchor);
    if whole.Some? {
      OneIsEnough(refs, whole.value, start, end);
      return Some([whole.value]);
    }
    var chosen: seq<nat> := [];
    ghost var points: seq<nat> := [start];
    var cursor := start;
    while cursor < end
      invariant Greedy(refs, chosen, points) && start <= cursor && points[0] == start && points[|points| - 1] == cursor
      invariant (chosen != [] ==> points[|chosen| - 1] < end)
      invariant Covers(refs, SetOf(chosen), start, cursor)
      decreases end - cursor
    {
      var best := Furthest(refs, cursor, anchor);
      if best.None? {
        assert Uncovered(refs, cursor);
        return None;
      }
      assert points[|chosen|] == cursor;
      GreedyMore(refs, chosen, points, best.value);
      CoverMore(refs, chosen, start, cursor, best.value);
      chosen, points := chosen + [best.value], points + [refs[best.value].end];
      cursor := refs[best.value].end;
    }
    GreedyResult(refs, chosen, points, start, end);
    cover := Some(chosen);
  }

  lemma OneIsEnough(refs: seq<Reference>, i: nat, start: nat, end: nat)
    requires i < |refs| && Contains(refs[i], start, end)
    ensures Covers(refs, SetOf([i]), start, end) && !HasHole(refs, start, end)
    ensures start < end ==> forall other: set<nat> | Covers(refs, other, start, end) :: |other| >= 1
  {
    forall x: nat | start <= x < end ensures CoveredBy(refs, SetOf([i]), x) {
      assert i in SetOf([i]) && CoversAt(refs[i], x);
    }
    forall other: set<nat> | start < end && Covers(refs, other, start, end) ensures |other| >= 1 {
      assert CoveredBy(refs, other, start);
      var k :| k in other && k < |refs| && CoversAt(refs[k], start);
      assert |other| == |other - {k}| + 1;
    }
  }

  lemma CoverMore(refs: seq<Reference>, chosen: seq<nat>, start: nat, cursor: nat, next: nat)
    requires Covers(refs, SetOf(chosen), start, cursor) && next < |refs| && CoversAt(refs[next], cursor)
    ensures Covers(refs, SetOf(chosen + [next]), start, refs[next].end)
  {
    var more := SetOf(chosen + [next]);
    forall x: nat | start <= x < refs[next].end ensures CoveredBy(refs, more, x) {
      if x < cursor {
        assert CoveredBy(refs, SetOf(chosen), x);
        var k :| k in SetOf(chosen) && k < |refs| && CoversAt(refs[k], x);
        assert k in more;
      } else {
        assert next in more && CoversAt(refs[next], x);
      }
    }
  }

  lemma GreedyResult(refs: seq<Reference>, chosen: seq<nat>, points: seq<nat>, start: nat, end: nat)
    requires Greedy(refs, chosen, points) && points[0] == start && (chosen != [] ==> points[|chosen| - 1] < end)
    requires end <= points[|chosen|] && Covers(refs, SetOf(chosen), start, points[|chosen|])
    ensures Distinct(chosen) && Below(chosen, |refs|) && Covers(refs, SetOf(chosen), start, end)
    ensures !HasHole(refs, start, end)
    ensures forall other: set<nat> | Covers(refs, other, start, end) :: |chosen| <= |other|
  {
    forall i, j | 0 <= i < j < |chosen| ensures chosen[i] != chosen[j] {
      assert refs[chosen[i]].end == points[i + 1] <= points[j];
    }
    forall x: nat | start <= x < end ensures !Uncovered(refs, x) && CoveredBy(refs, SetOf(chosen), x) {
      assert CoveredBy(refs, SetOf(chosen), x);
    }
    forall other: set<nat> | Covers(refs, other, start, end) ensures |chosen| <= |other| {
      GreedyIsMinimal(refs, chosen, points, start, end, other);
    }
  }
}

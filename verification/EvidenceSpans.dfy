/**
 Locating quoted evidence in a chunk of text, from app/analysis/evidence_span_resolver.py:
 an exact search, then one that ignores differences of white space, then one that also
 ignores double quotes.
 */
module EvidenceSpans {
  import opened Options
  import opened TextSearch

  // How a normaliser treats a character: kept, part of white space, or dropped.
  datatype Kind = Kept | Space | Dropped

  type Kinds = char -> Kind

  // A normalised character and the range of the text that it stands for.
  datatype Cell = Cell(c: char, start: nat, end: nat)

  ghost predicate ValidKinds(kinds: Kinds) {
    kinds(' ') == Space
  }

  // Double quotes are ordinary characters for the white-space normaliser.
  function KeepQuotes(kinds: Kinds): Kinds {
    c => if kinds(c) == Dropped then Kept else kinds(c)
  }

  // ----- the meaning of both normalisers ----------------------------------------------

  function Extend(cells: seq<Cell>, c: char, at: nat, kinds: Kinds): seq<Cell> {
    match kinds(c)
    case Dropped => cells
    case Kept => cells + [Cell(c, at, at + 1)]
    case Space =>
      if cells != [] && cells[|cells| - 1].c == ' ' then cells[|cells| - 1 := cells[|cells| - 1].(end := at + 1)]
      else cells + [Cell(' ', at, at + 1)]
  }

  // The cells of the first n characters: dropped characters leave none, and white space
  // is merged, also across dropped characters.
  function Cells(text: string, n: nat, kinds: Kinds): seq<Cell>
    requires n <= |text|
  {
    if n == 0 then [] else Extend(Cells(text, n - 1, kinds), text[n - 1], n - 1, kinds)
  }

  function Chars(cells: seq<Cell>): (cs: string)
    ensures |cs| == |cells|
  {
    seq(|cells|, i requires 0 <= i < |cells| => cells[i].c)
  }

  function Normalised(text: string, kinds: Kinds): string {
    Chars(Cells(text, |text|, kinds))
  }

  // ----- the two loops -----------------------------------------------------------------

  // _normalize_quotes_with_ranges: one pass that overwrites the last range while white space continues.
  method NormaliseQuotes(text: string, kinds: Kinds) returns (cells: seq<Cell>)
    requires ValidKinds(kinds)
    ensures cells == Cells(text, |text|, kinds)
  {
    cells := [];
    for i := 0 to |text|
      invariant cells == Cells(text, i, kinds)
    {
      var c := text[i];
      if kinds(c) == Dropped {
        continue;
      }
      if kinds(c) == Space {
        if cells != [] && cells[|cells| - 1].c == ' ' {
          cells := cells[|cells| - 1 := Cell(cells[|cells| - 1].c, cells[|cells| - 1].start, i + 1)];
          continue;
        }
        c := ' ';
      }
      cells := cells + [Cell(c, i, i + 1)];
    }
  }

  // _normalize_whitespace_with_ranges: an inner loop that swallows a whole run of white space.
  method NormaliseWhitespace(text: string, kinds: Kinds) returns (cells: seq<Cell>)
    requires ValidKinds(kinds)
    ensures cells == Cells(text, |text|, KeepQuotes(kinds))
  {
    cells := [];
    var i := 0;
    while i < |text|
      invariant i <= |text| && cells == Cells(text, i, KeepQuotes(kinds))
      invariant i < |text| && kinds(text[i]) == Space ==> cells == [] || cells[|cells| - 1].c != ' '
    {
      if kinds(text[i]) == Space {
        var start := i;
        ghost var before := cells;
        while i < |text| && kinds(text[i]) == Space
          invariant start <= i <= |text|
          invariant i == start ==> Cells(text, i, KeepQuotes(kinds)) == before
          invariant i > start ==> Cells(text, i, KeepQuotes(kinds)) == before + [Cell(' ', start, i)]
        {
          i := i + 1;
        }
        cells := cells + [Cell(' ', start, i)];
        continue;
      }
      cells := cells + [Cell(text[i], i, i + 1)];
      i := i + 1;
    }
  }

  // ----- normalising a slice --------------------------------------------------------------

  // The character at position s opens a new cell.
  predicate Opens(text: string, s: nat, kinds: Kinds)
    requires s < |text|
  {
    var before := Cells(text, s, kinds);
    kinds(text[s]) == Kept || (kinds(text[s]) == Space && (before == [] || before[|before| - 1].c != ' '))
  }

  function Shifted(cells: seq<Cell>, by0: nat): (shifted: seq<Cell>)
    ensures |shifted| == |cells|
  {
    seq(|cells|, i requires 0 <= i < |cells| => Cell(cells[i].c, cells[i].start + by0, cells[i].end + by0))
  }

  lemma CellsUnfold(text: string, n: nat, kinds: Kinds)
    requires n <= |text|
    ensures Cells(text, n, kinds) == if n == 0 then [] else Extend(Cells(text, n - 1, kinds), text[n - 1], n - 1, kinds)
  {
  }

  // From a position that opens a cell, normalising starts afresh.
  lemma {:induction false} CellsSplit(text: string, s: nat, n: nat, kinds: Kinds)
    requires ValidKinds(kinds) && s < n <= |text| && Opens(text, s, kinds)
    ensures Cells(text[s..n], n - s, kinds) != []
    ensures Cells(text, n, kinds) == Cells(text, s, kinds) + Shifted(Cells(text[s..n], n - s, kinds), s)
    decreases n
  {
    hide Cells;
    var before, own := Cells(text, s, kinds), text[s..n];
    CellsUnfold(text, n, kinds);
    CellsUnfold(own, n - s, kinds);
    assert own[n - s - 1] == text[n - 1];
    if n == s + 1 {
      CellsUnfold(own, 0, kinds);
    } else {
      CellsSplit(text, s, n - 1, kinds);
      CellsOfPrefix(own, n - 1 - s, kinds);
      assert own[..n - 1 - s] == text[s..n - 1];
      ExtendShifted(before, Cells(text[s..n - 1], n - 1 - s, kinds), text[n - 1], n - 1, s, kinds);
      ExtendIsSome(Cells(text[s..n - 1], n - 1 - s, kinds), text[n - 1], n - 1 - s, kinds);
    }
  }

  lemma ExtendIsSome(cells: seq<Cell>, c: char, at: nat, kinds: Kinds)
    requires cells != []
    ensures Extend(cells, c, at, kinds) != []
  {
  }

  lemma ExtendShifted(before: seq<Cell>, own: seq<Cell>, c: char, at: nat, s: nat, kinds: Kinds)
    requires own != [] && s <= at
    ensures Extend(before + Shifted(own, s), c, at, kinds) == before + Shifted(Extend(own, c, at - s, kinds), s)
  {
  }

  // Later characters do not change the cells of a prefix.
  lemma {:induction false} CellsOfPrefix(text: string, n: nat, kinds: Kinds)
    requires n <= |text|
    ensures Cells(text, n, kinds) == Cells(text[..n], n, kinds)
    decreases n
  {
    if n > 0 {
      CellsOfPrefix(text, n - 1, kinds);
      CellsOfPrefix(text[..n], n - 1, kinds);
      assert text[..n][..n - 1] == text[..n - 1];
    }
  }

  // The cells up to the cell's start or end are the cells before or through it.
  ghost predicate AlignedAt(text: string, n: nat, kinds: Kinds, cells: seq<Cell>, i: nat)
    requires n <= |text| && i < |cells|
  {
    && cells[i].start < cells[i].end <= n && Opens(text, cells[i].start, kinds)
    && Cells(text, cells[i].start, kinds) == cells[..i] && Cells(text, cells[i].end, kinds) == cells[..i + 1]
  }

  ghost predicate Aligned(text: string, n: nat, kinds: Kinds, cells: seq<Cell>)
    requires n <= |text|
  {
    forall i: nat | i < |cells| :: AlignedAt(text, n, kinds, cells, i)
  }

  // What one more character does to the list of cells.
  lemma ExtendCases(cells: seq<Cell>, c: char, at: nat, kinds: Kinds)
    ensures var more := Extend(cells, c, at, kinds);
      || (more == cells && kinds(c) == Dropped)
      || (|more| == |cells| + 1 && more[..|cells|] == cells && more[|cells|].start == at && more[|cells|].end == at + 1
        && (kinds(c) == Kept || (kinds(c) == Space && (cells == [] || cells[|cells| - 1].c != ' '))))
      || (cells != [] && |more| == |cells| && more[..|cells| - 1] == cells[..|cells| - 1]
        && more[|cells| - 1].start == cells[|cells| - 1].start && more[|cells| - 1].end == at + 1)
  {
  }

  lemma AlignedStep(text: string, n: nat, kinds: Kinds, i: nat)
    requires 0 < n <= |text| && i < |Cells(text, n, kinds)|
    requires Aligned(text, n - 1, kinds, Cells(text, n - 1, kinds))
    ensures AlignedAt(text, n, kinds, Cells(text, n, kinds), i)
  {
    hide Extend, Cells;
    var cells, prior := Cells(text, n, kinds), Cells(text, n - 1, kinds);
    CellsUnfold(text, n, kinds);
    ExtendCases(prior, text[n - 1], n - 1, kinds);
    if i < |prior| {
      assert AlignedAt(text, n - 1, kinds, prior, i);
      assert cells[..i] == prior[..i];
      if i < |prior| - 1 || |cells| > |prior| || cells == prior {
        assert cells[i] == prior[i] && cells[..i + 1] == prior[..i + 1];
      } else {
        assert cells[..i + 1] == cells;
      }
    } else {
      assert cells[..i] == prior && cells[..i + 1] == cells;
    }
  }

  lemma {:induction false} CellsAreAligned(text: string, n: nat, kinds: Kinds)
    requires n <= |text|
    ensures Aligned(text, n, kinds, Cells(text, n, kinds))
  {
    hide Cells, AlignedAt, Opens;
    CellsUnfold(text, n, kinds);
    if n > 0 {
      CellsAreAligned(text, n - 1, kinds);
      forall i: nat | i < |Cells(text, n, kinds)| ensures AlignedAt(text, n, kinds, Cells(text, n, kinds), i) {
        AlignedStep(text, n, kinds, i);
      }
    }
  }

  /** The slice of the text from the start of one cell to the end of another normalises
      to exactly the characters of the cells between. */
  lemma SliceCommutes(text: string, i: nat, j: nat, kinds: Kinds)
    requires ValidKinds(kinds) && i < j <= |Cells(text, |text|, kinds)|
    ensures var cells := Cells(text, |text|, kinds);
      && cells[i].start < cells[j - 1].end <= |text|
      && Normalised(text[cells[i].start..cells[j - 1].end], kinds) == Normalised(text, kinds)[i..j]
  {
    hide Cells, Opens;
    var cells := Cells(text, |text|, kinds);
    CellsAreAligned(text, |text|, kinds);
    CellsAreOrdered(text, |text|, kinds);
    var s, e := cells[i].start, cells[j - 1].end;
    assert AlignedAt(text, |text|, kinds, cells, i) && AlignedAt(text, |text|, kinds, cells, j - 1);
    assert Cells(text, s, kinds) == cells[..i] && Cells(text, e, kinds) == cells[..j];
    assert s < cells[i].end <= e;
    CellsSplit(text, s, e, kinds);
    var own := Cells(text[s..e], e - s, kinds);
    SplitChars(cells, i, j, own, s);
  }

  lemma SplitChars(cells: seq<Cell>, i: nat, j: nat, own: seq<Cell>, s: nat)
    requires i <= j <= |cells| && cells[..j] == cells[..i] + Shifted(own, s)
    ensures Chars(own) == Chars(cells)[i..j]
  {
    assert |cells[..j]| == i + |own|;
    forall k | 0 <= k < |own| ensures own[k].c == cells[i + k].c {
      assert cells[..j][i + k] == Shifted(own, s)[k];
    }
  }

  lemma {:induction false} CellsAreOrdered(text: string, n: nat, kinds: Kinds)
    requires n <= |text|
    ensures forall i | 0 <= i < |Cells(text, n, kinds)| :: Cells(text, n, kinds)[i].end <= n
    ensures forall i, k | 0 <= i <= k < |Cells(text, n, kinds)| ::
      Cells(text, n, kinds)[i].end <= Cells(text, n, kinds)[k].end
  {
    if n > 0 { CellsAreOrdered(text, n - 1, kinds); }
  }

  // ----- normalised text without ranges -----------------------------------------------------

  function ExtendChars(cs: string, c: char, kinds: Kinds): string {
    match kinds(c)
    case Dropped => cs
    case Kept => cs + [c]
    case Space => if cs != "" && cs[|cs| - 1] == ' ' then cs else cs + " "
  }

  function Norm(text: string, n: nat, kinds: Kinds): string
    requires n <= |text|
  {
    if n == 0 then "" else ExtendChars(Norm(text, n - 1, kinds), text[n - 1], kinds)
  }

  lemma {:induction false} NormIsChars(text: string, n: nat, kinds: Kinds)
    requires n <= |text|
    ensures Chars(Cells(text, n, kinds)) == Norm(text, n, kinds)
  {
    if n > 0 { NormIsChars(text, n - 1, kinds); }
  }

  lemma {:induction false} NormGrows(text: string, m: nat, n: nat, kinds: Kinds)
    requires m <= n <= |text|
    ensures Norm(text, m, kinds) <= Norm(text, n, kinds)
  {
    if m < n { NormGrows(text, m, n - 1, kinds); }
  }

  lemma {:induction false} NormOfPrefix(text: string, part: string, n: nat, kinds: Kinds)
    requires n <= |text| && n <= |part| && text[..n] == part[..n]
    ensures Norm(text, n, kinds) == Norm(part, n, kinds)
  {
    if n > 0 {
      assert text[..n][n - 1] == part[..n][n - 1];
      assert text[..n - 1] == text[..n][..n - 1] && part[..n - 1] == part[..n][..n - 1];
      NormOfPrefix(text, part, n - 1, kinds);
    }
  }

  lemma NormUnfolds(text: string, n: nat, kinds: Kinds)
    requires 0 < n <= |text|
    ensures Norm(text, n, kinds) == ExtendChars(Norm(text, n - 1, kinds), text[n - 1], kinds)
  {
  }

  lemma NormOfOneMore(text: string, c: char, kinds: Kinds)
    ensures Norm(text + [c], |text| + 1, kinds) == ExtendChars(Norm(text, |text|, kinds), c, kinds)
  {
    NormOfPrefix(text + [c], text, |text|, kinds);
  }

  lemma NormEndsInSpace(text: string, kinds: Kinds)
    requires ValidKinds(kinds) && text != "" && text[|text| - 1] == ' '
    ensures var n := Norm(text, |text|, kinds); n != "" && n[|n| - 1] == ' '
  {
  }

  lemma FactorStep(spaced: string, c: char, kinds: Kinds)
    requires ValidKinds(kinds)
    ensures var more := ExtendChars(spaced, c, KeepQuotes(kinds));
      Norm(more, |more|, kinds) == ExtendChars(Norm(spaced, |spaced|, kinds), c, kinds)
  {
    hide Norm;
    if kinds(c) == Space {
      NormOfOneMore(spaced, ' ', kinds);
      if spaced != "" && spaced[|spaced| - 1] == ' ' {
        NormEndsInSpace(spaced, kinds);
      }
    } else {
      NormOfOneMore(spaced, c, kinds);
    }
  }

  /** Ignoring double quotes as well only goes further: texts that agree up to white
      space agree up to white space and double quotes. */
  lemma {:induction false} QuotesFactor(text: string, n: nat, kinds: Kinds)
    requires ValidKinds(kinds) && n <= |text|
    ensures var spaced := Norm(text, n, KeepQuotes(kinds));
      Norm(text, n, kinds) == Norm(spaced, |spaced|, kinds)
  {
    if n > 0 {
      QuotesFactor(text, n - 1, kinds);
      NormUnfolds(text, n, kinds);
      NormUnfolds(text, n, KeepQuotes(kinds));
      hide Norm, ExtendChars;
      FactorStep(Norm(text, n - 1, KeepQuotes(kinds)), text[n - 1], kinds);
    } else {
      assert Norm("", 0, kinds) == "";
    }
  }

  // ----- exact occurrences in normalised text -------------------------------------------------

  predicate IsSuffix(a: string, b: string) {
    |a| <= |b| && b[|b| - |a|..] == a
  }

  lemma SuffixStep(a: string, b: string, c: char, kinds: Kinds)
    requires IsSuffix(a, b)
    ensures IsSuffix(ExtendChars(a, c, kinds), ExtendChars(b, c, kinds))
    ensures a != "" ==> |ExtendChars(b, c, kinds)| - |b| == |ExtendChars(a, c, kinds)| - |a|
  {
    if a != "" {
      assert b[|b| - |a|..][|a| - 1] == a[|a| - 1];
    }
  }

  lemma {:induction false} OccurrenceIsSuffix(text: string, quote: string, p: nat, m: nat, kinds: Kinds)
    requires Occurs(text, quote, p) && m <= |quote|
    ensures IsSuffix(Norm(quote, m, kinds), Norm(text, p + m, kinds))
    decreases m
  {
    if m > 0 {
      OccurrenceIsSuffix(text, quote, p, m - 1, kinds);
      assert text[p..p + |quote|][m - 1] == quote[m - 1];
      SuffixStep(Norm(quote, m - 1, kinds), Norm(text, p + m - 1, kinds), quote[m - 1], kinds);
    }
  }

  lemma {:induction false} LengthsKeepStep(text: string, quote: string, p: nat, m: nat, n: nat, kinds: Kinds)
    requires Occurs(text, quote, p) && m <= n <= |quote| && Norm(quote, m, kinds) != ""
    ensures Norm(quote, n, kinds) != ""
    ensures |Norm(text, p + n, kinds)| - |Norm(text, p + m, kinds)| == |Norm(quote, n, kinds)| - |Norm(quote, m, kinds)|
    decreases n
  {
    if m < n {
      LengthsKeepStep(text, quote, p, m, n - 1, kinds);
      OccurrenceIsSuffix(text, quote, p, n - 1, kinds);
      assert text[p..p + |quote|][n - 1] == quote[n - 1];
      SuffixStep(Norm(quote, n - 1, kinds), Norm(text, p + n - 1, kinds), quote[n - 1], kinds);
    }
  }

  // Where an exact occurrence shows up in the normalised text.
  function Landing(text: string, quote: string, p: nat, kinds: Kinds): int
    requires p + |quote| <= |text|
  {
    |Norm(text, p + |quote|, kinds)| - |Norm(quote, |quote|, kinds)|
  }

  lemma SuffixOfPrefixOccurs(whole: string, upTo: string, part: string)
    requires upTo <= whole && IsSuffix(part, upTo)
    ensures Occurs(whole, part, |upTo| - |part|)
  {
    var at := |upTo| - |part|;
    assert whole[..|upTo|] == upTo;
    assert whole[at..|upTo|] == upTo[at..];
  }

  lemma LandingIsOccurrence(text: string, quote: string, p: nat, kinds: Kinds)
    requires Occurs(text, quote, p)
    ensures Landing(text, quote, p, kinds) >= 0
    ensures Occurs(Norm(text, |text|, kinds), Norm(quote, |quote|, kinds), Landing(text, quote, p, kinds))
  {
    hide Norm, Occurs, IsSuffix;
    PlaceInText(text, quote, p);
    OccurrenceIsSuffix(text, quote, p, |quote|, kinds);
    NormGrows(text, p + |quote|, |text|, kinds);
    SuffixOfPrefixOccurs(Norm(text, |text|, kinds), Norm(text, p + |quote|, kinds), Norm(quote, |quote|, kinds));
    SuffixIsShorter(Norm(quote, |quote|, kinds), Norm(text, p + |quote|, kinds));
  }

  lemma PlaceInText(text: string, quote: string, at: nat)
    requires Occurs(text, quote, at)
    ensures at + |quote| <= |text|
  {
  }

  lemma SuffixIsShorter(a: string, b: string)
    requires IsSuffix(a, b)
    ensures |a| <= |b|
  {
  }

  lemma LandingsDiffer(text: string, quote: string, p: nat, r: nat, k: nat, kinds: Kinds)
    requires p < r && r + |quote| <= |text| && Occurs(text, quote, p) && Occurs(text, quote, r)
    requires k < |quote| && kinds(quote[k]) == Kept
    ensures Landing(text, quote, p, kinds) < Landing(text, quote, r, kinds)
  {
    hide Norm, Occurs;
    OneKeptLonger(quote, k, kinds);
    OccurrenceHolds(text, quote, r, k);
    OneKeptLonger(text, r + k, kinds);
    LengthsKeepStep(text, quote, p, k + 1, |quote|, kinds);
    LengthsKeepStep(text, quote, r, k + 1, |quote|, kinds);
    NormGrows(text, p + k + 1, r + k, kinds);
  }

  lemma OccurrenceHolds(text: string, quote: string, at: nat, k: nat)
    requires Occurs(text, quote, at) && k < |quote|
    ensures at + |quote| <= |text| && text[at + k] == quote[k]
  {
    assert text[at..at + |quote|][k] == quote[k];
  }

  lemma OneKeptLonger(text: string, k: nat, kinds: Kinds)
    requires k < |text| && kinds(text[k]) == Kept
    ensures |Norm(text, k + 1, kinds)| == |Norm(text, k, kinds)| + 1
  {
  }

  // ----- the search stages -----------------------------------------------------------------------

  // No character of the normalised quote is visible (quote stage), or there is none at all.
  predicate Blank(cs: string, needInk: bool) {
    if needInk then forall i | 0 <= i < |cs| :: cs[i] == ' ' else cs == ""
  }

  function Relaxed(text: string, quote: string, kinds: Kinds, needInk: bool): Option<(nat, nat)> {
    var cells, wanted := Cells(text, |text|, kinds), Normalised(quote, kinds);
    if Blank(wanted, needInk) then None
    else
      match FindOnly(Chars(cells), wanted)
      case None => None
      case Some(at) => Some((cells[at].start, cells[at + |wanted| - 1].end))
  }

  lemma MatchIsExact(text: string, wanted: string, at: nat, kinds: Kinds)
    requires ValidKinds(kinds) && wanted != "" && Occurs(Normalised(text, kinds), wanted, at)
    ensures var cells := Cells(text, |text|, kinds);
      && at + |wanted| <= |cells| && cells[at].start < cells[at + |wanted| - 1].end <= |text|
      && Normalised(text[cells[at].start..cells[at + |wanted| - 1].end], kinds) == wanted
  {
    hide Cells;
    SliceCommutes(text, at, at + |wanted|, kinds);
  }

  /** A relaxed match is exact about the source: the slice it returns normalises to the
      normalised quote, which occurs only there. */
  lemma RelaxedIsExact(text: string, quote: string, kinds: Kinds, needInk: bool) returns (at: nat)
    requires ValidKinds(kinds) && Relaxed(text, quote, kinds, needInk).Some?
    ensures var found := Relaxed(text, quote, kinds, needInk).value;
      found.0 < found.1 <= |text| && Normalised(text[found.0..found.1], kinds) == Normalised(quote, kinds)
    ensures OccursOnce(Normalised(text, kinds), Normalised(quote, kinds), at)
  {
    hide Cells, OccursOnce;
    var wanted := Normalised(quote, kinds);
    at := FindOnly(Normalised(text, kinds), wanted).value;
    assert wanted != "";
    assert OccursOnce(Normalised(text, kinds), wanted, at);
    MatchIsExact(text, wanted, at, kinds);
  }

  /** Relaxation never resolves ambiguity: a quote with a visible character that occurs
      exactly in two places has no relaxed match. */
  lemma AmbiguityStays(text: string, quote: string, p: nat, r: nat, k: nat, kinds: Kinds, needInk: bool)
    requires Occurs(text, quote, p) && Occurs(text, quote, r) && p < r
    requires k < |quote| && kinds(quote[k]) == Kept
    ensures Relaxed(text, quote, kinds, needInk).None?
  {
    hide Norm, Cells, Blank;
    NormIsChars(text, |text|, kinds);
    NormIsChars(quote, |quote|, kinds);
    LandingIsOccurrence(text, quote, p, kinds);
    LandingIsOccurrence(text, quote, r, kinds);
    LandingsDiffer(text, quote, p, r, k, kinds);
  }

  method FindWhitespaceRange(text: string, quote: string, kinds: Kinds) returns (found: Option<(nat, nat)>)
    requires ValidKinds(kinds)
    ensures found == Relaxed(text, quote, KeepQuotes(kinds), false)
  {
    var cells := NormaliseWhitespace(text, kinds);
    var quoted := NormaliseWhitespace(quote, kinds);
    var wanted := Chars(quoted);
    if wanted == "" {
      return None;
    }
    var at := FindOnly(Chars(cells), wanted);
    found := if at.None? then None else Some((cells[at.value].start, cells[at.value + |wanted| - 1].end));
  }

  method FindQuoteRange(text: string, quote: string, kinds: Kinds) returns (found: Option<(nat, nat)>)
    requires ValidKinds(kinds)
    ensures found == Relaxed(text, quote, kinds, true)
  {
    var cells := NormaliseQuotes(text, kinds);
    var quoted := NormaliseQuotes(quote, kinds);
    var wanted := Chars(quoted);
    if forall i | 0 <= i < |wanted| :: wanted[i] == ' ' {
      return None;
    }
    var at := FindOnly(Chars(cells), wanted);
    found := if at.None? then None else Some((cells[at.value].start, cells[at.value + |wanted| - 1].end));
  }

  datatype Evidence = Evidence(quote: string, offsets: Option<(int, int)>)

  // The quote is empty, or some character of it is not white space.
  ghost predicate NotJustSpace(quote: string, kinds: Kinds) {
    quote == "" || exists k :: 0 <= k < |quote| && kinds(quote[k]) != Space
  }

  ghost predicate OccursTwice(text: string, quote: string) {
    exists p: nat, r: nat :: p < r && Occurs(text, quote, p) && Occurs(text, quote, r)
  }

  // No text with two places for the quote lets a relaxed stage find it.
  ghost predicate StaysAmbiguous(quote: string, kinds: Kinds) {
    forall text | OccursTwice(text, quote) ::
      Relaxed(text, quote, KeepQuotes(kinds), false).None? && Relaxed(text, quote, kinds, true).None?
  }

  lemma {:induction false} NormOfSpaces(text: string, n: nat, kinds: Kinds)
    requires 0 < n <= |text| && forall k | 0 <= k < n :: kinds(text[k]) == Space
    ensures Norm(text, n, kinds) == " "
  {
    if n > 1 { NormOfSpaces(text, n - 1, kinds); }
  }

  lemma {:induction false} NormWithoutInk(text: string, n: nat, kinds: Kinds)
    requires n <= |text| && forall k | 0 <= k < n :: kinds(text[k]) != Kept
    ensures forall i | 0 <= i < |Norm(text, n, kinds)| :: Norm(text, n, kinds)[i] == ' '
  {
    if n > 0 { NormWithoutInk(text, n - 1, kinds); }
  }

  lemma AmbiguousQuoteStays(text: string, quote: string, kinds: Kinds)
    requires NotJustSpace(quote, kinds) && OccursTwice(text, quote)
    ensures Relaxed(text, quote, KeepQuotes(kinds), false).None? && Relaxed(text, quote, kinds, true).None?
  {
    hide Norm, Cells, Occurs, Relaxed;
    if quote == "" {
      NothingIsFound(text, kinds);
    } else {
      var k: nat :| k < |quote| && kinds(quote[k]) != Space;
      var p: nat, r: nat :| p < r && Occurs(text, quote, p) && Occurs(text, quote, r);
      AmbiguityStays(text, quote, p, r, k, KeepQuotes(kinds), false);
      if ink: nat :| ink < |quote| && kinds(quote[ink]) == Kept {
        AmbiguityStays(text, quote, p, r, ink, kinds, true);
      } else {
        NormWithoutInk(quote, |quote|, kinds);
        SpacesAreNotFound(text, quote, kinds);
      }
    }
  }

  lemma NothingIsFound(text: string, kinds: Kinds)
    ensures Relaxed(text, "", KeepQuotes(kinds), false).None? && Relaxed(text, "", kinds, true).None?
  {
    assert Normalised("", kinds) == "" && Normalised("", KeepQuotes(kinds)) == "";
  }

  lemma SpacesAreNotFound(text: string, quote: string, kinds: Kinds)
    requires forall i | 0 <= i < |Norm(quote, |quote|, kinds)| :: Norm(quote, |quote|, kinds)[i] == ' '
    ensures Relaxed(text, quote, kinds, true).None?
  {
    hide Cells, Norm;
    NormIsChars(quote, |quote|, kinds);
  }

  // A quote of white space alone stands twice in its double, and is located there.
  lemma SpacesAreResolved(quote: string, kinds: Kinds)
    requires quote != "" && !NotJustSpace(quote, kinds)
    ensures OccursTwice(quote + quote, quote) && Relaxed(quote + quote, quote, KeepQuotes(kinds), false).Some?
  {
    hide Cells, Norm;
    var text := quote + quote;
    assert Occurs(text, quote, 0) && Occurs(text, quote, |quote|);
    NormOfSpaces(text, |text|, KeepQuotes(kinds));
    NormOfSpaces(quote, |quote|, KeepQuotes(kinds));
    NormIsChars(text, |text|, KeepQuotes(kinds));
    NormIsChars(quote, |quote|, KeepQuotes(kinds));
    assert OccursOnce(" ", " ", 0);
  }

  /** Which quotes stay unlocated whenever they are ambiguous: exactly the empty one and
      those with a character that is not white space. */
  lemma AmbiguityStaysIff(quote: string, kinds: Kinds)
    ensures StaysAmbiguous(quote, kinds) <==> NotJustSpace(quote, kinds)
  {
    hide Relaxed, OccursTwice;
    if NotJustSpace(quote, kinds) {
      forall text | OccursTwice(text, quote)
        ensures Relaxed(text, quote, KeepQuotes(kinds), false).None? && Relaxed(text, quote, kinds, true).None?
      {
        AmbiguousQuoteStays(text, quote, kinds);
      }
    } else {
      SpacesAreResolved(quote, kinds);
    }
  }

  ghost predicate FoundOnce(text: string, part: string) {
    exists at: nat :: OccursOnce(text, part, at)
  }

  // Up to the normalisation, the quote says something and stands in exactly one place.
  ghost predicate FoundRelaxed(text: string, quote: string, kinds: Kinds, needInk: bool) {
    !Blank(Normalised(quote, kinds), needInk) && FoundOnce(Normalised(text, kinds), Normalised(quote, kinds))
  }

  lemma RelaxedFinds(text: string, quote: string, kinds: Kinds, needInk: bool)
    ensures Relaxed(text, quote, kinds, needInk).Some? <==> FoundRelaxed(text, quote, kinds, needInk)
  {
    hide Cells, Find, OccursOnce;
    assert Chars(Cells(text, |text|, kinds)) == Normalised(text, kinds);
  }

  ghost predicate Located(text: string, chunkStart: int, e: Evidence)
    requires e.offsets.Some?
  {
    var (start, end) := (e.offsets.value.0 - chunkStart, e.offsets.value.1 - chunkStart);
    0 <= start <= end <= |text| && text[start..end] == e.quote
  }

  /** Evidence recovery.  Returned offsets always delimit the returned quote; that quote
      is the given one up to white space and double quotes, and up to white space alone
      where that is enough; a quote is located exactly if one of the three stages finds it
      in one place; a quote that occurs exactly once is found as it is; and a quote that is
      not just white space and occurs twice is left unlocated. */
  method Resolve(span: Evidence, text: string, chunkStart: int, kinds: Kinds) returns (resolved: Evidence)
    requires ValidKinds(kinds)
    ensures resolved.offsets.Some? ==> Located(text, chunkStart, resolved)
    ensures resolved.offsets.None? ==> resolved.quote == span.quote
    ensures Normalised(resolved.quote, kinds) == Normalised(span.quote, kinds)
    ensures forall at: nat | OccursOnce(text, span.quote, at) ::
      resolved == Evidence(span.quote, Some((chunkStart + at, chunkStart + at + |span.quote|)))
    ensures NotJustSpace(span.quote, kinds) && OccursTwice(text, span.quote) ==> resolved.offsets.None?
    ensures resolved.offsets.Some? <==>
      FoundOnce(text, span.quote) || FoundRelaxed(text, span.quote, KeepQuotes(kinds), false)
        || FoundRelaxed(text, span.quote, kinds, true)
    ensures FoundOnce(text, span.quote) || FoundRelaxed(text, span.quote, KeepQuotes(kinds), false) ==>
      Normalised(resolved.quote, KeepQuotes(kinds)) == Normalised(span.quote, KeepQuotes(kinds))
  {
    hide Relaxed, Cells, Norm, FoundRelaxed, NotJustSpace, Find;
    RelaxedFinds(text, span.quote, KeepQuotes(kinds), false);
    RelaxedFinds(text, span.quote, kinds, true);
    var exact := FindOnly(text, span.quote);
    if exact.Some? {
      return Evidence(span.quote, Some((chunkStart + exact.value, chunkStart + exact.value + |span.quote|)));
    }
    if NotJustSpace(span.quote, kinds) && OccursTwice(text, span.quote) {
      AmbiguousQuoteStays(text, span.quote, kinds);
    }
    var spaced := FindWhitespaceRange(text, span.quote, kinds);
    if spaced.Some? {
      var (start, end) := spaced.value;
      ghost var at := RelaxedIsExact(text, span.quote, KeepQuotes(kinds), false);
      SameUpToQuotes(text[start..end], span.quote, kinds);
      return Evidence(text[start..end], Some((chunkStart + start, chunkStart + end)));
    }
    var unquoted := FindQuoteRange(text, span.quote, kinds);
    if unquoted.Some? {
      var (start, end) := unquoted.value;
      ghost var at := RelaxedIsExact(text, span.quote, kinds, true);
      return Evidence(text[start..end], Some((chunkStart + start, chunkStart + end)));
    }
    resolved := Evidence(span.quote, None);
  }

  lemma SameUpToQuotes(a: string, b: string, kinds: Kinds)
    requires ValidKinds(kinds) && Normalised(a, KeepQuotes(kinds)) == Normalised(b, KeepQuotes(kinds))
    ensures Normalised(a, kinds) == Normalised(b, kinds)
  {
    hide Norm, Cells;
    NormIsChars(a, |a|, kinds);
    NormIsChars(b, |b|, kinds);
    NormIsChars(a, |a|, KeepQuotes(kinds));
    NormIsChars(b, |b|, KeepQuotes(kinds));
    QuotesFactor(a, |a|, kinds);
    QuotesFactor(b, |b|, kinds);
  }

  /** Without a visible character the rule does not hold: one space occurs twice in two
      spaces, and the white-space stage still locates it. */
  lemma BlankAmbiguityIsResolved(kinds: Kinds)
    requires ValidKinds(kinds)
    ensures OccursTwice("  ", " ") && Relaxed("  ", " ", KeepQuotes(kinds), false) == Some((0, 2))
  {
    assert Occurs("  ", " ", 0) && Occurs("  ", " ", 1);
    assert Cells(" ", 1, KeepQuotes(kinds)) == [Cell(' ', 0, 1)];
    assert Cells("  ", 2, KeepQuotes(kinds)) == [Cell(' ', 0, 2)];
    assert Chars([Cell(' ', 0, 2)]) == " " == Chars([Cell(' ', 0, 1)]);
    assert OccursOnce(" ", " ", 0);
  }
}

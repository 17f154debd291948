/** The regular expressions the element's attribute setters test values against.
    Both list patterns have the shape `^X+(?:,X+)*$` for a character class `X`:
    `\d` for layout, offsets and occupied, `[^,]` for names and seatnames. The
    selected-seat pattern `^\d+$` is a single run `X+`. */
module Patterns {
  import opened Text
  import Decimal

  datatype CharClass = Digit | NotComma

  predicate InClass(k: CharClass, c: char) {
    match k
    case Digit => Decimal.IsDigit(c)
    case NotComma => c != ','
  }

  predicate AllIn(k: CharClass, s: string) {
    forall i :: 0 <= i < |s| ==> InClass(k, s[i])
  }

  /** `^X+$`: a non-empty run of characters of class `k`. */
  predicate IsRun(k: CharClass, s: string) {
    |s| > 0 && AllIn(k, s)
  }

  /** Every field before the last one is a run. */
  predicate RunsBeforeLast(k: CharClass, fields: seq<string>) {
    forall j :: 0 <= j < |fields| - 1 ==> IsRun(k, fields[j])
  }

  /** `^X+(?:,X+)*$`, read through `split(",")`: every comma-separated field is a run. */
  predicate IsList(k: CharClass, s: string) {
    var fields := Split(s, ',');
    forall j :: 0 <= j < |fields| ==> IsRun(k, fields[j])
  }

  /** The language of `X+(?:,X+)*` as the regular expression builds it:
      one or more runs glued together with commas. */
  ghost predicate Generated(k: CharClass, s: string) {
    exists runs: seq<string> ::
      |runs| >= 1 && Join(runs, ',') == s && (forall j :: 0 <= j < |runs| ==> IsRun(k, runs[j]))
  }

  /** A run never contains a comma, for either class. */
  lemma RunHasNoComma(k: CharClass, s: string)
    requires IsRun(k, s)
    ensures ',' !in s
  {
    forall i | 0 <= i < |s|
      ensures s[i] != ','
    {
      assert InClass(k, s[i]);
    }
  }

  /** The split-based reading agrees with the regular expression's language, both ways. */
  lemma ListIsGenerated(k: CharClass, s: string)
    ensures IsList(k, s) <==> Generated(k, s)
  {
    if IsList(k, s) {
      var runs := Split(s, ',');
      JoinOfSplit(s, ',');
    }
    if Generated(k, s) {
      var runs :| |runs| >= 1 && Join(runs, ',') == s && (forall j :: 0 <= j < |runs| ==> IsRun(k, runs[j]));
      forall j | 0 <= j < |runs| {
        RunHasNoComma(k, runs[j]);
      }
      SplitOfJoin(runs, ',');
    }
  }

  /** Round trip for accepted lists: the fields of a joined list of runs are those runs. */
  lemma JoinedRunsAreList(k: CharClass, runs: seq<string>)
    requires |runs| >= 1
    requires forall j :: 0 <= j < |runs| ==> IsRun(k, runs[j])
    ensures IsList(k, Join(runs, ','))
    ensures Split(Join(runs, ','), ',') == runs
  {
    forall j | 0 <= j < |runs| {
      RunHasNoComma(k, runs[j]);
    }
    SplitOfJoin(runs, ',');
  }

  /** `^X+$` strings are `^X+(?:,X+)*$` strings with a single field. */
  lemma RunIsList(k: CharClass, s: string)
    requires IsRun(k, s)
    ensures IsList(k, s)
    ensures Split(s, ',') == [s]
  {
    RunHasNoComma(k, s);
    SplitWithoutSeparator(s, ',');
  }

  /** A regular expression as an error message quotes it. */
  datatype Regexp = ListOf(k: CharClass) | RunOf(k: CharClass)

  /** `re.test(s)`. */
  predicate Matches(re: Regexp, s: string) {
    match re
    case ListOf(k) => IsList(k, s)
    case RunOf(k) => IsRun(k, s)
  }

  /** The scan's view of the fields read so far: none before the last broke the
      class, and the last (still open) field has only characters of the class. */
  predicate ScanGood(k: CharClass, fields: seq<string>) {
    |fields| >= 1 && RunsBeforeLast(k, fields) && AllIn(k, fields[|fields| - 1])
  }

  /** The last field read so far is non-empty. */
  predicate ScanInField(fields: seq<string>) {
    |fields| >= 1 && |fields[|fields| - 1]| > 0
  }

  /** A separator closes the last field: the scan stays good only if that field was a run. */
  lemma ScanSeparator(k: CharClass, before: seq<string>)
    requires |before| >= 1
    ensures !ScanInField(before + [[]])
    ensures ScanGood(k, before + [[]]) <==> ScanGood(k, before) && ScanInField(before)
  {
    var after := before + [[]];
    assert forall j :: 0 <= j < |before| ==> after[j] == before[j];
  }

  /** Any other character extends the last field: the scan stays good only if it is in the class. */
  lemma ScanExtend(k: CharClass, before: seq<string>, c: char)
    requires |before| >= 1
    ensures var after := before[..|before| - 1] + [before[|before| - 1] + [c]];
      && ScanInField(after)
      && (ScanGood(k, after) <==> ScanGood(k, before) && InClass(k, c))
  {
    var last := before[|before| - 1];
    var after := before[..|before| - 1] + [last + [c]];
    assert forall j :: 0 <= j < |before| - 1 ==> after[j] == before[j];
    assert forall j :: 0 <= j < |last| ==> (last + [c])[j] == last[j];
    assert (last + [c])[|last|] == c;
  }

  /** One step of the scan over the prefixes of `s`. */
  lemma ScanAdvance(k: CharClass, s: string, i: nat)
    requires i < |s|
    ensures ScanInField(Split(s[..i + 1], ',')) <==> s[i] != ','
    ensures ScanGood(k, Split(s[..i + 1], ',')) <==>
      ScanGood(k, Split(s[..i], ',')) && (if s[i] == ',' then ScanInField(Split(s[..i], ',')) else InClass(k, s[i]))
  {
    SplitPrefixStep(s, i, ',');
    if s[i] == ',' {
      ScanSeparator(k, Split(s[..i], ','));
    } else {
      ScanExtend(k, Split(s[..i], ','), s[i]);
    }
  }

  /** A list is exactly a scan that ends good and inside a field. */
  lemma ScanEnd(k: CharClass, s: string)
    ensures IsList(k, s) <==> ScanGood(k, Split(s, ',')) && ScanInField(Split(s, ','))
  {
  }

  /** `/^X+(?:,X+)*$/.test(s)` as one left-to-right scan: `good` records that no
      field so far broke the class or was empty, `inField` that the current field
      has at least one character. */
  method MatchList(k: CharClass, s: string) returns (ok: bool)
    ensures ok <==> IsList(k, s)
  {
    var good := true;
    var inField := false;
    var i := 0;
    assert s[..0] == [];
    while i < |s|
      invariant 0 <= i <= |s|
      invariant inField <==> ScanInField(Split(s[..i], ','))
      invariant good <==> ScanGood(k, Split(s[..i], ','))
    {
      ScanAdvance(k, s, i);
      if s[i] == ',' {
        good := good && inField;
        inField := false;
      } else {
        good := good && InClass(k, s[i]);
        inField := true;
      }
      i := i + 1;
    }
    assert s[..i] == s;
    ScanEnd(k, s);
    ok := good && inField;
  }
}

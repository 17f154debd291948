/** The `<seat-booking>` custom element's state and the attribute setters that fill it.
    Every setter validates its string first and throws (here: returns `Err`) before
    assigning anything, so a rejected value leaves the element as it was. */
module SeatBooking {
  import opened Wrappers
  import opened Text
  import opened Decimal
  import opened Patterns

  /** The observed attributes. */
  datatype Attribute =
    | DataLayout | DataNames | DataOffsets | DataOccupied
    | DataSelectedSeat | DataCanOverride | DataSeatnames
  {
    function Name(): string {
      match this
      case DataLayout => "data-layout"
      case DataNames => "data-names"
      case DataOffsets => "data-offsets"
      case DataOccupied => "data-occupied"
      case DataSelectedSeat => "data-selected-seat"
      case DataCanOverride => "data-can-override"
      case DataSeatnames => "data-seatnames"
    }
  }

  /** What a rejecting setter throws: the attribute its message names, the rejected value,
      and the regular expression the message says the value should match. */
  datatype AttributeError = Invalid(attribute: Attribute, value: Option<string>, regexp: Regexp)

  /** The element's fields that the setters write. */
  datatype Element = Element(
    layout: seq<nat>,
    offsets: Option<seq<nat>>,
    names: Option<seq<string>>,
    occupied: seq<string>,
    seatnames: Option<seq<string>>,
    selectedSeat: Option<string>,
    canOverride: bool)

  /** The field initialisers of a fresh element. */
  const Initial: Element := Element([], None, None, [], None, None, false)

  /** The `detail` of the `seat-selected` event. */
  datatype SeatSelected = SeatSelected(seatId: string, isOccupied: bool)

  /** `fields` holds one decimal number per comma-separated field of `s`, in order. */
  ghost predicate NumbersOf(ns: seq<nat>, s: string) {
    var fields := Split(s, ',');
    && |ns| == |fields|
    && forall j :: 0 <= j < |fields| ==> AllDigits(fields[j]) && ns[j] == Value(fields[j])
  }

  /** `tokens` are the comma-separated fields of `s`: non-empty, comma-free, and joined they give `s`. */
  ghost predicate TokensOf(tokens: seq<string>, s: string) {
    && |tokens| >= 1
    && Join(tokens, ',') == s
    && forall j :: 0 <= j < |tokens| ==> IsRun(NotComma, tokens[j])
  }

  /** `occupied` holds, for each comma-separated field of `s` in order, the canonical
      decimal string of the field's number. */
  ghost predicate CanonicalNumbersOf(occupied: seq<string>, s: string) {
    var fields := Split(s, ',');
    && |occupied| == |fields|
    && forall j :: 0 <= j < |fields| ==>
         IsCanonical(occupied[j]) && AllDigits(fields[j]) && Value(occupied[j]) == Value(fields[j])
  }

  /** A digit run is a string of digits. */
  lemma DigitRunIsDigits(s: string)
    ensures IsRun(Digit, s) <==> |s| > 0 && AllDigits(s)
  {
    assert IsRun(Digit, s) ==> forall i :: 0 <= i < |s| ==> InClass(Digit, s[i]);
  }

  /** `.filter(el => el.length > 0)`. */
  function NonEmptyFields(fields: seq<string>): (r: seq<string>)
    ensures |r| <= |fields|
    ensures forall x :: x in r <==> x in fields && |x| > 0
    ensures (forall j :: 0 <= j < |fields| ==> |fields[j]| > 0) ==> r == fields
  {
    if fields == [] then []
    else
      assert fields == [fields[0]] + fields[1..];
      if |fields[0]| > 0 then [fields[0]] + NonEmptyFields(fields[1..])
      else NonEmptyFields(fields[1..])
  }

  /** `.filter(el => !isNaN(el))`, NaN being `None`. */
  function DropNaN(xs: seq<Option<nat>>): (r: seq<nat>)
    ensures |r| <= |xs|
    ensures forall n :: n in r <==> Some(n) in xs
    ensures (forall j :: 0 <= j < |xs| ==> xs[j].Some?) ==>
      |r| == |xs| && forall j :: 0 <= j < |xs| ==> r[j] == xs[j].value
  {
    if xs == [] then []
    else
      assert xs == [xs[0]] + xs[1..];
      if xs[0].Some? then [xs[0].value] + DropNaN(xs[1..])
      else DropNaN(xs[1..])
  }

  /** `.filter(el => el.length > 0)` keeps order: filtering a concatenation filters each part in turn. */
  lemma {:induction false} NonEmptyFieldsAppend(a: seq<string>, b: seq<string>)
    ensures NonEmptyFields(a + b) == NonEmptyFields(a) + NonEmptyFields(b)
  {
    if a == [] {
      assert a + b == b;
    } else {
      assert (a + b)[1..] == a[1..] + b;
      NonEmptyFieldsAppend(a[1..], b);
    }
  }

  /** `.filter(el => !isNaN(el))` keeps order: filtering a concatenation filters each part in turn. */
  lemma {:induction false} DropNaNAppend(a: seq<Option<nat>>, b: seq<Option<nat>>)
    ensures DropNaN(a + b) == DropNaN(a) + DropNaN(b)
  {
    if a == [] {
      assert a + b == b;
    } else {
      assert (a + b)[1..] == a[1..] + b;
      DropNaNAppend(a[1..], b);
    }
  }

  /** The fields of an accepted digit list are non-empty digit strings. */
  lemma DigitListFields(s: string)
    ensures IsList(Digit, s) ==>
      var fields := Split(s, ',');
      forall j :: 0 <= j < |fields| ==> |fields[j]| > 0 && AllDigits(fields[j])
  {
    var fields := Split(s, ',');
    forall j | 0 <= j < |fields| {
      DigitRunIsDigits(fields[j]);
    }
  }

  /** `split(",").filter(non-empty).map(parseInt).filter(not NaN)`, as the number-list setters do it.
      On an accepted list both filters keep everything. */
  function NumberList(s: string): (ns: seq<nat>)
    ensures IsList(Digit, s) ==> NumbersOf(ns, s)
  {
    DigitListFields(s);
    var fields := NonEmptyFields(Split(s, ','));
    DropNaN(seq(|fields|, j requires 0 <= j < |fields| => ParseInt(fields[j])))
  }

  /** `split(",").filter(non-empty)`, as the token-list setters do it. */
  function TokenList(s: string): (tokens: seq<string>)
    ensures IsList(NotComma, s) ==> TokensOf(tokens, s)
  {
    JoinOfSplit(s, ',');
    NonEmptyFields(Split(s, ','))
  }

  /** `layoutAttribute`. */
  function SetLayout(el: Element, value: Option<string>): (r: Result<Element, AttributeError>)
    ensures r.Ok? <==> value.Some? && IsList(Digit, value.value)
    ensures r.Err? ==> r.error == Invalid(DataLayout, value, ListOf(Digit))
    ensures r.Ok? ==> r.value == el.(layout := r.value.layout) && NumbersOf(r.value.layout, value.value)
  {
    if value.None? || !IsList(Digit, value.value) then Err(Invalid(DataLayout, value, ListOf(Digit)))
    else Ok(el.(layout := NumberList(value.value)))
  }

  /** `offsetsAttribute`. */
  function SetOffsets(el: Element, value: Option<string>): (r: Result<Element, AttributeError>)
    ensures r.Ok? <==> value.Some? && IsList(Digit, value.value)
    ensures r.Err? ==> r.error == Invalid(DataOffsets, value, ListOf(Digit))
    ensures r.Ok? ==>
      && r.value == el.(offsets := r.value.offsets)
      && r.value.offsets.Some? && NumbersOf(r.value.offsets.value, value.value)
  {
    if value.None? || !IsList(Digit, value.value) then Err(Invalid(DataOffsets, value, ListOf(Digit)))
    else Ok(el.(offsets := Some(NumberList(value.value))))
  }

  /** `namesAttribute`, with its error naming `data-names` and quoting the token pattern
      it tests (see `SetNamesAsWritten`). */
  function SetNames(el: Element, value: Option<string>): (r: Result<Element, AttributeError>)
    ensures r.Ok? <==> value.Some? && IsList(NotComma, value.value)
    ensures r.Err? ==> r.error == Invalid(DataNames, value, ListOf(NotComma))
    ensures r.Ok? ==>
      && r.value == el.(names := r.value.names)
      && r.value.names.Some? && TokensOf(r.value.names.value, value.value)
  {
    if value.None? || !IsList(NotComma, value.value) then Err(Invalid(DataNames, value, ListOf(NotComma)))
    else Ok(el.(names := Some(TokenList(value.value))))
  }

  /** `namesAttribute` exactly as written: it tests the token pattern, but its error names
      `data-offsets` and quotes the digit pattern. */
  function SetNamesAsWritten(el: Element, value: Option<string>): (r: Result<Element, AttributeError>)
    ensures r.Ok? <==> value.Some? && IsList(NotComma, value.value)
    ensures r.Err? ==> r.error == Invalid(DataOffsets, value, ListOf(Digit))
    ensures r.Ok? ==>
      && r.value == el.(names := r.value.names)
      && r.value.names.Some? && TokensOf(r.value.names.value, value.value)
  {
    if value.None? || !IsList(NotComma, value.value) then Err(Invalid(DataOffsets, value, ListOf(Digit)))
    else Ok(el.(names := Some(TokenList(value.value))))
  }

  /** The as-written names setter blames the wrong attribute: removing `data-names`
      reports an invalid `data-offsets`, while the corrected setter reports `data-names`. */
  lemma NamesErrorNamesOffsets(el: Element)
    ensures SetNamesAsWritten(el, None).Err? && SetNamesAsWritten(el, None).error.attribute == DataOffsets
    ensures SetNames(el, None).Err? && SetNames(el, None).error.attribute == DataNames
    ensures SetNamesAsWritten(el, None) != SetNames(el, None)
  {
  }

  /** `seatnamesAttribute`, with its error quoting the token pattern it tests
      (see `SetSeatnamesAsWritten`). */
  function SetSeatnames(el: Element, value: Option<string>): (r: Result<Element, AttributeError>)
    ensures r.Ok? <==> value.Some? && IsList(NotComma, value.value)
    ensures r.Err? ==> r.error == Invalid(DataSeatnames, value, ListOf(NotComma))
    ensures r.Ok? ==>
      && r.value == el.(seatnames := r.value.seatnames)
      && r.value.seatnames.Some? && TokensOf(r.value.seatnames.value, value.value)
  {
    if value.None? || !IsList(NotComma, value.value) then Err(Invalid(DataSeatnames, value, ListOf(NotComma)))
    else Ok(el.(seatnames := Some(TokenList(value.value))))
  }

  /** `seatnamesAttribute` exactly as written: it tests the token pattern, but its error
      quotes the digit pattern. */
  function SetSeatnamesAsWritten(el: Element, value: Option<string>): (r: Result<Element, AttributeError>)
    ensures r.Ok? <==> value.Some? && IsList(NotComma, value.value)
    ensures r.Err? ==> r.error == Invalid(DataSeatnames, value, ListOf(Digit))
    ensures r.Ok? ==>
      && r.value == el.(seatnames := r.value.seatnames)
      && r.value.seatnames.Some? && TokensOf(r.value.seatnames.value, value.value)
  {
    if value.None? || !IsList(NotComma, value.value) then Err(Invalid(DataSeatnames, value, ListOf(Digit)))
    else Ok(el.(seatnames := Some(TokenList(value.value))))
  }

  /** The as-written token setters accept the same values as the corrected ones and store
      the same lists: they differ only in what their messages say. */
  lemma AsWrittenAgreesOnSuccess(el: Element, value: Option<string>)
    ensures SetNamesAsWritten(el, value).Ok? <==> SetNames(el, value).Ok?
    ensures SetNamesAsWritten(el, value).Ok? ==> SetNamesAsWritten(el, value) == SetNames(el, value)
    ensures SetSeatnamesAsWritten(el, value).Ok? <==> SetSeatnames(el, value).Ok?
    ensures SetSeatnamesAsWritten(el, value).Ok? ==> SetSeatnamesAsWritten(el, value) == SetSeatnames(el, value)
  {
  }

  /** The pattern the token-list messages quote is not the one their setters test:
      "A,B" is a valid names or seatnames value, yet it fails the quoted digit pattern. */
  lemma QuotedPatternRejectsValidNames(el: Element)
    ensures SetNamesAsWritten(el, None).Err? && SetSeatnamesAsWritten(el, None).Err?
    ensures SetNamesAsWritten(el, None).error.regexp == ListOf(Digit)
    ensures SetSeatnamesAsWritten(el, None).error.regexp == ListOf(Digit)
    ensures SetNamesAsWritten(el, Some("A,B")).Ok? && SetSeatnamesAsWritten(el, Some("A,B")).Ok?
    ensures !Matches(ListOf(Digit), "A,B")
    ensures Matches(SetSeatnames(el, None).error.regexp, "A,B")
  {
    var runs := ["A", "B"];
    assert Join(runs, ',') == "A,B" by {
      assert runs[..1] == ["A"];
    }
    assert IsRun(NotComma, runs[0]) && IsRun(NotComma, runs[1]);
    JoinedRunsAreList(NotComma, runs);
    assert !IsRun(Digit, Split("A,B", ',')[0]);
  }

  /** `occupiedAttribute`: numbers as in `SetLayout`, each rendered back with `toString`. */
  function SetOccupied(el: Element, value: Option<string>): (r: Result<Element, AttributeError>)
    ensures r.Ok? <==> value.Some? && IsList(Digit, value.value)
    ensures r.Err? ==> r.error == Invalid(DataOccupied, value, ListOf(Digit))
    ensures r.Ok? ==>
      && r.value == el.(occupied := r.value.occupied)
      && CanonicalNumbersOf(r.value.occupied, value.value)
  {
    if value.None? || !IsList(Digit, value.value) then Err(Invalid(DataOccupied, value, ListOf(Digit)))
    else Ok(el.(occupied := ShowAll(NumberList(value.value))))
  }

  /** `selectedSeatAttribute`: `/^\d+$/` tests the string form of the value, and
      `String(null)` is "null", so removing the attribute throws too. */
  function SetSelectedSeat(el: Element, value: Option<string>): (r: Result<Element, AttributeError>)
    ensures r.Ok? <==> value.Some? && |value.value| > 0 && AllDigits(value.value)
    ensures r.Err? ==> r.error == Invalid(DataSelectedSeat, value, RunOf(Digit))
    ensures r.Ok? ==> r.value == el.(selectedSeat := value)
  {
    DigitRunIsDigits(if value.Some? then value.value else "");
    if value.None? || !IsRun(Digit, value.value) then Err(Invalid(DataSelectedSeat, value, RunOf(Digit)))
    else Ok(el.(selectedSeat := value))
  }

  /** `canOverrideAttribute`: never throws; only the exact string "true" grants override. */
  function SetCanOverride(el: Element, value: Option<string>): (r: Element)
    ensures r == el.(canOverride := r.canOverride)
    ensures r.canOverride <==> value == Some("true")
  {
    el.(canOverride := value == Some("true"))
  }

  /** The observed attribute called `name`, if any: the string comparisons of the dispatch. */
  function AttributeNamed(name: string): (r: Option<Attribute>)
    ensures r.Some? ==> r.value.Name() == name
    ensures r.None? ==> forall a: Attribute :: a.Name() != name
  {
    if name == "data-layout" then Some(DataLayout)
    else if name == "data-names" then Some(DataNames)
    else if name == "data-offsets" then Some(DataOffsets)
    else if name == "data-occupied" then Some(DataOccupied)
    else if name == "data-selected-seat" then Some(DataSelectedSeat)
    else if name == "data-can-override" then Some(DataCanOverride)
    else if name == "data-seatnames" then Some(DataSeatnames)
    else None
  }

  /** `b` differs from `a` at most in the field of `changed`; with `None`, not at all. */
  predicate OnlyFieldOf(changed: Option<Attribute>, a: Element, b: Element) {
    && (changed != Some(DataLayout) ==> b.layout == a.layout)
    && (changed != Some(DataOffsets) ==> b.offsets == a.offsets)
    && (changed != Some(DataNames) ==> b.names == a.names)
    && (changed != Some(DataOccupied) ==> b.occupied == a.occupied)
    && (changed != Some(DataSeatnames) ==> b.seatnames == a.seatnames)
    && (changed != Some(DataSelectedSeat) ==> b.selectedSeat == a.selectedSeat)
    && (changed != Some(DataCanOverride) ==> b.canOverride == a.canOverride)
  }

  /** The name comparisons select each observed attribute by its own name. */
  lemma NamedByName(a: Attribute)
    ensures AttributeNamed(a.Name()) == Some(a)
  {
  }

  /** `attributeChangedCallback`, without the re-render that follows it. It calls the
      setters as written, so a rejected `data-names` value is reported against
      `data-offsets`, and every message quotes a digit pattern. */
  function AttributeChanged(el: Element, attribute: string, newValue: Option<string>): (r: Result<Element, AttributeError>)
    ensures r.Ok? ==> OnlyFieldOf(AttributeNamed(attribute), el, r.value)
    ensures AttributeNamed(attribute).None? ==> r == Ok(el)
    ensures r.Err? ==> AttributeNamed(attribute).Some? && r.error.value == newValue
    ensures r.Err? && AttributeNamed(attribute) != Some(DataNames) ==> AttributeNamed(attribute) == Some(r.error.attribute)
    ensures r.Err? && AttributeNamed(attribute) == Some(DataNames) ==> r.error.attribute == DataOffsets
    ensures r.Err? ==>
      r.error.regexp == if AttributeNamed(attribute) == Some(DataSelectedSeat) then RunOf(Digit) else ListOf(Digit)
    ensures AttributeNamed(attribute) == Some(DataLayout) ==>
      && (r.Ok? <==> newValue.Some? && IsList(Digit, newValue.value))
      && (r.Ok? ==> NumbersOf(r.value.layout, newValue.value))
    ensures AttributeNamed(attribute) == Some(DataOffsets) ==>
      && (r.Ok? <==> newValue.Some? && IsList(Digit, newValue.value))
      && (r.Ok? ==> r.value.offsets.Some? && NumbersOf(r.value.offsets.value, newValue.value))
    ensures AttributeNamed(attribute) == Some(DataNames) ==>
      && (r.Ok? <==> newValue.Some? && IsList(NotComma, newValue.value))
      && (r.Ok? ==> r.value.names.Some? && TokensOf(r.value.names.value, newValue.value))
    ensures AttributeNamed(attribute) == Some(DataSeatnames) ==>
      && (r.Ok? <==> newValue.Some? && IsList(NotComma, newValue.value))
      && (r.Ok? ==> r.value.seatnames.Some? && TokensOf(r.value.seatnames.value, newValue.value))
    ensures AttributeNamed(attribute) == Some(DataOccupied) ==>
      && (r.Ok? <==> newValue.Some? && IsList(Digit, newValue.value))
      && (r.Ok? ==> CanonicalNumbersOf(r.value.occupied, newValue.value))
    ensures AttributeNamed(attribute) == Some(DataSelectedSeat) ==>
      && (r.Ok? <==> newValue.Some? && |newValue.value| > 0 && AllDigits(newValue.value))
      && (r.Ok? ==> r.value.selectedSeat == newValue)
    ensures AttributeNamed(attribute) == Some(DataCanOverride) ==>
      r.Ok? && (r.value.canOverride <==> newValue == Some("true"))
  {
    match AttributeNamed(attribute)
    case Some(DataLayout) => SetLayout(el, newValue)
    case Some(DataNames) => SetNamesAsWritten(el, newValue)
    case Some(DataOffsets) => SetOffsets(el, newValue)
    case Some(DataOccupied) => SetOccupied(el, newValue)
    case Some(DataSelectedSeat) => SetSelectedSeat(el, newValue)
    case Some(DataCanOverride) => Ok(SetCanOverride(el, newValue))
    case Some(DataSeatnames) => SetSeatnamesAsWritten(el, newValue)
    case None => Ok(el)
  }

  /** `xs.indexOf(x)`: the first position of `x`, or -1. */
  function IndexOf(xs: seq<string>, x: string): (r: int)
    ensures -1 <= r < |xs|
    ensures r == -1 <==> x !in xs
    ensures r >= 0 ==> xs[r] == x && x !in xs[..r]
  {
    if xs == [] then -1
    else if xs[0] == x then 0
    else
      var k := IndexOf(xs[1..], x);
      assert xs == [xs[0]] + xs[1..];
      if k == -1 then -1
      else
        assert xs[..k + 1] == [xs[0]] + xs[1..][..k];
        k + 1
  }

  /** `onSeatSelected`: record the seat and report whether it is occupied. */
  function OnSeatSelected(el: Element, seatId: string): (r: (Element, SeatSelected))
    ensures r.0 == el.(selectedSeat := Some(seatId))
    ensures r.1.seatId == seatId
    ensures r.1.isOccupied <==> seatId in el.occupied
  {
    (el.(selectedSeat := Some(seatId)), SeatSelected(seatId, IndexOf(el.occupied, seatId) >= 0))
  }

  /** Each number rendered with `toString`. */
  function ShowAll(ns: seq<nat>): (ss: seq<string>)
    ensures |ss| == |ns|
    ensures forall j :: 0 <= j < |ns| ==> IsCanonical(ss[j]) && Value(ss[j]) == ns[j]
  {
    seq(|ns|, j requires 0 <= j < |ns| => Show(ns[j]))
  }

  /** A non-empty list of canonical numbers, comma-joined, is an accepted digit list whose fields are those strings. */
  lemma {:induction false} CanonicalListIsAccepted(ss: seq<string>)
    requires |ss| >= 1
    requires forall j :: 0 <= j < |ss| ==> IsCanonical(ss[j])
    ensures IsList(Digit, Join(ss, ','))
    ensures Split(Join(ss, ','), ',') == ss
  {
    forall j | 0 <= j < |ss| ensures IsRun(Digit, ss[j]) {
      DigitRunIsDigits(ss[j]);
    }
    JoinedRunsAreList(Digit, ss);
  }

  /** Reading back the comma-joined decimal forms of a non-empty number list gives that list. */
  lemma {:induction false} NumbersOfShown(ns: seq<nat>, ms: seq<nat>)
    requires |ns| >= 1
    requires NumbersOf(ms, Join(ShowAll(ns), ','))
    ensures IsList(Digit, Join(ShowAll(ns), ','))
    ensures ms == ns
  {
    CanonicalListIsAccepted(ShowAll(ns));
  }

  /** Round trip for `data-layout`: writing a non-empty list as comma-joined decimals stores exactly that list. */
  lemma {:induction false} LayoutRoundTrip(el: Element, ns: seq<nat>)
    requires |ns| >= 1
    ensures SetLayout(el, Some(Join(ShowAll(ns), ','))) == Ok(el.(layout := ns))
  {
    var s := Join(ShowAll(ns), ',');
    CanonicalListIsAccepted(ShowAll(ns));
    NumbersOfShown(ns, SetLayout(el, Some(s)).value.layout);
  }

  /** Round trip for `data-offsets`, as for `data-layout`. */
  lemma {:induction false} OffsetsRoundTrip(el: Element, ns: seq<nat>)
    requires |ns| >= 1
    ensures SetOffsets(el, Some(Join(ShowAll(ns), ','))) == Ok(el.(offsets := Some(ns)))
  {
    var s := Join(ShowAll(ns), ',');
    CanonicalListIsAccepted(ShowAll(ns));
    NumbersOfShown(ns, SetOffsets(el, Some(s)).value.offsets.value);
  }

  /** The tokens of a string are determined by it. */
  lemma {:induction false} TokensAreUnique(ts: seq<string>, us: seq<string>, s: string)
    requires TokensOf(ts, s) && TokensOf(us, s)
    ensures ts == us
  {
    JoinedRunsAreList(NotComma, ts);
    JoinedRunsAreList(NotComma, us);
  }

  /** Round trip for `data-names`: non-empty comma-free names, joined with ",", are stored as they were. */
  lemma {:induction false} NamesRoundTrip(el: Element, names: seq<string>)
    requires |names| >= 1
    requires forall j :: 0 <= j < |names| ==> |names[j]| > 0 && ',' !in names[j]
    ensures SetNames(el, Some(Join(names, ','))) == Ok(el.(names := Some(names)))
  {
    var s := Join(names, ',');
    forall j | 0 <= j < |names| ensures IsRun(NotComma, names[j]) {
      assert forall i :: 0 <= i < |names[j]| ==> names[j][i] in names[j];
    }
    JoinedRunsAreList(NotComma, names);
    TokensAreUnique(SetNames(el, Some(s)).value.names.value, names, s);
  }

  /** Round trip for `data-seatnames`, as for `data-names`. */
  lemma {:induction false} SeatnamesRoundTrip(el: Element, seatnames: seq<string>)
    requires |seatnames| >= 1
    requires forall j :: 0 <= j < |seatnames| ==> |seatnames[j]| > 0 && ',' !in seatnames[j]
    ensures SetSeatnames(el, Some(Join(seatnames, ','))) == Ok(el.(seatnames := Some(seatnames)))
  {
    var s := Join(seatnames, ',');
    forall j | 0 <= j < |seatnames| ensures IsRun(NotComma, seatnames[j]) {
      assert forall i :: 0 <= i < |seatnames[j]| ==> seatnames[j][i] in seatnames[j];
    }
    JoinedRunsAreList(NotComma, seatnames);
    TokensAreUnique(SetSeatnames(el, Some(s)).value.seatnames.value, seatnames, s);
  }

  /** Reading back a comma-joined list of canonical strings gives those strings again. */
  lemma {:induction false} CanonicalReadBack(occ: seq<string>, occ': seq<string>)
    requires |occ| >= 1
    requires forall j :: 0 <= j < |occ| ==> IsCanonical(occ[j])
    requires CanonicalNumbersOf(occ', Join(occ, ','))
    ensures occ' == occ
  {
    CanonicalListIsAccepted(occ);
    forall j | 0 <= j < |occ| ensures occ'[j] == occ[j] {
      CanonicalIsUnique(occ'[j], occ[j]);
    }
  }

  /** `data-occupied` is idempotent: feeding the stored list back, comma-joined, stores the same list. */
  lemma {:induction false} OccupiedIdempotent(el: Element, value: Option<string>)
    requires value.Some? && IsList(Digit, value.value)
    ensures var e := SetOccupied(el, value).value;
      SetOccupied(e, Some(Join(e.occupied, ','))) == Ok(e)
  {
    var e := SetOccupied(el, value).value;
    var occ := e.occupied;
    assert CanonicalNumbersOf(occ, value.value);
    assert |occ| >= 1 && forall j :: 0 <= j < |occ| ==> IsCanonical(occ[j]);
    CanonicalListIsAccepted(occ);
    var r := SetOccupied(e, Some(Join(occ, ',')));
    CanonicalReadBack(occ, r.value.occupied);
  }

  /** Some field of the list `s` denotes the same number as `id`. */
  ghost predicate ListsNumber(s: string, id: string) {
    var fields := Split(s, ',');
    AllDigits(id) && exists j :: 0 <= j < |fields| && AllDigits(fields[j]) && Value(fields[j]) == Value(id)
  }

  /** A list of canonical forms holds `id` exactly when `id` is canonical and some field
      of the list it was read from denotes the same number. */
  lemma {:induction false} CanonicalMembership(occ: seq<string>, s: string, id: string)
    requires CanonicalNumbersOf(occ, s)
    ensures id in occ <==> IsCanonical(id) && ListsNumber(s, id)
  {
    var fields := Split(s, ',');
    if id in occ {
      var j :| 0 <= j < |occ| && occ[j] == id;
      assert AllDigits(fields[j]) && Value(fields[j]) == Value(id);
    }
    if IsCanonical(id) && ListsNumber(s, id) {
      var j :| 0 <= j < |fields| && AllDigits(fields[j]) && Value(fields[j]) == Value(id);
      CanonicalIsUnique(occ[j], id);
    }
  }

  /** After `data-occupied` is set, a seat id is occupied exactly when it is the canonical
      decimal form of one of the listed numbers; so "007" never is, even if listed. */
  lemma {:induction false} OccupiedMeansSameNumber(el: Element, value: Option<string>, seatId: string)
    requires value.Some? && IsList(Digit, value.value)
    ensures var e := SetOccupied(el, value).value;
      OnSeatSelected(e, seatId).1.isOccupied <==> IsCanonical(seatId) && ListsNumber(value.value, seatId)
  {
    CanonicalMembership(SetOccupied(el, value).value.occupied, value.value, seatId);
  }

  /** The fields of the list "0,4,007". */
  lemma ExampleFields()
    ensures IsList(Digit, "0,4,007")
    ensures Split("0,4,007", ',') == ["0", "4", "007"]
  {
    var fields := ["0", "4", "007"];
    assert Join(fields, ',') == "0,4,007" by {
      assert Join(fields[..2], ',') == "0,4" by {
        assert fields[..2][..1] == ["0"];
      }
    }
    forall j | 0 <= j < |fields| ensures IsRun(Digit, fields[j]) {
      DigitRunIsDigits(fields[j]);
    }
    JoinedRunsAreList(Digit, fields);
  }

  /** The numbers of the fields of "0,4,007". */
  lemma ExampleValues()
    ensures Value("0") == 0 && Value("4") == 4 && Value("007") == 7 && Value("7") == 7
  {
    assert "007"[..2] == "00";
    assert "00"[..1] == "0";
  }

  /** A list of three strings, known entry by entry. */
  lemma ThreeEntries(xs: seq<string>, a: string, b: string, c: string)
    requires |xs| == 3 && xs[0] == a && xs[1] == b && xs[2] == c
    ensures xs == [a, b, c]
  {
  }

  /** The canonical forms read from "0,4,007". */
  lemma ExampleCanonicalForms(occ: seq<string>)
    requires CanonicalNumbersOf(occ, "0,4,007")
    ensures occ == ["0", "4", "7"]
  {
    ExampleFields();
    ExampleValues();
    assert |occ| == 3;
    CanonicalIsUnique(occ[0], "0");
    CanonicalIsUnique(occ[1], "4");
    CanonicalIsUnique(occ[2], "7");
    ThreeEntries(occ, "0", "4", "7");
  }

  /** The example of a leading-zero occupied id: "0,4,007" stores ["0", "4", "7"]. */
  lemma OccupiedLeadingZeros()
    ensures SetOccupied(Initial, Some("0,4,007")) == Ok(Initial.(occupied := ["0", "4", "7"]))
  {
    ExampleFields();
    var r := SetOccupied(Initial, Some("0,4,007"));
    ExampleCanonicalForms(r.value.occupied);
  }

  /** With ["0", "4", "7"] occupied, seat "7" is occupied and seat "007" is not. */
  lemma LeadingZeroIdIsFree()
    ensures OnSeatSelected(Initial.(occupied := ["0", "4", "7"]), "7").1 == SeatSelected("7", true)
    ensures OnSeatSelected(Initial.(occupied := ["0", "4", "7"]), "007").1 == SeatSelected("007", false)
  {
  }

  /** `onSeatSelected` also writes `data-selected-seat`; for a digit seat id the resulting
      `attributeChangedCallback` stores the same id again and changes nothing. */
  lemma SelectionEchoIsStable(el: Element, seatId: string)
    requires |seatId| > 0 && AllDigits(seatId)
    ensures var selected := OnSeatSelected(el, seatId).0;
      AttributeChanged(selected, "data-selected-seat", Some(seatId)) == Ok(selected)
  {
  }
}

# Seat booking widget: attribute parsing and row placement

This project models the two pieces of pure logic inside the `<seat-booking>` widget:

- **The custom element's attribute setters** (`lib/SeatBooking.ts`). Each `data-*` attribute
  string is tested against a small regular expression. An accepted string is split on commas
  and turned into a list of numbers or strings. A rejected string makes the setter throw
  before it assigns anything. The `seat-selected` handler records the seat and reports
  whether it is occupied.
- **The root component's row bookkeeping** (`RootComponent.updateRows` and `onSeatClicked` in
  `lib/components/root.tsx`). It makes one row placement per layout entry, with a running
  seat-index offset, a common origin and an angle that fans the rows over a quarter circle.
  It also max-accumulates a bounding box.

Modules, one per concern:

| file | module | what it holds |
|---|---|---|
| `wrappers.dfy` | `Wrappers` | `Option` (JavaScript `null`, or NaN from `parseInt`) and `Result` (a throwing setter) |
| `text.dfy` | `Text` | `split(",")` and `join(",")`, and their round trip |
| `decimal.dfy` | `Decimal` | `\d`, `parseInt(s, 10)` and `toString()` over exact naturals |
| `patterns.dfy` | `Patterns` | the patterns `^X+(?:,X+)*$` and `^X+$` for the classes `\d` and `[^,]`, plus a one-pass matcher |
| `seat_booking.dfy` | `SeatBooking` | the element state, the seven setters, the dispatch, `onSeatSelected` |
| `root.dfy` | `Root` | row placements, `updateRows`, `onSeatClicked`, the index-range and angle lemmas |
| `widget.dfy` | `Widget` | a click travelling from the root component back to the element |

A fresh element (`SeatBooking.Initial`, lib/SeatBooking.ts:11-18) has an empty layout and
occupied list, no offsets, names, seatnames or selection, and `canOverride` false.
The root component starts (`Root.InitialState`, lib/components/root.tsx:43-49) with no
selection, no rows and a zero bounding box; `updateRows` replaces all of it.
A setter that throws returns `Err`, and `Err` carries no element. The caller therefore keeps
the element it had, just as the thrown exception leaves the fields unassigned. The `Err`
records what the thrown message says: the attribute it names, the rejected value, and the
regular expression it quotes. `SeatSize`
comes from the seat component, which is not part of this model. It therefore arrives as a
field of `Root.Geometry`, together with `Math.sin` and `Math.cos`. Those two are
uninterpreted function parameters taking degrees.

## Model

| member | source | states |
|---|---|---|
| Text.Split | lib/SeatBooking.ts:26 | `split(",")` always yields at least one field, and no field contains the separator |
| Text.JoinOfSplit | lib/SeatBooking.ts:26 | joining the fields of `split(",")` with the separator reproduces the input, so no character is lost or added |
| Text.SplitOfJoin | lib/SeatBooking.ts:37 | round trip the other way: splitting the join of a non-empty list of separator-free fields gives back exactly those fields |
| Decimal.Show | lib/SeatBooking.ts:70 | `toString()` of a natural number is a canonical digit string (no leading zero unless it is "0") that denotes that number |
| Decimal.ShowOfValue | lib/SeatBooking.ts:68-70 | `parseInt` followed by `toString` is the identity on canonical digit strings |
| Decimal.CanonicalIsUnique | lib/SeatBooking.ts:70 | two canonical digit strings that denote the same number are the same string |
| Decimal.LeadingDigits | lib/SeatBooking.ts:28 | the digits `parseInt` reads: a digit prefix of `s` that stops at the first non-digit |
| Decimal.ParseInt | lib/SeatBooking.ts:28 | `parseInt(s, 10)` is NaN exactly when `s` does not start with a digit, and on a non-empty all-digit string it is the string's decimal value |
| Patterns.IsList | lib/SeatBooking.ts:21 | `/^X+(?:,X+)*$/.test(s)`, read as: every comma-separated field of `s` is a non-empty run of the class (the same test at lines 32, 41, 50 and 61) |
| Patterns.IsRun | lib/SeatBooking.ts:73 | `/^X+$/.test(s)`: `s` is a non-empty run of the class |
| Patterns.RunIsList | lib/SeatBooking.ts:73 | a selected-seat id passing `^\d+$` also passes `^\d+(?:,\d+)*$`, as a single field |
| Patterns.ListIsGenerated | lib/SeatBooking.ts:21 | a string passes `^X+(?:,X+)*$` (all comma fields are non-empty runs of the class) exactly when it is one or more runs glued with commas, in both directions |
| Patterns.JoinedRunsAreList | lib/SeatBooking.ts:32 | joining a non-empty list of runs with commas gives a string the pattern accepts, and its fields are those runs |
| Patterns.MatchList | lib/SeatBooking.ts:50 | a single left-to-right scan keeping two flags accepts exactly the strings of the pattern |
| SeatBooking.NonEmptyFields | lib/SeatBooking.ts:27 | `.filter(el => el.length > 0)` keeps exactly the non-empty fields (a string is in the result iff it is a non-empty input field), and is a no-op when every field is non-empty |
| SeatBooking.NonEmptyFieldsAppend | lib/SeatBooking.ts:27 | the filter keeps order: filtering a concatenation is the concatenation of the filtered parts |
| SeatBooking.DropNaN | lib/SeatBooking.ts:29 | `.filter(el => !isNaN(el))` keeps exactly the numbers (`n` is in the result iff `Some(n)` is an entry), and is a no-op, entry for entry, when no entry is NaN |
| SeatBooking.DropNaNAppend | lib/SeatBooking.ts:29 | the filter keeps order: filtering a concatenation is the concatenation of the filtered parts |
| SeatBooking.NumberList | lib/SeatBooking.ts:26-29 | on an accepted digit list the split/filter/parseInt/filter chain yields one number per comma field, entry i being the value of field i |
| SeatBooking.TokenList | lib/SeatBooking.ts:37-38 | on an accepted token list the split/filter chain yields non-empty comma-free tokens whose comma-join is the input |
| SeatBooking.SetLayout | lib/SeatBooking.ts:20-30 | succeeds exactly when the value is non-null and matches `\d+(,\d+)*`; the error names `data-layout` and quotes the digit-list pattern; on success only `layout` changes and it holds the value of each field in order |
| SeatBooking.SetOffsets | lib/SeatBooking.ts:49-59 | as for layout, for `data-offsets` and the `offsets` field |
| SeatBooking.SetNames | lib/SeatBooking.ts:31-39 | corrected names setter: succeeds exactly when the value is non-null and matches `[^,]+(,[^,]+)*`; its error names `data-names` and quotes that token pattern; on success only `names` changes, to non-empty comma-free tokens whose join is the value |
| SeatBooking.SetNamesAsWritten | lib/SeatBooking.ts:31-39 | the names setter as written: the same acceptance and stored tokens, but its error names `data-offsets` and quotes the digit-list pattern |
| SeatBooking.NamesErrorNamesOffsets | lib/SeatBooking.ts:33-35 | removing `data-names` yields an error about `data-offsets` from the as-written setter, unlike the corrected one |
| SeatBooking.AsWrittenAgreesOnSuccess | lib/SeatBooking.ts:31-48 | the as-written names and seatnames setters accept exactly what the corrected ones accept and store the same lists |
| SeatBooking.QuotedPatternRejectsValidNames | lib/SeatBooking.ts:41-43 | the names and seatnames messages quote the digit-list pattern, yet "A,B" is accepted by both setters and fails that quoted pattern, while it passes the token pattern they test |
| SeatBooking.SetSeatnames | lib/SeatBooking.ts:40-48 | corrected seatnames setter: as for names, for `data-seatnames` and the `seatnames` field, with the error quoting the token pattern |
| SeatBooking.SetSeatnamesAsWritten | lib/SeatBooking.ts:40-48 | the seatnames setter as written: the same acceptance and stored tokens, but its error quotes the digit-list pattern |
| SeatBooking.SetOccupied | lib/SeatBooking.ts:60-71 | succeeds exactly on non-null digit lists (the error names `data-occupied` and quotes the digit-list pattern); on success only `occupied` changes, holding one canonical decimal string per field with the field's value |
| SeatBooking.SetSelectedSeat | lib/SeatBooking.ts:72-79 | succeeds exactly on non-empty all-digit strings (null is tested as "null" and fails), with the error quoting `^\d+$`; it then stores the value verbatim, changing nothing else |
| SeatBooking.SetCanOverride | lib/SeatBooking.ts:80-82 | never throws; `canOverride` becomes true exactly for the string "true", and nothing else changes |
| SeatBooking.AttributeNamed | lib/SeatBooking.ts:136-149 | the dispatch's string comparisons pick the attribute with that exact name, or none when no observed attribute has it |
| SeatBooking.NamedByName | lib/SeatBooking.ts:84-94 | every observed attribute is selected by its own name |
| SeatBooking.AttributeChanged | lib/SeatBooking.ts:135-150 | per attribute: when it succeeds (the layout, offsets and occupied values as digit lists, names and seatnames as token lists, the selected seat as a digit run, can-override always) and what it stores (the fields' numbers, the tokens, the canonical forms, the id, `value === "true"`); only that attribute's field changes; an unknown name changes nothing; an error carries the new value and names the attribute itself except for `data-names`, where it names `data-offsets`, and quotes a digit pattern in every case |
| SeatBooking.IndexOf | lib/SeatBooking.ts:115 | `indexOf` is -1 exactly when the id is absent, and otherwise the first position holding it |
| SeatBooking.OnSeatSelected | lib/SeatBooking.ts:107-119 | the handler sets `selectedSeat` to the id and changes nothing else; the event carries that id and `isOccupied` exactly when the id is in `occupied` |
| SeatBooking.ShowAll | lib/SeatBooking.ts:70 | `.map(el => el.toString())` renders every number canonically and keeps its value |
| SeatBooking.LayoutRoundTrip | lib/SeatBooking.ts:20-30 | writing a non-empty number list as comma-joined decimals into `data-layout` stores exactly that list |
| SeatBooking.OffsetsRoundTrip | lib/SeatBooking.ts:49-59 | the same round trip for `data-offsets` |
| SeatBooking.TokensAreUnique | lib/SeatBooking.ts:37-38 | a token list is determined by the string it was read from |
| SeatBooking.NamesRoundTrip | lib/SeatBooking.ts:31-39 | non-empty comma-free names, joined with ",", are stored by `data-names` exactly as they were |
| SeatBooking.SeatnamesRoundTrip | lib/SeatBooking.ts:40-48 | the same round trip for `data-seatnames` |
| SeatBooking.OccupiedIdempotent | lib/SeatBooking.ts:60-71 | feeding the comma-join of the stored occupied list back into `data-occupied` stores the same list |
| SeatBooking.OccupiedMeansSameNumber | lib/SeatBooking.ts:66-70 | after `data-occupied` is set, a selected id is reported occupied exactly when it is canonical and some listed field denotes the same number |
| SeatBooking.CanonicalMembership | lib/SeatBooking.ts:66-70 | a list of canonical forms read from a digit list holds an id exactly when the id is canonical and some field has its number |
| SeatBooking.ExampleFields | lib/SeatBooking.ts:21-26 | "0,4,007" passes the digit-list pattern and splits into the fields "0", "4" and "007" |
| SeatBooking.OccupiedLeadingZeros | lib/SeatBooking.ts:60-71 | `data-occupied="0,4,007"` stores ["0", "4", "7"]: the round trip through `parseInt` and `toString` drops the leading zeros |
| SeatBooking.LeadingZeroIdIsFree | lib/SeatBooking.ts:107-116 | with ["0", "4", "7"] stored, selecting "7" reports an occupied seat and selecting "007" reports a free one |
| SeatBooking.SelectionEchoIsStable | lib/SeatBooking.ts:107-109 | the `data-selected-seat` write made by the handler stores the same digit id again and leaves the element as the handler left it |
| Root.UpdateRows | lib/components/root.tsx:59-114 | one row per layout entry in order, row i with `indexOffset` twice the sum of the entries before it, `seatGroups = layout[i]`, origin `(-SeatSize, startRadius)` and angle `i` steps of `90 / (n - 1)`; both maxima are the max of 0 and the folded terms; the selection is copied from the props |
| Root.StartRadius | lib/components/root.tsx:67 | `Math.floor(5.5 * SeatSize)` |
| Root.DeltaAngle | lib/components/root.tsx:62 | `90 / (layout.length - 1)`, undefined for one row |
| Root.WidthCandidates | lib/components/root.tsx:73-84 | the two values one row folds into `maxWidth`, in source order |
| Root.HeightCandidates | lib/components/root.tsx:86-97 | the two values one row folds into `maxHeight`, in source order |
| Root.RowStep | lib/components/root.tsx:67-107 | one loop iteration of `updateRows` (place the next row, fold its width and height terms) keeps every row placed so far correctly placed and both maxima running maxima |
| Root.FoldWidth | lib/components/root.tsx:73-84 | folding a row's two width terms with `Math.max` keeps `maxWidth` the running max over all rows so far |
| Root.FoldHeight | lib/components/root.tsx:86-97 | folding a row's two height terms with `Math.max` keeps `maxHeight` the running max over all rows so far |
| Root.RunningMaxIsUnique | lib/components/root.tsx:64-97 | a value that is non-negative, at least every term, and either 0 or a term is unique |
| Root.OffsetsAreContiguous | lib/components/root.tsx:69-106 | row 0 starts at seat index 0 and every later row starts where the previous row's `2 * seatGroups` indices end |
| Root.RangesAreDisjoint | lib/components/root.tsx:99-106 | the seat-index range of a row ends no later than any later row's range begins |
| Root.RangesCover | lib/components/root.tsx:99-106 | every seat index below twice the total table count lies in some row's range |
| Root.RangesEnd | lib/components/root.tsx:106 | the last row's range ends at twice the total table count |
| Root.SeatIndexIsUnique | lib/components/root.tsx:100-106 | `indexOffset + position` within a row's range identifies a single row and position |
| Root.AnglesFanOut | lib/components/root.tsx:62-104 | with two or more rows, row i sits at `90 * i / (n - 1)` degrees, row 0 at 0, the last row at 90, and angles strictly increase |
| Root.GeometryIsDetermined | lib/components/root.tsx:59-114 | any two results of `updateRows` for the same layout and geometry have the same rows and bounding box, whatever the occupied list and the selection |
| Root.TwoRowExample | lib/components/root.tsx:59-107 | layout [2, 3] gives row 0 at 0 degrees with index offset 0 and row 1 at 90 degrees with index offset 4 |
| Root.OnSeatClicked | lib/components/root.tsx:116-121 | a click sets `selectedId` to the id, keeps the rows and bounding box, and passes the same id to `onSeatSelected` |
| Widget.PropsOf | lib/SeatBooking.ts:122-131 | the props `renderChildren` hands to the root component, as far as `updateRows` reads them |
| Widget.UnreadAttributesKeepProps | lib/SeatBooking.ts:122-131 | an accepted change of `data-names`, `data-seatnames`, `data-offsets` or `data-can-override` leaves the props `updateRows` reads unchanged |
| Widget.ClickSelectsSeat | lib/components/root.tsx:116-121 | a click selects the seat in both the root component and the element; the event reports that id and whether it is occupied; the next props carry the selection and the same layout |

## Left out

- DOM and custom-element lifecycle: `connectedCallback`, the shadow root, `renderChildren`/`render`, `canRender`, the re-render after an attribute change, and the `CustomEvent` dispatch. The event is returned as a `SeatSelected` record.
- `setAttribute` in `onSeatSelected` runs `attributeChangedCallback` again. `SeatBooking.SelectionEchoIsStable` shows that this changes nothing for a digit id. For an id that is not all digits the echoed setter would throw after `selectedSeat` was already assigned. That path is not modelled, because seat ids are built from numbers.
- JSX/SVG output, CSS `require` and styles: presentation only.
- Root.UpdateRows: requires that the layout does not have exactly one row. With one row the source computes `90 / 0`, which gives an infinite step and a NaN angle, and the NaN then spreads into both maxima. The code defines no fallback for this case, so the model defines none either.
- Root.UpdateRows: the numeric values of `Math.sin`/`Math.cos` and all floating-point rounding are not modelled. Real arithmetic is exact, and `Math.max` is taken without its NaN behaviour. Only the max-accumulation structure is proved about the bounding box.
- Decimal.Show: `Number.prototype.toString` switches to exponent notation from 1e21 on (1000000000000000000000 renders as "1e+21"). The model renders every natural number in plain decimal digits, because numbers are exact naturals here.
- SeatBooking.ShowAll: inherits `Decimal.Show`'s plain-digit rendering, so exponent notation for numbers from 1e21 on is not modelled.
- SeatBooking.OccupiedIdempotent: holds only for numbers below 1e21 in the source. Above that, the stored "1e+21" form fails the digit-list pattern when fed back. The model has no exponent notation, so it does not show this.
- Decimal.ParseInt: leading whitespace and a sign are not modelled, since the patterns exclude both. Digit strings beyond 2^53, where `parseInt` loses precision, are modelled as exact naturals.
- SeatBooking.AttributeChanged: the source types the attribute as one of the seven observed names. The model accepts any string and treats unknown names as a no-op, which the if-chain does.
- `componentWillMount` and `componentWillReceiveProps` only call `updateRows`, so they have no model of their own.
- Per-seat id formation, the occupied/override click blocking and row labels live in `rowOfTables` and `seat`. Those files are not part of this model, and neither is the value of `SeatSize`. Radius offsets, names, seatnames and `canOverride` are passed to the root component but never read by it (its props interface declares only the layout, the occupied list, the selection and the callback), so the model ignores them.
- The code stores `seatnames` as a list of strings, not as a map from seat id to name, and `occupied` as a list, not as a set; the model does the same. Its `updateRows` does not use per-row radius offsets, so neither does the model.
- `webpack.config.js`: build configuration only.

## Findings

| source | as written | input that shows it | evidently intended | confidence | as-written member | corrected member |
|---|---|---|---|---|---|---|
| lib/SeatBooking.ts:33-35 | the names setter's error message says `data-offsets` | removing `data-names`, so the value is null | the message names `data-names` | high; not executed | SeatBooking.SetNamesAsWritten (shown by SeatBooking.NamesErrorNamesOffsets) | SeatBooking.SetNames |
| lib/SeatBooking.ts:41-43 | the names and seatnames messages (lines 34 and 43) quote the digit pattern `^\d+(?:\,\d+)*$`, although both setters test the token pattern | removing `data-seatnames`: the message asks for digits, yet "A,B" is a valid value | the messages quote `^[^,]+(?:\,[^,]+)*$` | high; not executed | SeatBooking.SetSeatnamesAsWritten (shown by SeatBooking.QuotedPatternRejectsValidNames) | SeatBooking.SetSeatnames |

`SeatBooking.AttributeChanged` calls the setters as written, so it reports both message
defects exactly as the element does. The round-trip lemmas use the corrected setters.
`SeatBooking.AsWrittenAgreesOnSuccess` shows that the two versions accept the same values and
store the same lists, so the corrections change only what an error message says.

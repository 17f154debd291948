/** `String.prototype.split` and `Array.prototype.join` on a one-character separator. */
module Text {

  /** `fields.join(sep)`: the fields with `sep` between consecutive ones. */
  function Join(fields: seq<string>, sep: char): string
  {
    if |fields| == 0 then ""
    else if |fields| == 1 then fields[0]
    else Join(fields[..|fields| - 1], sep) + [sep] + fields[|fields| - 1]
  }

  /** `s.split(sep)`: always at least one field, and no field contains `sep`. */
  function Split(s: string, sep: char): (fields: seq<string>)
    ensures |fields| >= 1
    ensures forall i :: 0 <= i < |fields| ==> sep !in fields[i]
  {
    if s == [] then [[]]
    else
      var init := Split(s[..|s| - 1], sep);
      var c := s[|s| - 1];
      if c == sep then init + [[]]
      else init[..|init| - 1] + [init[|init| - 1] + [c]]
  }

  /** Reading one more character: a separator opens a new empty field, any other
      character extends the last field. */
  lemma SplitSnoc(t: string, c: char, sep: char)
    ensures c == sep ==> Split(t + [c], sep) == Split(t, sep) + [[]]
    ensures c != sep ==>
      var fields := Split(t, sep);
      Split(t + [c], sep) == fields[..|fields| - 1] + [fields[|fields| - 1] + [c]]
  {
    assert (t + [c])[..|t|] == t;
  }

  /** Joining one more field appends the separator and that field. */
  lemma JoinSnoc(fields: seq<string>, f: string, sep: char)
    requires |fields| >= 1
    ensures Join(fields + [f], sep) == Join(fields, sep) + [sep] + f
  {
    assert (fields + [f])[..|fields|] == fields;
  }

  /** Extending the last field extends the join by the same characters. */
  lemma JoinExtendLast(fields: seq<string>, c: char, sep: char)
    requires |fields| >= 1
    ensures Join(fields[..|fields| - 1] + [fields[|fields| - 1] + [c]], sep) == Join(fields, sep) + [c]
  {
    var prefix := fields[..|fields| - 1];
    var last := fields[|fields| - 1];
    if |fields| > 1 {
      JoinSnoc(prefix, last + [c], sep);
      assert fields == prefix + [last];
      JoinSnoc(prefix, last, sep);
    }
  }

  /** Round trip: joining the fields of `s` with the separator gives `s` back. */
  lemma {:induction false} JoinOfSplit(s: string, sep: char)
    ensures Join(Split(s, sep), sep) == s
    decreases |s|
  {
    if s != [] {
      var t := s[..|s| - 1];
      var c := s[|s| - 1];
      assert s == t + [c];
      JoinOfSplit(t, sep);
      SplitSnoc(t, c, sep);
      if c == sep {
        JoinSnoc(Split(t, sep), [], sep);
      } else {
        JoinExtendLast(Split(t, sep), c, sep);
      }
    }
  }

  /** `SplitSnoc` for the prefixes of one string. */
  lemma SplitPrefixStep(s: string, i: nat, sep: char)
    requires i < |s|
    ensures s[i] == sep ==> Split(s[..i + 1], sep) == Split(s[..i], sep) + [[]]
    ensures s[i] != sep ==>
      var fields := Split(s[..i], sep);
      Split(s[..i + 1], sep) == fields[..|fields| - 1] + [fields[|fields| - 1] + [s[i]]]
  {
    assert s[..i + 1] == s[..i] + [s[i]];
    SplitSnoc(s[..i], s[i], sep);
  }

  /** A string without the separator is a single field. */
  lemma {:induction false} SplitWithoutSeparator(s: string, sep: char)
    requires sep !in s
    ensures Split(s, sep) == [s]
    decreases |s|
  {
    if s != [] {
      assert sep !in s[..|s| - 1];
      SplitWithoutSeparator(s[..|s| - 1], sep);
      assert s == s[..|s| - 1] + [s[|s| - 1]];
    }
  }

  /** Appending a separator and a separator-free tail appends one field. */
  lemma {:induction false} SplitAfterSeparator(a: string, b: string, sep: char)
    requires sep !in b
    ensures Split(a + [sep] + b, sep) == Split(a, sep) + [b]
    decreases |b|
  {
    if b == [] {
      assert a + [sep] + b == a + [sep];
      SplitSnoc(a, sep, sep);
    } else {
      var b' := b[..|b| - 1];
      var c := b[|b| - 1];
      assert sep !in b';
      SplitAfterSeparator(a, b', sep);
      var fields := Split(a + [sep] + b', sep);
      assert fields == Split(a, sep) + [b'];
      SplitSnoc(a + [sep] + b', c, sep);
      assert a + [sep] + b == (a + [sep] + b') + [c];
      assert fields[..|fields| - 1] == Split(a, sep);
      assert b == b' + [c];
    }
  }

  /** Round trip: splitting a join of separator-free fields gives the fields back. */
  lemma {:induction false} SplitOfJoin(fields: seq<string>, sep: char)
    requires |fields| >= 1
    requires forall i :: 0 <= i < |fields| ==> sep !in fields[i]
    ensures Split(Join(fields, sep), sep) == fields
    decreases |fields|
  {
    if |fields| == 1 {
      SplitWithoutSeparator(fields[0], sep);
    } else {
      var init := fields[..|fields| - 1];
      var last := fields[|fields| - 1];
      assert fields == init + [last];
      assert forall i :: 0 <= i < |init| ==> init[i] == fields[i];
      SplitOfJoin(init, sep);
      JoinSnoc(init, last, sep);
      SplitAfterSeparator(Join(init, sep), last, sep);
    }
  }
}

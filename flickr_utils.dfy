/** Helpers for reading responses of the Flickr API
 *  (src/flickypedia/apis/flickr/utils.py and its earlier copy
 *  src/flickypedia/apis/flickr_photos_api/utils.py, which agree on the
 *  lookup tables and `parse_sizes`).
 *
 *  An XML element is its text and attributes; the path search of
 *  `ElementTree.find` is an oracle. */
module FlickrUtils {
  import opened Wrappers
  import opened Text

  // ---------------------------------------------------------------------
  // Lookup tables

  /** `TakenGranularity`, as the strings "second", "month", "year", "circa". */
  datatype TakenGranularity = Second | Month | Year | Circa

  /** The numeric code Flickr uses for each granularity. */
  function GranularityCode(g: TakenGranularity): string {
    match g
    case Second => "0"
    case Month => "4"
    case Year => "6"
    case Circa => "8"
  }

  /** `parse_date_taken_granularity`: an unknown code raises `ValueError`. */
  function ParseDateTakenGranularity(code: string): (r: Result<TakenGranularity>)
    ensures r.Err? <==> code != "0" && code != "4" && code != "6" && code != "8"
    ensures r.Err? ==> r.error == ValueError
    ensures r.Ok? ==> GranularityCode(r.value) == code
  {
    if code == "0" then Ok(Second)
    else if code == "4" then Ok(Month)
    else if code == "6" then Ok(Year)
    else if code == "8" then Ok(Circa)
    else Err(ValueError)
  }

  /** Every granularity is read back from its code. */
  lemma GranularityRoundTrip(g: TakenGranularity)
    ensures ParseDateTakenGranularity(GranularityCode(g)) == Ok(g)
  {
  }

  /** `SafetyLevel`, as the strings "safe", "moderate", "restricted". */
  datatype SafetyLevel = Safe | Moderate | Restricted

  function SafetyCode(s: SafetyLevel): string {
    match s
    case Safe => "0"
    case Moderate => "1"
    case Restricted => "2"
  }

  /** `parse_safety_level`: an unknown code raises `ValueError`. */
  function ParseSafetyLevel(code: string): (r: Result<SafetyLevel>)
    ensures r.Err? <==> code != "0" && code != "1" && code != "2"
    ensures r.Err? ==> r.error == ValueError
    ensures r.Ok? ==> SafetyCode(r.value) == code
  {
    if code == "0" then Ok(Safe)
    else if code == "1" then Ok(Moderate)
    else if code == "2" then Ok(Restricted)
    else Err(ValueError)
  }

  lemma SafetyRoundTrip(s: SafetyLevel)
    ensures ParseSafetyLevel(SafetyCode(s)) == Ok(s)
  {
  }

  // ---------------------------------------------------------------------
  // parse_sizes

  /** Decimal digits in groups joined by single underscores, the body of
   *  a literal `int()` reads: a digit, then the end, more of the group,
   *  or an underscore and the next group. */
  predicate IsDigitGroups(b: string)
    decreases |b|
  {
    && b != [] && IsDigit(b[0])
    && (|| |b| == 1
        || (IsDigit(b[1]) && IsDigitGroups(b[1..]))
        || (b[1] == '_' && IsDigitGroups(b[2..])))
  }

  /** The characters of `b` other than underscores. */
  function DigitsOnly(b: string): (d: string)
    ensures |d| <= |b|
  {
    if b == [] then []
    else (if b[0] == '_' then [] else [b[0]]) + DigitsOnly(b[1..])
  }

  /** The digits of a literal's body are digits, and there is one at
   *  least. */
  lemma {:induction false} GroupsDigits(b: string)
    requires IsDigitGroups(b)
    ensures AllDigits(DigitsOnly(b)) && DigitsOnly(b) != []
  {
    if |b| > 1 {
      if IsDigit(b[1]) {
        GroupsDigits(b[1..]);
      } else {
        GroupsDigits(b[2..]);
        assert DigitsOnly(b[1..]) == DigitsOnly(b[2..]) by { assert b[1..][1..] == b[2..]; }
      }
    }
  }

  /** `int(s)`: white space around, an optional sign, then decimal digits
   *  in groups joined by single underscores; anything else raises
   *  `ValueError`. */
  function ParseInt(s: string): (r: Result<int>)
    ensures r.Err? ==> r.error == ValueError
    ensures AllDigits(s) && s != [] ==> r == Ok(DigitsToNat(s))
  {
    PlainDigits(s);
    ParseLiteral(Strip(s))
  }

  /** `int()` of a literal already stripped of white space. */
  function ParseLiteral(t: string): (r: Result<int>)
    ensures r.Err? ==> r.error == ValueError
  {
    var body := Unsigned(t);
    if !IsDigitGroups(body) then Err(ValueError)
    else
      GroupsDigits(body);
      var n := DigitsToNat(DigitsOnly(body));
      Ok(if t[0] == '-' then 0 - n else n)
  }

  /** A literal without its sign. */
  function Unsigned(t: string): string {
    if t != [] && (t[0] == '+' || t[0] == '-') then t[1..] else t
  }

  /** Plain digits are one group, their own digits. */
  lemma {:induction false} DigitsAreGroups(s: string)
    requires AllDigits(s) && s != []
    ensures IsDigitGroups(s) && DigitsOnly(s) == s
  {
    if |s| > 1 {
      DigitsAreGroups(s[1..]);
    }
  }

  /** Plain digits are their own literal: nothing to strip, no sign, no
   *  underscore. */
  lemma PlainDigits(s: string)
    ensures AllDigits(s) && s != [] ==>
      Strip(s) == s && Unsigned(s) == s && IsDigitGroups(s) && DigitsOnly(s) == s
  {
    if AllDigits(s) && s != [] {
      assert !IsSpace(s[0]) && StripLeft(s) == s;
      assert !IsSpace(s[|s| - 1]) && StripRight(s) == s;
      DigitsAreGroups(s);
    }
  }

  /** `int()` succeeds exactly on a literal that, once stripped of white
   *  space and its sign, is digits in groups joined by single
   *  underscores. */
  lemma ParseIntAccepts(s: string)
    ensures ParseInt(s).Ok? <==> IsDigitGroups(Unsigned(Strip(s)))
  {
  }

  /** Leading white space is stripped up to the first other character. */
  lemma {:induction false} StripLeftSpaces(w: string, x: string)
    requires forall i :: 0 <= i < |w| ==> IsSpace(w[i])
    requires x == [] || !IsSpace(x[0])
    ensures StripLeft(w + x) == x
  {
    if w != [] {
      assert (w + x)[1..] == w[1..] + x;
      StripLeftSpaces(w[1..], x);
    }
  }

  /** Trailing white space is stripped back to the last other character. */
  lemma {:induction false} StripRightSpaces(x: string, w: string)
    requires forall i :: 0 <= i < |w| ==> IsSpace(w[i])
    requires x == [] || !IsSpace(x[|x| - 1])
    ensures StripRight(x + w) == x
  {
    if w != [] {
      assert (x + w)[..|x + w| - 1] == x + w[..|w| - 1];
      StripRightSpaces(x, w[..|w| - 1]);
    } else {
      assert x + w == x;
    }
  }

  /** `str.strip()` removes exactly the white space around a string whose
   *  ends are not white space. */
  lemma StripAround(w1: string, x: string, w2: string)
    requires forall i :: 0 <= i < |w1| ==> IsSpace(w1[i])
    requires forall i :: 0 <= i < |w2| ==> IsSpace(w2[i])
    requires x != [] && !IsSpace(x[0]) && !IsSpace(x[|x| - 1])
    ensures Strip(w1 + x + w2) == x
  {
    assert w1 + x + w2 == w1 + (x + w2);
    StripLeftSpaces(w1, x + w2);
    StripRightSpaces(x, w2);
  }

  /** `int()` ignores white space around the literal. */
  lemma ParseIntIgnoresSpace(w1: string, x: string, w2: string)
    requires forall i :: 0 <= i < |w1| ==> IsSpace(w1[i])
    requires forall i :: 0 <= i < |w2| ==> IsSpace(w2[i])
    requires x != [] && !IsSpace(x[0]) && !IsSpace(x[|x| - 1])
    ensures ParseInt(w1 + x + w2) == ParseInt(x)
  {
    StripAround(w1, x, w2);
    StripAround([], x, []);
    assert [] + x + [] == x;
  }

  /** `int()` reads a sign before the digits. */
  lemma ParseIntSigned(d: string)
    requires AllDigits(d) && d != []
    ensures ParseInt("-" + d) == Ok(0 - DigitsToNat(d))
    ensures ParseInt("+" + d) == Ok(DigitsToNat(d))
  {
    DigitsAreGroups(d);
    SignedStrip('-', d);
    SignedStrip('+', d);
    SignedLiteral('-', d);
    SignedLiteral('+', d);
  }

  /** A sign and digits need no stripping. */
  lemma SignedStrip(sign: char, d: string)
    requires sign == '-' || sign == '+'
    requires AllDigits(d) && d != []
    ensures Strip([sign] + d) == [sign] + d
  {
    var t := [sign] + d;
    assert !IsSpace(t[0]) && t[|t| - 1] == d[|d| - 1] && !IsSpace(d[|d| - 1]);
    StripAround([], t, []);
    assert [] + t + [] == t;
  }

  /** The value of a sign and digits. */
  lemma SignedLiteral(sign: char, d: string)
    requires sign == '-' || sign == '+'
    requires AllDigits(d) && IsDigitGroups(d) && DigitsOnly(d) == d
    ensures ParseLiteral([sign] + d) == Ok(if sign == '-' then 0 - DigitsToNat(d) else DigitsToNat(d))
  {
    var t := [sign] + d;
    assert t[0] == sign && t[1..] == d;
    LiteralValue(t, d);
  }

  /** The value of a literal from that of its unsigned body. */
  lemma LiteralValue(t: string, d: string)
    requires t != [] && Unsigned(t) == d
    requires AllDigits(d) && IsDigitGroups(d) && DigitsOnly(d) == d
    ensures ParseLiteral(t) == Ok(if t[0] == '-' then 0 - DigitsToNat(d) else DigitsToNat(d))
  {
  }

  /** Dropping underscores distributes over concatenation. */
  lemma {:induction false} DigitsOnlyAppend(a: string, b: string)
    ensures DigitsOnly(a + b) == DigitsOnly(a) + DigitsOnly(b)
  {
    if a != [] {
      assert (a + b)[1..] == a[1..] + b;
      DigitsOnlyAppend(a[1..], b);
    } else {
      assert a + b == b;
    }
  }

  /** Two groups of digits joined by one underscore are a literal's body. */
  lemma {:induction false} UnderscoreGroups(a: string, b: string)
    requires AllDigits(a) && a != [] && AllDigits(b) && b != []
    ensures IsDigitGroups(a + "_" + b)
  {
    var x := a + "_" + b;
    if |a| == 1 {
      assert x[1] == '_' && x[2..] == b;
      DigitsAreGroups(b);
    } else {
      assert x[1] == a[1] && x[1..] == a[1..] + "_" + b;
      UnderscoreGroups(a[1..], b);
    }
  }

  /** ... whose digits are those of both groups. */
  lemma UnderscoreDigits(a: string, b: string)
    requires AllDigits(a) && a != [] && AllDigits(b) && b != []
    ensures DigitsOnly(a + "_" + b) == a + b
  {
    DigitsAreGroups(a);
    DigitsAreGroups(b);
    DigitsOnlyAppend(a + "_", b);
    DigitsOnlyAppend(a, "_");
    assert DigitsOnly("_") == [] by { assert "_"[1..] == []; }
    assert a + [] == a;
  }

  /** The value `int()` gives a literal that needs no stripping and has
   *  no sign, from what holds of it. */
  lemma UnsignedLiteral(x: string, d: string)
    requires x != [] && !IsSpace(x[0]) && !IsSpace(x[|x| - 1]) && x[0] != '+' && x[0] != '-'
    requires IsDigitGroups(x) ==> DigitsOnly(x) == d && AllDigits(d)
    ensures ParseInt(x) == if IsDigitGroups(x) then Ok(DigitsToNat(d)) else Err(ValueError)
  {
    StripAround([], x, []);
    assert [] + x + [] == x;
    assert Unsigned(x) == x;
  }

  /** `int()` reads two groups of digits joined by one underscore as one
   *  number. */
  lemma ParseIntUnderscore(a: string, b: string)
    requires AllDigits(a) && a != [] && AllDigits(b) && b != []
    ensures ParseInt(a + "_" + b) == Ok(DigitsToNat(a + b))
  {
    var x := a + "_" + b;
    assert x[0] == a[0] && x[|x| - 1] == b[|b| - 1];
    UnderscoreGroups(a, b);
    UnderscoreDigits(a, b);
    UnsignedLiteral(x, a + b);
  }

  /** Two underscores in a row end a literal's body. */
  lemma {:induction false} NoDoubleUnderscore(a: string, b: string)
    requires AllDigits(a) && a != []
    ensures !IsDigitGroups(a + "__" + b)
  {
    var x := a + "__" + b;
    if |a| == 1 {
      assert x[1] == '_' && !IsDigit(x[1]);
      assert x[2..][0] == '_';
    } else {
      assert x[1] == a[1] && x[1..] == a[1..] + "__" + b;
      NoDoubleUnderscore(a[1..], b);
    }
  }

  /** `int()` refuses two underscores in a row. */
  lemma ParseIntDoubleUnderscore(a: string, b: string)
    requires AllDigits(a) && a != [] && AllDigits(b) && b != []
    ensures ParseInt(a + "__" + b) == Err(ValueError)
  {
    var x := a + "__" + b;
    assert x[0] == a[0] && x[|x| - 1] == b[|b| - 1];
    NoDoubleUnderscore(a, b);
    UnsignedLiteral(x, []);
  }

  /** The attributes of a `<photo>` element. */
  type Attributes = map<string, string>

  /** `Size`: one rendition of a photo. */
  datatype Size = Size(sizeLabel: string, width: int, height: int, media: string, source: string)

  /** The suffixes of the size attributes and their labels, in the order
   *  they are tried. */
  const SizeSuffixes: seq<(string, string)> := [
    ("sq", "Square"), ("q", "Large Square"), ("t", "Thumbnail"), ("s", "Small"),
    ("m", "Medium"), ("l", "Large"), ("o", "Original")
  ]

  /** All four attributes a size needs are present. */
  predicate Complete(attrib: Attributes, suffix: string) {
    "height_" + suffix in attrib && "width_" + suffix in attrib && "media" in attrib && "url_" + suffix in attrib
  }

  /** One iteration of the loop: the size, `None` when an attribute is
   *  missing (the `KeyError` is caught), or the `ValueError` of a height
   *  or width that is not a number, which is not. The attributes are read
   *  in the order the dictionary literal names them. */
  function SizeEntry(attrib: Attributes, suffix: string, name: string): (r: Result<Option<Size>>)
    ensures r.Err? ==> r.error == ValueError
    ensures r.Ok? && r.value.Some? <==>
      (Complete(attrib, suffix) && ParseInt(attrib["height_" + suffix]).Ok? && ParseInt(attrib["width_" + suffix]).Ok?)
    ensures Complete(attrib, suffix) ==>
      (r.Ok? <==> ParseInt(attrib["height_" + suffix]).Ok? && ParseInt(attrib["width_" + suffix]).Ok?)
    ensures r.Ok? && r.value.Some? ==>
      (r.value.value == Size(name, ParseInt(attrib["width_" + suffix]).value, ParseInt(attrib["height_" + suffix]).value,
                             attrib["media"], attrib["url_" + suffix]))
  {
    if "height_" + suffix !in attrib then Ok(None)
    else
      var height :- ParseInt(attrib["height_" + suffix]);
      if "width_" + suffix !in attrib then Ok(None)
      else
        var width :- ParseInt(attrib["width_" + suffix]);
        if "media" !in attrib || "url_" + suffix !in attrib then Ok(None)
        else Ok(Some(Size(name, width, height, attrib["media"], attrib["url_" + suffix])))
  }

  /** The sizes the loop collects from the first entries of `table`. */
  function Sizes(attrib: Attributes, table: seq<(string, string)>): Result<seq<Size>> {
    if table == [] then Ok([])
    else
      var earlier :- Sizes(attrib, table[..|table| - 1]);
      var last := table[|table| - 1];
      var entry :- SizeEntry(attrib, last.0, last.1);
      if entry.Some? then Ok(earlier + [entry.value]) else Ok(earlier)
  }

  /** `parse_sizes`. */
  method ParseSizes(attrib: Attributes) returns (r: Result<seq<Size>>)
    ensures r == Sizes(attrib, SizeSuffixes)
  {
    var sizes: seq<Size> := [];
    for i := 0 to |SizeSuffixes|
      invariant Sizes(attrib, SizeSuffixes[..i]) == Ok(sizes)
    {
      var entry := SizeEntry(attrib, SizeSuffixes[i].0, SizeSuffixes[i].1);
      SizesLoopStep(attrib, SizeSuffixes, i, sizes);
      if entry.Err? {
        ErrorStops(attrib, SizeSuffixes, i + 1);
        return Err(entry.error);
      }
      if entry.value.Some? {
        sizes := sizes + [entry.value.value];
      }
    }
    assert SizeSuffixes[..|SizeSuffixes|] == SizeSuffixes;
    return Ok(sizes);
  }

  /** One more entry of the table: its error ends the loop, its size is
   *  appended. */
  lemma SizesLoopStep(attrib: Attributes, table: seq<(string, string)>, i: nat, sizes: seq<Size>)
    requires i < |table| && Sizes(attrib, table[..i]) == Ok(sizes)
    ensures var e := SizeEntry(attrib, table[i].0, table[i].1);
      Sizes(attrib, table[..i + 1]) ==
        if e.Err? then Err(e.error) else if e.value.Some? then Ok(sizes + [e.value.value]) else Ok(sizes)
  {
    assert table[..i + 1][..i] == table[..i];
  }

  /** Once one entry raises, so does the whole loop. */
  lemma {:induction false} ErrorStops(attrib: Attributes, table: seq<(string, string)>, k: nat)
    requires k <= |table| && Sizes(attrib, table[..k]).Err?
    ensures Sizes(attrib, table) == Sizes(attrib, table[..k])
  {
    if k < |table| {
      var n := |table| - 1;
      assert table[..n][..k] == table[..k];
      ErrorStops(attrib, table[..n], k);
    } else {
      assert table[..k] == table;
    }
  }

  /** The labels of some sizes. */
  function Labels(sizes: seq<Size>): (r: seq<string>)
    ensures |r| == |sizes| && forall j :: 0 <= j < |sizes| ==> r[j] == sizes[j].sizeLabel
  {
    if sizes == [] then [] else Labels(sizes[..|sizes| - 1]) + [sizes[|sizes| - 1].sizeLabel]
  }

  /** `xs` is `ys` with some elements left out, the rest in order. */
  predicate IsSubsequence(xs: seq<string>, ys: seq<string>) {
    if xs == [] then true
    else if ys == [] then false
    else if xs[|xs| - 1] == ys[|ys| - 1] then IsSubsequence(xs[..|xs| - 1], ys[..|ys| - 1])
    else IsSubsequence(xs, ys[..|ys| - 1])
  }

  function TableLabels(table: seq<(string, string)>): seq<string> {
    if table == [] then [] else TableLabels(table[..|table| - 1]) + [table[|table| - 1].1]
  }

  /** The sizes come out in the order of the table: their labels are the
   *  table's labels with some left out. */
  lemma {:induction false} SizesInTableOrder(attrib: Attributes, table: seq<(string, string)>)
    requires Sizes(attrib, table).Ok?
    ensures IsSubsequence(Labels(Sizes(attrib, table).value), TableLabels(table))
  {
    if table != [] {
      var n := |table| - 1;
      SizesInTableOrder(attrib, table[..n]);
      var earlier := Sizes(attrib, table[..n]).value;
      var entry := SizeEntry(attrib, table[n].0, table[n].1).value;
      var ls := TableLabels(table);
      assert ls[..|ls| - 1] == TableLabels(table[..n]);
      if entry.Some? {
        var sizes := earlier + [entry.value];
        assert sizes[..|sizes| - 1] == earlier;
        assert Labels(sizes) == Labels(earlier) + [table[n].1];
      } else {
        SubsequenceOfLonger(Labels(earlier), TableLabels(table[..n]), table[n].1);
      }
    }
  }

  /** A subsequence stays one when the longer sequence grows ... */
  lemma {:induction false} SubsequenceOfLonger(xs: seq<string>, ys: seq<string>, y: string)
    requires IsSubsequence(xs, ys)
    ensures IsSubsequence(xs, ys + [y])
    decreases |ys|, 1
  {
    var ys' := ys + [y];
    assert ys'[..|ys'| - 1] == ys;
    if xs != [] && xs[|xs| - 1] == y {
      SubsequenceDropLast(xs, ys);
    }
  }

  /** ... and when the shorter one loses its last element. */
  lemma {:induction false} SubsequenceDropLast(xs: seq<string>, ys: seq<string>)
    requires xs != [] && IsSubsequence(xs, ys)
    ensures IsSubsequence(xs[..|xs| - 1], ys)
    decreases |ys|, 0
  {
    var n := |ys| - 1;
    assert ys == ys[..n] + [ys[n]];
    if xs[|xs| - 1] == ys[n] {
      SubsequenceOfLonger(xs[..|xs| - 1], ys[..n], ys[n]);
    } else {
      SubsequenceDropLast(xs, ys[..n]);
      SubsequenceOfLonger(xs[..|xs| - 1], ys[..n], ys[n]);
    }
  }

  /** Every size the loop emits is the size of one entry of the table. */
  lemma {:induction false} SizesFromTable(attrib: Attributes, table: seq<(string, string)>)
    requires Sizes(attrib, table).Ok?
    ensures var sizes := Sizes(attrib, table).value;
      forall j :: 0 <= j < |sizes| ==>
        exists i :: 0 <= i < |table| && SizeEntry(attrib, table[i].0, table[i].1) == Ok(Some(sizes[j]))
  {
    if table != [] {
      var n := |table| - 1;
      SizesFromTable(attrib, table[..n]);
      var earlier := Sizes(attrib, table[..n]).value;
      var sizes := Sizes(attrib, table).value;
      forall j | 0 <= j < |sizes|
        ensures exists i :: 0 <= i < |table| && SizeEntry(attrib, table[i].0, table[i].1) == Ok(Some(sizes[j]))
      {
        if j < |earlier| {
          assert sizes[j] == earlier[j];
          var i :| 0 <= i < n && SizeEntry(attrib, table[..n][i].0, table[..n][i].1) == Ok(Some(earlier[j]));
          assert table[..n][i] == table[i];
        } else {
          assert SizeEntry(attrib, table[n].0, table[n].1) == Ok(Some(sizes[j]));
        }
      }
    }
  }

  /** One step of the loop, on the labels. */
  lemma SizesStep(attrib: Attributes, table: seq<(string, string)>)
    requires table != [] && Sizes(attrib, table).Ok?
    ensures var n := |table| - 1;
      && Sizes(attrib, table[..n]).Ok?
      && (Complete(attrib, table[n].0) ==>
            Labels(Sizes(attrib, table).value) == Labels(Sizes(attrib, table[..n]).value) + [table[n].1])
      && (!Complete(attrib, table[n].0) ==>
            Labels(Sizes(attrib, table).value) == Labels(Sizes(attrib, table[..n]).value))
  {
  }

  /** Every label emitted is a label of the table. */
  lemma LabelsFromTable(attrib: Attributes, table: seq<(string, string)>, x: string)
    requires Sizes(attrib, table).Ok? && x in Labels(Sizes(attrib, table).value)
    ensures exists k :: 0 <= k < |table| && table[k].1 == x
  {
    var sizes := Sizes(attrib, table).value;
    SizesFromTable(attrib, table);
    var j :| 0 <= j < |sizes| && Labels(sizes)[j] == x;
    var k :| 0 <= k < |table| && SizeEntry(attrib, table[k].0, table[k].1) == Ok(Some(sizes[j]));
  }

  /** When no entry raises, a size is emitted for an entry exactly when
   *  its height, width and URL attributes, and `media`, are all present
   *  (the labels of the table being distinct). */
  lemma {:induction false} SizesIncluded(attrib: Attributes, table: seq<(string, string)>, i: nat)
    requires Sizes(attrib, table).Ok? && i < |table|
    requires forall a, b :: 0 <= a < b < |table| ==> table[a].1 != table[b].1
    ensures table[i].1 in Labels(Sizes(attrib, table).value) <==> Complete(attrib, table[i].0)
  {
    var n := |table| - 1;
    SizesStep(attrib, table);
    var earlier := Labels(Sizes(attrib, table[..n]).value);
    if i < n {
      assert table[..n][i] == table[i];
      SizesIncluded(attrib, table[..n], i);
      assert table[n].1 != table[i].1;
    } else if table[n].1 in earlier {
      // The label would come from an earlier entry, and the labels are distinct.
      LabelsFromTable(attrib, table[..n], table[n].1);
    }
  }

  /** The table `parse_sizes` uses has distinct labels. */
  lemma SizeLabelsDistinct()
    ensures forall a, b :: 0 <= a < b < |SizeSuffixes| ==> SizeSuffixes[a].1 != SizeSuffixes[b].1
  {
  }

  // ---------------------------------------------------------------------
  // find_required_elem, find_required_text, find_optional_text

  /** An XML element: its tag, its text (`None` when it has none) and its
   *  attributes. */
  datatype Element = Element(tag: string, text: Option<string>, attrib: Attributes)

  /** `elem.find(path=path)`: the first subelement matching the path. */
  type Finder = (Element, string) -> Option<Element>

  /** `find_required_elem`: `ValueError` when nothing matches. */
  function FindRequiredElem(find: Finder, elem: Element, path: string): (r: Result<Element>)
    ensures r.Err? <==> find(elem, path).None?
    ensures r.Err? ==> r.error == ValueError
    ensures r.Ok? ==> r.value == find(elem, path).value
  {
    match find(elem, path)
    case None => Err(ValueError)
    case Some(e) => Ok(e)
  }

  /** `find_required_text`: `ValueError` when nothing matches or the
   *  match has no text; an empty text is returned. */
  function FindRequiredText(find: Finder, elem: Element, path: string): (r: Result<string>)
    ensures r.Err? <==> find(elem, path).None? || find(elem, path).value.text.None?
    ensures r.Err? ==> r.error == ValueError
    ensures r.Ok? ==> Some(r.value) == find(elem, path).value.text
  {
    var matching :- FindRequiredElem(find, elem, path);
    match matching.text
    case None => Err(ValueError)
    case Some(t) => Ok(t)
  }

  /** `find_optional_text`: `None` when nothing matches or the text is
   *  missing or empty (`text or None`). */
  function FindOptionalText(find: Finder, elem: Element, path: string): (r: Option<string>)
    ensures r.Some? ==> r.value != "" && find(elem, path).Some? && find(elem, path).value.text == r
  {
    match find(elem, path)
    case None => None
    case Some(e) => if e.text == Some("") then None else e.text
  }

  /** The optional lookup answers exactly the non-empty texts the
   *  required one returns, and nothing where it raises. */
  lemma OptionalAndRequiredText(find: Finder, elem: Element, path: string)
    ensures FindRequiredText(find, elem, path).Err? ==> FindOptionalText(find, elem, path).None?
    ensures FindRequiredText(find, elem, path) == Ok("") ==> FindOptionalText(find, elem, path).None?
    ensures forall t :: t != "" ==>
      (FindRequiredText(find, elem, path) == Ok(t) <==> FindOptionalText(find, elem, path) == Some(t))
  {
  }
}

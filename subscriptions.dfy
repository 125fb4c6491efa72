/** The subscription-list parser of the form handler: the text is split on
    newlines and commas, every piece is stripped, and empty pieces are dropped.
    Order and duplicates are kept. */
module Subscriptions {
  import opened Text

  /** What the parser can emit: non-empty, stripped, and free of both separators. */
  predicate IsSubscriptionId(x: string) {
    x != [] && IsStripped(x) && ',' !in x && '\n' !in x
  }

  predicate AllSubscriptionIds(xs: seq<string>) {
    forall i :: 0 <= i < |xs| ==> IsSubscriptionId(xs[i])
  }

  /** Every character of a text is whitespace or a comma. */
  predicate Blank(s: string) {
    OnlyWhitespaceOr(s, ',')
  }

  /** The list comprehension `[p.strip() for p in pieces if p.strip()]`. */
  function StripNonEmpty(pieces: seq<string>): (r: seq<string>)
    ensures |r| <= |pieces|
    ensures forall i :: 0 <= i < |r| ==> r[i] != [] && IsStripped(r[i])
  {
    if pieces == [] then
      []
    else
      var x := Strip(pieces[0]);
      var rest := StripNonEmpty(pieces[1..]);
      if x == [] then rest else [x] + rest
  }

  /** Stripping adds no character: one that no piece holds, no entry holds. */
  lemma {:induction false} StripNonEmptyLacks(pieces: seq<string>, c: char)
    requires NoneContains(pieces, c)
    ensures NoneContains(StripNonEmpty(pieces), c)
  {
    if pieces != [] {
      if c in Strip(pieces[0]) { StripChars(pieces[0], c); }
      assert NoneContains(pieces[1..], c) by {
        assert forall j :: 0 <= j < |pieces| - 1 ==> pieces[1..][j] == pieces[j + 1];
      }
      StripNonEmptyLacks(pieces[1..], c);
    }
  }

  /** Line 189: `text.replace('\n', ',').split(',')`, then StripNonEmpty. */
  function Parse(text: string): (r: seq<string>)
    ensures AllSubscriptionIds(r)
  {
    var replaced := Replace(text, '\n', ',');
    var pieces := Split(replaced, ',');
    SplitLacks(replaced, ',', '\n');
    StripNonEmptyLacks(pieces, '\n');
    assert NoneContains(pieces, ',');
    StripNonEmptyLacks(pieces, ',');
    StripNonEmpty(pieces)
  }

  /** Lines 178 and 187-189: the field is stripped first and parsed only
      when something is left. */
  function ParseSubscriptionField(raw: string): (r: seq<string>)
    ensures AllSubscriptionIds(r)
  {
    var text := Strip(raw);
    if text == [] then [] else Parse(text)
  }

  lemma {:induction false} StripNonEmptyConcat(xs: seq<string>, ys: seq<string>)
    ensures StripNonEmpty(xs + ys) == StripNonEmpty(xs) + StripNonEmpty(ys)
  {
    if xs != [] {
      assert (xs + ys)[0] == xs[0];
      assert (xs + ys)[1..] == xs[1..] + ys;
      StripNonEmptyConcat(xs[1..], ys);
    } else {
      assert xs + ys == ys;
    }
  }

  /** A comma or a newline separates: the entries before it come first, then
      those after it, and nothing is merged or removed. */
  lemma ParseConcat(a: string, b: string, sep: char)
    requires sep == ',' || sep == '\n'
    ensures Parse(a + [sep] + b) == Parse(a) + Parse(b)
  {
    var s := a + [sep] + b;
    var ra, rb := Replace(a, '\n', ','), Replace(b, '\n', ',');
    assert Replace(s, '\n', ',') == ra + [','] + rb by {
      ReplaceConcat(a + [sep], b, '\n', ',');
      ReplaceConcat(a, [sep], '\n', ',');
      assert Replace([sep], '\n', ',') == [','];
    }
    SplitConcat(ra, rb, ',');
    StripNonEmptyConcat(Split(ra, ','), Split(rb, ','));
  }

  /** A single well-formed entry parses to itself. */
  lemma ParseOne(x: string)
    requires IsSubscriptionId(x)
    ensures Parse(x) == [x]
  {
    assert Replace(x, '\n', ',') == x;
    SplitWithoutSeparator(x, ',');
    StripStripped(x);
    assert StripNonEmpty([x]) == [x] + StripNonEmpty([]);
  }

  /** Parsing the comma-join of well-formed entries gives them back, in order
      and with their duplicates. */
  lemma {:induction false} ParseJoin(xs: seq<string>)
    requires AllSubscriptionIds(xs)
    ensures Parse(Join(xs, ',')) == xs
  {
    if xs == [] {
      assert Split("", ',') == [""];
      assert Strip("") == "";
    } else if |xs| == 1 {
      ParseOne(xs[0]);
    } else {
      ParseOne(xs[0]);
      ParseJoin(xs[1..]);
      ParseConcat(xs[0], Join(xs[1..], ','), ',');
      assert [xs[0]] + xs[1..] == xs;
    }
  }

  /** Round trip through the command line: the comma-joined list parses back to itself. */
  lemma ParseRoundTrip(text: string)
    ensures Parse(Join(Parse(text), ',')) == Parse(text)
  {
    ParseJoin(Parse(text));
  }

  lemma {:induction false} StripNonEmptyNone(pieces: seq<string>)
    ensures StripNonEmpty(pieces) == [] <==> AllPiecesWhitespace(pieces)
  {
    if pieces != [] {
      StripEmpty(pieces[0]);
      StripNonEmptyNone(pieces[1..]);
      assert pieces == [pieces[0]] + pieces[1..];
      PiecesCons(pieces[0], pieces[1..]);
      if Strip(pieces[0]) != [] {
        assert StripNonEmpty(pieces) == [Strip(pieces[0])] + StripNonEmpty(pieces[1..]);
      }
    }
  }

  /** Parsing yields nothing exactly when the text is only separators and whitespace. */
  lemma ParseEmpty(text: string)
    ensures Parse(text) == [] <==> Blank(text)
  {
    var replaced := Replace(text, '\n', ',');
    StripNonEmptyNone(Split(replaced, ','));
    SplitAllWhitespace(replaced, ',');
    assert IsWhitespace('\n');
    assert Blank(text) <==> OnlyWhitespaceOr(replaced, ',') by {
      assert forall i :: 0 <= i < |text| ==> (text[i] == ',' || IsWhitespace(text[i])) == (replaced[i] == ',' || IsWhitespace(replaced[i]));
    }
  }

  /** The form field yields nothing exactly when it is only separators and whitespace. */
  lemma ParseSubscriptionFieldEmpty(raw: string)
    ensures ParseSubscriptionField(raw) == [] <==> Blank(raw)
  {
    var text := Strip(raw);
    StripEmpty(raw);
    if text == [] {
      assert Blank(raw) by { assert AllWhitespace(raw); }
    } else {
      assert ParseSubscriptionField(raw) == Parse(text);
      ParseEmpty(text);
      StripOnlyWhitespaceOr(raw, ',');
    }
  }

  /** The form field round trip: a comma-joined list of entries reads back as that list. */
  lemma ParseSubscriptionFieldJoin(xs: seq<string>)
    requires AllSubscriptionIds(xs)
    ensures ParseSubscriptionField(Join(xs, ',')) == xs
  {
    var j := Join(xs, ',');
    if xs != [] {
      JoinEnds(xs, ',');
      StripStripped(j);
    }
    ParseJoin(xs);
  }

  /** A text without separators is at most one entry: its stripped self. */
  lemma ParseWithoutSeparator(s: string)
    requires ',' !in s && '\n' !in s
    ensures Parse(s) == if Strip(s) == [] then [] else [Strip(s)]
  {
    assert Replace(s, '\n', ',') == s;
    SplitWithoutSeparator(s, ',');
    assert StripNonEmpty([s]) == (if Strip(s) == [] then [] else [Strip(s)]) + StripNonEmpty([]);
  }

  // The lemmas from ParseSpaced to ExampleShape only break DuplicatesKept into
  // steps small enough for the solver; the general facts are ParseConcat,
  // ParseWithoutSeparator and ParseJoin.

  /** A blank before an entry is dropped. */
  lemma ParseSpaced(x: string, s: string)
    requires IsSubscriptionId(x) && s == " " + x
    ensures Parse(s) == [x]
  {
    assert s[1..] == x;
    assert TrimStart(s) == TrimStart(x);
    StripStripped(x);
    ParseWithoutSeparator(s);
  }

  /** An empty text before a comma contributes nothing. */
  lemma ParseAfterEmpty(y: string)
    ensures Parse([] + [','] + y) == Parse(y)
  {
    ParseConcat([], y, ',');
    assert Parse([]) == [] by { ParseEmpty([]); }
  }

  /** A comma at the front only adds an empty piece, which is dropped. */
  lemma ParseLeadingComma(y: string, s: string)
    requires s == [','] + y
    ensures Parse(s) == Parse(y)
  {
    assert s == [] + [','] + y;
    ParseAfterEmpty(y);
  }

  /** ParseConcat for a text already known to be `a`, a separator and `b`. */
  lemma ParseSeparated(a: string, b: string, s: string)
    requires s == a + [','] + b
    ensures Parse(s) == Parse(a) + Parse(b)
  {
    ParseConcat(a, b, ',');
  }

  /** The part of the example below after its first entry. */
  lemma ParseExampleTail(a: string, b: string, tail: string)
    requires IsSubscriptionId(a) && IsSubscriptionId(b)
    requires tail == " " + b + [','] + ([','] + (" " + a))
    ensures Parse(tail) == [b, a]
  {
    var spacedA, spacedB := " " + a, " " + b;
    var rest := [','] + spacedA;
    ParseSpaced(a, spacedA);
    ParseSpaced(b, spacedB);
    ParseLeadingComma(spacedA, rest);
    ParseSeparated(spacedB, rest, tail);
  }

  /** On a stripped field the outer strip of line 178 changes nothing. */
  lemma ParseStrippedField(raw: string)
    requires IsStripped(raw)
    ensures ParseSubscriptionField(raw) == Parse(raw)
  {
    StripStripped(raw);
    if raw == [] {
      ParseEmpty(raw);
    }
  }

  /** The example below, split at its first comma. */
  lemma ExampleShape(a: string, b: string, raw: string)
    requires IsSubscriptionId(a) && IsSubscriptionId(b)
    requires raw == a + ", " + b + ",, " + a
    ensures raw == a + [','] + (" " + b + [','] + ([','] + (" " + a)))
    ensures IsStripped(raw)
  {
    assert raw[0] == a[0];
    assert raw[|raw| - 1] == a[|a| - 1];
  }

  /** The round trip for the form field: what it yields, comma-joined, yields the same again. */
  lemma ParseSubscriptionFieldRoundTrip(raw: string)
    ensures ParseSubscriptionField(Join(ParseSubscriptionField(raw), ',')) == ParseSubscriptionField(raw)
  {
    ParseSubscriptionFieldJoin(ParseSubscriptionField(raw));
  }

  /** No de-duplication: in the shape of the example list "a, b,, a", the
      repeated entry is kept, the empty piece dropped and the blanks stripped. */
  lemma DuplicatesKept(a: string, b: string, raw: string)
    requires IsSubscriptionId(a) && IsSubscriptionId(b)
    requires raw == a + ", " + b + ",, " + a
    ensures ParseSubscriptionField(raw) == [a, b, a]
  {
    var tail := " " + b + [','] + ([','] + (" " + a));
    ExampleShape(a, b, raw);
    ParseExampleTail(a, b, tail);
    ParseOne(a);
    ParseSeparated(a, tail, raw);
    ParseStrippedField(raw);
  }
}

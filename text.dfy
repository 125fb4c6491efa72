/** The few Python string operations the handlers use: str.strip(),
    str.replace() of one character by another, str.split(sep) and sep.join(). */
module Text {

  /** str.isspace() for one character: the characters str.strip() removes when
      called without arguments. */
  predicate IsWhitespace(c: char) {
    || c == ' '
    || '\t' <= c <= '\r'               // \t \n \v \f \r
    || '\U{1C}' <= c <= '\U{1F}'       // the four ASCII information separators
    || c == '\U{85}' || c == '\U{A0}'
    || c == '\U{1680}'
    || '\U{2000}' <= c <= '\U{200A}'
    || c == '\U{2028}' || c == '\U{2029}'
    || c == '\U{202F}' || c == '\U{205F}' || c == '\U{3000}'
  }

  predicate AllWhitespace(s: string) {
    forall i :: 0 <= i < |s| ==> IsWhitespace(s[i])
  }

  /** Neither end of `s` is whitespace: what str.strip() returns. */
  predicate IsStripped(s: string) {
    s == [] || (!IsWhitespace(s[0]) && !IsWhitespace(s[|s| - 1]))
  }

  /** str.lstrip(): `s` without its leading whitespace. */
  function TrimStart(s: string): (r: string)
    ensures |r| <= |s|
    ensures r == [] || !IsWhitespace(r[0])
  {
    if s != [] && IsWhitespace(s[0]) then TrimStart(s[1..]) else s
  }

  /** TrimStart cuts only whitespace, and only from the front. */
  lemma {:induction false} TrimStartSuffix(s: string)
    ensures TrimStart(s) == s[|s| - |TrimStart(s)|..]
    ensures AllWhitespace(s[..|s| - |TrimStart(s)|])
  {
    if s != [] && IsWhitespace(s[0]) {
      var r := TrimStart(s[1..]);
      TrimStartSuffix(s[1..]);
      assert s[..|s| - |r|] == [s[0]] + s[1..][..|s| - 1 - |r|];
    }
  }

  /** str.rstrip(): `s` without its trailing whitespace, a prefix of `s`. */
  function TrimEnd(s: string): (r: string)
    ensures |r| <= |s| && r == s[..|r|]
    ensures r == [] || !IsWhitespace(r[|r| - 1])
  {
    if s != [] && IsWhitespace(s[|s| - 1]) then TrimEnd(s[..|s| - 1]) else s
  }

  /** TrimEnd cuts only whitespace. */
  lemma {:induction false} TrimEndPrefix(s: string)
    ensures AllWhitespace(s[|TrimEnd(s)|..])
  {
    if s != [] && IsWhitespace(s[|s| - 1]) {
      var r := TrimEnd(s[..|s| - 1]);
      TrimEndPrefix(s[..|s| - 1]);
      assert s[|r|..] == s[..|s| - 1][|r|..] + [s[|s| - 1]];
    }
  }

  /** str.strip(): both TrimStart and TrimEnd. */
  function Strip(s: string): (r: string)
    ensures IsStripped(r)
    ensures |r| <= |s|
  {
    TrimEnd(TrimStart(s))
  }

  /** Where Strip(s) sits in `s`: after `k` whitespace characters, with only
      whitespace after it. */
  lemma StripSlice(s: string) returns (k: nat)
    ensures k + |Strip(s)| <= |s|
    ensures Strip(s) == s[k..k + |Strip(s)|]
    ensures AllWhitespace(s[..k])
    ensures AllWhitespace(s[k + |Strip(s)|..])
  {
    var t := TrimStart(s);
    TrimStartSuffix(s);
    TrimEndPrefix(t);
    var r := TrimEnd(t);
    k := |s| - |t|;
    assert s[k + |r|..] == t[|r|..];
  }

  /** Strip empties exactly the texts that are all whitespace. */
  lemma StripEmpty(s: string)
    ensures Strip(s) == [] <==> AllWhitespace(s)
  {
    var k := StripSlice(s);
    if Strip(s) == [] {
      forall i | 0 <= i < |s| ensures IsWhitespace(s[i]) {
        if i < k { assert s[i] == s[..k][i]; } else { assert s[i] == s[k..][i - k]; }
      }
    } else {
      assert !IsWhitespace(s[k]);
    }
  }

  /** Strip leaves a stripped text as it is. */
  lemma StripStripped(s: string)
    requires IsStripped(s)
    ensures Strip(s) == s
  {
    if s != [] {
      assert TrimStart(s) == s;
      assert TrimEnd(s) == s;
    }
  }

  /** Every character of Strip(s) is a character of s. */
  lemma StripChars(s: string, c: char)
    requires c in Strip(s)
    ensures c in s
  {
    var k := StripSlice(s);
    var r := Strip(s);
    var i :| 0 <= i < |r| && r[i] == c;
    assert s[k + i] == c;
  }

  /** str.replace(pat, rep) for one-character `pat` and `rep`. */
  function Replace(s: string, pat: char, rep: char): (r: string)
    ensures |r| == |s|
    ensures forall i :: 0 <= i < |s| ==> r[i] == (if s[i] == pat then rep else s[i])
  {
    if s == [] then [] else [if s[0] == pat then rep else s[0]] + Replace(s[1..], pat, rep)
  }

  lemma ReplaceConcat(a: string, b: string, pat: char, rep: char)
    ensures Replace(a + b, pat, rep) == Replace(a, pat, rep) + Replace(b, pat, rep)
  {
  }

  /** str.split(sep): the pieces between the occurrences of `sep`, in order;
      never empty, and no piece holds `sep` or a character that `s` lacks. */
  function Split(s: string, sep: char): (r: seq<string>)
    ensures |r| >= 1
    ensures forall i :: 0 <= i < |r| ==> sep !in r[i]
    decreases |s|
  {
    if s == [] then
      [""]
    else
      var rest := Split(s[1..], sep);
      if s[0] == sep then [""] + rest else [[s[0]] + rest[0]] + rest[1..]
  }

  /** No element of `xs` holds `c`. */
  predicate NoneContains(xs: seq<string>, c: char) {
    forall j :: 0 <= j < |xs| ==> c !in xs[j]
  }

  /** A character missing from the text is missing from every piece of its split. */
  lemma {:induction false} SplitLacks(s: string, sep: char, c: char)
    requires c !in s
    ensures NoneContains(Split(s, sep), c)
  {
    if s != [] {
      assert c !in s[1..] by { assert forall i :: 0 <= i < |s| - 1 ==> s[1..][i] == s[i + 1]; }
      SplitLacks(s[1..], sep, c);
      var rest := Split(s[1..], sep);
      if s[0] != sep {
        assert c !in [s[0]] + rest[0];
        assert forall j :: 1 <= j < |rest| ==> rest[1..][j - 1] == rest[j];
      }
    }
  }

  /** sep.join(parts). */
  function Join(parts: seq<string>, sep: char): (r: string)
    ensures parts == [] ==> r == ""
    ensures |parts| >= 1 ==> parts[0] <= r
  {
    if |parts| == 0 then "" else if |parts| == 1 then parts[0] else parts[0] + [sep] + Join(parts[1..], sep)
  }

  /** The last part ends the join. */
  lemma {:induction false} JoinLast(parts: seq<string>, sep: char)
    requires |parts| >= 1
    ensures var r, last := Join(parts, sep), parts[|parts| - 1];
      |last| <= |r| && r[|r| - |last|..] == last
  {
    if |parts| > 1 {
      JoinLast(parts[1..], sep);
      assert parts[1..][|parts| - 2] == parts[|parts| - 1];
    }
  }

  /** Joining the pieces of a split gives back the text. */
  lemma {:induction false} JoinSplit(s: string, sep: char)
    ensures Join(Split(s, sep), sep) == s
  {
    if s != [] {
      var rest := Split(s[1..], sep);
      JoinSplit(s[1..], sep);
      if s[0] == sep {
        assert Split(s, sep) == [""] + rest;
      } else {
        var r := Split(s, sep);
        assert r == [[s[0]] + rest[0]] + rest[1..];
        if |rest| > 1 {
          assert r[1..] == rest[1..];
          assert Join(rest, sep) == rest[0] + [sep] + Join(rest[1..], sep);
        }
      }
    }
  }

  /** A text without the separator is one piece. */
  lemma {:induction false} SplitWithoutSeparator(s: string, sep: char)
    requires sep !in s
    ensures Split(s, sep) == [s]
  {
    if s != [] {
      SplitWithoutSeparator(s[1..], sep);
      assert [s[0]] + s[1..] == s;
    }
  }

  /** The pieces of `[c] + t`, given the pieces `r` of `t`. */
  function SplitStep(c: char, sep: char, r: seq<string>): seq<string>
    requires |r| >= 1
  {
    if c == sep then [""] + r else [[c] + r[0]] + r[1..]
  }

  /** One step of Split on a text given as its first character and the rest. */
  lemma SplitCons(c: char, t: string, sep: char, s: string)
    requires s == [c] + t
    ensures Split(s, sep) == SplitStep(c, sep, Split(t, sep))
  {
    assert s[0] == c && s[1..] == t;
  }

  /** A step in front of the pieces of `a` commutes with appending the pieces of `b`. */
  lemma SplitStepAppend(c: char, sep: char, ra: seq<string>, rb: seq<string>)
    requires |ra| >= 1
    ensures SplitStep(c, sep, ra + rb) == SplitStep(c, sep, ra) + rb
  {
    if c != sep {
      var p := [c] + ra[0];
      assert (ra + rb)[0] == ra[0];
      assert (ra + rb)[1..] == ra[1..] + rb;
      assert [p] + (ra[1..] + rb) == ([p] + ra[1..]) + rb;
    }
  }

  /** Splitting distributes over a separator: the pieces of `a`, then those of `b`. */
  lemma SplitConcat(a: string, b: string, sep: char)
    ensures Split(a + [sep] + b, sep) == Split(a, sep) + Split(b, sep)
  {
    SplitAt(a, b, sep, a + [sep] + b);
  }

  /** SplitConcat for a text already known to be `a`, the separator and `b`. */
  lemma {:induction false} SplitAt(a: string, b: string, sep: char, s: string)
    requires s == a + [sep] + b
    ensures Split(s, sep) == Split(a, sep) + Split(b, sep)
  {
    if a == [] {
      assert s == [sep] + b;
      SplitCons(sep, b, sep, s);
    } else {
      var t := a[1..] + [sep] + b;
      assert s == [a[0]] + t;
      assert a == [a[0]] + a[1..];
      SplitAt(a[1..], b, sep, t);
      SplitCons(a[0], t, sep, s);
      SplitCons(a[0], a[1..], sep, a);
      SplitStepAppend(a[0], sep, Split(a[1..], sep), Split(b, sep));
    }
  }

  /** Splitting the join of pieces that lack the separator gives back the pieces. */
  lemma {:induction false} SplitJoin(parts: seq<string>, sep: char)
    requires |parts| >= 1
    requires forall i :: 0 <= i < |parts| ==> sep !in parts[i]
    ensures Split(Join(parts, sep), sep) == parts
  {
    SplitWithoutSeparator(parts[0], sep);
    if |parts| > 1 {
      SplitJoin(parts[1..], sep);
      SplitConcat(parts[0], Join(parts[1..], sep), sep);
      assert [parts[0]] + parts[1..] == parts;
    }
  }

  /** A join of non-empty parts starts with the first part's first character
      and ends with the last part's last character. */
  lemma {:induction false} JoinEnds(parts: seq<string>, sep: char)
    requires |parts| >= 1
    requires forall i :: 0 <= i < |parts| ==> parts[i] != []
    ensures Join(parts, sep) != []
    ensures Join(parts, sep)[0] == parts[0][0]
    ensures var j := Join(parts, sep); j[|j| - 1] == parts[|parts| - 1][|parts[|parts| - 1]| - 1]
  {
    if |parts| > 1 {
      JoinEnds(parts[1..], sep);
    }
  }

  /** Every character of `s` is `sep` or whitespace. */
  predicate OnlyWhitespaceOr(s: string, sep: char) {
    forall i :: 0 <= i < |s| ==> s[i] == sep || IsWhitespace(s[i])
  }

  /** Every piece is all whitespace. */
  predicate AllPiecesWhitespace(xs: seq<string>) {
    forall j :: 0 <= j < |xs| ==> AllWhitespace(xs[j])
  }

  lemma PiecesCons(x: string, xs: seq<string>)
    ensures AllPiecesWhitespace([x] + xs) <==> AllWhitespace(x) && AllPiecesWhitespace(xs)
  {
    assert ([x] + xs)[0] == x;
    assert forall j :: 0 <= j < |xs| ==> ([x] + xs)[j + 1] == xs[j];
  }

  lemma WhitespaceCons(c: char, s: string)
    ensures AllWhitespace([c] + s) <==> IsWhitespace(c) && AllWhitespace(s)
  {
    assert ([c] + s)[0] == c;
    assert forall i :: 0 <= i < |s| ==> ([c] + s)[i + 1] == s[i];
  }

  lemma OnlyWhitespaceOrCons(s: string, sep: char)
    requires s != []
    ensures OnlyWhitespaceOr(s, sep) <==> (s[0] == sep || IsWhitespace(s[0])) && OnlyWhitespaceOr(s[1..], sep)
  {
    assert forall i :: 0 <= i < |s| - 1 ==> s[1..][i] == s[i + 1];
  }

  /** The pieces of a split are all whitespace exactly when every character
      of the text is the separator or whitespace. */
  lemma {:induction false} SplitAllWhitespace(s: string, sep: char)
    ensures AllPiecesWhitespace(Split(s, sep)) <==> OnlyWhitespaceOr(s, sep)
  {
    if s != [] {
      SplitAllWhitespace(s[1..], sep);
      OnlyWhitespaceOrCons(s, sep);
      var rest := Split(s[1..], sep);
      if s[0] == sep {
        PiecesCons("", rest);
      } else {
        var first := [s[0]] + rest[0];
        assert Split(s, sep) == [first] + rest[1..];
        assert rest == [rest[0]] + rest[1..];
        PiecesCons(first, rest[1..]);
        PiecesCons(rest[0], rest[1..]);
        WhitespaceCons(s[0], rest[0]);
      }
    }
  }

  /** Whitespace around a text does not change whether it is only whitespace and `sep`. */
  lemma OnlyWhitespaceOrPadded(pre: string, mid: string, post: string, sep: char)
    requires AllWhitespace(pre) && AllWhitespace(post)
    ensures OnlyWhitespaceOr(pre + mid + post, sep) <==> OnlyWhitespaceOr(mid, sep)
  {
    var s := pre + mid + post;
    assert forall i :: 0 <= i < |mid| ==> s[|pre| + i] == mid[i];
    if OnlyWhitespaceOr(mid, sep) {
      forall i | 0 <= i < |s| ensures s[i] == sep || IsWhitespace(s[i]) {
        if i < |pre| {
          assert s[i] == pre[i];
        } else if i < |pre| + |mid| {
          assert s[i] == mid[i - |pre|];
        } else {
          assert s[i] == post[i - |pre| - |mid|];
        }
      }
    }
  }

  /** Stripping does not change whether a text is only separators and whitespace. */
  lemma StripOnlyWhitespaceOr(s: string, sep: char)
    ensures OnlyWhitespaceOr(Strip(s), sep) <==> OnlyWhitespaceOr(s, sep)
  {
    var k := StripSlice(s);
    var pre, mid, post := s[..k], Strip(s), s[k + |Strip(s)|..];
    assert s == pre + mid + post;
    OnlyWhitespaceOrPadded(pre, mid, post, sep);
  }
}

/** The few string operations the service relies on: Python's `str.split`,
    `str.join`, `str.strip`, and the decimal rendering of integers. */
module Text {

  /** Python's `s.split(c)` for a one-character separator: the pieces between
      separators, always at least one. */
  function Split(s: string, c: char): (r: seq<string>)
    ensures |r| >= 1
    ensures forall k :: 0 <= k < |r| ==> c !in r[k]
    ensures Join(r, [c]) == s
    decreases |s|
  {
    if |s| == 0 then [""]
    else if s[0] == c then [""] + Split(s[1..], c)
    else
      var rest := Split(s[1..], c);
      [[s[0]] + rest[0]] + rest[1..]
  }

  /** Python's `sep.join(parts)`. */
  function Join(parts: seq<string>, sep: string): (r: string)
    decreases |parts|
  {
    if |parts| == 0 then ""
    else if |parts| == 1 then parts[0]
    else parts[0] + sep + Join(parts[1..], sep)
  }

  /** The joined text starts with the first part. */
  lemma JoinStartsWithFirst(parts: seq<string>, sep: string)
    requires |parts| > 0
    ensures |parts[0]| <= |Join(parts, sep)| && Join(parts, sep)[..|parts[0]|] == parts[0]
  {
    if |parts| > 1 {
      var rest := sep + Join(parts[1..], sep);
      assert Join(parts, sep) == parts[0] + rest;
    }
  }

  /** The joined text starts with the first part and ends with the separator
      and the last part. */
  lemma JoinEnds(parts: seq<string>, sep: string)
    ensures |parts| > 0 ==> |parts[0]| <= |Join(parts, sep)| && Join(parts, sep)[..|parts[0]|] == parts[0]
    ensures |parts| > 1 ==> var r, last := Join(parts, sep), parts[|parts| - 1];
      |sep| + |last| <= |r| && r[|r| - |last| - |sep|..] == sep + last
  {
    if |parts| > 0 {
      JoinStartsWithFirst(parts, sep);
    }
    if |parts| > 1 {
      var n := |parts|;
      assert parts == parts[..n - 1] + [parts[n - 1]];
      JoinSnoc(parts[..n - 1], parts[n - 1], sep);
      var r := Join(parts, sep);
      assert r == Join(parts[..n - 1], sep) + (sep + parts[n - 1]);
    }
  }

  /** Joining a list with one more element at the end glues it on with one separator. */
  lemma {:induction false} JoinSnoc(parts: seq<string>, p: string, sep: string)
    requires |parts| >= 1
    ensures Join(parts + [p], sep) == Join(parts, sep) + sep + p
    decreases |parts|
  {
    if |parts| > 1 {
      assert (parts + [p])[1..] == parts[1..] + [p];
      JoinSnoc(parts[1..], p, sep);
    } else {
      assert (parts + [p])[1..] == [p];
    }
  }

  /** A character found in neither the pieces nor the separator is not in their join. */
  lemma {:induction false} JoinAvoids(parts: seq<string>, sep: string, c: char)
    requires c !in sep
    requires forall p :: p in parts ==> c !in p
    ensures c !in Join(parts, sep)
    decreases |parts|
  {
    if |parts| > 1 {
      assert forall p :: p in parts[1..] ==> p in parts;
      JoinAvoids(parts[1..], sep, c);
    }
  }

  /** Splitting undoes joining when no piece contains the separator. */
  lemma {:induction false} SplitJoin(parts: seq<string>, c: char)
    requires |parts| >= 1
    requires forall k :: 0 <= k < |parts| ==> c !in parts[k]
    ensures Split(Join(parts, [c]), c) == parts
    decreases |parts|, |parts[0]|
  {
    if |parts[0]| == 0 {
      if |parts| > 1 {
        SplitJoin(parts[1..], c);
        SplitEmptyHead(parts, c);
      }
    } else {
      var p := parts[0];
      var shorter := [p[1..]] + parts[1..];
      forall k | 0 <= k < |shorter| ensures c !in shorter[k] {
        if k == 0 { assert forall x :: x in p[1..] ==> x in p; } else { assert shorter[k] == parts[k]; }
      }
      SplitJoin(shorter, c);
      assert p[0] != c by { assert p[0] in p; }
      SplitLongerHead(parts, c);
    }
  }

  /** The inductive step of `SplitJoin` when the first piece is empty. */
  lemma SplitEmptyHead(parts: seq<string>, c: char)
    requires |parts| > 1 && parts[0] == ""
    requires Split(Join(parts[1..], [c]), c) == parts[1..]
    ensures Split(Join(parts, [c]), c) == parts
  {
    var tail := Join(parts[1..], [c]);
    assert Join(parts, [c]) == [c] + tail;
    assert ([c] + tail)[1..] == tail;
    assert Split([c] + tail, c) == [""] + Split(tail, c);
    assert parts == [""] + parts[1..];
  }

  /** The inductive step of `SplitJoin` when the first piece starts with a
      character other than the separator. */
  lemma SplitLongerHead(parts: seq<string>, c: char)
    requires |parts| >= 1 && |parts[0]| > 0 && parts[0][0] != c
    requires var shorter := [parts[0][1..]] + parts[1..];
      Split(Join(shorter, [c]), c) == shorter
    ensures Split(Join(parts, [c]), c) == parts
  {
    var p := parts[0];
    var shorter := [p[1..]] + parts[1..];
    var s := Join(parts, [c]);
    assert s == [p[0]] + Join(shorter, [c]) by {
      if |parts| > 1 {
        assert shorter[1..] == parts[1..];
        assert p == [p[0]] + p[1..];
      }
    }
    assert s[0] == p[0] && s[1..] == Join(shorter, [c]);
    assert [p[0]] + shorter[0] == p;
    assert shorter[1..] == parts[1..];
    assert parts == [[p[0]] + shorter[0]] + shorter[1..];
  }

  /** The characters Python's `str.strip()` removes (those for which
      `str.isspace()` holds). */
  predicate IsSpace(ch: char)
  {
    ch == ' ' || ('\t' <= ch <= '\r') || ('\U{1C}' <= ch <= '\U{1F}') ||
    ch == '\U{85}' || ch == '\U{A0}' || ch == '\U{1680}' ||
    ('\U{2000}' <= ch <= '\U{200A}') || ch == '\U{2028}' || ch == '\U{2029}' ||
    ch == '\U{202F}' || ch == '\U{205F}' || ch == '\U{3000}'
  }

  function StripLeft(s: string): (r: string)
    ensures |r| <= |s| && r == s[|s| - |r|..]
    ensures r == [] || !IsSpace(r[0])
    ensures forall k :: 0 <= k < |s| - |r| ==> IsSpace(s[k])
  {
    if |s| > 0 && IsSpace(s[0]) then StripLeft(s[1..]) else s
  }

  function StripRight(s: string): (r: string)
    ensures |r| <= |s| && r == s[..|r|]
    ensures r == [] || !IsSpace(r[|r| - 1])
    ensures forall k :: |r| <= k < |s| ==> IsSpace(s[k])
  {
    if |s| > 0 && IsSpace(s[|s| - 1]) then StripRight(s[..|s| - 1]) else s
  }

  /** Python's `s.strip()`: the longest infix without leading or trailing white space. */
  function Strip(s: string): (r: string)
    ensures |r| <= |StripLeft(s)| && r == StripLeft(s)[..|r|]
    ensures r == [] || (!IsSpace(r[0]) && !IsSpace(r[|r| - 1]))
  {
    StripRight(StripLeft(s))
  }

  predicate IsDigit(ch: char) { '0' <= ch <= '9' }

  /** The decimal digits of a natural number, most significant first, no leading zero. */
  function NatText(n: nat): (r: string)
    ensures |r| >= 1 && forall k :: 0 <= k < |r| ==> IsDigit(r[k])
    ensures |r| > 1 ==> r[0] != '0'
    ensures n > 0 ==> r[0] != '0'
    ensures DigitsValue(r) == n
  {
    if n < 10 then [(('0' as int) + n) as char]
    else
      var r := NatText(n / 10) + [(('0' as int) + n % 10) as char];
      assert r[..|r| - 1] == NatText(n / 10);
      r
  }

  /** The number a string of decimal digits denotes. */
  function DigitsValue(s: string): int
  {
    if |s| == 0 then 0
    else 10 * DigitsValue(s[..|s| - 1]) + (s[|s| - 1] as int - '0' as int)
  }

  /** Python's `str(k)` for an integer: digits, with a minus sign when negative. */
  function IntText(k: int): (r: string)
    ensures |r| >= 1 && '&' !in r && ',' !in r
    ensures forall i :: 0 <= i < |r| ==> IsDigit(r[i]) || (i == 0 && r[i] == '-')
    ensures r[0] == '-' <==> k < 0
    ensures r[0] == '-' ==> |r| >= 2 && r[1] != '0'
    ensures |r| >= 2 ==> r[0] != '0'
    ensures IntValue(r) == k
  {
    if k < 0 then "-" + NatText(-k) else NatText(k)
  }

  /** The integer a rendering `IntText` produces denotes. */
  function IntValue(s: string): int
  {
    if |s| > 0 && s[0] == '-' then -DigitsValue(s[1..]) else DigitsValue(s)
  }

  /** `str(x)` for a float whose value is the integer k (and |k| < 10^16): "k.0". */
  function IntegralFloatText(k: int): (r: string)
    ensures '&' !in r && ',' !in r
    ensures |r| >= 3 && r[..|r| - 2] == IntText(k) && r[|r| - 2..] == ".0"
  {
    IntText(k) + ".0"
  }

  /** XML text content may hold `&` only as the start of the entity `&amp;`
      (the only entity this service writes). */
  predicate AmpersandsEscaped(s: string)
  {
    forall i :: 0 <= i < |s| && s[i] == '&' ==> i + 5 <= |s| && s[i..i + 5] == "&amp;"
  }

  lemma EscapedConcat(a: string, b: string)
    requires AmpersandsEscaped(a) && AmpersandsEscaped(b)
    ensures AmpersandsEscaped(a + b)
  {
    forall i | 0 <= i < |a + b| && (a + b)[i] == '&'
      ensures i + 5 <= |a + b| && (a + b)[i..i + 5] == "&amp;"
    {
      if i < |a| {
        assert a[i] == '&';
        assert (a + b)[i..i + 5] == a[i..i + 5];
      } else {
        assert b[i - |a|] == '&';
        assert (a + b)[i..i + 5] == b[i - |a|..i - |a| + 5];
      }
    }
  }

  /** Text with no ampersand at all is trivially well escaped. */
  lemma NoAmpersandEscaped(s: string)
    requires '&' !in s
    ensures AmpersandsEscaped(s)
  {
    forall i | 0 <= i < |s| ensures s[i] != '&' {
      assert s[i] in s;
    }
  }

  /** A string none of whose characters is `&`; stated character by character,
      which is how the solver checks a literal. */
  lemma LiteralAvoidsAmpersand(s: string)
    requires forall i :: 0 <= i < |s| ==> s[i] != '&'
    ensures '&' !in s
  {
  }

  /** Joining well-escaped pieces with an ampersand-free separator keeps them well escaped. */
  lemma {:induction false} JoinKeepsEscaped(parts: seq<string>, sep: string)
    requires '&' !in sep
    requires forall p :: p in parts ==> AmpersandsEscaped(p)
    ensures AmpersandsEscaped(Join(parts, sep))
    decreases |parts|
  {
    if |parts| == 1 {
      assert parts[0] in parts;
    } else if |parts| > 1 {
      assert parts[0] in parts;
      assert forall p :: p in parts[1..] ==> p in parts;
      JoinKeepsEscaped(parts[1..], sep);
      NoAmpersandEscaped(sep);
      EscapedConcat(parts[0], sep);
      EscapedConcat(parts[0] + sep, Join(parts[1..], sep));
    }
  }
}

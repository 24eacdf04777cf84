/**
 * The JavaScript string operations the pages rely on: `String.prototype.trim`,
 * `replace(/\s+/g, ' ')`, number-to-string conversion and `join`.
 */
module Text {

  /**
   * The characters JavaScript treats as white space, both in `trim` and in the
   * regular-expression class `\s`: tab, line feed, vertical tab, form feed,
   * carriage return, space, the no-break space, the Unicode space separators,
   * the line and paragraph separators and the byte-order mark.
   */
  predicate IsWhitespace(c: char)
  {
    var n := c as int;
    (9 <= n <= 13) || n == 32 || n == 0xA0 || n == 0x1680 ||
    (0x2000 <= n <= 0x200A) || n == 0x2028 || n == 0x2029 ||
    n == 0x202F || n == 0x205F || n == 0x3000 || n == 0xFEFF
  }

  predicate IsDigit(c: char)
  {
    '0' <= c <= '9'
  }

  predicate AllWhitespace(s: string)
  {
    forall i :: 0 <= i < |s| ==> IsWhitespace(s[i])
  }

  /** The characters of `s` that are not white space, in order. */
  function NonWhite(s: string): string
  {
    if s == [] then [] else (if IsWhitespace(s[0]) then [] else [s[0]]) + NonWhite(s[1..])
  }

  lemma {:induction false} NonWhiteConcat(a: string, b: string)
    ensures NonWhite(a + b) == NonWhite(a) + NonWhite(b)
  {
    if a == [] {
      assert a + b == b;
    } else {
      var h := if IsWhitespace(a[0]) then [] else [a[0]];
      assert (a + b)[0] == a[0] && (a + b)[1..] == a[1..] + b;
      assert NonWhite(a + b) == h + NonWhite(a[1..] + b);
      NonWhiteConcat(a[1..], b);
      assert NonWhite(a) == h + NonWhite(a[1..]);
    }
  }

  lemma {:induction false} NonWhiteOfWhitespace(s: string)
    requires AllWhitespace(s)
    ensures NonWhite(s) == []
  {
    if s != [] {
      NonWhiteOfWhitespace(s[1..]);
    }
  }

  lemma NonWhiteFirst(s: string)
    requires s != []
    ensures NonWhite(s) == (if IsWhitespace(s[0]) then [] else [s[0]]) + NonWhite(s[1..])
  {
  }

  /** Drops the leading white space. */
  function TrimStart(s: string): (r: string)
    ensures |r| <= |s| && r == s[|s| - |r|..]
    ensures AllWhitespace(s[..|s| - |r|])
    ensures r == [] || !IsWhitespace(r[0])
  {
    if s != [] && IsWhitespace(s[0]) then
      var r := TrimStart(s[1..]);
      assert s[..|s| - |r|] == [s[0]] + s[1..][..|s| - 1 - |r|];
      r
    else s
  }

  /** Drops the trailing white space. */
  function TrimEnd(s: string): (r: string)
    ensures |r| <= |s| && r == s[..|r|]
    ensures AllWhitespace(s[|r|..])
    ensures r == [] || !IsWhitespace(r[|r| - 1])
  {
    if s != [] && IsWhitespace(s[|s| - 1]) then
      var r := TrimEnd(s[..|s| - 1]);
      assert s[|r|..] == s[..|s| - 1][|r|..] + [s[|s| - 1]];
      r
    else s
  }

  /** Trimming the start removes white space only. */
  lemma TrimStartKeepsNonWhite(s: string)
    ensures NonWhite(TrimStart(s)) == NonWhite(s)
  {
    var a := TrimStart(s);
    var w := s[..|s| - |a|];
    assert s == w + a;
    NonWhiteConcat(w, a);
    NonWhiteOfWhitespace(w);
  }

  /** Trimming the end removes white space only. */
  lemma TrimEndKeepsNonWhite(s: string)
    ensures NonWhite(TrimEnd(s)) == NonWhite(s)
  {
    var b := TrimEnd(s);
    var w := s[|b|..];
    assert s == b + w;
    NonWhiteConcat(b, w);
    NonWhiteOfWhitespace(w);
  }

  /** `s.trim()`. */
  function Trim(s: string): (r: string)
    ensures r == [] || (!IsWhitespace(r[0]) && !IsWhitespace(r[|r| - 1]))
    ensures NonWhite(r) == NonWhite(s)
  {
    var t := TrimStart(s);
    TrimStartKeepsNonWhite(s);
    TrimEndKeepsNonWhite(t);
    assert NonWhite(TrimEnd(t)) == NonWhite(t) == NonWhite(s);
    TrimEnd(t)
  }

  /** A string trims to the empty string exactly when it is all white space. */
  lemma TrimEmptyIff(s: string)
    ensures Trim(s) == [] <==> AllWhitespace(s)
  {
    var t := TrimStart(s);
    if Trim(s) == [] {
      assert s == s[..|s| - |t|] + t;
      assert t == t[|Trim(s)|..];
    } else {
      var k := |s| - |t|;
      assert s[k] == t[0] == Trim(s)[0];
    }
  }

  /**
   * `s.replace(/\s+/g, ' ')`: every maximal run of white space becomes one
   * space. Scanning left to right, a white-space character followed by
   * another one is dropped and the last one of a run becomes the space.
   */
  function CollapseWhitespace(s: string): (r: string)
    ensures |r| <= |s|
    ensures r == [] <==> s == []
    ensures forall i :: 0 <= i < |r| && IsWhitespace(r[i]) ==> r[i] == ' '
    ensures forall i :: 0 <= i < |r| - 1 ==> !(IsWhitespace(r[i]) && IsWhitespace(r[i + 1]))
    ensures r != [] ==> (IsWhitespace(r[0]) <==> IsWhitespace(s[0]))
    ensures r != [] ==> (IsWhitespace(r[|r| - 1]) <==> IsWhitespace(s[|s| - 1]))
  {
    if s == [] then []
    else
      var tail := CollapseWhitespace(s[1..]);
      assert tail != [] ==> s[1..][|s| - 2] == s[|s| - 1];
      if IsWhitespace(s[0]) && |s| > 1 && IsWhitespace(s[1]) then tail
      else if IsWhitespace(s[0]) then " " + tail
      else [s[0]] + tail
  }

  /** Collapsing white space keeps every other character, in order. */
  lemma {:induction false} CollapseKeepsNonWhite(s: string)
    ensures NonWhite(CollapseWhitespace(s)) == NonWhite(s)
  {
    if s != [] {
      var r := CollapseWhitespace(s);
      var tail := CollapseWhitespace(s[1..]);
      CollapseKeepsNonWhite(s[1..]);
      NonWhiteFirst(s);
      if r != tail {
        NonWhiteFirst(r);
        assert r[1..] == tail;
      }
    }
  }

  function DigitChar(d: nat): (c: char)
    requires d < 10
    ensures IsDigit(c) && c as int - '0' as int == d
  {
    ('0' as int + d) as char
  }

  /** The number a run of decimal digits denotes. */
  function DigitsValue(r: string): int
    requires forall i :: 0 <= i < |r| ==> IsDigit(r[i])
  {
    if r == [] then 0 else 10 * DigitsValue(r[..|r| - 1]) + (r[|r| - 1] as int - '0' as int)
  }

  /** The decimal text of a non-negative integer, as template literals print it: no leading zero. */
  function NatToString(n: nat): (r: string)
    ensures r != [] && forall i :: 0 <= i < |r| ==> IsDigit(r[i])
    ensures DigitsValue(r) == n
    ensures r[0] == '0' ==> r == "0"
  {
    if n < 10 then [DigitChar(n)]
    else
      var r := NatToString(n / 10) + [DigitChar(n % 10)];
      assert r[..|r| - 1] == NatToString(n / 10);
      r
  }

  /** `String(n)`: a minus sign before the digits of a negative number. */
  function IntToString(n: int): (r: string)
    ensures r != []
    ensures n >= 0 ==> (forall i :: 0 <= i < |r| ==> IsDigit(r[i])) && DigitsValue(r) == n && (r[0] == '0' ==> r == "0")
    ensures n < 0 ==> r[0] == '-' && |r| >= 2 && (forall i :: 1 <= i < |r| ==> IsDigit(r[i])) &&
                      DigitsValue(r[1..]) == -n && r[1] != '0'
  {
    if n < 0 then
      var r := "-" + NatToString(-n);
      assert r[1..] == NatToString(-n);
      r
    else NatToString(n)
  }

  /** `parts.join(sep)`. */
  function Join(parts: seq<string>, sep: string): (r: string)
    ensures |parts| == 1 ==> r == parts[0]
  {
    if parts == [] then ""
    else if |parts| == 1 then parts[0]
    else parts[0] + sep + Join(parts[1..], sep)
  }

  /** `s.indexOf(c)`, with `|s|` standing for "not found". */
  function IndexOf(s: string, c: char): (i: nat)
    ensures i <= |s|
    ensures i < |s| ==> s[i] == c
    ensures forall k :: 0 <= k < i ==> s[k] != c
  {
    if s == [] then 0
    else if s[0] == c then 0
    else 1 + IndexOf(s[1..], c)
  }
}

/** The `str` operations of Rust's standard library that the parsers rely on:
    `trim_end`, `trim`, `split(char)` and the decimal `Display` of unsigned integers. */
module Text {

  /** Unicode's White_Space property, which `char::is_whitespace` (and so `trim_end`) uses. */
  predicate IsWhitespace(c: char) {
    || ('\t' <= c <= '\r')
    || c == ' '
    || c == '\U{85}'
    || c == '\U{A0}'
    || c == '\U{1680}'
    || ('\U{2000}' <= c <= '\U{200A}')
    || c == '\U{2028}'
    || c == '\U{2029}'
    || c == '\U{202F}'
    || c == '\U{205F}'
    || c == '\U{3000}'
  }

  /** `str::trim_end`: the longest prefix that does not end in whitespace. */
  function TrimEnd(s: string): (r: string)
    ensures |r| <= |s| && r == s[..|r|]
    ensures r == [] || !IsWhitespace(r[|r| - 1])
    ensures forall i :: |r| <= i < |s| ==> IsWhitespace(s[i])
  {
    if |s| > 0 && IsWhitespace(s[|s| - 1]) then TrimEnd(s[..|s| - 1]) else s
  }

  /** `str::trim_start`: the longest suffix that does not start with whitespace. */
  function TrimStart(s: string): (r: string)
    ensures |r| <= |s| && r == s[|s| - |r|..]
    ensures r == [] || !IsWhitespace(r[0])
    ensures forall i :: 0 <= i < |s| - |r| ==> IsWhitespace(s[i])
  {
    if |s| > 0 && IsWhitespace(s[0]) then TrimStart(s[1..]) else s
  }

  /** `str::trim`: whitespace removed from both ends. */
  function Trim(s: string): (r: string)
    ensures var e := TrimEnd(s); |r| <= |e| && r == s[|e| - |r|..|e|]
    ensures r == [] || (!IsWhitespace(r[0]) && !IsWhitespace(r[|r| - 1]))
    ensures var e := TrimEnd(s);
            (forall i :: 0 <= i < |e| - |r| ==> IsWhitespace(s[i])) && forall i :: |e| <= i < |s| ==> IsWhitespace(s[i])
  {
    var e := TrimEnd(s);
    var r := TrimStart(e);
    TrimBothEnds(s, e, r);
    r
  }

  /** Trimming the start of a text whose end is trimmed keeps a slice of the original. */
  lemma TrimBothEnds(s: string, e: string, r: string)
    requires |e| <= |s| && e == s[..|e|] && (e == [] || !IsWhitespace(e[|e| - 1]))
    requires |r| <= |e| && r == e[|e| - |r|..] && (r == [] || !IsWhitespace(r[0]))
    requires forall i :: 0 <= i < |e| - |r| ==> IsWhitespace(e[i])
    ensures r == s[|e| - |r|..|e|]
    ensures r == [] || (!IsWhitespace(r[0]) && !IsWhitespace(r[|r| - 1]))
    ensures forall i :: 0 <= i < |e| - |r| ==> IsWhitespace(s[i])
  {
    assert forall i :: 0 <= i < |e| - |r| ==> s[i] == e[i];
    assert r != [] ==> r[|r| - 1] == e[|e| - 1];
  }

  /** `str::split(d)`: the pieces between occurrences of `d`. There is always at least one piece
      (splitting "" gives [""]), and two adjacent delimiters give an empty piece. */
  function Split(s: string, d: char): (r: seq<string>)
    ensures |r| >= 1
    ensures forall i :: 0 <= i < |r| ==> d !in r[i]
  {
    if |s| == 0 then [""]
    else
      var rest := Split(s[1..], d);
      if s[0] == d then [""] + rest
      else [[s[0]] + rest[0]] + rest[1..]
  }

  /** The pieces put back together with `d` between them, as `format!("{},{}", ..)` writes a line. */
  function Join(ps: seq<string>, d: char): string
    requires |ps| >= 1
  {
    if |ps| == 1 then ps[0] else ps[0] + [d] + Join(ps[1..], d)
  }

  lemma {:induction false} SplitWithoutDelimiter(a: string, d: char)
    requires d !in a
    ensures Split(a, d) == [a]
  {
    if |a| > 0 {
      SplitWithoutDelimiter(a[1..], d);
      assert [a[0]] + a[1..] == a;
    }
  }

  lemma {:induction false} SplitAtDelimiter(a: string, rest: string, d: char)
    requires d !in a
    ensures Split(a + [d] + rest, d) == [a] + Split(rest, d)
  {
    if |a| == 0 {
      assert a + [d] + rest == [d] + rest;
      assert ([d] + rest)[1..] == rest;
    } else {
      var s := a + [d] + rest;
      assert s[0] == a[0] && s[1..] == a[1..] + [d] + rest;
      SplitAtDelimiter(a[1..], rest, d);
      assert [a[0]] + a[1..] == a;
    }
  }

  /** Splitting a joined line gives back the pieces, provided no piece contains the delimiter. */
  lemma {:induction false} SplitJoin(ps: seq<string>, d: char)
    requires |ps| >= 1
    requires forall i :: 0 <= i < |ps| ==> d !in ps[i]
    ensures Split(Join(ps, d), d) == ps
  {
    if |ps| == 1 {
      SplitWithoutDelimiter(ps[0], d);
    } else {
      SplitJoin(ps[1..], d);
      SplitAtDelimiter(ps[0], Join(ps[1..], d), d);
      assert [ps[0]] + ps[1..] == ps;
    }
  }

  /** Joining the pieces of a split with the delimiter gives back the text. */
  lemma {:induction false} JoinSplit(s: string, d: char)
    ensures Join(Split(s, d), d) == s
  {
    if |s| > 0 {
      JoinSplit(s[1..], d);
      var rest := Split(s[1..], d);
      if s[0] == d {
        assert ([""] + rest)[1..] == rest;
        assert [s[0]] + s[1..] == s;
      } else if |rest| == 1 {
        assert [s[0]] + s[1..] == s;
      } else {
        var ps := [[s[0]] + rest[0]] + rest[1..];
        assert ps[1..] == rest[1..];
        assert Join(rest, d) == rest[0] + [d] + Join(rest[1..], d);
        assert [s[0]] + s[1..] == s;
      }
    }
  }

  predicate IsDigit(c: char) {
    '0' <= c <= '9'
  }

  /** The number a string of decimal digits denotes. */
  function DigitsValue(s: string): nat
    requires forall i :: 0 <= i < |s| ==> IsDigit(s[i])
  {
    if |s| == 0 then 0
    else
      assert IsDigit(s[|s| - 1]);
      DigitsValue(s[..|s| - 1]) * 10 + (s[|s| - 1] as int - '0' as int)
  }

  /** The decimal `Display` of an unsigned integer: digits only, no leading zero, denoting `n`. */
  function Decimal(n: nat): (r: string)
    ensures |r| >= 1
    ensures forall i :: 0 <= i < |r| ==> IsDigit(r[i])
    ensures r[0] == '0' ==> r == "0"
    ensures DigitsValue(r) == n
  {
    var last := ('0' as int + n % 10) as char;
    if n < 10 then [last]
    else
      var r := Decimal(n / 10) + [last];
      assert r[..|r| - 1] == Decimal(n / 10);
      r
  }
}

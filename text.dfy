/**
 * The string operations the backend applies to ticker symbols: Python's
 * `str.strip()` (over the code points Python treats as whitespace),
 * `str.upper()` (restricted to ASCII letters) and Python's ordering of
 * strings (code point by code point, a proper prefix first).
 */
module Text {

  /** The code points for which Python's `str.isspace()` holds. */
  predicate IsSpace(c: char)
  {
    var n := c as int;
    || n == 32 || 9 <= n <= 13 || 28 <= n <= 31 || n == 0x85 || n == 0xA0
    || n == 0x1680 || 0x2000 <= n <= 0x200A || n == 0x2028 || n == 0x2029
    || n == 0x202F || n == 0x205F || n == 0x3000
  }

  function TrimLeft(s: string): (r: string)
    ensures |r| <= |s| && r == s[|s| - |r|..]
    ensures r == [] || !IsSpace(r[0])
    ensures forall i :: 0 <= i < |s| - |r| ==> IsSpace(s[i])
  {
    if s != [] && IsSpace(s[0]) then TrimLeft(s[1..]) else s
  }

  function TrimRight(s: string): (r: string)
    ensures |r| <= |s| && r == s[..|r|]
    ensures r == [] || !IsSpace(r[|r| - 1])
    ensures forall i :: |r| <= i < |s| ==> IsSpace(s[i])
  {
    if s != [] && IsSpace(s[|s| - 1]) then TrimRight(s[..|s| - 1]) else s
  }

  /** Python's `str.strip()`. */
  function Strip(s: string): (r: string)
    ensures r == [] || (!IsSpace(r[0]) && !IsSpace(r[|r| - 1]))
    ensures (r == []) == (forall i :: 0 <= i < |s| ==> IsSpace(s[i]))
  {
    StripEnds(s);
    TrimRight(TrimLeft(s))
  }

  lemma StripEnds(s: string)
    ensures var r := TrimRight(TrimLeft(s));
      && (r == [] || (!IsSpace(r[0]) && !IsSpace(r[|r| - 1])))
      && ((r == []) == (forall i :: 0 <= i < |s| ==> IsSpace(s[i])))
  {
    var t := TrimLeft(s);
    var r := TrimRight(t);
    assert t != [] ==> t[0] == s[|s| - |t|] && !IsSpace(t[0]);
    assert t != [] ==> r != [] && r[0] == t[0];
  }

  function UpperChar(c: char): (u: char)
    ensures IsSpace(u) == IsSpace(c)
    ensures !('a' <= u <= 'z')
  {
    if 'a' <= c <= 'z' then (c as int - 32) as char else c
  }

  /** Python's `str.upper()` on ASCII letters; other code points are kept. */
  function Upper(s: string): (r: string)
    ensures |r| == |s|
    ensures forall i :: 0 <= i < |s| ==> r[i] == UpperChar(s[i])
  {
    seq(|s|, i requires 0 <= i < |s| => UpperChar(s[i]))
  }

  predicate IsUpper(s: string)
  {
    forall i :: 0 <= i < |s| ==> !('a' <= s[i] <= 'z')
  }

  lemma UpperIsUpper(s: string)
    ensures IsUpper(Upper(s))
    ensures Upper(Upper(s)) == Upper(s)
  {
  }

  lemma UpperOfUpper(s: string)
    requires IsUpper(s)
    ensures Upper(s) == s
  {
  }

  /** Stripping commutes with upper-casing, because upper-casing maps
      whitespace to whitespace and nothing else to whitespace. */
  lemma {:induction false} StripUpper(s: string)
    ensures Strip(Upper(s)) == Upper(Strip(s))
  {
    TrimLeftUpper(s);
    TrimRightUpper(TrimLeft(s));
  }

  lemma {:induction false} TrimLeftUpper(s: string)
    ensures TrimLeft(Upper(s)) == Upper(TrimLeft(s))
  {
    if s != [] && IsSpace(s[0]) {
      assert Upper(s)[1..] == Upper(s[1..]);
      TrimLeftUpper(s[1..]);
    }
  }

  lemma {:induction false} TrimRightUpper(s: string)
    ensures TrimRight(Upper(s)) == Upper(TrimRight(s))
  {
    if s != [] && IsSpace(s[|s| - 1]) {
      assert Upper(s)[..|s| - 1] == Upper(s[..|s| - 1]);
      TrimRightUpper(s[..|s| - 1]);
    }
  }

  lemma StripIdempotent(s: string)
    ensures Strip(Strip(s)) == Strip(s)
  {
    var r := Strip(s);
    if r != [] {
      assert TrimLeft(r) == r;
      assert TrimRight(r) == r;
    }
  }

  /** Python's `a <= b` on strings. */
  predicate StrLe(a: string, b: string)
  {
    if a == [] then true
    else if b == [] then false
    else if a[0] != b[0] then a[0] < b[0]
    else StrLe(a[1..], b[1..])
  }

  lemma {:induction false} StrLeTotal(a: string, b: string)
    ensures StrLe(a, b) || StrLe(b, a)
  {
    if a != [] && b != [] && a[0] == b[0] {
      StrLeTotal(a[1..], b[1..]);
    }
  }

  lemma {:induction false} StrLeTransitive(a: string, b: string, c: string)
    requires StrLe(a, b) && StrLe(b, c)
    ensures StrLe(a, c)
  {
    if a != [] && b != [] && c != [] && a[0] == b[0] && b[0] == c[0] {
      StrLeTransitive(a[1..], b[1..], c[1..]);
    }
  }

  lemma {:induction false} StrLeAntisymmetric(a: string, b: string)
    requires StrLe(a, b) && StrLe(b, a)
    ensures a == b
  {
    if a != [] && b != [] {
      StrLeAntisymmetric(a[1..], b[1..]);
      assert a == [a[0]] + a[1..] && b == [b[0]] + b[1..];
    }
  }

  function Join(parts: seq<string>, sep: string): (r: string)
    ensures parts == [] ==> r == []
    ensures |parts| == 1 ==> r == parts[0]
  {
    if parts == [] then []
    else if |parts| == 1 then parts[0]
    else parts[0] + sep + Join(parts[1..], sep)
  }
}

/**
 * Character-level text operations the dashboard relies on: Python's notion of
 * whitespace (`str.strip`, the `\s` class of `re`), lower-casing, literal
 * substring search, splitting into words and joining them, the code-point
 * order `sorted` uses on strings, and decimal rendering of integers.
 */
module Text {

  /** Python's `str.isspace()`, which is also what `\s` matches in a `str` pattern. */
  predicate IsSpace(c: char) {
    || c == ' '
    || ('\t' <= c <= '\r')
    || ('\U{1C}' <= c <= '\U{1F}')
    || c == '\U{85}' || c == '\U{A0}' || c == '\U{1680}'
    || ('\U{2000}' <= c <= '\U{200A}')
    || c == '\U{2028}' || c == '\U{2029}' || c == '\U{202F}' || c == '\U{205F}' || c == '\U{3000}'
  }

  /** Neither the first nor the last character is whitespace. */
  predicate NoEdgeSpace(s: string) {
    s == [] || (!IsSpace(s[0]) && !IsSpace(s[|s| - 1]))
  }

  predicate AllSpace(s: string) {
    forall i :: 0 <= i < |s| ==> IsSpace(s[i])
  }

  /** `s` with its leading whitespace removed. */
  function TrimStart(s: string): (r: string)
    ensures |r| <= |s| && r == s[|s| - |r|..]
    ensures AllSpace(s[..|s| - |r|])
    ensures r == [] || !IsSpace(r[0])
    decreases |s|
  {
    if s != [] && IsSpace(s[0]) then
      var r := TrimStart(s[1..]);
      assert s[..|s| - |r|] == [s[0]] + s[1..][..|s| - 1 - |r|];
      r
    else s
  }

  /** `s` with its trailing whitespace removed. */
  function TrimEnd(s: string): (r: string)
    ensures |r| <= |s| && r == s[..|r|]
    ensures AllSpace(s[|r|..])
    ensures r == [] || !IsSpace(r[|r| - 1])
    decreases |s|
  {
    if s != [] && IsSpace(s[|s| - 1]) then
      var r := TrimEnd(s[..|s| - 1]);
      assert s[|r|..] == s[..|s| - 1][|r|..] + [s[|s| - 1]];
      r
    else s
  }

  /** Python's `str.strip()`. */
  function Strip(s: string): (r: string)
    ensures NoEdgeSpace(r)
  {
    TrimEnd(TrimStart(s))
  }

  /** Stripping a string that has no whitespace at its ends leaves it as it is. */
  lemma {:induction false} StripNoEdge(s: string)
    requires NoEdgeSpace(s)
    ensures Strip(s) == s
  {
    assert TrimStart(s) == s;
  }

  /** No character of `w` is whitespace. */
  predicate NoSpaceIn(w: string) {
    forall k :: 0 <= k < |w| ==> !IsSpace(w[k])
  }

  /**
   * Python's `str.split()` with no argument: the maximal runs of characters that
   * are not whitespace, in order.
   */
  function Words(s: string): (ws: seq<string>)
    ensures ws == [] <==> AllSpace(s)
    ensures s != [] && !IsSpace(s[0]) ==> ws != []
    decreases |s|
  {
    if s == [] then []
    else if IsSpace(s[0]) then
      var ws := Words(s[1..]);
      assert AllSpace(s[1..]) ==> AllSpace(s);
      assert AllSpace(s) ==> AllSpace(s[1..]) by {
        if AllSpace(s) {
          forall k | 0 <= k < |s| - 1 ensures IsSpace(s[1..][k]) { assert s[1..][k] == s[k + 1]; }
        }
      }
      ws
    else
      var rest := Words(s[1..]);
      if |s| > 1 && !IsSpace(s[1]) then [[s[0]] + rest[0]] + rest[1..]
      else [[s[0]]] + rest
  }

  /** Every word is non-empty and holds no whitespace; the first word starts where `s` does when `s` starts with one. */
  lemma {:induction false} WordsAreWords(s: string)
    ensures forall w :: w in Words(s) ==> w != [] && NoSpaceIn(w)
    ensures s != [] && !IsSpace(s[0]) ==> Words(s)[0][0] == s[0]
    decreases |s|
  {
    if s != [] {
      WordsAreWords(s[1..]);
      var rest := Words(s[1..]);
      if !IsSpace(s[0]) {
        var ws := Words(s);
        if |s| > 1 && !IsSpace(s[1]) {
          var w := [s[0]] + rest[0];
          assert rest[0] in rest;
          assert NoSpaceIn(w) by {
            forall k | 0 <= k < |w| ensures !IsSpace(w[k]) { if k > 0 { assert w[k] == rest[0][k - 1]; } }
          }
          assert ws == [w] + rest[1..];
          assert forall x :: x in ws ==> x == w || x in rest;
        } else {
          assert ws == [[s[0]]] + rest;
          assert forall x :: x in ws ==> x == [s[0]] || x in rest;
        }
      }
    }
  }

  /** Python's `" ".join(ws)`. */
  function JoinSpaced(ws: seq<string>): string
    decreases |ws|
  {
    if ws == [] then "" else if |ws| == 1 then ws[0] else ws[0] + " " + JoinSpaced(ws[1..])
  }

  /** Joining a word in front of further words puts one space between them. */
  lemma JoinSpacedFront(w: string, ws: seq<string>)
    requires ws != []
    ensures JoinSpaced([w] + ws) == w + " " + JoinSpaced(ws)
  {
    assert ([w] + ws)[1..] == ws;
  }

  /** Putting a character in front of the first word puts it in front of the joined text. */
  lemma JoinSpacedCons(c: char, ws: seq<string>)
    requires ws != []
    ensures JoinSpaced([[c] + ws[0]] + ws[1..]) == [c] + JoinSpaced(ws)
  {
    var vs := [[c] + ws[0]] + ws[1..];
    assert vs[1..] == ws[1..];
  }

  /** Leading whitespace holds no word. */
  lemma {:induction false} WordsTrimStart(s: string)
    ensures Words(TrimStart(s)) == Words(s)
    decreases |s|
  {
    if s != [] && IsSpace(s[0]) {
      WordsTrimStart(s[1..]);
    }
  }

  /** Trailing whitespace holds no word. */
  lemma {:induction false} WordsSpacesAppended(s: string, sp: string)
    requires AllSpace(sp)
    ensures Words(s + sp) == Words(s)
    decreases |s|
  {
    if s == [] {
      assert s + sp == sp;
    } else {
      assert (s + sp)[1..] == s[1..] + sp;
      WordsSpacesAppended(s[1..], sp);
      if |s| == 1 && sp != [] {
        assert (s + sp)[1] == sp[0];
      } else if |s| > 1 {
        assert (s + sp)[1] == s[1];
      }
    }
  }

  /** `str.strip()` changes no word. */
  lemma WordsStrip(s: string)
    ensures Words(Strip(s)) == Words(s)
  {
    WordsTrimStart(s);
    WordsTrimEnd(TrimStart(s));
  }

  /** Trailing whitespace holds no word, so cutting it changes no word. */
  lemma WordsTrimEnd(t: string)
    ensures Words(TrimEnd(t)) == Words(t)
  {
    var r := TrimEnd(t);
    var sp := t[|r|..];
    assert t == r + sp;
    WordsSpacesAppended(r, sp);
  }

  /** Python's `str.lower()` on one character, for the ASCII and Latin-1 letters. */
  function LowerChar(c: char): (r: char)
    ensures ('A' <= c <= 'Z') ==> r as int == c as int + 32
    ensures !('A' <= c <= 'Z') && !('\U{C0}' <= c <= '\U{DE}') ==> r == c
  {
    if ('A' <= c <= 'Z') || ('\U{C0}' <= c <= '\U{DE}' && c != '\U{D7}') then (c as int + 32) as char else c
  }

  function Lower(s: string): (r: string)
    ensures |r| == |s|
    ensures forall i :: 0 <= i < |s| ==> r[i] == LowerChar(s[i])
  {
    seq(|s|, i requires 0 <= i < |s| => LowerChar(s[i]))
  }

  predicate IsPrefix(p: string, s: string) {
    |p| <= |s| && s[..|p|] == p
  }

  /** `needle` occurs in `hay` as a literal, contiguous substring. */
  predicate Contains(hay: string, needle: string)
    decreases |hay|
  {
    IsPrefix(needle, hay) || (hay != [] && Contains(hay[1..], needle))
  }

  predicate OccursAt(hay: string, needle: string, i: int)
    requires 0 <= i <= |hay|
  {
    IsPrefix(needle, hay[i..])
  }

  /** The recursive search agrees with "the needle occurs at some position of `hay`". */
  lemma {:induction false} ContainsAt(hay: string, needle: string)
    ensures Contains(hay, needle) <==> exists i :: 0 <= i <= |hay| && OccursAt(hay, needle, i)
    decreases |hay|
  {
    if IsPrefix(needle, hay) {
      assert OccursAt(hay, needle, 0);
    } else if hay == [] {
    } else {
      ContainsAt(hay[1..], needle);
      if exists i :: 0 <= i <= |hay| && OccursAt(hay, needle, i) {
        var i :| 0 <= i <= |hay| && OccursAt(hay, needle, i);
        assert i != 0;
        assert hay[1..][i - 1..] == hay[i..];
        assert OccursAt(hay[1..], needle, i - 1);
      }
      if Contains(hay[1..], needle) {
        var j :| 0 <= j <= |hay[1..]| && OccursAt(hay[1..], needle, j);
        assert hay[1..][j..] == hay[j + 1..];
        assert OccursAt(hay, needle, j + 1);
      }
    }
  }

  /** Python's `<` on `str`: lexicographic by code point, a proper prefix first. */
  predicate StrLt(a: string, b: string)
    decreases |a|
  {
    b != [] && (a == [] || a[0] < b[0] || (a[0] == b[0] && StrLt(a[1..], b[1..])))
  }

  lemma {:induction false} StrLtIrreflexive(a: string)
    ensures !StrLt(a, a)
    decreases |a|
  {
    if a != [] {
      StrLtIrreflexive(a[1..]);
    }
  }

  lemma {:induction false} StrLtTransitive(a: string, b: string, c: string)
    requires StrLt(a, b) && StrLt(b, c)
    ensures StrLt(a, c)
    decreases |a|
  {
    if a != [] && a[0] == b[0] && b[0] == c[0] {
      StrLtTransitive(a[1..], b[1..], c[1..]);
    }
  }

  lemma {:induction false} StrLtTotal(a: string, b: string)
    ensures a == b || StrLt(a, b) || StrLt(b, a)
    decreases |a|
  {
    if a != [] && b != [] && a[0] == b[0] {
      StrLtTotal(a[1..], b[1..]);
      if a[1..] == b[1..] {
        assert a == [a[0]] + a[1..] && b == [b[0]] + b[1..];
      }
    }
  }

  function DigitChar(d: nat): char
    requires d < 10
  {
    "0123456789"[d]
  }

  predicate IsDigit(c: char) {
    '0' <= c <= '9'
  }

  function DigitValue(c: char): nat
    requires IsDigit(c)
  {
    (c as int - '0' as int) as nat
  }

  predicate AllDigits(s: string) {
    forall i :: 0 <= i < |s| ==> IsDigit(s[i])
  }

  /** Decimal rendering of a natural number, as Python's `str(int)` gives it: no leading zero. */
  function NatToDecimal(n: nat): (r: string)
    ensures r != [] && AllDigits(r)
    ensures r[0] == '0' ==> n == 0 && r == "0"
    decreases n
  {
    if n < 10 then [DigitChar(n)] else NatToDecimal(n / 10) + [DigitChar(n % 10)]
  }

  /** The number a string of decimal digits denotes. */
  function DecimalValue(s: string): nat
    requires AllDigits(s)
    decreases |s|
  {
    if s == [] then 0 else DecimalValue(s[..|s| - 1]) * 10 + DigitValue(s[|s| - 1])
  }

  lemma {:induction false} DecimalRoundTrip(n: nat)
    ensures DecimalValue(NatToDecimal(n)) == n
    decreases n
  {
    var r := NatToDecimal(n);
    if n >= 10 {
      DecimalRoundTrip(n / 10);
      assert r[..|r| - 1] == NatToDecimal(n / 10);
    }
  }

  /** Text of the form `digits` or `-digits`. */
  predicate IsIntText(s: string) {
    s != [] && (AllDigits(s) || (s[0] == '-' && AllDigits(s[1..])))
  }

  /** The digits of an integer text, after its minus sign if it has one. */
  function Magnitude(s: string): string
    requires IsIntText(s)
  {
    if s[0] == '-' then s[1..] else s
  }

  /**
   * Integer text as `str(int)` writes it: at least one digit, no leading zero
   * except in "0" itself, and no "-0".
   */
  predicate CanonicalIntText(s: string) {
    && IsIntText(s)
    && Magnitude(s) != []
    && (Magnitude(s)[0] == '0' ==> s == "0")
  }

  /** Python's `str(int)`: a minus sign for negative numbers, and no leading zero. */
  function IntToDecimal(i: int): (r: string)
    ensures CanonicalIntText(r)
    ensures i >= 0 <==> AllDigits(r)
  {
    if i < 0 then
      var r := "-" + NatToDecimal(-i);
      assert r[1..] == NatToDecimal(-i);
      r
    else NatToDecimal(i)
  }

  /** Reads back an optionally signed decimal integer, as `int(s)` does. */
  function ParseInt(s: string): int
    requires IsIntText(s)
  {
    if s[0] == '-' then -(DecimalValue(s[1..]) as int) else DecimalValue(s)
  }

  lemma {:induction false} IntDecimalRoundTrip(i: int)
    ensures ParseInt(IntToDecimal(i)) == i
  {
    if i < 0 {
      NegativeRoundTrip(-i);
    } else {
      NonNegativeRoundTrip(i);
    }
  }

  /** The text of `-n` is a minus sign before the digits of `n`, and reads back as `-n`. */
  lemma NegativeRoundTrip(n: nat)
    requires n > 0
    ensures ParseInt(IntToDecimal(-(n as int))) == -(n as int)
  {
    var s, d := IntToDecimal(-(n as int)), NatToDecimal(n);
    assert s == "-" + d;
    DecimalRoundTrip(n);
    assert s[1..] == d;
  }

  lemma NonNegativeRoundTrip(i: int)
    requires i >= 0
    ensures ParseInt(IntToDecimal(i)) == i
  {
    var s := IntToDecimal(i);
    assert s == NatToDecimal(i);
    assert IsDigit(s[0]);
    DecimalRoundTrip(i);
  }


  /** A canonical digit string with a digit other than '0' in front denotes a positive number. */
  lemma {:induction false} LeadingDigitPositive(d: string)
    requires AllDigits(d) && d != [] && d[0] != '0'
    ensures DecimalValue(d) >= 1
    decreases |d|
  {
    if |d| > 1 {
      LeadingDigitPositive(d[..|d| - 1]);
    }
  }

  /** Two digit strings without leading zeros that denote the same number are the same string. */
  lemma {:induction false} DecimalUnique(a: string, b: string)
    requires AllDigits(a) && a != [] && (a[0] == '0' ==> a == "0")
    requires AllDigits(b) && b != [] && (b[0] == '0' ==> b == "0")
    requires DecimalValue(a) == DecimalValue(b)
    ensures a == b
    decreases |a|
  {
    var pa, pb := a[..|a| - 1], b[..|b| - 1];
    var la, lb := DigitValue(a[|a| - 1]), DigitValue(b[|b| - 1]);
    assert DecimalValue(a) == DecimalValue(pa) * 10 + la;
    assert DecimalValue(b) == DecimalValue(pb) * 10 + lb;
    assert la == lb && DecimalValue(pa) == DecimalValue(pb);
    assert a[|a| - 1] == b[|b| - 1];
    if |a| > 1 && |b| > 1 {
      DecimalUnique(pa, pb);
      assert a == pa + [a[|a| - 1]] && b == pb + [b[|b| - 1]];
    } else if |a| > 1 {
      LeadingDigitPositive(pa);
      assert false;
    } else if |b| > 1 {
      LeadingDigitPositive(pb);
      assert false;
    }
  }

  /** Canonical integer text is determined by the number it denotes, so `str(int)` has one possible output. */
  lemma CanonicalIntTextUnique(s: string, t: string)
    requires CanonicalIntText(s) && CanonicalIntText(t) && ParseInt(s) == ParseInt(t)
    ensures s == t
  {
    var ms, mt := Magnitude(s), Magnitude(t);
    if s[0] == '-' {
      LeadingDigitPositive(ms);
    }
    if t[0] == '-' {
      LeadingDigitPositive(mt);
    }
    DecimalUnique(ms, mt);
    if s[0] == '-' {
      assert s == "-" + ms && t == "-" + mt;
    }
  }
}

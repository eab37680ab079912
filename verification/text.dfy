/**
 Character classes and string helpers the export needs: the whitespace class
 of JavaScript regular expressions, ASCII lower-casing, the file-name slug,
 and decimal numerals.
 */
module Text {

  /** A character of the `\s` class of JavaScript regular expressions:
      tab, line feed, vertical tab, form feed, carriage return, space, and the
      Unicode space separators, line and paragraph separators and byte-order mark. */
  predicate IsSpace(c: char)
  {
    || '\t' <= c <= '\r'
    || c == ' '
    || c as int == 0x00A0
    || c as int == 0x1680
    || 0x2000 <= c as int <= 0x200A
    || c as int == 0x2028
    || c as int == 0x2029
    || c as int == 0x202F
    || c as int == 0x205F
    || c as int == 0x3000
    || c as int == 0xFEFF
  }

  /** The code points of the `\s` class, listed one by one. */
  const SpaceCodePoints: set<int> := {
    0x0009, 0x000A, 0x000B, 0x000C, 0x000D, 0x0020, 0x00A0, 0x1680,
    0x2000, 0x2001, 0x2002, 0x2003, 0x2004, 0x2005, 0x2006, 0x2007,
    0x2008, 0x2009, 0x200A, 0x2028, 0x2029, 0x202F, 0x205F, 0x3000, 0xFEFF}

  /** The range-based class agrees with the listed code points. */
  lemma IsSpaceMatchesTable(c: char)
    ensures IsSpace(c) <==> c as int in SpaceCodePoints
  {
  }

  predicate IsUpper(c: char)
  {
    'A' <= c <= 'Z'
  }

  predicate NoSpace(s: string)
  {
    forall i :: 0 <= i < |s| ==> !IsSpace(s[i])
  }

  /** ASCII lower-casing of one character; every other character is kept. */
  function LowerChar(c: char): (r: char)
    ensures !IsUpper(r)
    ensures IsUpper(c) ==> 'a' <= r <= 'z' && r as int - 'a' as int == c as int - 'A' as int
    ensures IsSpace(r) <==> IsSpace(c)
    ensures !IsUpper(c) ==> r == c
  {
    if IsUpper(c) then (c as int + 32) as char else c
  }

  function LowerAll(s: string): (r: string)
  {
    seq(|s|, i requires 0 <= i < |s| => LowerChar(s[i]))
  }

  lemma LowerAllCons(w: string)
    requires |w| > 0
    ensures LowerAll(w) == [LowerChar(w[0])] + LowerAll(w[1..])
  {
  }

  /** The rest of `s` after its leading run of whitespace. */
  function DropSpaces(s: string): (r: string)
    ensures |r| <= |s| && r == s[|s| - |r|..]
    ensures forall i :: 0 <= i < |s| - |r| ==> IsSpace(s[i])
    ensures r == [] || !IsSpace(r[0])
  {
    if |s| > 0 && IsSpace(s[0]) then DropSpaces(s[1..]) else s
  }

  /** The name with every run of whitespace replaced by one `-`, then lower-cased. */
  function Slug(s: string): (r: string)
    ensures NoSpace(r)
    ensures forall i :: 0 <= i < |r| ==> !IsUpper(r[i])
    ensures |r| <= |s|
    decreases |s|
  {
    if |s| == 0 then ""
    else if IsSpace(s[0]) then "-" + Slug(DropSpaces(s))
    else [LowerChar(s[0])] + Slug(s[1..])
  }

  lemma {:induction false} DropSpacesBeforeWord(ws: string, rest: string)
    requires forall i :: 0 <= i < |ws| ==> IsSpace(ws[i])
    requires rest == [] || !IsSpace(rest[0])
    ensures DropSpaces(ws + rest) == rest
  {
    if |ws| > 0 {
      assert (ws + rest)[1..] == ws[1..] + rest;
      DropSpacesBeforeWord(ws[1..], rest);
    } else {
      assert ws + rest == rest;
    }
  }

  /** A whitespace run, however long, becomes exactly one `-`. */
  lemma {:induction false} SlugCollapsesRun(ws: string, rest: string)
    requires |ws| > 0 && forall i :: 0 <= i < |ws| ==> IsSpace(ws[i])
    requires rest == [] || !IsSpace(rest[0])
    ensures Slug(ws + rest) == "-" + Slug(rest)
  {
    DropSpacesBeforeWord(ws, rest);
  }

  /** One character that is not whitespace is only lower-cased. */
  lemma SlugCons(c: char, t: string)
    requires !IsSpace(c)
    ensures Slug([c] + t) == [LowerChar(c)] + Slug(t)
  {
    assert ([c] + t)[0] == c;
    assert ([c] + t)[1..] == t;
  }

  lemma ConsAssoc<T>(x: T, a: seq<T>, b: seq<T>)
    ensures [x] + (a + b) == ([x] + a) + b
  {
  }

  /** A stretch without whitespace is only lower-cased. */
  lemma {:induction false} SlugKeepsWord(w: string, rest: string)
    requires NoSpace(w)
    ensures Slug(w + rest) == LowerAll(w) + Slug(rest)
  {
    if |w| > 0 {
      var c, u := w[0], w[1..];
      assert w == [c] + u && !IsSpace(c) && NoSpace(u);
      assert w + rest == [c] + (u + rest);
      SlugCons(c, u + rest);
      SlugKeepsWord(u, rest);
      LowerAllCons(w);
      ConsAssoc(LowerChar(c), LowerAll(u), Slug(rest));
    } else {
      assert w + rest == rest;
    }
  }

  /** A name without whitespace only changes case. */
  lemma {:induction false} SlugOfWord(w: string)
    requires NoSpace(w)
    ensures Slug(w) == LowerAll(w)
  {
    SlugKeepsWord(w, "");
    assert w + "" == w;
  }

  function DigitChar(d: nat): (c: char)
    requires d < 10
  {
    ('0' as int + d) as char
  }

  predicate IsDigit(c: char)
  {
    '0' <= c <= '9'
  }

  /** The decimal numeral of `n`, as a template literal prints an integer. */
  function NatToString(n: nat): (r: string)
    ensures |r| > 0
    ensures forall i :: 0 <= i < |r| ==> IsDigit(r[i])
    ensures r[0] == '0' ==> n == 0 && r == "0"
    decreases n
  {
    if n < 10 then [DigitChar(n)] else NatToString(n / 10) + [DigitChar(n % 10)]
  }

  /** The number a string of decimal digits denotes. */
  function DigitsValue(s: string): nat
    requires forall i :: 0 <= i < |s| ==> IsDigit(s[i])
  {
    if |s| == 0 then 0
    else
      var d := s[|s| - 1];
      assert IsDigit(d);
      DigitsValue(s[..|s| - 1]) * 10 + (d as int - '0' as int)
  }

  /** Reading the numeral back gives the number. */
  lemma {:induction false} NatToStringRoundTrip(n: nat)
    ensures DigitsValue(NatToString(n)) == n
  {
    if n >= 10 {
      var r := NatToString(n);
      assert r[..|r| - 1] == NatToString(n / 10);
      NatToStringRoundTrip(n / 10);
    }
  }
}

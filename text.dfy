/** The string operations the views use: case-insensitive containment (the
    database's `icontains`, ASCII case folding only), `str.startswith`,
    `str(int)` and `str.title()`, all over ASCII letters. */
module Text {

  predicate IsUpper(c: char) { 'A' <= c <= 'Z' }

  predicate IsLower(c: char) { 'a' <= c <= 'z' }

  function Lower(c: char): (d: char)
    ensures !IsUpper(d)
    ensures !IsUpper(c) ==> d == c
  {
    if IsUpper(c) then (c as int + 32) as char else c
  }

  function Upper(c: char): (d: char)
    ensures !IsLower(d)
    ensures Lower(d) == Lower(c)
  {
    if IsLower(c) then (c as int - 32) as char else c
  }

  /** ASCII lower-casing of a whole string */
  function LowerStr(s: string): (r: string)
    ensures |r| == |s|
    ensures forall i :: 0 <= i < |s| ==> r[i] == Lower(s[i])
  {
    if s == [] then [] else [Lower(s[0])] + LowerStr(s[1..])
  }

  /** `s.startswith(prefix)` */
  predicate StartsWith(s: string, prefix: string) {
    |prefix| <= |s| && s[..|prefix|] == prefix
  }

  /** `needle` occurs in `hay` starting at position `i` */
  predicate OccursAt(needle: string, hay: string, i: int) {
    0 <= i <= |hay| - |needle| && hay[i..i + |needle|] == needle
  }

  /** `needle` occurs in `hay` at some position */
  ghost predicate Occurs(needle: string, hay: string) {
    exists i :: OccursAt(needle, hay, i)
  }

  /** Substring search, tried at each position in turn */
  function Contains(hay: string, needle: string): (b: bool)
    ensures b <==> Occurs(needle, hay)
  {
    if StartsWith(hay, needle) then
      assert OccursAt(needle, hay, 0);
      true
    else if hay == [] then false
    else
      var b := Contains(hay[1..], needle);
      assert b ==> Occurs(needle, hay) by {
        if b {
          var i :| OccursAt(needle, hay[1..], i);
          assert hay[i + 1..i + 1 + |needle|] == needle;
          assert OccursAt(needle, hay, i + 1);
        }
      }
      assert Occurs(needle, hay) ==> b by {
        if Occurs(needle, hay) {
          var i :| OccursAt(needle, hay, i);
          assert i != 0;
          assert hay[1..][i - 1..i - 1 + |needle|] == needle;
          assert OccursAt(needle, hay[1..], i - 1);
        }
      }
      b
  }

  /** `needle` starts `hay`, ignoring ASCII case */
  predicate IStartsWith(hay: string, needle: string) {
    |needle| <= |hay| && forall i :: 0 <= i < |needle| ==> Lower(hay[i]) == Lower(needle[i])
  }

  /** The database's `field__icontains=needle`, with ASCII case folding:
      the needle is tried at each position of the field in turn */
  function IContains(hay: string, needle: string): bool {
    if IStartsWith(hay, needle) then true
    else if hay == [] then false
    else IContains(hay[1..], needle)
  }

  /** A case-blind prefix is a prefix of the lower-cased strings. */
  lemma IStartsWithLower(hay: string, needle: string)
    ensures IStartsWith(hay, needle) <==> OccursAt(LowerStr(needle), LowerStr(hay), 0)
  {
    var n := LowerStr(needle);
    var h := LowerStr(hay);
    if IStartsWith(hay, needle) {
      assert h[0..|n|] == n;
    }
    if OccursAt(n, h, 0) {
      forall i | 0 <= i < |needle| ensures Lower(hay[i]) == Lower(needle[i]) {
        assert h[0..|n|][i] == n[i];
      }
    }
  }

  /** An occurrence past the first position is an occurrence in the tail. */
  lemma OccursInTail(n: string, h: string)
    requires h != [] && !OccursAt(n, h, 0)
    ensures Occurs(n, h) <==> Occurs(n, h[1..])
  {
    if Occurs(n, h[1..]) {
      var i :| OccursAt(n, h[1..], i);
      assert h[i + 1..i + 1 + |n|] == h[1..][i..i + |n|];
      assert OccursAt(n, h, i + 1);
    }
    if Occurs(n, h) {
      var i :| OccursAt(n, h, i);
      assert h[1..][i - 1..i - 1 + |n|] == h[i..i + |n|];
      assert OccursAt(n, h[1..], i - 1);
    }
  }

  /** `icontains` is substring search on the lower-cased strings. */
  lemma {:induction false} IContainsOccurs(hay: string, needle: string)
    ensures IContains(hay, needle) <==> Occurs(LowerStr(needle), LowerStr(hay))
  {
    IStartsWithLower(hay, needle);
    if !IStartsWith(hay, needle) {
      if hay == [] {
        assert forall i :: !OccursAt(LowerStr(needle), LowerStr(hay), i);
      } else {
        IContainsOccurs(hay[1..], needle);
        assert LowerStr(hay[1..]) == LowerStr(hay)[1..];
        OccursInTail(LowerStr(needle), LowerStr(hay));
      }
    }
  }

  /** The decimal digits of `n`, as `str(n)` writes them */
  function NatToString(n: nat): (s: string)
    ensures |s| >= 1
    ensures forall i :: 0 <= i < |s| ==> '0' <= s[i] <= '9'
    ensures n >= 10 ==> s[0] != '0'
  {
    var d := ['0' + (n % 10) as char];
    if n < 10 then d else NatToString(n / 10) + d
  }

  /** The number a string of decimal digits spells */
  function DigitsValue(s: string): int
    requires forall i :: 0 <= i < |s| ==> '0' <= s[i] <= '9'
  {
    if s == [] then 0 else 10 * DigitsValue(s[..|s| - 1]) + (s[|s| - 1] - '0') as int
  }

  /** `str(n)` spells `n`. */
  lemma {:induction false} NatToStringValue(n: nat)
    ensures DigitsValue(NatToString(n)) == n
  {
    var s := NatToString(n);
    if n >= 10 {
      NatToStringValue(n / 10);
      assert s[..|s| - 1] == NatToString(n / 10);
    }
  }

  predicate IsLetter(c: char) { IsUpper(c) || IsLower(c) }

  /** `str.title()` over ASCII: a letter that follows a letter is lowered,
      any other letter is raised. */
  function TitleFrom(s: string, afterLetter: bool): (r: string)
    ensures |r| == |s|
    ensures LowerStr(r) == LowerStr(s)
  {
    if s == [] then []
    else
      var c := if afterLetter then Lower(s[0]) else Upper(s[0]);
      var r := [c] + TitleFrom(s[1..], IsLetter(s[0]));
      assert LowerStr(r) == [Lower(c)] + LowerStr(TitleFrom(s[1..], IsLetter(s[0])));
      assert LowerStr(s) == [Lower(s[0])] + LowerStr(s[1..]);
      r
  }

  function Title(s: string): string {
    TitleFrom(s, false)
  }

  /** Strings with no upper-case letter keep their identity through `title()`:
      two different such strings never get the same title. */
  lemma TitleInjective(a: string, b: string)
    requires forall i :: 0 <= i < |a| ==> !IsUpper(a[i])
    requires forall i :: 0 <= i < |b| ==> !IsUpper(b[i])
    requires Title(a) == Title(b)
    ensures a == b
  {
    assert LowerStr(a) == a;
    assert LowerStr(b) == b;
  }
}

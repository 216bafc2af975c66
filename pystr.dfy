/** The Python `str` methods the geocoding client relies on: `lower`,
    `upper` (restricted to ASCII letters), `join`, `replace` of one
    character by another, and argument-less `strip`. */
module PyStr {

  /* ---------------------------------------------------------------- case */

  function LowerChar(c: char): char
  {
    if 'A' <= c <= 'Z' then (c as int + 32) as char else c
  }

  function UpperChar(c: char): char
  {
    if 'a' <= c <= 'z' then (c as int - 32) as char else c
  }

  /** `s.lower()` on ASCII letters; every other character is kept. */
  function Lower(s: string): (r: string)
    ensures |r| == |s|
    ensures forall i :: 0 <= i < |s| ==> r[i] == LowerChar(s[i])
  {
    seq(|s|, i requires 0 <= i < |s| => LowerChar(s[i]))
  }

  /** `s.upper()` on ASCII letters; every other character is kept. */
  function Upper(s: string): (r: string)
    ensures |r| == |s|
    ensures forall i :: 0 <= i < |s| ==> r[i] == UpperChar(s[i])
  {
    seq(|s|, i requires 0 <= i < |s| => UpperChar(s[i]))
  }

  /** Two strings that differ only in the case of their letters. */
  predicate EqualIgnoringCase(s: string, t: string)
  {
    Lower(s) == Lower(t)
  }

  /** Lower-casing forgets any earlier upper-casing, and the other way round. */
  lemma LowerUpper(s: string)
    ensures Lower(Upper(s)) == Lower(s)
    ensures Upper(Lower(s)) == Upper(s)
  {
    assert forall i :: 0 <= i < |s| ==> Lower(Upper(s))[i] == Lower(s)[i];
    assert forall i :: 0 <= i < |s| ==> Upper(Lower(s))[i] == Upper(s)[i];
  }

  /** A string with no upper-case letter is its own lower-case form. */
  lemma LowerOfLowerCase(s: string)
    requires forall i :: 0 <= i < |s| ==> !('A' <= s[i] <= 'Z')
    ensures Lower(s) == s
  {
  }

  /** A string with no lower-case letter is its own upper-case form. */
  lemma UpperOfUpperCase(s: string)
    requires forall i :: 0 <= i < |s| ==> !('a' <= s[i] <= 'z')
    ensures Upper(s) == s
  {
  }

  /** Case-insensitive equality with an upper-case string `t` is the same as
      upper-casing to `t`. */
  lemma EqualIgnoringCaseUpper(s: string, t: string)
    requires forall i :: 0 <= i < |t| ==> !('a' <= t[i] <= 'z')
    ensures EqualIgnoringCase(s, t) <==> Upper(s) == t
  {
    LowerUpper(s);
    LowerUpper(t);
    UpperOfUpperCase(t);
  }

  /* ---------------------------------------------------------------- join */

  /** `sep.join(parts)`. */
  function Join(sep: string, parts: seq<string>): (r: string)
    ensures parts == [] ==> r == []
  {
    if parts == [] then []
    else if |parts| == 1 then parts[0]
    else parts[0] + sep + Join(sep, parts[1..])
  }

  /** Joining three parts puts the separator between each pair. */
  lemma JoinThree(sep: string, a: string, b: string, c: string)
    ensures Join(sep, [a, b, c]) == a + sep + b + sep + c
  {
    assert [a, b, c][1..] == [b, c];
    JoinTwo(sep, b, c);
  }

  /** Joining two parts puts the separator between them. */
  lemma JoinTwo(sep: string, a: string, b: string)
    ensures Join(sep, [a, b]) == a + sep + b
  {
    assert [a, b][1..] == [b];
  }

  /* ------------------------------------------------------------- replace */

  /** `s.replace(from, to)` for one-character `from` and `to`. */
  function ReplaceChar(s: string, from: char, to: char): (r: string)
    ensures |r| == |s|
    ensures forall i :: 0 <= i < |s| ==> r[i] == if s[i] == from then to else s[i]
  {
    seq(|s|, i requires 0 <= i < |s| => if s[i] == from then to else s[i])
  }

  /** After the replacement no `from` is left (unless `from` is `to`). */
  lemma ReplaceCharRemoves(s: string, from: char, to: char)
    requires from != to
    ensures from !in ReplaceChar(s, from, to)
  {
  }

  /** Replacing back restores the string when `to` did not occur in it. */
  lemma ReplaceCharRoundTrip(s: string, from: char, to: char)
    requires to !in s
    ensures ReplaceChar(ReplaceChar(s, from, to), to, from) == s
  {
  }

  /** The replacement works character by character, so it distributes over
      concatenation. */
  lemma ReplaceCharConcat(a: string, b: string, from: char, to: char)
    ensures ReplaceChar(a + b, from, to) == ReplaceChar(a, from, to) + ReplaceChar(b, from, to)
  {
  }

  /** A string without `from` is left as it is. */
  lemma ReplaceCharAbsent(s: string, from: char, to: char)
    requires from !in s
    ensures ReplaceChar(s, from, to) == s
  {
  }

  /* --------------------------------------------------------------- strip */

  /** `c.isspace()` in Python 3: the code points `str.strip()` removes. */
  predicate IsSpace(c: char)
  {
    var n := c as int;
    (9 <= n <= 13) || (28 <= n <= 32) || n == 0x85 || n == 0xA0 || n == 0x1680
    || (0x2000 <= n <= 0x200A) || n == 0x2028 || n == 0x2029 || n == 0x202F
    || n == 0x205F || n == 0x3000
  }

  /** Neither starts nor ends with whitespace. */
  predicate Trimmed(s: string)
  {
    s == [] || (!IsSpace(s[0]) && !IsSpace(s[|s| - 1]))
  }

  /** `s.lstrip()`: the suffix left after dropping leading whitespace. */
  function StripStart(s: string): (r: string)
    ensures |r| <= |s| && r == s[|s| - |r|..]
    ensures forall i :: 0 <= i < |s| - |r| ==> IsSpace(s[i])
    ensures r != [] ==> !IsSpace(r[0])
  {
    if s != [] && IsSpace(s[0]) then StripStart(s[1..]) else s
  }

  /** `s.rstrip()`: the prefix left after dropping trailing whitespace. */
  function StripEnd(s: string): (r: string)
    ensures |r| <= |s| && r == s[..|r|]
    ensures forall i :: |r| <= i < |s| ==> IsSpace(s[i])
    ensures r != [] ==> !IsSpace(r[|r| - 1])
  {
    if s != [] && IsSpace(s[|s| - 1]) then StripEnd(s[..|s| - 1]) else s
  }

  /** `s.strip()`: the slice `s[lo..hi]` left after dropping whitespace at
      both ends; everything dropped is whitespace and the slice is trimmed. */
  function Strip(s: string): (r: string)
    ensures Trimmed(r)
    ensures exists lo, hi ::
              && 0 <= lo <= hi <= |s| && r == s[lo..hi]
              && (forall i :: 0 <= i < lo ==> IsSpace(s[i]))
              && (forall i :: hi <= i < |s| ==> IsSpace(s[i]))
  {
    var t := StripStart(s);
    var r := StripEnd(t);
    assert r == s[|s| - |t|..|s| - |t| + |r|];
    r
  }

  /** A string is already stripped exactly when it is trimmed. */
  lemma StripTrimmed(s: string)
    ensures Strip(s) == s <==> Trimmed(s)
  {
  }

  /** Joining two trimmed words with one space and stripping gives the two
      words joined by that space, or the non-empty one alone. */
  lemma StripJoinedWords(a: string, b: string)
    requires Trimmed(a) && Trimmed(b)
    ensures Strip(a + " " + b) == if a == [] then b else if b == [] then a else a + " " + b
  {
    var s := a + " " + b;
    if a == [] {
      assert s == " " + b;
      assert StripStart(s) == StripStart(s[1..]);
      assert s[1..] == b;
      StripTrimmed(b);
    } else if b == [] {
      assert s == a + " ";
      assert StripEnd(s) == StripEnd(s[..|s| - 1]);
      assert s[..|s| - 1] == a;
      StripTrimmed(a);
    } else {
      StripTrimmed(s);
    }
  }
}

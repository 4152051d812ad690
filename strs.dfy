/** Text helpers with the semantics of Rust's `str` methods used by the
    source: `split` on characters, `trim`, `find`, decimal `to_string` and
    `parse::<usize>`.  Strings are sequences of characters; only ASCII
    whitespace and digits are considered. */
module Strs {
  import opened Wrappers

  predicate IsSpace(c: char) { c == ' ' || c == '\t' || c == '\n' || c == '\r' }
  predicate IsDigit(c: char) { '0' <= c <= '9' }

  /** `s.split(|c| c in seps)`: always at least one piece, pieces hold no separator. */
  function SplitBy(s: string, seps: set<char>): (r: seq<string>)
    ensures |r| >= 1
    ensures forall i, j :: 0 <= i < |r| && 0 <= j < |r[i]| ==> r[i][j] !in seps
  {
    if s == [] then [""]
    else if s[0] in seps then [""] + SplitBy(s[1..], seps)
    else
      var rest := SplitBy(s[1..], seps);
      [[s[0]] + rest[0]] + rest[1..]
  }

  function Split(s: string, c: char): (r: seq<string>)
    ensures |r| >= 1
  {
    SplitBy(s, {c})
  }

  /** Joins pieces with one separator character between each two. */
  function Join(pieces: seq<string>, c: char): string
  {
    if |pieces| == 0 then ""
    else if |pieces| == 1 then pieces[0]
    else pieces[0] + [c] + Join(pieces[1..], c)
  }

  /** Splitting and joining again gives back the text. */
  lemma {:induction false} SplitJoin(s: string, c: char)
    ensures Join(Split(s, c), c) == s
  {
    if s != [] {
      SplitJoin(s[1..], c);
      var rest := Split(s[1..], c);
      if s[0] != c {
        if |rest| == 1 {
        } else {
          assert Join(rest, c) == rest[0] + [c] + Join(rest[1..], c);
          assert s == [s[0]] + s[1..];
        }
      }
    }
  }

  /** A leading run without separators extends the first piece. */
  lemma {:induction false} SplitByPrefix(a: string, s: string, seps: set<char>)
    requires forall i :: 0 <= i < |a| ==> a[i] !in seps
    ensures SplitBy(a + s, seps) == [a + SplitBy(s, seps)[0]] + SplitBy(s, seps)[1..]
  {
    if a == [] {
      assert a + s == s;
      assert a + SplitBy(s, seps)[0] == SplitBy(s, seps)[0];
      assert SplitBy(s, seps) == [SplitBy(s, seps)[0]] + SplitBy(s, seps)[1..];
    } else {
      assert (a + s)[1..] == a[1..] + s;
      assert (a + s)[0] == a[0];
      SplitByPrefix(a[1..], s, seps);
      var rest := SplitBy(a[1..] + s, seps);
      assert SplitBy(a + s, seps) == [[a[0]] + rest[0]] + rest[1..];
      assert rest[0] == a[1..] + SplitBy(s, seps)[0];
      assert rest[1..] == SplitBy(s, seps)[1..];
      assert [a[0]] + (a[1..] + SplitBy(s, seps)[0]) == a + SplitBy(s, seps)[0];
    }
  }

  /** Joining pieces free of the separator and splitting again gives the pieces back. */
  lemma {:induction false} JoinSplit(pieces: seq<string>, c: char)
    requires |pieces| >= 1
    requires forall k, i :: 0 <= k < |pieces| && 0 <= i < |pieces[k]| ==> pieces[k][i] != c
    ensures Split(Join(pieces, c), c) == pieces
  {
    if |pieces| == 1 {
      SplitByPrefix(pieces[0], "", {c});
      assert pieces[0] + "" == pieces[0];
    } else {
      var rest := Join(pieces[1..], c);
      JoinSplit(pieces[1..], c);
      assert Join(pieces, c) == pieces[0] + ([c] + rest);
      SplitByPrefix(pieces[0], [c] + rest, {c});
      assert ([c] + rest)[1..] == rest;
      assert SplitBy([c] + rest, {c}) == [""] + pieces[1..];
      assert pieces[0] + "" == pieces[0];
      assert pieces == [pieces[0]] + pieces[1..];
    }
  }

  /** Joining one more piece appends a separator and the piece. */
  lemma {:induction false} JoinSnoc(pieces: seq<string>, x: string, c: char)
    requires |pieces| >= 1
    ensures Join(pieces + [x], c) == Join(pieces, c) + [c] + x
  {
    if |pieces| == 1 {
      assert (pieces + [x])[1..] == [x];
    } else {
      assert (pieces + [x])[1..] == pieces[1..] + [x];
      JoinSnoc(pieces[1..], x, c);
    }
  }

  predicate OccursAt(s: string, pat: string, k: nat)
  {
    k + |pat| <= |s| && s[k..k + |pat|] == pat
  }

  /** The first position at or after `i` where `pat` occurs in `s`, if any. */
  function FindFrom(s: string, pat: string, i: nat): (r: Option<nat>)
    requires |pat| > 0
    ensures r.Some? ==> i <= r.value && OccursAt(s, pat, r.value)
    ensures r.Some? ==> forall k: nat :: i <= k < r.value ==> !OccursAt(s, pat, k)
    ensures r.None? ==> forall k: nat :: i <= k ==> !OccursAt(s, pat, k)
    decreases |s| - i
  {
    if |s| < i + |pat| then None
    else if OccursAt(s, pat, i) then Some(i)
    else FindFrom(s, pat, i + 1)
  }

  /** The first position where `pat` occurs in `s`, if any. */
  function Find(s: string, pat: string): (r: Option<nat>)
    requires |pat| > 0
    ensures r.Some? ==> OccursAt(s, pat, r.value)
    ensures r.Some? ==> forall k: nat :: k < r.value ==> !OccursAt(s, pat, k)
    ensures r.None? ==> forall k: nat :: !OccursAt(s, pat, k)
  {
    FindFrom(s, pat, 0)
  }

  /** `s.split(pat)` for a multi-character pattern, left to right. */
  function SplitStr(s: string, pat: string): (r: seq<string>)
    requires |pat| > 0
    ensures |r| >= 1
    decreases |s|
  {
    match Find(s, pat)
    case None => [s]
    case Some(k) => [s[..k]] + SplitStr(s[k + |pat|..], pat)
  }

  predicate Contains(s: string, pat: string)
    requires |pat| > 0
  {
    Find(s, pat).Some?
  }

  function TrimStart(s: string): (r: string)
    ensures |r| <= |s| && r == s[|s| - |r|..]
    ensures r == [] || !IsSpace(r[0])
  {
    if s != [] && IsSpace(s[0]) then TrimStart(s[1..]) else s
  }

  function TrimEnd(s: string): (r: string)
    ensures |r| <= |s| && r == s[..|r|]
    ensures r == [] || !IsSpace(r[|r| - 1])
  {
    if s != [] && IsSpace(s[|s| - 1]) then TrimEnd(s[..|s| - 1]) else s
  }

  /** `str::trim` */
  function Trim(s: string): string
  {
    TrimEnd(TrimStart(s))
  }

  /** `str::trim_matches(c)` for a single character. */
  function TrimChar(s: string, c: char): (r: string)
    ensures r == [] || (r[0] != c && r[|r| - 1] != c)
    ensures |r| <= |s|
  {
    if s != [] && s[0] == c then TrimChar(s[1..], c)
    else if s != [] && s[|s| - 1] == c then TrimChar(s[..|s| - 1], c)
    else s
  }

  function DigitChar(d: nat): char
    requires d < 10
  {
    ('0' as int + d) as char
  }

  /** Decimal text of a natural number, as `usize::to_string`. */
  function NatToString(n: nat): (r: string)
    ensures |r| >= 1
    ensures forall i :: 0 <= i < |r| ==> IsDigit(r[i])
    decreases n
  {
    if n < 10 then [DigitChar(n)] else NatToString(n / 10) + [DigitChar(n % 10)]
  }

  function DigitOf(c: char): (d: nat)
    requires IsDigit(c)
    ensures d < 10 && DigitChar(d) == c
  {
    c as int - '0' as int
  }

  function DigitsValue(s: string): nat
    requires forall i :: 0 <= i < |s| ==> IsDigit(s[i])
  {
    if s == [] then 0 else 10 * DigitsValue(s[..|s| - 1]) + DigitOf(s[|s| - 1])
  }

  /** `s.parse::<usize>()`: an optional '+' and at least one digit. */
  function ParseNat(s: string): (r: Option<nat>)
    ensures r.Some? ==> |s| > 0
  {
    var digits := if |s| > 0 && s[0] == '+' then s[1..] else s;
    if |digits| > 0 && forall i :: 0 <= i < |digits| ==> IsDigit(digits[i])
    then Some(DigitsValue(digits)) else None
  }

  lemma {:induction false} DigitsValueOfNat(n: nat)
    ensures DigitsValue(NatToString(n)) == n
    decreases n
  {
    if n >= 10 {
      DigitsValueOfNat(n / 10);
      var s := NatToString(n);
      assert s[..|s| - 1] == NatToString(n / 10);
      assert DigitOf(s[|s| - 1]) == n % 10;
    }
  }

  /** `to_string` followed by `parse` gives the number back. */
  lemma ParseNatToString(n: nat)
    ensures ParseNat(NatToString(n)) == Some(n)
  {
    DigitsValueOfNat(n);
  }

  /** Keeps the characters that are not in `drop`, in order. */
  function Remove(s: string, drop: set<char>): (r: string)
    ensures |r| <= |s|
    ensures forall i :: 0 <= i < |r| ==> r[i] !in drop
  {
    if s == [] then []
    else (if s[0] in drop then [] else [s[0]]) + Remove(s[1..], drop)
  }
}

/** The list of recent entries kept in a text file (saved commands, recently
    opened layouts), and the line breaking used for long labels. */
module Utils {
  import opened Wrappers
  import opened Strs

  // ---------------------------------------------------------------------
  // The text of the file

  /** The file text of a list: every entry followed by a newline. */
  function Render(lines: seq<string>): string
  {
    Join(lines + [""], '\n')
  }

  function StripCr(l: string): (r: string)
    ensures |r| <= |l|
  {
    if |l| > 0 && l[|l| - 1] == '\r' then l[..|l| - 1] else l
  }

  function StripAll(ls: seq<string>): (r: seq<string>)
    ensures |r| == |ls| && forall i :: 0 <= i < |ls| ==> r[i] == StripCr(ls[i])
  {
    if |ls| == 0 then [] else StripAll(ls[..|ls| - 1]) + [StripCr(ls[|ls| - 1])]
  }

  /** `str::lines`: the text cut at each newline, a carriage return before
      a newline dropped, and no empty line after a final newline. */
  function LinesOf(content: string): seq<string>
  {
    var pieces := Split(content, '\n');
    var n := |pieces| - 1;
    StripAll(pieces[..n]) + (if pieces[n] == "" then [] else [pieces[n]])
  }

  /** Entries the file text can carry: no newline inside, no carriage
      return at the end. */
  predicate Clean(lines: seq<string>)
  {
    forall k :: 0 <= k < |lines| ==> '\n' !in lines[k] && StripCr(lines[k]) == lines[k]
  }

  /** Reading back the text of a list gives the list. */
  lemma RenderLines(lines: seq<string>)
    requires Clean(lines)
    ensures LinesOf(Render(lines)) == lines
  {
    var ps := lines + [""];
    assert forall k, i :: 0 <= k < |ps| && 0 <= i < |ps[k]| ==> ps[k][i] != '\n' by {
      forall k, i | 0 <= k < |ps| && 0 <= i < |ps[k]|
        ensures ps[k][i] != '\n'
      {
        assert ps[k] == lines[k];
        assert ps[k][i] in lines[k];
      }
    }
    JoinSplit(ps, '\n');
    assert ps[..|ps| - 1] == lines;
    assert StripAll(lines) == lines;
  }

  /** Writing a text at the start of a file opened without truncation: the
      bytes past the new text stay. */
  function Overwrite(file: string, text: string): (r: string)
    ensures |r| == if |text| >= |file| then |text| else |file|
    ensures text <= r
  {
    if |text| >= |file| then text else text + file[|text|..]
  }

  /** As written, removing the first of two entries of equal length
      leaves the second entry's old bytes behind, and the next load sees
      the second entry twice (the file "abc\ndef\n" becomes "def\ndef\n"). */
  lemma OverwriteKeepsStaleLines(a: string, b: string)
    requires '\n' !in a && StripCr(a) == a && '\n' !in b && StripCr(b) == b && |a| == |b|
    ensures LinesOf(Render([a, b])) == [a, b]
    ensures RemoveFirst([a, b], a) == [b]
    ensures LinesOf(Overwrite(Render([a, b]), Render([b]))) == [b, b]
  {
    RemoveFirstHead([a, b], a);
    assert [a, b][1..] == [b];
    RenderPair(a, b);
    StaleTail(a, b);
    RenderPair(b, b);
  }

  /** Writing the one-entry text over the two-entry text of equal-length
      entries leaves the two-entry text of the second entry. */
  lemma StaleTail(a: string, b: string)
    requires '\n' !in a && StripCr(a) == a && '\n' !in b && StripCr(b) == b && |a| == |b|
    ensures Overwrite(Render([a, b]), Render([b])) == Render([b, b])
  {
    RenderPairText(a, b);
    RenderPairText(b, b);
    RenderOneText(b);
    OverwriteEqualHead(a, b);
  }

  /** A text of two equal-length lines overwritten by the second line alone. */
  lemma OverwriteEqualHead(a: string, b: string)
    requires |a| == |b|
    ensures Overwrite(a + "\n" + b + "\n", b + "\n") == b + "\n" + b + "\n"
  {
    var file := a + "\n" + b + "\n";
    assert file[|b| + 1..] == b + "\n";
  }

  lemma RenderOneText(a: string)
    ensures Render([a]) == a + "\n"
  {
    JoinSnoc([a], "", '\n');
  }

  lemma RenderPairText(a: string, b: string)
    ensures Render([a, b]) == a + "\n" + b + "\n"
  {
    JoinSnoc([a], b, '\n');
    assert [a, b] == [a] + [b];
    JoinSnoc([a, b], "", '\n');
  }

  lemma RenderOne(a: string)
    requires '\n' !in a && StripCr(a) == a
    ensures Render([a]) == a + "\n"
    ensures LinesOf(a + "\n") == [a]
  {
    RenderOneText(a);
    RenderLines([a]);
  }

  lemma RenderPair(a: string, b: string)
    requires '\n' !in a && StripCr(a) == a
    requires '\n' !in b && StripCr(b) == b
    ensures Render([a, b]) == a + "\n" + b + "\n"
    ensures LinesOf(a + "\n" + b + "\n") == [a, b]
  {
    RenderPairText(a, b);
    RenderLines([a, b]);
  }

  // ---------------------------------------------------------------------
  // The recent list

  /** The entry list without its first occurrence of x. */
  function RemoveFirst(lines: seq<string>, x: string): (r: seq<string>)
    ensures x in lines ==> |r| == |lines| - 1 && multiset(r) + multiset{x} == multiset(lines)
    ensures x !in lines ==> r == lines
  {
    if |lines| == 0 then []
    else
      assert lines == [lines[0]] + lines[1..];
      if lines[0] == x then lines[1..]
      else
      var rest := RemoveFirst(lines[1..], x);
      assert x in lines ==> x in lines[1..];
      assert multiset([lines[0]] + rest) == multiset{lines[0]} + multiset(rest);
      [lines[0]] + rest
  }

  lemma RemoveFirstHead(lines: seq<string>, x: string)
    requires |lines| > 0 && lines[0] == x
    ensures RemoveFirst(lines, x) == lines[1..]
  {
  }

  /** push_recent: the path moves to the end; once the list reaches mem
      entries the oldest goes. */
  function Pushed(lines: seq<string>, path: string, mem: nat): (r: seq<string>)
    ensures |r| > 0 ==> r[|r| - 1] == path
  {
    var moved := RemoveFirst(lines, path) + [path];
    if |moved| >= mem then moved[1..] else moved
  }

  /** A list below its size stays below it, and keeps the path last. */
  lemma PushedBelowMem(lines: seq<string>, path: string, mem: nat)
    requires |lines| < mem
    ensures |Pushed(lines, path, mem)| < mem
    ensures mem >= 2 ==> |Pushed(lines, path, mem)| >= 1 && Pushed(lines, path, mem)[|Pushed(lines, path, mem)| - 1] == path
  {
  }

  predicate Distinct(lines: seq<string>)
  {
    forall i, j :: 0 <= i < j < |lines| ==> lines[i] != lines[j]
  }

  /** Pushing keeps a list free of repeated entries. */
  lemma PushedNoDuplicates(lines: seq<string>, path: string, mem: nat)
    requires Distinct(lines)
    ensures Distinct(Pushed(lines, path, mem))
  {
    var rest := RemoveFirst(lines, path);
    RemoveFirstDistinct(lines, path);
    var moved := rest + [path];
    assert forall i, j :: 0 <= i < j < |moved| ==> moved[i] != moved[j] by {
      forall i, j | 0 <= i < j < |moved|
        ensures moved[i] != moved[j]
      {
        if j == |rest| {
          assert moved[i] == rest[i];
          assert rest[i] in rest;
        }
      }
    }
    if |moved| >= mem {
      assert forall k :: 0 <= k < |moved| - 1 ==> moved[1..][k] == moved[k + 1];
    }
  }

  /** Removing from a list free of repeats leaves none, and no x. */
  lemma RemoveFirstDistinct(lines: seq<string>, x: string)
    requires Distinct(lines)
    ensures x !in RemoveFirst(lines, x) && Distinct(RemoveFirst(lines, x))
  {
    var pos := IndexOf(lines, x);
    if pos.Some? {
      var p := pos.value;
      RemoveAt(lines, x, p);
      var r := lines[..p] + lines[p + 1..];
      assert forall k :: 0 <= k < |r| ==> r[k] == lines[if k < p then k else k + 1];
      forall i, j | 0 <= i < j < |r|
        ensures r[i] != r[j]
      {
        var fi := if i < p then i else i + 1;
        var fj := if j < p then j else j + 1;
        assert fi < fj;
      }
      forall k | 0 <= k < |r|
        ensures r[k] != x
      {
        var fk := if k < p then k else k + 1;
        assert fk != p;
      }
    }
  }

  /** RecentList: the entries, how many of them are kept, and the text of
      the file behind them. The file is rewritten from its start with the
      whole list after every change, and cut to the new text. */
  class RecentList {
    var lines: seq<string>
    var mem: nat
    var file: string

    /** new: the list as read from the file. */
    constructor(content: string, mem: nat)
      ensures lines == LinesOf(content) && this.mem == mem && file == content
    {
      lines := LinesOf(content);
      this.mem := mem;
      file := content;
    }

    method PushRecent(path: string)
      modifies this
      ensures lines == Pushed(old(lines), path, mem) && mem == old(mem)
      ensures file == Render(lines)
    {
      var pos := IndexOf(lines, path);
      if pos.Some? {
        lines := lines[..pos.value] + lines[pos.value + 1..];
        RemoveAt(old(lines), path, pos.value);
      }
      lines := lines + [path];
      if |lines| >= mem {
        lines := lines[1..];
      }
      file := Render(lines);
    }

    method Remove(txt: string)
      modifies this
      ensures lines == RemoveFirst(old(lines), txt) && mem == old(mem)
      ensures txt in old(lines) ==> file == Render(lines)
      ensures txt !in old(lines) ==> file == old(file)
    {
      var pos := IndexOf(lines, txt);
      if pos.Some? {
        RemoveAt(lines, txt, pos.value);
        lines := lines[..pos.value] + lines[pos.value + 1..];
        file := Render(lines);
      }
    }

    method LoadedItems() returns (items: seq<string>)
      ensures items == lines
    {
      items := lines;
    }
  }

  /** The first position of x. */
  function IndexOf(lines: seq<string>, x: string): (r: Option<nat>)
    ensures r.None? <==> x !in lines
    ensures r.Some? ==> r.value < |lines| && lines[r.value] == x && x !in lines[..r.value]
  {
    if |lines| == 0 then None
    else if lines[0] == x then Some(0)
    else
      var rest := IndexOf(lines[1..], x);
      assert forall k :: 0 <= k < |lines[1..]| ==> lines[1..][k] == lines[k + 1];
      if rest.None? then None
      else
        assert lines[..rest.value + 1] == [lines[0]] + lines[1..][..rest.value];
        Some(rest.value + 1)
  }

  /** Cutting out the first occurrence is RemoveFirst. */
  lemma {:induction false} RemoveAt(lines: seq<string>, x: string, p: nat)
    requires p < |lines| && lines[p] == x && x !in lines[..p]
    ensures RemoveFirst(lines, x) == lines[..p] + lines[p + 1..]
  {
    if p > 0 {
      assert lines[0] in lines[..p];
      assert lines[1..][..p - 1] == lines[1..p];
      RemoveAt(lines[1..], x, p - 1);
      assert lines[..p] == [lines[0]] + lines[1..][..p - 1];
    }
  }

  /** After any change, the next load of the file gives the list again. */
  lemma RecentListReloads(lines: seq<string>, path: string, mem: nat)
    requires Clean(lines) && '\n' !in path && StripCr(path) == path
    ensures LinesOf(Render(Pushed(lines, path, mem))) == Pushed(lines, path, mem)
    ensures LinesOf(Render(RemoveFirst(lines, path))) == RemoveFirst(lines, path)
  {
    CleanRemoveFirst(lines, path);
    var moved := RemoveFirst(lines, path) + [path];
    assert Clean(moved);
    if |moved| >= mem {
      assert Clean(moved[1..]) by {
        assert forall k :: 0 <= k < |moved| - 1 ==> moved[1..][k] == moved[k + 1];
      }
    }
    RenderLines(Pushed(lines, path, mem));
    RenderLines(RemoveFirst(lines, path));
  }

  lemma CleanRemoveFirst(lines: seq<string>, x: string)
    requires Clean(lines)
    ensures Clean(RemoveFirst(lines, x))
  {
    var r := RemoveFirst(lines, x);
    forall k | 0 <= k < |r|
      ensures '\n' !in r[k] && StripCr(r[k]) == r[k]
    {
      assert r[k] in multiset(r);
      assert r[k] in lines by {
        if x in lines {
          assert multiset(r) <= multiset(lines);
        }
      }
    }
  }

  // ---------------------------------------------------------------------
  // Line breaking

  /** A break is due at position i: i is at or past the first multiple of
      the line length, and no space lies between the last multiple at or
      before i and i. */
  predicate Due(s: string, lineLength: nat, i: nat)
    requires lineLength > 0
  {
    i >= lineLength && forall j :: i - i % lineLength <= j < i && j < |s| ==> s[j] != ' '
  }

  /** break_string: each space where a break is due becomes a newline. */
  function Broken(s: string, lineLength: nat): (r: string)
    requires lineLength > 0
    ensures |r| == |s|
    ensures forall i :: 0 <= i < |s| ==> r[i] == s[i] || (s[i] == ' ' && r[i] == '\n')
  {
    seq(|s|, i requires 0 <= i < |s| => if s[i] == ' ' && Due(s, lineLength, i) then '\n' else s[i])
  }

  /** Within one line segment (between two multiples of the line length)
      at most one space becomes a newline, and none before the first
      multiple. */
  lemma BrokenOncePerSegment(s: string, lineLength: nat, i: nat, j: nat)
    requires lineLength > 0 && i < j < |s| && i - i % lineLength == j - j % lineLength
    ensures i < lineLength ==> Broken(s, lineLength)[i] == s[i]
    ensures !(Broken(s, lineLength)[i] != s[i] && Broken(s, lineLength)[j] != s[j])
  {
  }

  /** A break is due at a multiple of the line length, and otherwise
      exactly when it was due at the previous position and that position
      held no space. */
  lemma DueStep(s: string, lineLength: nat, i: nat)
    requires lineLength > 0 && 1 <= i <= |s|
    ensures Due(s, lineLength, i) <==>
      i % lineLength == 0 || (Due(s, lineLength, i - 1) && s[i - 1] != ' ')
  {
    var q := i / lineLength;
    var r := i % lineLength;
    assert i == lineLength * q + r;
    if r != 0 {
      assert i - 1 == lineLength * q + (r - 1);
      ModOfDecomposition(i - 1, lineLength, q, r - 1);
      ModOfDecomposition(lineLength, lineLength, 1, 0);
      assert i - i % lineLength == (i - 1) - (i - 1) % lineLength;
      assert i >= lineLength <==> i - 1 >= lineLength;
    }
  }

  lemma ModOfDecomposition(n: nat, d: nat, q: int, r: int)
    requires d > 0 && 0 <= r < d && n == d * q + r
    ensures n % d == r
  {
    var k := n / d - q;
    assert d * k == d * (n / d) - d * q;
    MulAwayFromZero(d, k);
  }

  lemma {:induction false} MulAwayFromZero(d: int, k: int)
    requires d > 0
    ensures k >= 1 ==> d * k >= d
    ensures k <= -1 ==> d * k <= -d
    decreases if k > 0 then k else -k
  {
    if k > 1 {
      MulAwayFromZero(d, k - 1);
      assert d * k == d * (k - 1) + d;
    } else if k < -1 {
      MulAwayFromZero(d, k + 1);
      assert d * k == d * (k + 1) - d;
    }
  }

  /** break_string, character by character; a zero line length panics on
      the first remainder it takes. */
  method BreakString(content: string, lineLength: nat) returns (r: Outcome<string>)
    ensures lineLength == 0 ==> (r.Panic? <==> |content| >= 2) && (r.Returned? ==> r.value == content)
    ensures lineLength > 0 ==> r == Returned(Broken(content, lineLength))
  {
    if lineLength == 0 {
      if |content| >= 2 {
        return Panic;
      }
      return Returned(content);
    }
    var s := content;
    var breakNext := false;
    var i := 1;
    while i < |content|
      invariant 1 <= i <= |content| || (|content| == 0 && i == 1)
      invariant |s| == |content|
      invariant forall j :: 1 <= j < i && j < |s| ==> s[j] == Broken(content, lineLength)[j]
      invariant forall j :: i <= j < |s| ==> s[j] == content[j]
      invariant |s| > 0 ==> s[0] == content[0]
      invariant breakNext == (Due(content, lineLength, i - 1) && content[i - 1] != ' ') || (i == 1 && false)
    {
      DueStep(content, lineLength, i);
      if i % lineLength == 0 {
        breakNext := true;
      }
      if breakNext && s[i] == ' ' {
        s := s[i := '\n'];
        breakNext := false;
      }
      i := i + 1;
    }
    assert |content| > 0 ==> Broken(content, lineLength)[0] == content[0] by {
      if |content| > 0 {
        assert !Due(content, lineLength, 0);
      }
    }
    assert s == Broken(content, lineLength);
    return Returned(s);
  }
}

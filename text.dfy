/** The few functions of Go's `strings` package that the core uses, on strings of Unicode code points. */
module Text {

  /** Go's `unicode.IsSpace`: the Latin-1 white space characters and the Unicode Z-category spaces. */
  predicate IsSpace(c: char) {
    || c == ' ' || c == '\t' || c == '\n' || c == '\U{000B}' || c == '\U{000C}' || c == '\r'
    || c == '\U{0085}' || c == '\U{00A0}' || c == '\U{1680}'
    || ('\U{2000}' <= c <= '\U{200A}')
    || c == '\U{2028}' || c == '\U{2029}' || c == '\U{202F}' || c == '\U{205F}' || c == '\U{3000}'
  }

  /** Drops the longest prefix whose characters all satisfy `drop`. */
  function TrimLeftWhere(s: string, drop: char -> bool): (r: string)
    ensures |r| <= |s|
  {
    if |s| > 0 && drop(s[0]) then TrimLeftWhere(s[1..], drop) else s
  }

  /** TrimLeftWhere keeps a suffix, drops only characters satisfying `drop`, and stops at one that does not. */
  lemma {:induction false} TrimLeftWhereFacts(s: string, drop: char -> bool)
    ensures var r := TrimLeftWhere(s, drop);
      && r == s[|s| - |r|..]
      && (r == [] || !drop(r[0]))
      && (forall i :: 0 <= i < |s| - |r| ==> drop(s[i]))
  {
    if |s| > 0 && drop(s[0]) {
      TrimLeftWhereFacts(s[1..], drop);
      var r := TrimLeftWhere(s[1..], drop);
      assert s[1..][|s| - 1 - |r|..] == s[|s| - |r|..];
    }
  }

  /** Drops the longest suffix whose characters all satisfy `drop`. */
  function TrimRightWhere(s: string, drop: char -> bool): (r: string)
    ensures |r| <= |s|
  {
    if |s| > 0 && drop(s[|s| - 1]) then TrimRightWhere(s[..|s| - 1], drop) else s
  }

  /** TrimRightWhere keeps a prefix, drops only characters satisfying `drop`, and stops at one that does not. */
  lemma {:induction false} TrimRightWhereFacts(s: string, drop: char -> bool)
    ensures var r := TrimRightWhere(s, drop);
      && r == s[..|r|]
      && (r == [] || !drop(r[|r| - 1]))
      && (forall i :: |r| <= i < |s| ==> drop(s[i]))
  {
    if |s| > 0 && drop(s[|s| - 1]) {
      TrimRightWhereFacts(s[..|s| - 1], drop);
      var r := TrimRightWhere(s[..|s| - 1], drop);
      assert s[..|s| - 1][..|r|] == s[..|r|];
    }
  }

  /** `strings.TrimSpace`. */
  function TrimSpace(s: string): string {
    TrimRightWhere(TrimLeftWhere(s, IsSpace), IsSpace)
  }

  /** Text that already starts and ends with a non-space is left alone. */
  lemma TrimSpaceKeepsTrimmed(s: string)
    requires |s| > 0 && !IsSpace(s[0]) && !IsSpace(s[|s| - 1])
    ensures TrimSpace(s) == s
  {
  }

  /** `strings.Trim(s, cutset)`: drops leading and trailing characters that belong to `cutset`. */
  function Trim(s: string, cutset: set<char>): string {
    TrimRightWhere(TrimLeftWhere(s, c => c in cutset), c => c in cutset)
  }

  /** ASCII lower-casing of one character. */
  function LowerChar(c: char): (r: char)
    ensures !('A' <= r <= 'Z')
    ensures !('A' <= c <= 'Z') ==> r == c
  {
    if 'A' <= c <= 'Z' then (c as int + 32) as char else c
  }

  /** `strings.ToLower`, restricted to ASCII letters. */
  function ToLower(s: string): (r: string)
    ensures |r| == |s| && forall i :: 0 <= i < |s| ==> r[i] == LowerChar(s[i])
  {
    seq(|s|, i requires 0 <= i < |s| => LowerChar(s[i]))
  }

  /** Two strings that differ at most in the case of ASCII letters. */
  predicate SameIgnoringCase(a: string, b: string) {
    |a| == |b| && forall i :: 0 <= i < |a| ==> LowerChar(a[i]) == LowerChar(b[i])
  }

  lemma SameIgnoringCaseLowersEqual(a: string, b: string)
    requires SameIgnoringCase(a, b)
    ensures ToLower(a) == ToLower(b)
  {
  }

  /** `strings.HasPrefix`. */
  predicate HasPrefix(s: string, p: string) {
    |p| <= |s| && s[..|p|] == p
  }

  /** `strings.Contains`. */
  predicate Contains(s: string, p: string) {
    exists i :: 0 <= i <= |s| - |p| && OccursAt(s, p, i)
  }

  /** `p` occurs in `s` starting at position `i`. */
  predicate OccursAt(s: string, p: string, i: int)
    requires 0 <= i <= |s| - |p|
  {
    s[i..i + |p|] == p
  }

  /** `strings.Index` for a one-character separator: the first position of `c`, or -1. */
  function IndexOf(s: string, c: char): (r: int)
    ensures -1 <= r < |s|
    ensures r == -1 <==> c !in s
    ensures r >= 0 ==> s[r] == c && c !in s[..r]
  {
    if |s| == 0 then -1
    else if s[0] == c then 0
    else
      var k := IndexOf(s[1..], c);
      assert s[1..][..if k < 0 then 0 else k] == s[1..1 + if k < 0 then 0 else k];
      if k < 0 then -1 else k + 1
  }

  /** The index of a character with no earlier occurrence is what `IndexOf` finds. */
  lemma IndexOfIsFirst(s: string, c: char, k: int)
    requires 0 <= k < |s| && s[k] == c && c !in s[..k]
    ensures IndexOf(s, c) == k
  {
  }

  /** `strings.LastIndex` for a one-character separator: the last position of `c`, or -1. */
  function LastIndexOf(s: string, c: char): (r: int)
    ensures -1 <= r < |s|
    ensures r == -1 <==> c !in s
    ensures r >= 0 ==> s[r] == c && c !in s[r + 1..]
  {
    if |s| == 0 then -1
    else if s[|s| - 1] == c then |s| - 1
    else
      var k := LastIndexOf(s[..|s| - 1], c);
      assert k >= 0 ==> s[k + 1..] == s[..|s| - 1][k + 1..] + [s[|s| - 1]];
      k
  }

  /** `strings.Split(s, "\n")`: the pieces between line breaks; always at least one piece. */
  function Split(s: string): (r: seq<string>)
    ensures |r| >= 1
  {
    if |s| == 0 then [""]
    else
      var rest := Split(s[1..]);
      if s[0] == '\n' then [""] + rest
      else [[s[0]] + rest[0]] + rest[1..]
  }

  /** `strings.Join(ls, "\n")`. */
  function Join(ls: seq<string>): string {
    if |ls| == 0 then ""
    else if |ls| == 1 then ls[0]
    else ls[0] + "\n" + Join(ls[1..])
  }

  /** Joining the pieces of a split gives back the original text. */
  lemma {:induction false} JoinSplit(s: string)
    ensures Join(Split(s)) == s
  {
    if |s| > 0 {
      var rest := Split(s[1..]);
      JoinSplit(s[1..]);
      if s[0] == '\n' {
        assert Split(s) == [""] + rest;
        assert ([""] + rest)[1..] == rest;
      } else if |rest| == 1 {
        assert Split(s) == [[s[0]] + rest[0]];
      } else {
        assert Split(s) == [[s[0]] + rest[0]] + rest[1..];
        assert ([[s[0]] + rest[0]] + rest[1..])[1..] == rest[1..];
        assert Join(rest) == rest[0] + "\n" + Join(rest[1..]);
      }
    }
  }

  lemma {:induction false} SplitOfLineThen(a: string, t: string)
    requires '\n' !in a
    ensures Split(a + t) == [a + Split(t)[0]] + Split(t)[1..]
  {
    if |a| > 0 {
      assert (a + t)[1..] == a[1..] + t;
      SplitOfLineThen(a[1..], t);
      assert [a[0]] + (a[1..] + Split(t)[0]) == a + Split(t)[0];
    } else {
      assert a == [];
      assert a + t == t;
      assert a + Split(t)[0] == Split(t)[0];
      assert Split(t) == [Split(t)[0]] + Split(t)[1..];
    }
  }

  /** Splitting a join of line-break-free pieces gives back the pieces. */
  lemma {:induction false} SplitJoin(ls: seq<string>)
    requires |ls| >= 1
    requires forall i :: 0 <= i < |ls| ==> '\n' !in ls[i]
    ensures Split(Join(ls)) == ls
  {
    if |ls| == 1 {
      SplitOfLineThen(ls[0], "");
      assert ls[0] + "" == ls[0];
      assert Split("") == [""];
    } else {
      var tail := Join(ls[1..]);
      SplitJoin(ls[1..]);
      assert Join(ls) == ls[0] + ("\n" + tail);
      SplitOfLineThen(ls[0], "\n" + tail);
      assert ("\n" + tail)[1..] == tail;
      assert Split("\n" + tail) == [""] + Split(tail);
      assert ls[0] + "" == ls[0];
      assert ([""] + Split(tail))[1..] == Split(tail);
      assert ls == [ls[0]] + ls[1..];
    }
  }

  /** The first piece of a split starts with every line-break-free prefix of the text. */
  lemma {:induction false} SplitFirstHasPrefix(s: string, p: string)
    requires HasPrefix(s, p) && '\n' !in p
    ensures HasPrefix(Split(s)[0], p)
  {
    if |p| > 0 {
      assert s[0] == p[0];
      assert HasPrefix(s[1..], p[1..]);
      SplitFirstHasPrefix(s[1..], p[1..]);
    }
  }

  /** Trimming white space keeps a prefix that starts with a non-space and holds no space. */
  lemma TrimSpaceKeepsPrefix(s: string, p: string)
    requires HasPrefix(s, p) && |p| > 0
    requires forall i :: 0 <= i < |p| ==> !IsSpace(p[i])
    ensures HasPrefix(TrimSpace(s), p)
  {
    assert s[0] == p[0];
    assert TrimLeftWhere(s, IsSpace) == s;
    var r := TrimRightWhere(s, IsSpace);
    TrimRightWhereFacts(s, IsSpace);
    assert r == s[..|r|];
    assert s[|p| - 1] == p[|p| - 1] && !IsSpace(s[|p| - 1]);
    assert |r| >= |p|;
    assert r[..|p|] == s[..|p|];
  }

  lemma {:induction false} JoinFirst(ls: seq<string>)
    requires |ls| >= 1 && |ls[0]| >= 1
    ensures |Join(ls)| >= 1 && Join(ls)[0] == ls[0][0]
  {
  }

  lemma {:induction false} JoinLast(ls: seq<string>)
    requires |ls| >= 1 && |ls[|ls| - 1]| >= 1
    ensures |Join(ls)| >= 1 && Join(ls)[|Join(ls)| - 1] == ls[|ls| - 1][|ls[|ls| - 1]| - 1]
  {
    if |ls| > 1 {
      JoinLast(ls[1..]);
    }
  }

  /** White space around text that starts and ends with a non-space is exactly what TrimSpace removes. */
  lemma TrimSpaceOfLineBreakAfter(s: string)
    requires |s| >= 1 && !IsSpace(s[0]) && !IsSpace(s[|s| - 1])
    ensures TrimSpace(s + "\n") == s
  {
    var t := s + "\n";
    assert TrimLeftWhere(t, IsSpace) == t;
    assert t[..|t| - 1] == s;
    assert TrimRightWhere(t, IsSpace) == TrimRightWhere(s, IsSpace);
  }
}

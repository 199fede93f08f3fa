/// The Python string operations the command dispatcher relies on:
/// containment (`w in s`), deletion (`s.replace(p, "")`), `s.strip()` and
/// `s.lower()`, each stated over `string` (a `seq<char>`).
module Text {

  /** The characters for which Python's `str.isspace()` holds, i.e. what `strip()` removes. */
  predicate IsSpace(c: char) {
    c == ' ' || '\t' <= c <= '\r' || '\U{1c}' <= c <= '\U{1f}' || c == '\U{85}' || c == '\U{a0}'
    || c == '\U{1680}' || '\U{2000}' <= c <= '\U{200a}' || c == '\U{2028}' || c == '\U{2029}'
    || c == '\U{202f}' || c == '\U{205f}' || c == '\U{3000}'
  }

  predicate StartsWith(s: string, w: string) {
    |w| <= |s| && s[..|w|] == w
  }

  /** `w in s`: scan `s` from the left for a position where `w` starts. */
  predicate Contains(s: string, w: string)
    decreases |s|
  {
    StartsWith(s, w) || (s != [] && Contains(s[1..], w))
  }

  /** `w` occurs in `s` starting at index `i`. */
  predicate OccursAt(s: string, w: string, i: int) {
    0 <= i && i + |w| <= |s| && s[i..i + |w|] == w
  }

  /** The scan finds `w` exactly when `w` occurs somewhere in `s`. */
  lemma {:induction false} ContainsIff(s: string, w: string)
    ensures Contains(s, w) <==> exists i :: OccursAt(s, w, i)
    decreases |s|
  {
    if Contains(s, w) {
      if StartsWith(s, w) {
        assert OccursAt(s, w, 0);
      } else {
        ContainsIff(s[1..], w);
        var i :| OccursAt(s[1..], w, i);
        assert s[1..][i..i + |w|] == s[i + 1..i + 1 + |w|];
        assert OccursAt(s, w, i + 1);
      }
    }
    if exists i :: OccursAt(s, w, i) {
      var i :| OccursAt(s, w, i);
      if i > 0 {
        assert s[1..][i - 1..i - 1 + |w|] == s[i..i + |w|];
        assert OccursAt(s[1..], w, i - 1);
        ContainsIff(s[1..], w);
      }
    }
  }

  lemma ContainsAt(s: string, w: string, i: int)
    requires OccursAt(s, w, i)
    ensures Contains(s, w)
  {
    ContainsIff(s, w);
  }

  /** A word with a character that `s` lacks is not contained in `s`. */
  lemma MissingCharNotContained(s: string, w: string, c: char)
    requires c in w && c !in s
    ensures !Contains(s, w)
  {
    ContainsIff(s, w);
    var k :| 0 <= k < |w| && w[k] == c;
    forall i | 0 <= i && i + |w| <= |s|
      ensures !OccursAt(s, w, i)
    {
      assert s[i..i + |w|][k] == s[i + k];
      assert s[i + k] in s;
    }
  }

  /** Containment is transitive. */
  lemma ContainsTransitive(s: string, m: string, w: string)
    requires Contains(s, m) && Contains(m, w)
    ensures Contains(s, w)
  {
    ContainsIff(s, m);
    ContainsIff(m, w);
    var i :| OccursAt(s, m, i);
    var j :| OccursAt(m, w, j);
    forall k | 0 <= k < |w|
      ensures s[i + j + k] == w[k]
    {
      assert s[i..i + |m|][j + k] == m[j..j + |w|][k];
    }
    assert s[i + j..i + j + |w|] == w;
    ContainsAt(s, w, i + j);
  }

  /** A word that does not start with `c` is in `[c] + s` only if it is in `s`. */
  lemma ContainsPastLead(c: char, s: string, w: string)
    requires w != [] && w[0] != c
    ensures Contains([c] + s, w) ==> Contains(s, w)
  {
    assert ([c] + s)[1..] == s;
  }

  /** `s.replace(p, "")`: the occurrences of `p` met by a left-to-right scan,
      which never overlap, are deleted; an empty `p` leaves `s` as it is. */
  function RemoveAll(s: string, p: string): (r: string)
    ensures |r| <= |s|
    ensures !Contains(s, p) ==> r == s
    decreases |s|
  {
    if p == [] || |s| < |p| then s
    else if s[..|p|] == p then RemoveAll(s[|p|..], p)
    else [s[0]] + RemoveAll(s[1..], p)
  }

  /** The text between the occurrences of `p` that `RemoveAll` deletes. */
  function Split(s: string, p: string): (pieces: seq<string>)
    ensures |pieces| >= 1
    ensures |pieces| == 1 ==> pieces[0] == s
    ensures |pieces| > 1 ==> pieces[0] + p <= s
    decreases |s|
  {
    if p == [] || |s| < |p| then [s]
    else if s[..|p|] == p then [[]] + Split(s[|p|..], p)
    else
      var rest := Split(s[1..], p);
      [[s[0]] + rest[0]] + rest[1..]
  }

  function Concat(pieces: seq<string>): string {
    if pieces == [] then [] else pieces[0] + Concat(pieces[1..])
  }

  function Join(pieces: seq<string>, sep: string): string
    requires pieces != []
  {
    if |pieces| == 1 then pieces[0] else pieces[0] + sep + Join(pieces[1..], sep)
  }

  /** Each separator follows the piece before it at the leftmost place it can:
      no occurrence of `p` starts inside a piece, and after the last separator
      there is none at all. */
  predicate Leftmost(pieces: seq<string>, p: string)
    requires p != []
  {
    && (forall k :: 0 <= k < |pieces| - 1 ==> !Contains(pieces[k] + p[..|p| - 1], p))
    && (pieces != [] ==> !Contains(pieces[|pieces| - 1], p))
  }

  lemma ShorterNotContaining(s: string, w: string)
    requires |s| < |w|
    ensures !Contains(s, w)
  {
    ContainsIff(s, w);
  }

  /** Deleting every occurrence keeps exactly the pieces between them. */
  lemma {:induction false} RemoveAllIsConcatOfSplit(s: string, p: string)
    ensures RemoveAll(s, p) == Concat(Split(s, p))
    decreases |s|
  {
    if p == [] || |s| < |p| {
      assert Split(s, p) == [s];
      assert [s][1..] == [];
      assert Concat([s]) == s + Concat([]);
    } else if s[..|p|] == p {
      var rest := Split(s[|p|..], p);
      RemoveAllIsConcatOfSplit(s[|p|..], p);
      assert RemoveAll(s, p) == RemoveAll(s[|p|..], p);
      assert Split(s, p) == [[]] + rest;
      assert ([[]] + rest)[1..] == rest;
      assert Concat([[]] + rest) == [] + Concat(rest);
    } else {
      var rest := Split(s[1..], p);
      RemoveAllIsConcatOfSplit(s[1..], p);
      assert RemoveAll(s, p) == [s[0]] + Concat(rest);
      var pieces := [[s[0]] + rest[0]] + rest[1..];
      assert Split(s, p) == pieces;
      assert pieces[1..] == rest[1..];
      assert Concat(pieces) == ([s[0]] + rest[0]) + Concat(rest[1..]);
      assert Concat(rest) == rest[0] + Concat(rest[1..]);
    }
  }

  /** Putting the separators back between the pieces gives the original text. */
  lemma {:induction false} JoinSplit(s: string, p: string)
    requires p != []
    ensures Join(Split(s, p), p) == s
    decreases |s|
  {
    if |s| < |p| {
    } else if s[..|p|] == p {
      JoinSplit(s[|p|..], p);
      var pieces := [[]] + Split(s[|p|..], p);
      assert pieces[1..] == Split(s[|p|..], p);
      assert s == p + s[|p|..];
    } else {
      JoinSplit(s[1..], p);
      var rest := Split(s[1..], p);
      var pieces := [[s[0]] + rest[0]] + rest[1..];
      assert pieces[1..] == rest[1..];
      if |rest| > 1 {
        assert Join(rest, p) == rest[0] + p + Join(rest[1..], p);
      }
      assert s == [s[0]] + s[1..];
    }
  }

  /** The separators `Split` finds are the leftmost non-overlapping occurrences. */
  lemma {:induction false} SplitLeftmost(s: string, p: string)
    requires p != []
    ensures Leftmost(Split(s, p), p)
    decreases |s|
  {
    if |s| < |p| {
      ShorterNotContaining(s, p);
    } else if s[..|p|] == p {
      SplitLeftmost(s[|p|..], p);
      LeftmostAfterSeparator(s, p);
    } else {
      SplitLeftmost(s[1..], p);
      LeftmostAfterChar(s, p);
    }
  }

  /** `s` opens with the separator: an empty piece goes in front of the rest. */
  lemma {:induction false} LeftmostAfterSeparator(s: string, p: string)
    requires p != [] && |s| >= |p| && s[..|p|] == p
    requires Leftmost(Split(s[|p|..], p), p)
    ensures Leftmost(Split(s, p), p)
  {
    var rest := Split(s[|p|..], p);
    var pieces := Split(s, p);
    assert pieces == [[]] + rest;
    ShorterNotContaining([] + p[..|p| - 1], p);
    forall k | 0 <= k < |pieces| - 1
      ensures !Contains(pieces[k] + p[..|p| - 1], p)
    {
      if k > 0 {
        assert pieces[k] == rest[k - 1];
      }
    }
    assert pieces[|pieces| - 1] == rest[|rest| - 1];
  }

  /** `s` does not open with the separator: its first character joins the first piece of the rest. */
  lemma {:induction false} LeftmostAfterChar(s: string, p: string)
    requires p != [] && |s| >= |p| && s[..|p|] != p
    requires Leftmost(Split(s[1..], p), p)
    ensures Leftmost(Split(s, p), p)
  {
    var rest := Split(s[1..], p);
    var head := [s[0]] + rest[0];
    var pieces := Split(s, p);
    assert pieces == [head] + rest[1..];
    if |rest| == 1 {
      assert head == s;
      assert !Contains(s, p);
      assert pieces == [s];
    } else {
      var q := p[..|p| - 1];
      FirstPieceLeftmost(s, p, rest[0]);
      forall k | 0 <= k < |pieces| - 1
        ensures !Contains(pieces[k] + q, p)
      {
        if k > 0 {
          assert pieces[k] == rest[k];
        }
      }
      assert pieces[|pieces| - 1] == rest[|rest| - 1];
    }
  }

  lemma {:induction false} FirstPieceLeftmost(s: string, p: string, piece: string)
    requires p != [] && |s| >= |p| && s[..|p|] != p
    requires piece + p[..|p| - 1] <= s[1..]
    requires !Contains(piece + p[..|p| - 1], p)
    ensures !Contains([s[0]] + piece + p[..|p| - 1], p)
  {
    var q := p[..|p| - 1];
    var t := [s[0]] + piece + q;
    assert t <= s;
    assert t[..|p|] == s[..|p|];
    assert t[1..] == piece + q;
  }

  /** Scanning right from `i`: the index of the first character that is not
      whitespace, or `|s|` when there is none. */
  function SkipSpaces(s: string, i: nat): (j: nat)
    requires i <= |s|
    ensures i <= j <= |s|
    ensures forall k :: i <= k < j ==> IsSpace(s[k])
    ensures j == |s| || !IsSpace(s[j])
    decreases |s| - i
  {
    if i < |s| && IsSpace(s[i]) then SkipSpaces(s, i + 1) else i
  }

  /** Scanning left from `j` but not below `lo`: the index just past the last
      character that is not whitespace, or `lo` when there is none. */
  function SkipSpacesBack(s: string, lo: nat, j: nat): (e: nat)
    requires lo <= j <= |s|
    ensures lo <= e <= j
    ensures forall k :: e <= k < j ==> IsSpace(s[k])
    ensures e == lo || !IsSpace(s[e - 1])
    decreases j
  {
    if j > lo && IsSpace(s[j - 1]) then SkipSpacesBack(s, lo, j - 1) else j
  }

  /** `r` sits at index `i` of `s` with nothing but whitespace around it. */
  predicate FramedBySpaces(s: string, r: string, i: int) {
    0 <= i <= |s| - |r| && r == s[i..i + |r|]
    && (forall k :: 0 <= k < i ==> IsSpace(s[k]))
    && (forall k :: i + |r| <= k < |s| ==> IsSpace(s[k]))
  }

  /** `s.strip()`: the slice of `s` left once the whitespace on both sides is cut off. */
  function Strip(s: string): (r: string)
    ensures exists i :: FramedBySpaces(s, r, i)
    ensures r == [] || (!IsSpace(r[0]) && !IsSpace(r[|r| - 1]))
  {
    var i := SkipSpaces(s, 0);
    var e := SkipSpacesBack(s, i, |s|);
    assert FramedBySpaces(s, s[i..e], i);
    s[i..e]
  }

  /** Text that already has no whitespace at either end is what `strip()` returns. */
  lemma StripTrimmed(s: string)
    requires s == [] || (!IsSpace(s[0]) && !IsSpace(s[|s| - 1]))
    ensures Strip(s) == s
  {
    assert SkipSpaces(s, 0) == 0;
    assert s[0..|s|] == s;
  }

  /** One leading space goes too. */
  lemma StripLeadingSpace(s: string)
    requires s == [] || (!IsSpace(s[0]) && !IsSpace(s[|s| - 1]))
    ensures Strip(" " + s) == s
  {
    var t := " " + s;
    assert SkipSpaces(t, 0) == SkipSpaces(t, 1) == 1;
    assert SkipSpacesBack(t, 1, |t|) == |t|;
    assert t[1..|t|] == s;
  }

  function LowerChar(c: char): char {
    if 'A' <= c <= 'Z' then (c as int - 'A' as int + 'a' as int) as char else c
  }

  /** `s.lower()`, for the ASCII letters: the transcript the dispatcher sees
      has no ASCII capital left, and every other character is kept. */
  function Lower(s: string): (r: string)
    ensures |r| == |s|
    ensures forall k :: 0 <= k < |r| ==> !('A' <= r[k] <= 'Z')
    ensures forall k :: 0 <= k < |s| && !('A' <= s[k] <= 'Z') ==> r[k] == s[k]
    ensures forall k :: 0 <= k < |s| && 'A' <= s[k] <= 'Z' ==> r[k] as int == s[k] as int + 32
  {
    if s == [] then [] else [LowerChar(s[0])] + Lower(s[1..])
  }
}

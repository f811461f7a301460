/**
  The parts of java.lang.String that the changelog core relies on, stated as
  functions on `seq<char>`: `split` on a one-character delimiter, `contains`,
  `replace(CharSequence, CharSequence)` and `toUpperCase` restricted to ASCII.
  `Segments` and `Join` are the reference definitions the rest is proved against.
*/
module JavaStrings {

  // ---------------------------------------------------------------------------
  // contains
  // ---------------------------------------------------------------------------

  /** `t` occurs in `s` starting at index `i`. */
  predicate OccursAt(s: string, t: string, i: nat) {
    i + |t| <= |s| && s[i..i + |t|] == t
  }

  /** `s.contains(t)`: tries every start position from left to right. */
  predicate Contains(s: string, t: string)
    decreases |s|
  {
    |t| <= |s| && (s[..|t|] == t || (|s| > 0 && Contains(s[1..], t)))
  }

  lemma {:induction false} ContainsIff(s: string, t: string)
    ensures Contains(s, t) <==> exists i: nat :: OccursAt(s, t, i)
    decreases |s|
  {
    if |t| > |s| {
      assert forall i: nat :: !OccursAt(s, t, i);
    } else if s[..|t|] == t {
      assert OccursAt(s, t, 0);
    } else {
      ContainsIff(s[1..], t);
      forall i: nat
        ensures OccursAt(s, t, i + 1) <==> OccursAt(s[1..], t, i)
      {
        if i + 1 + |t| <= |s| {
          SliceOfTail(s, i, |t|);
        }
      }
      if exists i: nat :: OccursAt(s, t, i) {
        var i: nat :| OccursAt(s, t, i);
        assert i != 0;
        assert OccursAt(s[1..], t, i - 1);
      }
      if exists i: nat :: OccursAt(s[1..], t, i) {
        var i: nat :| OccursAt(s[1..], t, i);
        assert OccursAt(s, t, i + 1);
      }
    }
  }

  /** A slice of `s[1..]` is the slice of `s` one further on. */
  lemma SliceOfTail(s: string, i: nat, n: nat)
    requires i + 1 + n <= |s|
    ensures s[i + 1..i + 1 + n] == s[1..][i..i + n]
  {
  }

  /** A one-character string is contained exactly when the character is. */
  lemma ContainsChar(s: string, c: char)
    ensures Contains(s, [c]) <==> c in s
  {
    ContainsIff(s, [c]);
    if c in s {
      var i :| 0 <= i < |s| && s[i] == c;
      assert s[i..i + 1] == [c];
      assert OccursAt(s, [c], i);
    }
    if Contains(s, [c]) {
      var i: nat :| OccursAt(s, [c], i);
      assert s[i..i + 1][0] == s[i];
    }
  }

  // ---------------------------------------------------------------------------
  // split
  // ---------------------------------------------------------------------------

  /** `s.indexOf(c)` for a character known to occur. */
  function IndexOf(s: string, c: char): (i: nat)
    requires c in s
    ensures i < |s| && s[i] == c && c !in s[..i]
  {
    if s[0] == c then 0 else 1 + IndexOf(s[1..], c)
  }

  /** Every piece of `s` between two delimiters, empty pieces included. */
  function Segments(s: string, d: char): (parts: seq<string>)
    ensures |parts| >= 1
    ensures forall k :: 0 <= k < |parts| ==> d !in parts[k]
    decreases |s|
  {
    if d !in s then [s]
    else
      var i := IndexOf(s, d);
      [s[..i]] + Segments(s[i + 1..], d)
  }

  /** The pieces written back with the delimiter between them. */
  function Join(parts: seq<string>, d: char): string
  {
    if |parts| == 0 then ""
    else if |parts| == 1 then parts[0]
    else parts[0] + [d] + Join(parts[1..], d)
  }

  /** Joining a first piece before at least one more puts one delimiter after it. */
  lemma JoinCons(first: string, rest: seq<string>, d: char)
    requires |rest| > 0
    ensures Join([first] + rest, d) == first + [d] + Join(rest, d)
  {
    assert ([first] + rest)[1..] == rest;
  }

  /** Cutting a string at its delimiters and joining the pieces gives the string back. */
  lemma {:induction false} JoinOfSegments(s: string, d: char)
    ensures Join(Segments(s, d), d) == s
    decreases |s|
  {
    if d in s {
      var i := IndexOf(s, d);
      var rest := Segments(s[i + 1..], d);
      JoinOfSegments(s[i + 1..], d);
      assert Segments(s, d) == [s[..i]] + rest;
      assert ([s[..i]] + rest)[1..] == rest;
      assert s == s[..i] + [d] + s[i + 1..];
    }
  }

  /** Joining delimiter-free pieces and cutting again gives the pieces back. */
  lemma {:induction false} SegmentsOfJoin(parts: seq<string>, d: char)
    requires |parts| >= 1
    requires forall k :: 0 <= k < |parts| ==> d !in parts[k]
    ensures Segments(Join(parts, d), d) == parts
  {
    if |parts| > 1 {
      var p0 := parts[0];
      var j := Join(parts[1..], d);
      var s := p0 + [d] + j;
      assert Join(parts, d) == s;
      assert s[|p0|] == d;
      var i := IndexOf(s, d);
      assert s[..i] == p0;
      assert s[i + 1..] == j;
      SegmentsOfJoin(parts[1..], d);
      assert parts == [p0] + parts[1..];
    }
  }

  /** Java's `split` with limit 0 removes every trailing empty string. */
  function DropTrailingEmpty(parts: seq<string>): (r: seq<string>)
    ensures |r| <= |parts| && r == parts[..|r|]
    ensures forall k :: |r| <= k < |parts| ==> parts[k] == ""
    ensures |r| > 0 ==> r[|r| - 1] != ""
  {
    if |parts| > 0 && parts[|parts| - 1] == "" then DropTrailingEmpty(parts[..|parts| - 1])
    else parts
  }

  /**
    `s.split(d)` for a delimiter that is not a regular-expression metacharacter
    (String.split's fast path): a string without the delimiter comes back as a
    one-element array, otherwise the segments minus the trailing empty ones.
  */
  function Split(s: string, d: char): (r: seq<string>)
    ensures s == "" ==> r == [""]
    ensures |r| <= |Segments(s, d)| && r == Segments(s, d)[..|r|]
    ensures s != "" ==> forall k :: |r| <= k < |Segments(s, d)| ==> Segments(s, d)[k] == ""
    ensures s != "" && |r| > 0 ==> r[|r| - 1] != ""
  {
    if d !in s then [s] else DropTrailingEmpty(Segments(s, d))
  }

  /** Some segment at index `k` or later is non-empty. */
  predicate NonEmptyFrom(parts: seq<string>, k: nat) {
    exists j :: k <= j < |parts| && parts[j] != ""
  }

  /** `split` of a non-empty string has more than `k` elements iff a later segment is non-empty. */
  lemma SplitLongerThan(s: string, d: char, k: nat)
    requires s != ""
    ensures |Split(s, d)| > k <==> NonEmptyFrom(Segments(s, d), k)
  {
    var r, parts := Split(s, d), Segments(s, d);
    if |r| > k {
      assert parts[|r| - 1] == r[|r| - 1];
    }
  }

  /** Every segment is empty exactly when the string consists of delimiters only. */
  lemma {:induction false} SegmentsAllEmpty(s: string, d: char)
    ensures (forall k :: 0 <= k < |Segments(s, d)| ==> Segments(s, d)[k] == "")
        <==> (forall i :: 0 <= i < |s| ==> s[i] == d)
    decreases |s|
  {
    if d !in s {
      assert Segments(s, d) == [s];
      if |s| > 0 {
        assert s[0] != d;
        assert Segments(s, d)[0] != "";
      }
    } else {
      var i := IndexOf(s, d);
      var rest := Segments(s[i + 1..], d);
      SegmentsAllEmpty(s[i + 1..], d);
      assert Segments(s, d) == [s[..i]] + rest;
      if forall j :: 0 <= j < |s| ==> s[j] == d {
        assert i == 0;
        assert forall j :: 0 <= j < |s[1..]| ==> s[1..][j] == s[j + 1];
      }
      if forall k :: 0 <= k < |Segments(s, d)| ==> Segments(s, d)[k] == "" {
        assert Segments(s, d)[0] == s[..i];
        assert forall k :: 0 <= k < |rest| ==> rest[k] == Segments(s, d)[k + 1];
        forall j | 0 <= j < |s|
          ensures s[j] == d
        {
          if j > 0 {
            assert s[j] == s[i + 1..][j - 1];
          }
        }
      }
    }
  }

  // ---------------------------------------------------------------------------
  // replace
  // ---------------------------------------------------------------------------

  /**
    `s.replace(target, replacement)` for a non-empty target: scans from the left
    and replaces each occurrence, resuming after it, so occurrences never overlap.
  */
  function ReplaceAll(s: string, target: string, replacement: string): string
    requires |target| > 0
    decreases |s|
  {
    if |s| < |target| then s
    else if s[..|target|] == target then replacement + ReplaceAll(s[|target|..], target, replacement)
    else [s[0]] + ReplaceAll(s[1..], target, replacement)
  }

  /** A replacement no longer than the target never lengthens the string, and one no shorter never shortens it. */
  lemma {:induction false} ReplaceAllLength(s: string, target: string, replacement: string)
    requires |target| > 0
    ensures |replacement| <= |target| ==> |ReplaceAll(s, target, replacement)| <= |s|
    ensures |replacement| >= |target| ==> |ReplaceAll(s, target, replacement)| >= |s|
    decreases |s|
  {
    if |s| >= |target| {
      if s[..|target|] == target {
        ReplaceAllLength(s[|target|..], target, replacement);
      } else {
        ReplaceAllLength(s[1..], target, replacement);
      }
    }
  }

  /** A string without the target is left as it is. */
  lemma {:induction false} ReplaceAllWithoutTarget(s: string, target: string, replacement: string)
    requires |target| > 0
    requires !Contains(s, target)
    ensures ReplaceAll(s, target, replacement) == s
    decreases |s|
  {
    if |s| >= |target| {
      ReplaceAllWithoutTarget(s[1..], target, replacement);
      assert [s[0]] + s[1..] == s;
    }
  }

  /**
    When the first occurrence of the target starts right after `p`, the prefix
    `p` is kept, that occurrence is replaced, and the scan resumes after it.
  */
  lemma {:induction false} ReplaceAllAtFirstOccurrence(p: string, target: string, rest: string, replacement: string)
    requires |target| > 0
    requires forall i: nat :: i < |p| ==> !OccursAt(p + target, target, i)
    ensures ReplaceAll(p + target + rest, target, replacement) == p + replacement + ReplaceAll(rest, target, replacement)
    decreases |p|
  {
    var s := p + target + rest;
    if |p| == 0 {
      assert s == target + rest;
      assert s[..|target|] == target;
      assert s[|target|..] == rest;
    } else {
      NoOccurrenceInTail(p, target);
      ReplaceAllAtFirstOccurrence(p[1..], target, rest, replacement);
      assert s[..|target|] != target by {
        assert !OccursAt(p + target, target, 0);
        assert s[..|target|] == (p + target)[..|target|];
      }
      assert s[1..] == p[1..] + target + rest;
      var tail := replacement + ReplaceAll(rest, target, replacement);
      assert ReplaceAll(s, target, replacement) == [p[0]] + (p[1..] + tail);
      assert p + tail == [p[0]] + (p[1..] + tail);
    }
  }

  /** The hypothesis of `ReplaceAllAtFirstOccurrence` carries over from `p` to `p[1..]`. */
  lemma NoOccurrenceInTail(p: string, target: string)
    requires |p| > 0
    requires forall i: nat :: i < |p| ==> !OccursAt(p + target, target, i)
    ensures forall i: nat :: i < |p[1..]| ==> !OccursAt(p[1..] + target, target, i)
  {
    assert (p + target)[1..] == p[1..] + target;
    forall i: nat | i < |p[1..]|
      ensures !OccursAt(p[1..] + target, target, i)
    {
      assert !OccursAt(p + target, target, i + 1);
      SliceOfTail(p + target, i, |target|);
    }
  }

  /** `s.replace(target, "")`. */
  function RemoveAll(s: string, target: string): string
    requires |target| > 0
  {
    ReplaceAll(s, target, "")
  }

  /** Removing occurrences never makes a string longer. */
  lemma {:induction false} RemoveAllShrinks(s: string, target: string)
    requires |target| > 0
    ensures |RemoveAll(s, target)| <= |s|
    ensures Contains(s, target) ==> |RemoveAll(s, target)| < |s|
    decreases |s|
  {
    if |s| >= |target| {
      if s[..|target|] == target {
        RemoveAllShrinks(s[|target|..], target);
      } else {
        RemoveAllShrinks(s[1..], target);
      }
    }
  }

  /** The non-contiguous subsequence relation: `a` is `b` with some elements deleted. */
  predicate IsSubsequence<T(==)>(a: seq<T>, b: seq<T>)
    decreases |b|
  {
    if |a| == 0 then true
    else if |b| == 0 then false
    else (a[0] == b[0] && IsSubsequence(a[1..], b[1..])) || IsSubsequence(a, b[1..])
  }

  lemma {:induction false} SubsequenceOfLonger<T>(a: seq<T>, c: seq<T>, b: seq<T>)
    requires IsSubsequence(a, b)
    ensures IsSubsequence(a, c + b)
    decreases |c|
  {
    if |c| > 0 && |a| > 0 {
      SubsequenceOfLonger(a, c[1..], b);
      assert (c + b)[1..] == c[1..] + b;
      assert IsSubsequence(a, (c + b)[1..]);
      assert |c + b| > 0;
    } else if |c| == 0 {
      assert c + b == b;
    }
  }

  /** What `replace(target, "")` leaves is made of the string's own characters, in order. */
  lemma {:induction false} RemoveAllIsSubsequence(s: string, target: string)
    requires |target| > 0
    ensures IsSubsequence(RemoveAll(s, target), s)
    decreases |s|
  {
    if |s| < |target| {
      SubsequenceReflexive(s);
    } else if s[..|target|] == target {
      RemoveAllIsSubsequence(s[|target|..], target);
      assert RemoveAll(s, target) == RemoveAll(s[|target|..], target);
      SubsequenceOfLonger(RemoveAll(s[|target|..], target), s[..|target|], s[|target|..]);
      assert s[..|target|] + s[|target|..] == s;
    } else {
      RemoveAllIsSubsequence(s[1..], target);
      var r := RemoveAll(s, target);
      assert r == [s[0]] + RemoveAll(s[1..], target);
      assert r[1..] == RemoveAll(s[1..], target);
    }
  }

  lemma {:induction false} SubsequenceReflexive<T>(s: seq<T>)
    ensures IsSubsequence(s, s)
    decreases |s|
  {
    if |s| > 0 {
      SubsequenceReflexive(s[1..]);
    }
  }

  /** What `replace(target, "")` promises: never longer, unchanged without an occurrence, made of the string's characters. */
  lemma RemoveAllFacts(s: string, target: string)
    requires |target| > 0
    ensures |RemoveAll(s, target)| <= |s|
    ensures !Contains(s, target) ==> RemoveAll(s, target) == s
    ensures IsSubsequence(RemoveAll(s, target), s)
  {
    RemoveAllShrinks(s, target);
    if !Contains(s, target) {
      ReplaceAllWithoutTarget(s, target, "");
    }
    RemoveAllIsSubsequence(s, target);
  }

  /** Removing a one-character target leaves no occurrence of that character. */
  lemma {:induction false} RemoveAllChar(s: string, c: char)
    ensures c !in RemoveAll(s, [c])
    decreases |s|
  {
    if |s| >= 1 {
      RemoveAllChar(s[1..], c);
      if s[..1] != [c] {
        assert s[0] != c;
      }
    }
  }

  // ---------------------------------------------------------------------------
  // toUpperCase
  // ---------------------------------------------------------------------------

  /** ASCII upper-casing of one character. */
  function UpperChar(c: char): char {
    if 'a' <= c <= 'z' then (c as int - 32) as char else c
  }

  /** `s.toUpperCase()`, taken as ASCII upper-casing. */
  function ToUpper(s: string): (upper: string)
    ensures |upper| == |s|
    ensures forall i :: 0 <= i < |upper| ==> !('a' <= upper[i] <= 'z')
    ensures forall i :: 0 <= i < |s| && !('a' <= s[i] <= 'z') ==> upper[i] == s[i]
    ensures forall i :: 0 <= i < |s| && 'a' <= s[i] <= 'z' ==> upper[i] as int == s[i] as int - 32
  {
    seq(|s|, i requires 0 <= i < |s| => UpperChar(s[i]))
  }
}

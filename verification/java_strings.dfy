/** The few `java.lang.String` operations the proxy relies on, with Java's exact edge
    cases: `split` on a one-character separator (with limit 2 and with the default limit 0,
    which drops trailing empty pieces), and `replace(target, "")`. */
module JavaStrings {

  /** `indexOf(c)`: the first position of c, or -1. */
  function IndexOf(s: string, c: char): (r: int)
    ensures -1 <= r < |s|
    ensures r == -1 <==> c !in s
    ensures r >= 0 ==> s[r] == c && c !in s[..r]
  {
    if |s| == 0 then -1
    else if s[0] == c then 0
    else
      var k := IndexOf(s[1..], c);
      assert s[1..][..if k < 0 then 0 else k] == s[1..1 + if k < 0 then 0 else k];
      if k == -1 then -1 else k + 1
  }

  lemma IndexOfAfterPrefix(a: string, c: char, b: string)
    requires c !in a
    ensures IndexOf(a + [c] + b, c) == |a|
  {
    var s := a + [c] + b;
    assert s[|a|] == c;
    assert s[..|a|] == a;
  }

  /** A prefix of a suffix is a slice. */
  lemma SliceOfSuffix<T>(s: seq<T>, a: nat, b: nat)
    requires a <= b <= |s|
    ensures s[a..][..b - a] == s[a..b]
  {
  }

  /** `split(c, 2)`: the whole string when c does not occur, otherwise the text before and
      after the first c. */
  function SplitFirst(s: string, c: char): (r: seq<string>)
    ensures 1 <= |r| <= 2
    ensures |r| == 1 <==> c !in s
    ensures |r| == 1 ==> r[0] == s
    ensures |r| == 2 ==> c !in r[0] && s == r[0] + [c] + r[1]
    ensures |r| == 2 ==> r[0] == s[..IndexOf(s, c)] && r[1] == s[IndexOf(s, c) + 1..]
    ensures |r| == 2 ==> r[0] <= s && (|r[1]| == 0 ==> s[|s| - 1] == c)
  {
    var k := IndexOf(s, c);
    if k == -1 then [s]
    else
      assert s == s[..k] + [c] + s[k + 1..];
      [s[..k], s[k + 1..]]
  }

  /** All pieces of s between occurrences of c, empty ones included. */
  function Pieces(s: string, c: char): (r: seq<string>)
    ensures |r| >= 1
    ensures forall i :: 0 <= i < |r| ==> c !in r[i]
    decreases |s|
  {
    var k := IndexOf(s, c);
    if k == -1 then [s] else [s[..k]] + Pieces(s[k + 1..], c)
  }

  function DropTrailingEmpty(ps: seq<string>): (r: seq<string>)
    ensures |r| <= |ps| && r == ps[..|r|]
    ensures |r| > 0 ==> r[|r| - 1] != ""
    ensures forall i :: |r| <= i < |ps| ==> ps[i] == ""
  {
    if |ps| == 0 then []
    else if ps[|ps| - 1] == "" then DropTrailingEmpty(ps[..|ps| - 1])
    else ps
  }

  /** `split(c)` with Java's default limit: the whole string when c does not occur,
      otherwise every piece with the trailing empty ones removed. */
  function Split(s: string, c: char): (r: seq<string>)
    ensures c !in s ==> r == [s]
    ensures forall i :: 0 <= i < |r| ==> c !in r[i]
  {
    if c !in s then [s] else DropTrailingEmpty(Pieces(s, c))
  }

  /** Pieces joined back with the separator. */
  function Join(ps: seq<string>, c: char): (r: string)
    requires |ps| >= 1
    decreases |ps|
  {
    if |ps| == 1 then ps[0] else ps[0] + [c] + Join(ps[1..], c)
  }

  lemma {:induction false} JoinContains(ps: seq<string>, c: char)
    requires |ps| >= 1
    requires forall i :: 0 <= i < |ps| ==> c !in ps[i]
    ensures c in Join(ps, c) <==> |ps| > 1
    decreases |ps|
  {
    if |ps| > 1 {
      assert Join(ps, c)[|ps[0]|] == c;
    }
  }

  /** Text before the first separator is the first piece. */
  lemma PiecesAfterPrefix(a: string, c: char, b: string)
    requires c !in a
    ensures Pieces(a + [c] + b, c) == [a] + Pieces(b, c)
  {
    var s := a + [c] + b;
    IndexOfAfterPrefix(a, c, b);
    assert s[..|a|] == a;
    assert s[|a| + 1..] == b;
  }

  lemma {:induction false} PiecesJoin(ps: seq<string>, c: char)
    requires |ps| >= 1
    requires forall i :: 0 <= i < |ps| ==> c !in ps[i]
    ensures Pieces(Join(ps, c), c) == ps
    decreases |ps|
  {
    if |ps| > 1 {
      var rest := ps[1..];
      assert forall i :: 0 <= i < |rest| ==> rest[i] == ps[i + 1];
      PiecesJoin(rest, c);
      PiecesJoinStep(ps[0], rest, c);
      assert [ps[0]] + rest == ps;
    }
  }

  lemma PiecesJoinStep(first: string, rest: seq<string>, c: char)
    requires c !in first && |rest| >= 1
    requires Pieces(Join(rest, c), c) == rest
    ensures Pieces(Join([first] + rest, c), c) == [first] + rest
  {
    var ps := [first] + rest;
    assert ps[0] == first && ps[1..] == rest;
    PiecesAfterPrefix(first, c, Join(rest, c));
  }

  /** `split` undoes joining, provided no piece holds the separator and, when there are
      several pieces, the last one is not empty. */
  lemma SplitJoin(ps: seq<string>, c: char)
    requires |ps| >= 1
    requires forall i :: 0 <= i < |ps| ==> c !in ps[i]
    requires |ps| > 1 ==> ps[|ps| - 1] != ""
    ensures Split(Join(ps, c), c) == ps
  {
    JoinContains(ps, c);
    if |ps| > 1 {
      PiecesJoin(ps, c);
    }
  }

  /** `replace(target, "")`: removes every occurrence of target found in one left-to-right
      scan; the text after a removal is not scanned again together with what preceded it. */
  function RemoveAll(s: string, target: string): (r: string)
    requires |target| > 0
    ensures |r| <= |s|
    decreases |s|
  {
    if |s| < |target| then s
    else if s[..|target|] == target then RemoveAll(s[|target|..], target)
    else [s[0]] + RemoveAll(s[1..], target)
  }

  /** target occurs in s starting at position i. */
  predicate OccursAt(s: string, target: string, i: nat) {
    i + |target| <= |s| && s[i..i + |target|] == target
  }

  predicate Contains(s: string, target: string) {
    exists i: nat | i <= |s| :: OccursAt(s, target, i)
  }

  lemma AbsentFromTail(s: string, target: string)
    requires |s| > 0
    requires !Contains(s, target)
    ensures !Contains(s[1..], target)
  {
    forall i: nat ensures !OccursAt(s[1..], target, i) {
      assert !OccursAt(s, target, i + 1);
      if i + |target| <= |s| - 1 {
        assert s[1..][i..i + |target|] == s[i + 1..i + 1 + |target|];
      }
    }
  }

  lemma {:induction false} RemoveAllAbsent(s: string, target: string)
    requires |target| > 0
    requires !Contains(s, target)
    ensures RemoveAll(s, target) == s
    decreases |s|
  {
    if |s| >= |target| {
      assert !OccursAt(s, target, 0);
      assert s[0..|target|] == s[..|target|];
      AbsentFromTail(s, target);
      RemoveAllAbsent(s[1..], target);
    }
  }

  /** An occurrence with no earlier occurrence before it is removed, and the scan goes on
      after it. */
  lemma {:induction false} RemoveAllAfter(a: string, target: string, b: string)
    requires |target| > 0
    requires forall i :: 0 <= i < |a| ==> !OccursAt(a + target + b, target, i)
    ensures RemoveAll(a + target + b, target) == a + RemoveAll(b, target)
    decreases |a|
  {
    if |a| == 0 {
      assert a + target + b == target + b;
      RemoveAllPrefix(target, b);
    } else {
      var s := a + target + b;
      NoOccurrenceAtHead(s, target);
      NoOccurrenceInTail(a, target, b);
      assert s[1..] == a[1..] + target + b;
      RemoveAllAfter(a[1..], target, b);
      assert a == [a[0]] + a[1..];
    }
  }

  /** Without an occurrence at the start, the first character is kept. */
  lemma NoOccurrenceAtHead(s: string, target: string)
    requires 0 < |target| <= |s| && !OccursAt(s, target, 0)
    ensures RemoveAll(s, target) == [s[0]] + RemoveAll(s[1..], target)
  {
    assert s[0..|target|] == s[..|target|];
  }

  lemma NoOccurrenceInTail(a: string, target: string, b: string)
    requires |a| > 0
    requires forall i :: 0 <= i < |a| ==> !OccursAt(a + target + b, target, i)
    ensures forall i :: 0 <= i < |a| - 1 ==> !OccursAt(a[1..] + target + b, target, i)
  {
    var s := a + target + b;
    var t := a[1..] + target + b;
    assert t == s[1..];
    forall i | 0 <= i < |a| - 1 ensures !OccursAt(t, target, i) {
      assert !OccursAt(s, target, i + 1);
      if i + |target| <= |t| {
        assert t[i..i + |target|] == s[i + 1..i + 1 + |target|];
      }
    }
  }

  lemma RemoveAllAbsentIf(s: string, target: string)
    requires |target| > 0
    ensures !Contains(s, target) ==> RemoveAll(s, target) == s
    ensures forall rest :: s == target + rest ==> RemoveAll(s, target) == RemoveAll(rest, target)
  {
    if !Contains(s, target) {
      RemoveAllAbsent(s, target);
    }
    forall rest | s == target + rest ensures RemoveAll(s, target) == RemoveAll(rest, target) {
      RemoveAllPrefix(target, rest);
    }
  }

  lemma RemoveAllPrefix(target: string, rest: string)
    requires |target| > 0
    ensures RemoveAll(target + rest, target) == RemoveAll(rest, target)
  {
    var s := target + rest;
    assert s[..|target|] == target;
    assert s[|target|..] == rest;
  }
}

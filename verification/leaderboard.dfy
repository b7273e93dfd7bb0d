/** The high-score rule of `saveHighScore`: a score that is not positive is
    discarded; any other score is appended to the stored list, the list is
    sorted highest first and only its first MAX_HIGH_SCORES entries are kept. */
module Leaderboard {

  /** `config.MAX_HIGH_SCORES`: the leaderboard keeps at most this many entries. */
  const MAX_HIGH_SCORES: nat := 10

  /** Highest score first. */
  predicate Descending(s: seq<int>) {
    forall i, j :: 0 <= i < j < |s| ==> s[i] >= s[j]
  }

  function Min(a: int, b: int): int {
    if a <= b then a else b
  }

  /** The first `n` entries of `s`, or all of them when there are fewer
      (what `Array.prototype.slice(0, n)` returns). */
  function Take(s: seq<int>, n: nat): (r: seq<int>)
    ensures |r| == Min(|s|, n)
    ensures r == s[..|r|]
  {
    if |s| <= n then s else s[..n]
  }

  /** Places `x` in front of the first entry it is at least as high as. */
  function Insert(x: int, s: seq<int>): (r: seq<int>)
    requires Descending(s)
    ensures |r| == |s| + 1
    ensures r[0] == x || (s != [] && r[0] == s[0])
    ensures Descending(r)
    ensures multiset(r) == multiset(s) + multiset{x}
  {
    if s == [] || x >= s[0] then
      DescendingCons(x, s);
      [x] + s
    else
      DescendingTail(s);
      var rest := Insert(x, s[1..]);
      DescendingCons(s[0], rest);
      TailMultiset(s);
      [s[0]] + rest
  }

  /** `scores.sort((a, b) => b - a)`: the descending rearrangement of `s`.
      On integers every descending rearrangement is the same sequence
      (DescendingUnique), so the sorting algorithm does not matter. */
  function SortDescending(s: seq<int>): (r: seq<int>)
    ensures Descending(r)
    ensures multiset(r) == multiset(s)
  {
    if s == [] then []
    else
      assert s == [s[0]] + s[1..];
      Insert(s[0], SortDescending(s[1..]))
  }

  /** Every element of a descending sequence is at most its head. */
  lemma HeadIsHighest(a: seq<int>, y: int)
    requires Descending(a) && y in multiset(a)
    ensures a != [] && y <= a[0]
  {
  }

  /** Dropping the head of a descending sequence keeps it descending. */
  lemma DescendingTail(a: seq<int>)
    requires Descending(a) && a != []
    ensures Descending(a[1..])
  {
  }

  /** A head no lower than the first entry of a descending sequence extends it. */
  lemma DescendingCons(h: int, t: seq<int>)
    requires Descending(t) && (t == [] || h >= t[0])
    ensures Descending([h] + t)
  {
  }

  /** The elements of a non-empty sequence are its head and those of its tail. */
  lemma TailMultiset(a: seq<int>)
    requires a != []
    ensures multiset(a) == multiset(a[1..]) + multiset{a[0]}
  {
    assert a == [a[0]] + a[1..];
  }

  /** Two descending sequences with the same elements have the same head, and
      their tails again have the same elements. */
  lemma SameHeads(a: seq<int>, b: seq<int>)
    requires Descending(a) && Descending(b)
    requires multiset(a) == multiset(b) && a != []
    ensures b != [] && a[0] == b[0]
    ensures multiset(a[1..]) == multiset(b[1..])
  {
    assert a[0] in multiset(a);
    HeadIsHighest(b, a[0]);
    assert b[0] in multiset(b);
    HeadIsHighest(a, b[0]);
    TailMultiset(a);
    TailMultiset(b);
    assert multiset(a[1..]) == multiset(a) - multiset{a[0]};
  }

  /** Two descending sequences with the same elements are equal. */
  lemma {:induction false} DescendingUnique(a: seq<int>, b: seq<int>)
    requires Descending(a) && Descending(b)
    requires multiset(a) == multiset(b)
    ensures a == b
  {
    if a == [] {
      assert |b| == |multiset(b)| == 0;
    } else {
      SameHeads(a, b);
      DescendingTail(a);
      DescendingTail(b);
      DescendingUnique(a[1..], b[1..]);
      assert a == [a[0]] + a[1..];
      assert b == [b[0]] + b[1..];
    }
  }

  /** The leaderboard `saveHighScore(newScore)` stores, given the stored `scores`. */
  function SaveHighScore(scores: seq<int>, newScore: int): (r: seq<int>)
    ensures newScore <= 0 ==> r == scores
    ensures newScore > 0 ==> Descending(r)
    ensures newScore > 0 ==> |r| == Min(|scores| + 1, MAX_HIGH_SCORES)
  {
    if newScore <= 0 then scores
    else
      var sorted := SortDescending(scores + [newScore]);
      assert |sorted| == |multiset(sorted)| == |multiset(scores + [newScore])| == |scores| + 1;
      var r := Take(sorted, MAX_HIGH_SCORES);
      assert Descending(r) by {
        forall i, j | 0 <= i < j < |r| ensures r[i] >= r[j] {
          assert r[i] == sorted[i] && r[j] == sorted[j];
        }
      }
      r
  }

  /** A positive score's board is a prefix of the sorted old board plus the
      new score: the kept part and the dropped part together are all of it. */
  lemma SaveSplits(scores: seq<int>, newScore: int)
    requires newScore > 0
    ensures var r := SaveHighScore(scores, newScore);
            var sorted := SortDescending(scores + [newScore]);
            |r| <= |sorted| && r == sorted[..|r|] &&
            multiset(scores + [newScore]) == multiset(r) + multiset(sorted[|r|..])
  {
    var sorted := SortDescending(scores + [newScore]);
    var r := SaveHighScore(scores, newScore);
    assert r == Take(sorted, MAX_HIGH_SCORES);
    assert sorted == sorted[..|r|] + sorted[|r|..];
  }

  /** The new board holds only scores of the old board and the new score, and
      nothing is dropped while the board has room. */
  lemma SaveDrawsFromOldAndNew(scores: seq<int>, newScore: int)
    requires newScore > 0
    ensures multiset(SaveHighScore(scores, newScore)) <= multiset(scores + [newScore])
    ensures |scores| < MAX_HIGH_SCORES ==>
              multiset(SaveHighScore(scores, newScore)) == multiset(scores + [newScore])
  {
    SaveSplits(scores, newScore);
    var sorted := SortDescending(scores + [newScore]);
    assert |sorted| == |multiset(sorted)| == |scores| + 1;
    if |scores| < MAX_HIGH_SCORES {
      assert sorted[|SaveHighScore(scores, newScore)|..] == [];
    }
  }

  /** Cutting a descending sequence at `n`: an entry after the cut is no
      higher than an entry before it. */
  lemma DroppedNotHigher(s: seq<int>, n: nat, x: int, y: int)
    requires Descending(s) && n <= |s|
    requires x in s[..n] && y in multiset(s[n..])
    ensures y <= x
  {
  }

  /** The kept entries are the highest ones: every score that was dropped is
      no higher than any score that was kept. */
  lemma SaveKeepsTopScores(scores: seq<int>, newScore: int)
    requires newScore > 0
    ensures var r := SaveHighScore(scores, newScore);
            forall x, y :: x in r && y in multiset(scores + [newScore]) - multiset(r) ==> y <= x
  {
    SaveSplits(scores, newScore);
    var sorted := SortDescending(scores + [newScore]);
    var r := SaveHighScore(scores, newScore);
    var n := |r|;
    assert multiset(scores + [newScore]) - multiset(r) == multiset(sorted[n..]);
    forall x, y | x in r && y in multiset(sorted[n..])
      ensures y <= x
    {
      DroppedNotHigher(sorted, n, x, y);
    }
  }

  /** The leaderboard after `saveHighScore` has been called with each of
      `newScores` in turn. */
  function SaveAll(board: seq<int>, newScores: seq<int>): (r: seq<int>)
    ensures |r| <= if |board| <= MAX_HIGH_SCORES then MAX_HIGH_SCORES else |board|
    ensures (forall i :: 0 <= i < |newScores| ==> newScores[i] <= 0) ==> r == board
    decreases |newScores|
  {
    if newScores == [] then board
    else SaveAll(SaveHighScore(board, newScores[0]), newScores[1..])
  }

  /** Saving positive scores one after another fills the board up to
      MAX_HIGH_SCORES entries and leaves it in descending order. */
  lemma {:induction false} SaveAllFills(board: seq<int>, newScores: seq<int>)
    requires |newScores| > 0
    requires forall i :: 0 <= i < |newScores| ==> newScores[i] > 0
    ensures |SaveAll(board, newScores)| == Min(|board| + |newScores|, MAX_HIGH_SCORES)
    ensures Descending(SaveAll(board, newScores))
    decreases |newScores|
  {
    var next := SaveHighScore(board, newScores[0]);
    if |newScores| > 1 {
      SaveAllFills(next, newScores[1..]);
    }
  }
}

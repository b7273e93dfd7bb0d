/** The board seen by the spawn engine: holes are numbered 0 .. total-1 and a
    hole is free when it holds no active mole. */
module Holes {

  /** The free holes among 0 .. n-1 in increasing order: the list `_spawnMole`
      builds before it picks one of them. */
  function FreeHoles(active: set<int>, n: int): (r: seq<int>)
    ensures |r| <= (if n < 0 then 0 else n)
    decreases n
  {
    if n <= 0 then []
    else FreeHoles(active, n - 1) + (if n - 1 in active then [] else [n - 1])
  }

  predicate StrictlyIncreasing(s: seq<int>) {
    forall i, j :: 0 <= i < j < |s| ==> s[i] < s[j]
  }

  /** The list holds exactly the holes of the grid that are not active. */
  lemma {:induction false} FreeHolesMembers(active: set<int>, n: int)
    ensures forall h :: h in FreeHoles(active, n) <==> 0 <= h < n && h !in active
    decreases n
  {
    if n > 0 {
      FreeHolesMembers(active, n - 1);
    }
  }

  /** The list is in increasing order, so it names every free hole once. */
  lemma {:induction false} FreeHolesIncreasing(active: set<int>, n: int)
    ensures StrictlyIncreasing(FreeHoles(active, n))
    decreases n
  {
    if n > 0 {
      FreeHolesIncreasing(active, n - 1);
      FreeHolesMembers(active, n - 1);
      var prefix := FreeHoles(active, n - 1);
      if n - 1 !in active {
        var s := prefix + [n - 1];
        assert FreeHoles(active, n) == s;
        forall i, j | 0 <= i < j < |s| ensures s[i] < s[j] {
          if j == |prefix| {
            assert s[i] == prefix[i] && prefix[i] in prefix;
          }
        }
      }
    }
  }

  /** The list is empty exactly when every hole of the grid is active. */
  lemma {:induction false} FreeHolesEmpty(active: set<int>, n: int)
    ensures FreeHoles(active, n) == [] <==> forall h :: 0 <= h < n ==> h in active
  {
    FreeHolesMembers(active, n);
    if FreeHoles(active, n) != [] {
      var h := FreeHoles(active, n)[0];
      assert h in FreeHoles(active, n);
      assert 0 <= h < n && h !in active;
    }
  }

  /** On an empty board every hole is free and the list is 0, 1, .., n-1. */
  lemma {:induction false} FreeHolesOfEmptyBoard(n: nat)
    ensures |FreeHoles({}, n)| == n
    ensures forall i :: 0 <= i < n ==> FreeHoles({}, n)[i] == i
  {
    if n > 0 {
      FreeHolesOfEmptyBoard(n - 1);
      assert FreeHoles({}, n) == FreeHoles({}, n - 1) + [n - 1];
    }
  }

  /** The scan at the top of `_spawnMole`: every index below `total` that is
      not in `active` is pushed, in increasing order. */
  method AvailableHoles(active: set<int>, total: int) returns (free: seq<int>)
    ensures free == FreeHoles(active, total)
    ensures forall h :: h in free <==> 0 <= h < total && h !in active
    ensures StrictlyIncreasing(free)
  {
    free := [];
    var i := 0;
    while i < total
      invariant 0 <= i <= (if total < 0 then 0 else total)
      invariant free == FreeHoles(active, i)
    {
      if i !in active {
        free := free + [i];
      }
      i := i + 1;
    }
    FreeHolesMembers(active, total);
    FreeHolesIncreasing(active, total);
  }
}

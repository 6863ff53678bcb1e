/** Slot numbering per country (internal/sync/displayname.go): always the
    lowest positive number not in use. */
module Allocator {

  // ----- the least free number ---------------------------------------------

  /** Members of used that are at least n. */
  function From(used: set<nat>, n: nat): set<nat> {
    set k | k in used && k >= n
  }

  /** The least number >= n outside used. */
  function LeastFreeFrom(used: set<nat>, n: nat): (r: nat)
    ensures n <= r && r !in used
    ensures forall k :: n <= k < r ==> k in used
    ensures r <= n + |From(used, n)|
    decreases |From(used, n)|
  {
    if n !in used then n
    else
      assert From(used, n) == From(used, n + 1) + {n};
      LeastFreeFrom(used, n + 1)
  }

  /** The least positive free number; at most one more than the count in use. */
  function LeastFree(used: set<nat>): (r: nat)
    ensures r >= 1 && r !in used
    ensures forall k :: 1 <= k < r ==> k in used
    ensures r <= |used| + 1
  {
    Subset(From(used, 1), used);
    LeastFreeFrom(used, 1)
  }

  lemma {:induction false} Subset<T>(a: set<T>, b: set<T>)
    requires a <= b
    ensures |a| <= |b|
  {
    assert b == a + (b - a);
  }

  lemma LeastFreeIsUnique(used: set<nat>, r: nat)
    requires r >= 1 && r !in used && forall k :: 1 <= k < r ==> k in used
    ensures r == LeastFree(used)
  {
    var q := LeastFree(used);
    if q < r {
      assert false;
    }
  }

  // ----- several calls in a row --------------------------------------------

  /** The numbers that m calls of next hand out, in order. */
  function Draw(used: set<nat>, m: nat): (ns: seq<nat>)
    ensures |ns| == m
    decreases m
  {
    if m == 0 then []
    else
      var n := LeastFree(used);
      [n] + Draw(used + {n}, m - 1)
  }

  /** ns is strictly increasing, positive and free, and below each of its
      members every free number was handed out earlier. */
  ghost predicate SmallestFree(used: set<nat>, ns: seq<nat>) {
    && (forall i, j :: 0 <= i < j < |ns| ==> ns[i] < ns[j])
    && (forall i :: 0 <= i < |ns| ==> ns[i] >= 1 && ns[i] !in used)
    && (forall i, k :: 0 <= i < |ns| && 1 <= k < ns[i] && k !in used ==> k in ns[..i])
  }

  /** m successive calls return the m smallest free numbers in increasing order. */
  lemma {:induction false} DrawsAreTheSmallest(used: set<nat>, m: nat)
    ensures SmallestFree(used, Draw(used, m))
    decreases m
  {
    if m > 0 {
      var n := LeastFree(used);
      DrawsAreTheSmallest(used + {n}, m - 1);
      SmallestFreeCons(used, n, Draw(used + {n}, m - 1));
    }
  }

  lemma SmallestFreeCons(used: set<nat>, n: nat, rest: seq<nat>)
    requires n == LeastFree(used) && SmallestFree(used + {n}, rest)
    ensures SmallestFree(used, [n] + rest)
  {
    var ns := [n] + rest;
    forall i | 0 <= i < |rest| ensures rest[i] > n && rest[i] !in used {
      assert rest[i] !in used + {n};
    }
    forall i, k | 0 <= i < |ns| && 1 <= k < ns[i] && k !in used ensures k in ns[..i] {
      if i > 0 {
        assert ns[..i] == [n] + rest[..i - 1];
        if k != n {
          assert k !in used + {n};
          assert k in rest[..i - 1];
        }
      }
    }
  }

  /** given holds free numbers only, and every free number below one of them. */
  ghost predicate LowestFree(used: set<nat>, given: set<nat>) {
    && (forall n :: n in given ==> n >= 1 && n !in used)
    && (forall n, k :: n in given && 1 <= k < n && k !in used ==> k in given)
  }

  lemma LowestFreeGrows(used: set<nat>, given: set<nat>)
    requires LowestFree(used, given)
    ensures LowestFree(used, given + {LeastFree(used + given)})
  {
    var n := LeastFree(used + given);
    forall k | 1 <= k < n && k !in used ensures k in given {
      assert k in used + given;
    }
  }

  /** There is only one such set of each size. */
  lemma LowestFreeIsUnique(used: set<nat>, a: set<nat>, b: set<nat>)
    requires LowestFree(used, a) && LowestFree(used, b) && |a| == |b|
    ensures a == b
  {
    assert forall x, y :: x in a && y in b && x < y ==> x in b;
    assert forall x, y :: x in a && y in b && y < x ==> y in a;
    assert a <= b || b <= a;
    assert a <= b ==> b == a + (b - a);
    assert b <= a ==> a == b + (a - b);
  }

  function FreeBelow(used: set<nat>, n: nat): set<nat> {
    set k: nat | 1 <= k < n && k !in used
  }

  /** A number is among the lowest free ones exactly when it is free itself and
      fewer numbers than are given lie free below it. */
  lemma RankOfGiven(used: set<nat>, given: set<nat>, n: nat)
    requires LowestFree(used, given)
    ensures n in given <==> n >= 1 && n !in used && |FreeBelow(used, n)| < |given|
  {
    var below := FreeBelow(used, n);
    if n in given {
      assert below + {n} <= given;
      Subset(below + {n}, given);
    } else if n >= 1 && n !in used {
      assert given <= below;
      Subset(given, below);
    }
  }

  // ----- the mutable allocator ---------------------------------------------

  /** Occupied (country, number) pairs of a slot table. */
  ghost function Pairs(used: map<string, set<nat>>): set<(string, nat)> {
    set cc, n | cc in used && n in used[cc] :: (cc, n)
  }

  /** Numbers a set of pairs occupies in one country. */
  function Numbers(pairs: set<(string, nat)>, cc: string): set<nat> {
    set p | p in pairs && p.0 == cc :: p.1
  }

  lemma PairsOfOneCountry(used: map<string, set<nat>>, cc: string)
    requires cc in used
    ensures Numbers(Pairs(used), cc) == used[cc]
  {
    forall n | n in used[cc] ensures n in Numbers(Pairs(used), cc) {
      assert (cc, n) in Pairs(used);
    }
  }

  lemma PairsAfterInsert(used: map<string, set<nat>>, cc: string, n: nat)
    requires cc in used
    ensures Pairs(used[cc := used[cc] + {n}]) == Pairs(used) + {(cc, n)}
  {
  }

  class SeqAllocator {
    var used: map<string, set<nat>>

    ghost function Occupied(): set<(string, nat)>
      reads this
    {
      Pairs(used)
    }

    constructor ()
      ensures Occupied() == {}
    {
      used := map[];
    }

    /** Looks a country's set up, creating an empty one when there is none. */
    method CcSet(cc: string) returns (m: set<nat>)
      modifies this
      ensures cc in used && m == used[cc]
      ensures Occupied() == old(Occupied())
    {
      if cc !in used {
        used := used[cc := {}];
      }
      m := used[cc];
    }

    /** Marks a number as occupied. */
    method Reserve(cc: string, number: nat)
      modifies this
      ensures Occupied() == old(Occupied()) + {(cc, number)}
    {
      var m := CcSet(cc);
      PairsAfterInsert(used, cc, number);
      used := used[cc := m + {number}];
    }

    /** Hands out the least free number of a country; other countries keep
        theirs. The search has no bound of its own: it ends because each step
        passes one more used number. */
    method Next(cc: string) returns (n: nat)
      modifies this
      ensures n == LeastFree(Numbers(old(Occupied()), cc))
      ensures n <= |Numbers(old(Occupied()), cc)| + 1
      ensures Occupied() == old(Occupied()) + {(cc, n)}
    {
      var m := CcSet(cc);
      PairsOfOneCountry(used, cc);
      n := Search(m);
      PairsAfterInsert(used, cc, n);
      used := used[cc := m + {n}];
    }
  }

  /** The search loop of Next. */
  method Search(m: set<nat>) returns (n: nat)
    ensures n == LeastFree(m)
  {
    n := 1;
    while n in m
      invariant n >= 1
      invariant forall k :: 1 <= k < n ==> k in m
      decreases |From(m, n)|
    {
      assert From(m, n) == From(m, n + 1) + {n};
      n := n + 1;
    }
    LeastFreeIsUnique(m, n);
  }
}

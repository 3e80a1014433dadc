/** Which sums a cage of a given size can have: the sums of that many
    distinct digits. The validator enumerates the digit combinations
    recursively into a set; `Feasible` says directly what that set contains. */
module CageSums {
  import opened KillerTypes

  predicate Increasing(xs: seq<int>)
  {
    forall i, j :: 0 <= i < j < |xs| ==> xs[i] < xs[j]
  }

  /** `xs` lists `t` distinct digits above `start`, in increasing order. */
  ghost predicate Picks(xs: seq<int>, t: nat, start: int)
  {
    |xs| == t && Increasing(xs) && forall i :: 0 <= i < |xs| ==> start < xs[i] <= 9
  }

  /** `s` is the sum of `k` distinct digits 1..9. */
  ghost predicate Feasible(k: nat, s: int)
  {
    exists xs :: Picks(xs, k, 0) && Sum(xs) == s
  }

  /** The sums `generateCombinations(nums, t, acc, start)` adds: `acc` plus
      the sum of `t` digits chosen, in increasing order, from start+1..9. */
  ghost function Combos(t: nat, acc: int, start: nat): set<int>
    decreases t, 9 - start
  {
    if t == 0 then {acc}
    else if start >= 9 then {}
    else Combos(t - 1, acc + start + 1, start + 1) + Combos(t, acc, start + 1)
  }

  lemma {:induction false} CombosSound(t: nat, acc: int, start: nat, s: int)
    requires s in Combos(t, acc, start)
    ensures exists xs :: Picks(xs, t, start) && acc + Sum(xs) == s
    decreases t, 9 - start
  {
    if t == 0 {
      assert Picks([], 0, start) && acc + Sum([]) == s;
    } else if start < 9 {
      if s in Combos(t - 1, acc + start + 1, start + 1) {
        CombosSound(t - 1, acc + start + 1, start + 1, s);
        var ys :| Picks(ys, t - 1, start + 1) && acc + start + 1 + Sum(ys) == s;
        var xs := [start + 1] + ys;
        assert xs[1..] == ys;
        assert Picks(xs, t, start) && acc + Sum(xs) == s;
      } else {
        CombosSound(t, acc, start + 1, s);
        var xs :| Picks(xs, t, start + 1) && acc + Sum(xs) == s;
        assert Picks(xs, t, start);
      }
    }
  }

  lemma {:induction false} CombosComplete(t: nat, acc: int, start: nat, xs: seq<int>)
    requires Picks(xs, t, start)
    ensures acc + Sum(xs) in Combos(t, acc, start)
    decreases t, 9 - start
  {
    if t > 0 {
      if xs[0] == start + 1 {
        PicksTail(xs, t, start);
        CombosComplete(t - 1, acc + start + 1, start + 1, xs[1..]);
        assert acc + Sum(xs) == (acc + start + 1) + Sum(xs[1..]);
        assert Combos(t - 1, acc + start + 1, start + 1) <= Combos(t, acc, start);
      } else {
        PicksSkip(xs, t, start);
        CombosComplete(t, acc, start + 1, xs);
        assert Combos(t, acc, start + 1) <= Combos(t, acc, start);
      }
    }
  }

  /** Picks that take `start + 1` continue with picks above it. */
  lemma PicksTail(xs: seq<int>, t: nat, start: nat)
    requires Picks(xs, t, start) && t > 0 && xs[0] == start + 1
    ensures start < 9 && Picks(xs[1..], t - 1, start + 1)
  {
    var ys := xs[1..];
    forall i | 0 <= i < |ys| ensures start + 1 < ys[i] {
      assert ys[i] == xs[i + 1] && xs[0] < xs[i + 1];
    }
  }

  /** Picks that skip `start + 1` are picks above it. */
  lemma PicksSkip(xs: seq<int>, t: nat, start: nat)
    requires Picks(xs, t, start) && t > 0 && xs[0] != start + 1
    ensures start < 8 && Picks(xs, t, start + 1)
  {
    forall i | 0 <= i < |xs| ensures start + 1 < xs[i] {
      assert xs[0] <= xs[i];
    }
  }


  /** The combination sums of `k` digits are exactly the feasible sums. */
  lemma CombosAreFeasible(k: nat)
    ensures forall s :: s in Combos(k, 0, 0) <==> Feasible(k, s)
  {
    forall s ensures s in Combos(k, 0, 0) <==> Feasible(k, s) {
      if s in Combos(k, 0, 0) {
        CombosSound(k, 0, 0, s);
      }
      if Feasible(k, s) {
        var xs :| Picks(xs, k, 0) && Sum(xs) == s;
        CombosComplete(k, 0, 0, xs);
      }
    }
  }

  /** The recursive enumerator; `sums0` is the shared set before the call. */
  method GenerateCombinations(targetSize: nat, sum: int, start: nat, sums0: set<int>) returns (sums: set<int>)
    requires start <= 9
    ensures sums == sums0 + Combos(targetSize, sum, start)
    decreases targetSize
  {
    if targetSize == 0 {
      return sums0 + {sum};
    }
    sums := sums0;
    var i := start;
    while i < 9
      invariant start <= i <= 9
      invariant sums + Combos(targetSize, sum, i) == sums0 + Combos(targetSize, sum, start)
    {
      sums := GenerateCombinations(targetSize - 1, sum + (i + 1), i + 1, sums);
      i := i + 1;
    }
  }

  /** One cell can hold any digit. */
  lemma SingleCellSums(s: int)
    ensures Feasible(1, s) <==> 1 <= s <= 9
  {
    if 1 <= s <= 9 {
      SumSingle(s);
      assert Picks([s], 1, 0);
    }
    if Feasible(1, s) {
      var xs :| Picks(xs, 1, 0) && Sum(xs) == s;
      assert xs == [xs[0]];
      SumSingle(xs[0]);
    }
  }

  /** The sums a cage of `size` cells can have (the size-1 shortcut lists 1..9). */
  method GetPossibleSums(size: nat) returns (sums: set<int>)
    ensures forall s :: s in sums <==> Feasible(size, s)
  {
    if size == 1 {
      sums := {1, 2, 3, 4, 5, 6, 7, 8, 9};
      forall s ensures s in sums <==> Feasible(1, s) {
        SingleCellSums(s);
      }
      return;
    }
    sums := GenerateCombinations(size, 0, 0, {});
    CombosAreFeasible(size);
  }

  /** A cage passes when its sum is the sum of |cells| distinct digits. It is
      not checked against the digits of any particular solution. */
  method ValidateCageMath(cage: Cage) returns (ok: bool)
    ensures ok <==> Feasible(|cage.cells|, cage.sum)
  {
    var possibleSums := GetPossibleSums(|cage.cells|);
    ok := cage.sum in possibleSums;
  }

  lemma {:induction false} PicksGrow(xs: seq<int>, t: nat, start: int)
    requires Picks(xs, t, start)
    ensures forall i :: 0 <= i < |xs| ==> xs[i] >= start + 1 + i && xs[i] <= 9 - (|xs| - 1 - i)
  {
    forall i | 0 <= i < |xs| ensures xs[i] >= start + 1 + i && xs[i] <= 9 - (|xs| - 1 - i) {
      LowerBound(xs, start, i);
      UpperBound(xs, i);
    }
  }

  lemma {:induction false} LowerBound(xs: seq<int>, start: int, i: int)
    requires Increasing(xs) && 0 <= i < |xs| && forall k :: 0 <= k < |xs| ==> start < xs[k]
    ensures xs[i] >= start + 1 + i
  {
    if i > 0 {
      LowerBound(xs, start, i - 1);
    }
  }

  lemma {:induction false} UpperBound(xs: seq<int>, i: int)
    requires Increasing(xs) && 0 <= i < |xs| && forall k :: 0 <= k < |xs| ==> xs[k] <= 9
    ensures xs[i] <= 9 - (|xs| - 1 - i)
    decreases |xs| - i
  {
    if i < |xs| - 1 {
      UpperBound(xs, i + 1);
    }
  }

  lemma PicksLength(xs: seq<int>, t: nat, start: int)
    ensures Picks(xs, t, start) && t > 0 ==> t <= 9 - start
  {
    if Picks(xs, t, start) && t > 0 {
      PicksGrow(xs, t, start);
      assert xs[t - 1] >= start + t;
    }
  }

  lemma SumSingle(a: int)
    ensures Sum([a]) == a
  {
    assert [a][1..] == [];
  }

  lemma SumPair(a: int, b: int)
    ensures Sum([a, b]) == a + b
  {
    assert [a, b][1..] == [b];
    SumSingle(b);
  }

  /** More than nine cells cannot hold distinct digits: no sum passes. */
  lemma OversizedCageInfeasible(k: nat, s: int)
    requires k > 9
    ensures !Feasible(k, s)
  {
    forall xs ensures !Picks(xs, k, 0) {
      PicksLength(xs, k, 0);
    }
  }

  /** A cage without cells passes only with sum 0. */
  lemma EmptyCageSums(s: int)
    ensures Feasible(0, s) <==> s == 0
  {
    if s == 0 {
      assert Picks([], 0, 0) && Sum([]) == 0;
    }
  }

  /** Two cells can hold any sum from 1+2 to 8+9. */
  lemma TwoCellSums(s: int)
    ensures Feasible(2, s) <==> 3 <= s <= 17
  {
    if 3 <= s <= 17 {
      var xs := if s <= 10 then [1, s - 1] else [s - 9, 9];
      SumPair(xs[0], xs[1]);
      assert xs == [xs[0], xs[1]];
      assert Picks(xs, 2, 0) && Sum(xs) == s;
    }
    if Feasible(2, s) {
      var xs :| Picks(xs, 2, 0) && Sum(xs) == s;
      SumPair(xs[0], xs[1]);
      assert xs == [xs[0], xs[1]];
    }
  }

  /** Feasibility does not ask for the sum of any particular solution: a
      two-cell cage with sum 4 passes (1 + 3). */
  lemma TwoCellSumFourPasses()
    ensures Feasible(2, 4)
  {
    TwoCellSums(4);
  }
}

/**
 * Forming anonymity groups (api/src/services/ring.service.ts): the shuffle, the partition of the
 * electorate into sizes, and the fill.
 */
module RingFormation {
  import opened Wrappers
  import opened PrimeField

  // ---- Shuffle ----

  function Swap<T>(s: seq<T>, i: nat, j: nat): (r: seq<T>)
    requires i < |s| && j < |s|
    ensures |r| == |s|
  {
    s[i := s[j]][j := s[i]]
  }

  /** What `randomInt(0, i + 1)` may return for each i. */
  predicate Draws(draws: seq<nat>, n: nat) {
    |draws| == n && forall i :: 0 <= i < n ==> draws[i] <= i
  }

  /** The rest of the shuffle from index i down to 1. */
  function Shuffled<T>(s: seq<T>, draws: seq<nat>, i: nat): (r: seq<T>)
    requires Draws(draws, |s|) && (i < |s| || i == 0)
    ensures |r| == |s|
    decreases i
  {
    if i == 0 then s else Shuffled(Swap(s, i, draws[i]), draws, i - 1)
  }

  function Shuffle<T>(s: seq<T>, draws: seq<nat>): (r: seq<T>)
    requires Draws(draws, |s|)
    ensures |r| == |s|
  {
    Shuffled(s, draws, if s == [] then 0 else |s| - 1)
  }

  /** `shuffle`: a copy, swapped in place from the back. */
  method ShuffleInPlace<T>(items: seq<T>, draws: seq<nat>) returns (result: array<T>)
    requires Draws(draws, |items|)
    ensures fresh(result) && result[..] == Shuffle(items, draws)
  {
    result := new T[|items|](i requires 0 <= i < |items| => items[i]);
    assert result[..] == items;
    var i: int := |items| - 1;
    while i > 0
      invariant -1 <= i < |items| && (i == -1 ==> items == [])
      invariant Shuffle(items, draws) == Shuffled(result[..], draws, if i < 0 then 0 else i)
    {
      var j := draws[i];
      ghost var before := result[..];
      var a, b := result[i], result[j];
      result[i] := b;
      result[j] := a;
      assert result[..] == Swap(before, i, j);
      i := i - 1;
    }
  }

  ghost predicate NoRepeats<T(!new)>(s: seq<T>) {
    forall i, j :: 0 <= i < j < |s| ==> s[i] != s[j]
  }

  lemma SwapKeeps<T>(s: seq<T>, i: nat, j: nat)
    requires i < |s| && j < |s|
    ensures multiset(Swap(s, i, j)) == multiset(s)
  {
    var m := s[i := s[j]];
    assert multiset(m) == multiset(s) - multiset{s[i]} + multiset{s[j]};
    if i != j {
      assert m[j] == s[j];
    }
  }

  /** Shuffling loses and repeats no one. */
  lemma {:induction false} ShuffledPermutes<T>(s: seq<T>, draws: seq<nat>, i: nat)
    requires Draws(draws, |s|) && (i < |s| || i == 0)
    ensures multiset(Shuffled(s, draws, i)) == multiset(s)
    decreases i
  {
    if i > 0 {
      SwapKeeps(s, i, draws[i]);
      ShuffledPermutes(Swap(s, i, draws[i]), draws, i - 1);
    }
  }

  lemma ShufflePermutes<T>(s: seq<T>, draws: seq<nat>)
    requires Draws(draws, |s|)
    ensures multiset(Shuffle(s, draws)) == multiset(s)
  {
    if s != [] {
      ShuffledPermutes(s, draws, |s| - 1);
    }
  }

  /** Later turns leave positions above i alone. */
  lemma {:induction false} ShuffledFixesTail<T>(s: seq<T>, draws: seq<nat>, i: nat)
    requires Draws(draws, |s|) && (i < |s| || i == 0)
    ensures forall k :: i < k < |s| ==> Shuffled(s, draws, i)[k] == s[k]
    decreases i
  {
    if i > 0 {
      ShuffledFixesTail(Swap(s, i, draws[i]), draws, i - 1);
    }
  }

  lemma SwapNoRepeats<T(!new)>(s: seq<T>, i: nat, j: nat)
    requires i < |s| && j < |s| && NoRepeats(s)
    ensures NoRepeats(Swap(s, i, j))
  {
  }

  /** Different draws give different orders. */
  lemma {:induction false} DrawsDetermined<T(!new)>(s: seq<T>, draws: seq<nat>, other: seq<nat>, i: nat)
    requires NoRepeats(s) && Draws(draws, |s|) && Draws(other, |s|) && (i < |s| || i == 0)
    requires Shuffled(s, draws, i) == Shuffled(s, other, i)
    ensures forall k :: 0 <= k <= i && k < |s| ==> draws[k] == other[k]
    decreases i
  {
    if i > 0 {
      ShuffledFixesTail(Swap(s, i, draws[i]), draws, i - 1);
      ShuffledFixesTail(Swap(s, i, other[i]), other, i - 1);
      assert Shuffled(s, draws, i)[i] == Swap(s, i, draws[i])[i] == s[draws[i]];
      assert Shuffled(s, other, i)[i] == Swap(s, i, other[i])[i] == s[other[i]];
      assert draws[i] == other[i];
      SwapNoRepeats(s, i, draws[i]);
      DrawsDetermined(Swap(s, i, draws[i]), draws, other, i - 1);
    }
  }

  /** Every order of the items is what some draws produce. */
  lemma {:induction false} DrawsFor<T(!new)>(s: seq<T>, target: seq<T>, i: nat) returns (draws: seq<nat>)
    requires |target| == |s| && multiset(target) == multiset(s) && (i < |s| || i == 0)
    requires forall k :: i < k < |s| ==> target[k] == s[k]
    ensures Draws(draws, |s|) && Shuffled(s, draws, i) == target
    decreases i
  {
    if i == 0 {
      draws := seq(|s|, _ => 0);
      if s != [] {
        var j := Locate(s, target, 0);
        assert s == target;
      }
    } else {
      var j := Locate(s, target, i);
      SwapKeeps(s, i, j);
      var rest := DrawsFor(Swap(s, i, j), target, i - 1);
      draws := rest[i := j];
      DrawsBelow(Swap(s, i, j), rest, draws, i - 1);
    }
  }

  /** The item due at position i is still at or below it. */
  lemma Locate<T(!new)>(s: seq<T>, target: seq<T>, i: nat) returns (j: nat)
    requires |target| == |s| && multiset(target) == multiset(s) && i < |s|
    requires forall k :: i < k < |s| ==> target[k] == s[k]
    ensures j <= i && s[j] == target[i]
  {
    assert s == s[..i + 1] + s[i + 1..] && target == target[..i + 1] + target[i + 1..];
    assert s[i + 1..] == target[i + 1..];
    assert multiset(s[..i + 1]) == multiset(s) - multiset(s[i + 1..]);
    assert multiset(target[..i + 1]) == multiset(target) - multiset(target[i + 1..]);
    assert target[..i + 1][i] in multiset(s[..i + 1]);
    j :| 0 <= j < i + 1 && s[..i + 1][j] == target[i];
  }

  /** Draws above i play no part in the turns from i down. */
  lemma {:induction false} DrawsBelow<T>(s: seq<T>, draws: seq<nat>, other: seq<nat>, i: nat)
    requires Draws(draws, |s|) && Draws(other, |s|) && (i < |s| || i == 0)
    requires forall k :: 0 <= k <= i && k < |s| ==> draws[k] == other[k]
    ensures Shuffled(s, draws, i) == Shuffled(s, other, i)
    decreases i
  {
    if i > 0 {
      DrawsBelow(Swap(s, i, draws[i]), draws, other, i - 1);
    }
  }

  /**
   * Unbiased: the orders of distinct items and the possible draws correspond one to one, so draws
   * that are equally likely make every order equally likely.
   */
  lemma ShuffleIsBijective<T(!new)>(s: seq<T>, target: seq<T>) returns (draws: seq<nat>)
    requires NoRepeats(s) && s != [] && multiset(target) == multiset(s)
    ensures Draws(draws, |s|) && draws[0] == 0 && Shuffle(s, draws) == target
    ensures forall other: seq<nat> :: Draws(other, |s|) && Shuffle(s, other) == target ==> other == draws
  {
    assert |target| == |multiset(target)| == |multiset(s)| == |s|;
    draws := DrawsFor(s, target, |s| - 1);
    forall other: seq<nat> | Draws(other, |s|) && Shuffle(s, other) == target ensures other == draws {
      DrawsDetermined(s, draws, other, |s| - 1);
    }
  }

  // ---- Partition ----

  /** The closed form: g groups, each the target, a share of the remainder, and one more for the first few. */
  function SizeAt(count: nat, target: nat, i: nat): nat
    requires 0 < target <= count
  {
    var g, r := count / target, count % target;
    GroupsPositive(count, target);
    target + r / g + (if i < r % g then 1 else 0)
  }

  lemma MulSmall(a: nat, x: int)
    ensures x <= 0 ==> a * x <= 0
    ensures x == 1 ==> a * x == a
  {
  }

  lemma GroupsPositive(count: nat, target: nat)
    requires 0 < target <= count
    ensures count / target > 0
  {
    Divided(count, target);
    MulSmall(target, count / target);
  }

  function Sizes(count: nat, target: nat): (sizes: seq<nat>)
    requires target > 0
    ensures count < target ==> sizes == []
  {
    if count < target then []
    else seq(count / target, i requires 0 <= i < count / target => SizeAt(count, target, i))
  }

  /** One more dealt round the groups. */
  lemma DealOne(dealt: nat, g: nat)
    requires g > 0
    ensures if dealt % g == g - 1 then (dealt + 1) % g == 0 && (dealt + 1) / g == dealt / g + 1
            else (dealt + 1) % g == dealt % g + 1 && (dealt + 1) / g == dealt / g
  {
    Divided(dealt, g);
    if dealt % g == g - 1 {
      assert g * (dealt / g + 1) == g * (dealt / g) + g;
      ModUnique(dealt + 1, g, dealt / g + 1, 0);
    } else {
      ModUnique(dealt + 1, g, dealt / g, dealt % g + 1);
    }
  }

  lemma FloorBelow(count: nat, target: nat)
    requires 0 < target
    ensures count / target == 0 <==> count < target
    ensures target * (count / target) <= count
    ensures count - target * (count / target) == count % target
  {
    Divided(count, target);
    if count < target {
      ModUnique(count, target, 0, count);
    } else {
      GroupsPositive(count, target);
    }
  }

  /** `partition`: full groups, then the leftovers dealt one at a time round them. */
  method Partition(count: nat, target: nat) returns (sizes: seq<nat>)
    requires target > 0
    ensures sizes == Sizes(count, target)
  {
    hide SizeAt;
    var groups := count / target;
    FloorBelow(count, target);
    if groups == 0 {
      return [];
    }
    var buffer := new nat[groups](_ => target);
    var leftover: int := count - groups * target;
    var r := leftover;
    var i := 0;
    ghost var dealt := 0;
    ModUnique(0, groups, 0, 0);
    while leftover > 0
      invariant dealt + leftover == r == count % target && leftover >= 0
      invariant 0 <= i == dealt % groups < groups
      invariant forall k :: 0 <= k < groups ==> buffer[k] == Dealt(target, groups, dealt, k)
    {
      DealOne(dealt, groups);
      NextIndex(i, groups);
      buffer[i] := buffer[i] + 1;
      leftover := leftover - 1;
      i := (i + 1) % groups;
      dealt := dealt + 1;
    }
    SizesAreDealt(count, target);
    assert buffer[..] == Sizes(count, target);
    return buffer[..];
  }

  lemma NextIndex(i: nat, g: nat)
    requires i < g
    ensures (i + 1) % g == if i + 1 == g then 0 else i + 1
  {
    if i + 1 == g {
      ModUnique(i + 1, g, 1, 0);
    } else {
      ModUnique(i + 1, g, 0, i + 1);
    }
  }

  /** Size of group k after some leftovers have been dealt. */
  function Dealt(target: nat, g: nat, dealt: nat, k: nat): nat
    requires g > 0
  {
    target + dealt / g + (if k < dealt % g then 1 else 0)
  }

  lemma SizesAreDealt(count: nat, target: nat)
    requires 0 < target <= count
    ensures count / target > 0 && |Sizes(count, target)| == count / target
    ensures forall k :: 0 <= k < count / target ==> Sizes(count, target)[k] == Dealt(target, count / target, count % target, k)
  {
    GroupsPositive(count, target);
  }

  function Sum(sizes: seq<nat>): nat {
    if sizes == [] then 0 else Sum(sizes[..|sizes| - 1]) + sizes[|sizes| - 1]
  }

  lemma {:induction false} SumOfDealt(target: nat, g: nat, dealt: nat, sizes: seq<nat>)
    requires g > 0 && |sizes| <= g && forall k :: 0 <= k < |sizes| ==> sizes[k] == Dealt(target, g, dealt, k)
    ensures Sum(sizes) == |sizes| * (target + dealt / g) + (if |sizes| <= dealt % g then |sizes| else dealt % g)
    decreases |sizes|
  {
    if sizes != [] {
      var n := |sizes| - 1;
      SumOfDealt(target, g, dealt, sizes[..n]);
      Divided(dealt, g);
      assert (n + 1) * (target + dealt / g) == n * (target + dealt / g) + (target + dealt / g);
    } else {
      Divided(dealt, g);
      assert 0 * (target + dealt / g) == 0;
    }
  }

  lemma SizesAddUp(count: nat, target: nat)
    requires 0 < target <= count
    ensures Sum(Sizes(count, target)) == count
  {
    hide Dealt, Sizes, Sum;
    var g, r := count / target, count % target;
    SizesAreDealt(count, target);
    SumOfDealt(target, g, r, Sizes(count, target));
    Divided(count, target);
    Divided(r, g);
    assert g * (target + r / g) == g * target + g * (r / g);
    assert g * target == target * g;
  }

  /** The sizes add up to everyone, none is below the target, and no two differ by more than one. */
  lemma SizesCover(count: nat, target: nat)
    requires 0 < target <= count
    ensures Sum(Sizes(count, target)) == count
    ensures |Sizes(count, target)| > 0
    ensures forall k :: 0 <= k < |Sizes(count, target)| ==> Sizes(count, target)[k] >= target
    ensures forall j, k :: 0 <= j < |Sizes(count, target)| && 0 <= k < |Sizes(count, target)| ==>
              Sizes(count, target)[j] <= Sizes(count, target)[k] + 1
  {
    hide Sizes, Sum, Dealt;
    var g, r := count / target, count % target;
    SizesAddUp(count, target);
    SizesAreDealt(count, target);
    forall j, k | 0 <= j < g && 0 <= k < g ensures target <= Dealt(target, g, r, j) <= Dealt(target, g, r, k) + 1 {
      DealtEven(target, g, r, j, k);
    }
  }

  lemma DealtEven(target: nat, g: nat, dealt: nat, j: nat, k: nat)
    requires g > 0
    ensures target <= Dealt(target, g, dealt, j) <= Dealt(target, g, dealt, k) + 1
  {
    Divided(dealt, g);
    assert dealt / g >= 0;
  }

  /** Sizes of just the target and one more come about exactly when the remainder fits one deal. */
  lemma TargetOrOneMore(count: nat, target: nat)
    requires 0 < target <= count
    ensures (forall k :: 0 <= k < |Sizes(count, target)| ==> Sizes(count, target)[k] <= target + 1)
            <==> count % target <= count / target
  {
    var g, r, sizes := count / target, count % target, Sizes(count, target);
    SizesAreDealt(count, target);
    Divided(r, g);
    if r > g {
      ModAbove(r, g);
      assert sizes[0] == Dealt(target, g, r, 0);
    } else if r == g {
      ModUnique(r, g, 1, 0);
    } else {
      ModUnique(r, g, 0, r);
    }
  }

  lemma ModAbove(r: nat, g: nat)
    requires r > g > 0
    ensures r / g >= 2 || (r / g == 1 && r % g > 0)
  {
    Divided(r, g);
    MulSmall(g, r / g);
  }

  /** The remark that sizes are the target or one more fails, for example, on 19 voters in tens. */
  lemma NineteenInTens()
    ensures Sizes(19, 10) == [19]
  {
    assert |Sizes(19, 10)| == 1 && Sizes(19, 10)[0] == SizeAt(19, 10, 0);
  }

  // ---- Fill ----

  /** Consecutive runs of the given sizes. */
  function Chunks<T>(s: seq<T>, sizes: seq<nat>): seq<seq<T>>
    requires Sum(sizes) <= |s|
    decreases |sizes|
  {
    if sizes == [] then []
    else
      var n := |sizes| - 1;
      Chunks(s, sizes[..n]) + [s[Sum(sizes[..n])..Sum(sizes)]]
  }

  function Joined<T>(groups: seq<seq<T>>): seq<T> {
    if groups == [] then [] else Joined(groups[..|groups| - 1]) + groups[|groups| - 1]
  }

  /** Joined in order the groups are the sequence they were cut from. */
  lemma {:induction false} ChunksJoin<T>(s: seq<T>, sizes: seq<nat>)
    requires Sum(sizes) <= |s|
    ensures |Chunks(s, sizes)| == |sizes| && Joined(Chunks(s, sizes)) == s[..Sum(sizes)]
    ensures forall k :: 0 <= k < |sizes| ==> |Chunks(s, sizes)[k]| == sizes[k]
    decreases |sizes|
  {
    if sizes != [] {
      var n := |sizes| - 1;
      ChunksJoin(s, sizes[..n]);
      assert Chunks(s, sizes)[..n] == Chunks(s, sizes[..n]);
    }
  }

  datatype FillError = RanOut | LeftOver

  /** The fill of `formRings`: a cursor walks the shuffled voters once, group by group. */
  method Fill<T>(shuffled: seq<T>, sizes: seq<nat>) returns (r: Result<seq<seq<T>>, FillError>)
    ensures r.Ok? <==> Sum(sizes) == |shuffled|
    ensures r.Ok? ==> r.value == Chunks(shuffled, sizes)
    ensures r == Err(LeftOver) <==> Sum(sizes) < |shuffled|
  {
    hide Sum, Chunks;
    var groups: seq<seq<T>> := [];
    var cursor := 0;
    NoChunks(shuffled, sizes);
    for k := 0 to |sizes|
      invariant cursor == Sum(sizes[..k]) <= |shuffled|
      invariant groups == Chunks(shuffled, sizes[..k])
    {
      OneMoreChunk(shuffled, sizes, k);
      var group: seq<T> := [];
      for position := 0 to sizes[k]
        invariant cursor == Sum(sizes[..k]) + position <= |shuffled|
        invariant group == shuffled[Sum(sizes[..k])..cursor]
      {
        if cursor >= |shuffled| {
          SumGrows(sizes, k + 1);
          assert sizes[..|sizes|] == sizes;
          return Err(RanOut);
        }
        group := group + [shuffled[cursor]];
        cursor := cursor + 1;
      }
      groups := groups + [group];
    }
    assert sizes[..|sizes|] == sizes;
    if cursor != |shuffled| {
      return Err(LeftOver);
    }
    return Ok(groups);
  }

  lemma NoChunks<T>(s: seq<T>, sizes: seq<nat>)
    ensures Sum(sizes[..0]) == 0 && Chunks(s, sizes[..0]) == []
  {
  }

  lemma OneMoreChunk<T>(s: seq<T>, sizes: seq<nat>, k: nat)
    requires k < |sizes|
    ensures Sum(sizes[..k + 1]) == Sum(sizes[..k]) + sizes[k]
    ensures Sum(sizes[..k + 1]) <= |s| ==>
              Chunks(s, sizes[..k + 1]) == Chunks(s, sizes[..k]) + [s[Sum(sizes[..k])..Sum(sizes[..k + 1])]]
  {
    assert sizes[..k + 1][..k] == sizes[..k];
  }

  lemma {:induction false} SumGrows(sizes: seq<nat>, k: nat)
    requires k <= |sizes|
    ensures Sum(sizes[..k]) <= Sum(sizes)
    decreases |sizes| - k
  {
    if k == |sizes| {
      assert sizes[..k] == sizes;
    } else {
      SumGrows(sizes, k + 1);
      assert sizes[..k + 1][..k] == sizes[..k];
    }
  }

  // ---- The formation as a whole ----

  function Grouped<T>(items: seq<T>, draws: seq<nat>, target: nat): (groups: seq<seq<T>>)
    requires 0 < target <= |items| && Draws(draws, |items|)
  {
    SizesCover(|items|, target);
    Chunks(Shuffle(items, draws), Sizes(|items|, target))
  }

  /** The three steps of `formRings` on the electorate; too few voters for one group leaves them over. */
  method Form<T>(voters: seq<T>, target: nat, draws: seq<nat>) returns (r: Result<seq<seq<T>>, FillError>)
    requires target > 0 && Draws(draws, |voters|)
    ensures r.Ok? <==> |voters| >= target || voters == []
    ensures |voters| >= target ==> r == Ok(Grouped(voters, draws, target))
    ensures 0 < |voters| < target ==> r == Err(LeftOver)
  {
    hide Shuffle, Chunks;
    var shuffled := ShuffleInPlace(voters, draws);
    var sizes := Partition(shuffled.Length, target);
    if |voters| >= target {
      SizesCover(|voters|, target);
    }
    r := Fill(shuffled[..], sizes);
  }

  /**
   * An exact cover: joined, the groups are a reordering of the electorate, so everyone is in exactly
   * one group at exactly one position; every group has at least the target size and less than twice it.
   */
  lemma GroupsCover<T(!new)>(items: seq<T>, draws: seq<nat>, target: nat)
    requires 0 < target <= |items| && Draws(draws, |items|)
    ensures var groups := Grouped(items, draws, target);
            && Joined(groups) == Shuffle(items, draws)
            && multiset(Joined(groups)) == multiset(items)
            && groups != []
            && (forall k :: 0 <= k < |groups| ==> |groups[k]| == SizeAt(|items|, target, k) && target <= |groups[k]| < 2 * target)
  {
    hide Shuffle, Sizes, SizeAt, Chunks, Sum;
    SizesCover(|items|, target);
    SizesAt(|items|, target);
    ChunksJoin(Shuffle(items, draws), Sizes(|items|, target));
    ShufflePermutes(items, draws);
    assert Shuffle(items, draws)[..|items|] == Shuffle(items, draws);
  }

  lemma SizesAt(count: nat, target: nat)
    requires 0 < target <= count
    ensures forall k :: 0 <= k < |Sizes(count, target)| ==> Sizes(count, target)[k] == SizeAt(count, target, k) < 2 * target
  {
    hide SizeAt;
    forall k: nat ensures SizeAt(count, target, k) < 2 * target {
      BelowTwice(count, target, k);
    }
  }

  /** The remainder dealt to one group is less than another target. */
  lemma BelowTwice(count: nat, target: nat, k: nat)
    requires 0 < target <= count
    ensures SizeAt(count, target, k) < 2 * target
  {
    var g, r := count / target, count % target;
    GroupsPositive(count, target);
    ShareSmall(r, g);
  }

  lemma ShareSmall(r: nat, g: nat)
    requires g > 0
    ensures r / g + (if r % g > 0 then 1 else 0) <= r
  {
    var d, m := r / g, r % g;
    assert r == g * d + m && m < g;
    TimesAtLeast(g, d);
  }

  lemma TimesAtLeast(g: nat, d: nat)
    requires g > 0
    ensures g * d >= d && (g >= 2 && d > 0 ==> g * d > d)
  {
    assert g * d == d + (g - 1) * d;
    assert (g - 1) * d >= 0 && (g >= 2 && d > 0 ==> (g - 1) * d > 0);
  }
}

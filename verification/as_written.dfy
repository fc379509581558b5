// The two operations of Knapsack.java whose code does not do what their
// documentation promises, modelled as written: keepOnlyItemsWith step by step
// over the Knapsack's list, heaviestKnapsack over the totals of the array's
// entries. Each comes with the inputs that show the difference; class
// Knapsack holds the corrected versions.

module AsWritten {
  import opened Items
  import opened KnapsackSpec
  import opened Knapsacks

  // ---- keepOnlyItemsWith as written: a forward scan that always advances ----

  /**
   * The list left by the written loop, from index i on: a heavy item at i is
   * removed and i still advances, so the item that shifted into i is never
   * examined.
   */
  function ForwardScan(s: seq<Item>, maxWeight: int, i: nat): (r: seq<Item>)
    ensures |r| <= |s|
    ensures forall x :: x in r ==> x in s
    decreases |s| - i
  {
    if i >= |s| then s
    else if s[i].weight > maxWeight then ForwardScan(s[..i] + s[i + 1..], maxWeight, i + 1)
    else ForwardScan(s, maxWeight, i + 1)
  }

  /**
   * The list the written loop leaves, in closed form: an item within the
   * bound is kept; a heavy item is dropped and the item after it, which
   * shifts into the freed slot, is kept without being examined.
   */
  function SkipAfterRemoval(s: seq<Item>, maxWeight: int): seq<Item> {
    if s == [] then []
    else if s[0].weight <= maxWeight then [s[0]] + SkipAfterRemoval(s[1..], maxWeight)
    else if |s| == 1 then []
    else [s[1]] + SkipAfterRemoval(s[2..], maxWeight)
  }

  /** The written loop, step by step, over the Knapsack's list. */
  method KeepOnlyItemsWithAsWritten(k: Knapsack, maxItemWeightInGrammes: int)
    modifies k
    ensures k.sack == ForwardScan(old(k.sack), maxItemWeightInGrammes, 0)
    ensures k.sack == SkipAfterRemoval(old(k.sack), maxItemWeightInGrammes)
    ensures IsSubsequence(k.sack, old(k.sack))
  {
    var i := 0;
    while i < |k.sack|
      invariant ForwardScan(k.sack, maxItemWeightInGrammes, i) == ForwardScan(old(k.sack), maxItemWeightInGrammes, 0)
      decreases |k.sack| - i
    {
      if k.sack[i].weight > maxItemWeightInGrammes {
        k.sack := k.sack[..i] + k.sack[i + 1..];
      }
      i := i + 1;
    }
    ForwardScanClosedForm(old(k.sack), maxItemWeightInGrammes, 0);
    ForwardScanSubsequence(old(k.sack), maxItemWeightInGrammes);
  }

  /** From index i on, the written loop leaves the prefix alone and skips after each removal. */
  lemma {:induction false} ForwardScanClosedForm(s: seq<Item>, maxWeight: int, i: nat)
    requires i <= |s|
    ensures ForwardScan(s, maxWeight, i) == s[..i] + SkipAfterRemoval(s[i..], maxWeight)
    decreases |s| - i
  {
    if i == |s| {
      assert s[..i] == s;
    } else if s[i].weight > maxWeight {
      var t := s[..i] + s[i + 1..];
      if i + 1 <= |t| {
        ForwardScanClosedForm(t, maxWeight, i + 1);
        assert t[..i + 1] == s[..i] + [s[i + 1]];
        assert t[i + 1..] == s[i + 2..];
        assert s[i..][1] == s[i + 1] && s[i..][2..] == s[i + 2..];
      } else {
        assert t == s[..i];
        assert s[i..] == [s[i]];
      }
    } else {
      ForwardScanClosedForm(s, maxWeight, i + 1);
      assert s[..i + 1] == s[..i] + [s[i]];
      assert s[i..][1..] == s[i + 1..];
    }
  }

  /** The closed form keeps its items in their original order. */
  lemma {:induction false} SkipAfterRemovalSubsequence(s: seq<Item>, maxWeight: int)
    ensures IsSubsequence(SkipAfterRemoval(s, maxWeight), s)
  {
    var r := SkipAfterRemoval(s, maxWeight);
    if s != [] && s[0].weight <= maxWeight {
      SkipAfterRemovalSubsequence(s[1..], maxWeight);
      assert r[1..] == SkipAfterRemoval(s[1..], maxWeight);
    } else if |s| > 1 {
      SkipAfterRemovalSubsequence(s[2..], maxWeight);
      assert r[1..] == SkipAfterRemoval(s[2..], maxWeight);
      assert s[1..][1..] == s[2..];
      assert IsSubsequence(r, s[1..]);
    }
  }

  /**
   * What the written loop does guarantee about order and multiplicity: its
   * result is a subsequence of the input, so nothing is reordered or duplicated.
   */
  lemma ForwardScanSubsequence(s: seq<Item>, maxWeight: int)
    ensures IsSubsequence(ForwardScan(s, maxWeight, 0), s)
    ensures multiset(ForwardScan(s, maxWeight, 0)) <= multiset(s)
  {
    ForwardScanClosedForm(s, maxWeight, 0);
    assert s[..0] == [] && s[0..] == s;
    assert ForwardScan(s, maxWeight, 0) == SkipAfterRemoval(s, maxWeight);
    SkipAfterRemovalSubsequence(s, maxWeight);
    SubsequenceSubMultiset(SkipAfterRemoval(s, maxWeight), s);
  }

  /**
   * What the written loop does guarantee: no item within the bound is lost
   * and the kept light items stay in order (filtering its result again gives
   * exactly the intended result).
   */
  lemma {:induction false} ForwardScanKeepsLightItems(s: seq<Item>, maxWeight: int, i: nat)
    ensures Filter(ForwardScan(s, maxWeight, i), maxWeight) == Filter(s, maxWeight)
    decreases |s| - i
  {
    if i < |s| {
      if s[i].weight > maxWeight {
        var t := s[..i] + s[i + 1..];
        ForwardScanKeepsLightItems(t, maxWeight, i + 1);
        assert s == s[..i] + ([s[i]] + s[i + 1..]);
        FilterAppend(s[..i], [s[i]] + s[i + 1..], maxWeight);
        FilterAppend(s[..i], s[i + 1..], maxWeight);
        assert ([s[i]] + s[i + 1..])[1..] == s[i + 1..];
      } else {
        ForwardScanKeepsLightItems(s, maxWeight, i + 1);
      }
    }
  }

  /** Weights [10, 20, 5] filtered with bound 8: the 20 shifts into the freed slot and survives. */
  lemma ForwardScanSkipsShiftedItem()
    ensures var s := [Item("A", 10), Item("B", 20), Item("C", 5)];
      ForwardScan(s, 8, 0) == [Item("B", 20), Item("C", 5)] &&
      Filter(s, 8) == [Item("C", 5)]
  {
  }

  // ---- heaviestKnapsack as written, over the totals of the array's entries ----

  /** How a call of the written heaviestKnapsack ends. */
  datatype Outcome = NullPointerException | Returns(winner: Option<nat>)

  /**
   * The written selector over the arguments' totals (None for a null entry),
   * from index i on with the recorded index tempIndex. The running maximum is
   * never updated from 0, so every positive total overwrites tempIndex; a
   * null entry is dereferenced; and a recorded index 0 reads as "none".
   */
  function HeaviestScanAsWritten(totals: seq<Option<int>>, i: nat, tempIndex: nat): (r: Outcome)
    requires i <= |totals| && (tempIndex == 0 || tempIndex < i)
    requires tempIndex != 0 ==> totals[tempIndex].Some? && totals[tempIndex].value > 0
    requires forall k :: tempIndex < k < i && 0 < k ==> totals[k].Some? && totals[k].value <= 0
    ensures r == NullPointerException <==> exists k :: i <= k < |totals| && totals[k].None?
    ensures r.Returns? && r.winner.Some? ==>
              var w := r.winner.value;
              0 < w < |totals| && totals[w].Some? && totals[w].value > 0 &&
              forall k :: w < k < |totals| ==> totals[k].Some? && totals[k].value <= 0
    ensures r == Returns(None) ==> forall k :: 0 < k < |totals| ==> totals[k].Some? && totals[k].value <= 0
    decreases |totals| - i
  {
    if i == |totals| then
      if tempIndex != 0 then Returns(Some(tempIndex)) else Returns(None)
    else
      match totals[i]
      case None => NullPointerException
      case Some(t) => HeaviestScanAsWritten(totals, i + 1, if t > 0 then i else tempIndex)
  }

  /**
   * Without null entries the written code returns the last entry after index
   * 0 with a positive total, whatever the totals before it, and null when
   * there is none.
   */
  function HeaviestAsWritten(totals: seq<Option<int>>): (r: Outcome)
    ensures r == NullPointerException <==> exists k :: 0 <= k < |totals| && totals[k].None?
    ensures r.Returns? && r.winner.Some? ==>
              var w := r.winner.value;
              0 < w < |totals| && totals[w].value > 0 &&
              forall k :: w < k < |totals| ==> totals[k].value <= 0
    ensures r == Returns(None) ==> forall k :: 0 < k < |totals| ==> totals[k].Some? && totals[k].value <= 0
  {
    HeaviestScanAsWritten(totals, 0, 0)
  }

  /** A null entry, which the documentation allows, makes the written code throw. */
  lemma HeaviestAsWrittenThrowsOnNull()
    ensures HeaviestAsWritten([None, Some(3000), Some(4000)]) == NullPointerException
  {
  }

  /** Totals 3000, 4000, 3000: the written code returns the last Knapsack, not the heaviest one. */
  lemma HeaviestAsWrittenReturnsLastPositive()
    ensures HeaviestAsWritten([Some(3000), Some(4000), Some(3000)]) == Returns(Some(2))
  {
  }

  /** A single non-null Knapsack at index 0: the written code returns null. */
  lemma HeaviestAsWrittenLosesIndexZero()
    ensures HeaviestAsWritten([Some(4000), Some(0)]) == Returns(None)
  {
  }
}

// The Knapsack: an ordered, growable list of Items that it owns, changed in
// place by its mutators and read by its queries.

module Knapsacks {
  import opened Items
  import opened KnapsackSpec

  class Knapsack {
    /** The stored items in insertion order. Items are values, so no slot is ever null. */
    var sack: seq<Item>

    /** A Knapsack without any Items. */
    constructor ()
      ensures sack == []
    {
      sack := [];
    }

    /** A Knapsack holding the non-null entries of items, in order; items is only read. */
    constructor FromItems(items: array<Option<Item>>)
      ensures sack == NonNull(items[..])
      ensures items[..] == old(items[..])
    {
      sack := [];
      new;
      var _ := AddAll(items);
    }

    /** Appends e unless it is null; reports whether it was appended. */
    method Add(e: Option<Item>) returns (added: bool)
      modifies this
      ensures added <==> e.Some?
      ensures sack == if e.Some? then old(sack) + [e.value] else old(sack)
    {
      if e.None? {
        return false;
      } else {
        sack := sack + [e.value];
      }
      return true;
    }

    /** Appends every non-null entry of items, in order; reports whether any entry was non-null. */
    method AddAll(items: array<Option<Item>>) returns (nonnull: bool)
      modifies this
      ensures sack == old(sack) + NonNull(items[..])
      ensures nonnull <==> exists k :: 0 <= k < items.Length && items[k].Some?
    {
      nonnull := false;
      for i := 0 to items.Length
        invariant sack == old(sack) + NonNull(items[..i])
        invariant nonnull <==> exists k :: 0 <= k < i && items[k].Some?
      {
        NonNullStep(items[..], i);
        assert items[..i + 1] == items[..][..i + 1] && items[..i] == items[..][..i];
        var added := Add(items[i]);
        if added {
          nonnull := true;
        }
      }
      assert items[..items.Length] == items[..];
    }

    /** Empties this Knapsack. */
    method Reset()
      modifies this
      ensures sack == []
    {
      sack := [];
    }

    /**
     * Removes in place every item heavier than maxItemWeightInGrammes; the
     * others stay, in their relative order. After a removal the same index is
     * examined again, because the next item has shifted into it.
     */
    method KeepOnlyItemsWith(maxItemWeightInGrammes: int)
      modifies this
      ensures sack == Filter(old(sack), maxItemWeightInGrammes)
    {
      var i := 0;
      while i < |sack|
        invariant 0 <= i <= |sack|
        invariant Filter(old(sack), maxItemWeightInGrammes) == sack[..i] + Filter(sack[i..], maxItemWeightInGrammes)
        decreases |sack| - i
      {
        FilterFrom(sack, i, maxItemWeightInGrammes);
        if sack[i].weight > maxItemWeightInGrammes {
          sack := sack[..i] + sack[i + 1..];
        } else {
          assert sack[..i + 1] == sack[..i] + [sack[i]];
          i := i + 1;
        }
      }
      assert sack[..i] == sack;
    }

    /** The number of stored items. */
    method NumberOfItems() returns (count: int)
      ensures count == |sack|
    {
      count := 0;
      for i := 0 to |sack|
        invariant count == i
      {
        count := count + 1;
      }
    }

    /** The sum of the stored items' weights; 0 when empty. */
    method TotalWeightInGrammes() returns (total: int)
      ensures total == Sum(sack)
    {
      total := 0;
      for i := 0 to |sack|
        invariant total == Sum(sack[..i])
      {
        SumStep(sack, i);
        total := total + sack[i].weight;
      }
      assert sack[..|sack|] == sack;
    }

    /** The average weight, or the sentinel -1.0 when there is no item. */
    method AverageWeightInGrammes() returns (average: real)
      ensures average == Average(sack)
      ensures |sack| == 0 ==> average == -1.0
      ensures |sack| > 0 ==> average * (|sack| as real) == Sum(sack) as real
    {
      if |sack| == 0 {
        return -1.0;
      }
      var totalItems := |sack| as real;
      var sumOfItems := 0.0;
      for i := 0 to |sack|
        invariant sumOfItems == Sum(sack[..i]) as real
      {
        SumStep(sack, i);
        sumOfItems := sumOfItems + sack[i].weight as real;
      }
      assert sack[..|sack|] == sack;
      return sumOfItems / totalItems;
    }

    /**
     * A stored item no other stored item is heavier than, or null when empty.
     * Among items of equal greatest weight the first one is returned.
     */
    method GreatestItem() returns (greatest: Option<Item>)
      ensures greatest.None? <==> |sack| == 0
      ensures greatest.Some? ==> greatest.value in sack
      ensures greatest.Some? ==> forall k :: 0 <= k < |sack| ==> !Lighter(greatest.value, sack[k])
      ensures greatest.Some? ==> exists k :: 0 <= k < |sack| && sack[k] == greatest.value &&
                                  forall j :: 0 <= j < k ==> Lighter(sack[j], greatest.value)
    {
      if |sack| == 0 {
        return None;
      }
      var item := sack[0];
      ghost var at := 0;
      for i := 0 to |sack|
        invariant 0 <= at < |sack| && sack[at] == item
        invariant forall k :: 0 <= k < i ==> !Lighter(item, sack[k])
        invariant forall j :: 0 <= j < at ==> Lighter(sack[j], item)
      {
        if Lighter(item, sack[i]) {
          item := sack[i];
          at := i;
        }
      }
      return Some(item);
    }

    /** A fresh Knapsack with the items of this one weighing at most maxItemWeightInGrammes; this one is unchanged. */
    method MakeNewKnapsackWith(maxItemWeightInGrammes: int) returns (result: Knapsack)
      ensures fresh(result)
      ensures result.sack == Filter(sack, maxItemWeightInGrammes)
    {
      var items := sack;
      result := new Knapsack();
      for i := 0 to |items|
        invariant fresh(result)
        invariant result.sack == Filter(items[..i], maxItemWeightInGrammes)
      {
        var item := items[i];
        FilterStep(items, i, maxItemWeightInGrammes);
        if item.weight <= maxItemWeightInGrammes {
          var _ := result.Add(Some(item));
        }
      }
      assert items[..|items|] == items;
    }

    /** "[" then each item as "(name, weightg)", separated by ", ", then "]". */
    method ToString() returns (result: string)
      ensures result == Render(sack)
      ensures |sack| == 0 ==> result == "[]"
      ensures |sack| > 0 ==> result[..|ItemText(sack[0])| + 1] == "[" + ItemText(sack[0])
    {
      result := "[";
      for i := 0 to |sack|
        invariant result == "[" + Join(", ", Entries(sack[..i]))
      {
        JoinStep(sack, i);
        if i != 0 {
          result := result + ", ";
        }
        result := result + ItemText(sack[i]);
      }
      result := result + "]";
      assert sack[..|sack|] == sack;
      if |sack| > 0 {
        FirstEntryLeads(Entries(sack));
      }
    }

    /**
     * One of the non-null Knapsacks of knapsacks with the greatest total
     * weight, or null when every entry is null. The best candidate so far is
     * kept as a nullable reference and replaced only on a strictly greater
     * total, so the first of several tied Knapsacks is returned.
     */
    static method HeaviestKnapsack(knapsacks: array<Knapsack?>) returns (heaviest: Knapsack?)
      ensures heaviest == null <==> forall k :: 0 <= k < knapsacks.Length ==> knapsacks[k] == null
      ensures heaviest != null ==> heaviest in knapsacks[..]
      ensures heaviest != null ==> forall k :: 0 <= k < knapsacks.Length && knapsacks[k] != null ==>
                                     Sum(knapsacks[k].sack) <= Sum(heaviest.sack)
    {
      heaviest := null;
      var best := 0;
      for i := 0 to knapsacks.Length
        invariant heaviest == null <==> forall k :: 0 <= k < i ==> knapsacks[k] == null
        invariant heaviest != null ==> heaviest in knapsacks[..i] && best == Sum(heaviest.sack)
        invariant heaviest != null ==> forall k :: 0 <= k < i && knapsacks[k] != null ==> Sum(knapsacks[k].sack) <= best
      {
        var candidate := knapsacks[i];
        if candidate != null {
          var total := candidate.TotalWeightInGrammes();
          if heaviest == null || total > best {
            heaviest, best := candidate, total;
          }
        }
        assert knapsacks[..i + 1] == knapsacks[..i] + [knapsacks[i]];
      }
      assert knapsacks[..knapsacks.Length] == knapsacks[..];
    }
  }
}

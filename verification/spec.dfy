// Specification functions over the contents of a Knapsack, and the lemmas
// that state their properties. The methods of class Knapsack are proved
// against these.

module KnapsackSpec {
  import opened Items
  import opened Decimal

  /** The items of s whose weight is at most maxWeight, in their original order. */
  function Filter(s: seq<Item>, maxWeight: int): seq<Item> {
    if s == [] then []
    else if s[0].weight <= maxWeight then [s[0]] + Filter(s[1..], maxWeight)
    else Filter(s[1..], maxWeight)
  }

  /** The sum of the weights of s. */
  function Sum(s: seq<Item>): int {
    if s == [] then 0 else s[0].weight + Sum(s[1..])
  }

  /** The present entries of s, in their original order. */
  function NonNull(s: seq<Option<Item>>): seq<Item> {
    if s == [] then []
    else if s[0].Some? then [s[0].value] + NonNull(s[1..])
    else NonNull(s[1..])
  }

  /** The average weight as an exact quotient, or the sentinel -1.0 when s is empty. */
  function Average(s: seq<Item>): real {
    if |s| == 0 then -1.0 else Sum(s) as real / |s| as real
  }

  /** The rendering of one item: "(name, weightg)". */
  function ItemText(x: Item): string {
    "(" + x.name + ", " + IntToString(x.weight) + "g)"
  }

  function Entries(s: seq<Item>): (r: seq<string>)
    ensures |r| == |s|
  {
    seq(|s|, k requires 0 <= k < |s| => ItemText(s[k]))
  }

  /** The strings of xs, with sep between adjacent ones. */
  function Join(sep: string, xs: seq<string>): string {
    if |xs| == 0 then ""
    else if |xs| == 1 then xs[0]
    else xs[0] + sep + Join(sep, xs[1..])
  }

  /** The rendering of a whole Knapsack: entries in storage order between brackets. */
  function Render(s: seq<Item>): string {
    "[" + Join(", ", Entries(s)) + "]"
  }

  /** r can be obtained from s by deleting items; the remaining ones keep their order. */
  predicate IsSubsequence(r: seq<Item>, s: seq<Item>)
    decreases |s|
  {
    r == [] ||
    (s != [] && ((r[0] == s[0] && IsSubsequence(r[1..], s[1..])) || IsSubsequence(r, s[1..])))
  }

  /** Deleting items never duplicates one: a subsequence is a sub-multiset. */
  lemma {:induction false} SubsequenceSubMultiset(r: seq<Item>, s: seq<Item>)
    requires IsSubsequence(r, s)
    ensures multiset(r) <= multiset(s)
    decreases |s|
  {
    if r != [] {
      assert s == [s[0]] + s[1..];
      if r[0] == s[0] && IsSubsequence(r[1..], s[1..]) {
        SubsequenceSubMultiset(r[1..], s[1..]);
        assert r == [r[0]] + r[1..];
      } else {
        SubsequenceSubMultiset(r, s[1..]);
      }
    }
  }

  // ---- Filter ----

  /** The kept items all lie within the bound, come from s, and include every item of s within the bound. */
  lemma {:induction false} FilterSound(s: seq<Item>, maxWeight: int)
    ensures var r := Filter(s, maxWeight);
      |r| <= |s| &&
      (forall k :: 0 <= k < |r| ==> r[k].weight <= maxWeight) &&
      (forall x :: x in r ==> x in s) &&
      (forall x :: x in s && x.weight <= maxWeight ==> x in r)
  {
    if s != [] {
      FilterSound(s[1..], maxWeight);
      assert s == [s[0]] + s[1..];
    }
  }

  /** Filtering only deletes items: the result is a subsequence of the input. */
  lemma {:induction false} FilterSubsequence(s: seq<Item>, maxWeight: int)
    ensures IsSubsequence(Filter(s, maxWeight), s)
  {
    if s != [] {
      FilterSubsequence(s[1..], maxWeight);
      if s[0].weight <= maxWeight {
        assert ([s[0]] + Filter(s[1..], maxWeight))[1..] == Filter(s[1..], maxWeight);
      }
    }
  }

  /** One more item at the end is kept exactly when it lies within the bound. */
  lemma FilterStep(s: seq<Item>, i: nat, maxWeight: int)
    requires i < |s|
    ensures Filter(s[..i + 1], maxWeight) ==
            Filter(s[..i], maxWeight) + (if s[i].weight <= maxWeight then [s[i]] else [])
  {
    assert s[..i + 1] == s[..i] + [s[i]];
    FilterAppend(s[..i], [s[i]], maxWeight);
  }

  /** Filtering a suffix: its first item is kept exactly when it lies within the bound. */
  lemma FilterFrom(s: seq<Item>, i: nat, maxWeight: int)
    requires i < |s|
    ensures Filter(s[i..], maxWeight) ==
            (if s[i].weight <= maxWeight then [s[i]] else []) + Filter(s[i + 1..], maxWeight)
  {
  }

  lemma {:induction false} FilterAppend(a: seq<Item>, b: seq<Item>, maxWeight: int)
    ensures Filter(a + b, maxWeight) == Filter(a, maxWeight) + Filter(b, maxWeight)
  {
    if a != [] {
      assert (a + b)[1..] == a[1..] + b;
      FilterAppend(a[1..], b, maxWeight);
    } else {
      assert a + b == b;
    }
  }

  /** Filtering again with the same bound changes nothing. */
  lemma {:induction false} FilterIdempotent(s: seq<Item>, maxWeight: int)
    ensures Filter(Filter(s, maxWeight), maxWeight) == Filter(s, maxWeight)
  {
    if s != [] {
      FilterIdempotent(s[1..], maxWeight);
      if s[0].weight <= maxWeight {
        assert ([s[0]] + Filter(s[1..], maxWeight))[1..] == Filter(s[1..], maxWeight);
      }
    }
  }

  /** Two successive filters are one filter with the smaller bound. */
  lemma {:induction false} FilterCompose(s: seq<Item>, w1: int, w2: int)
    ensures Filter(Filter(s, w1), w2) == Filter(s, if w1 < w2 then w1 else w2)
  {
    if s != [] {
      FilterCompose(s[1..], w1, w2);
      if s[0].weight <= w1 {
        assert ([s[0]] + Filter(s[1..], w1))[1..] == Filter(s[1..], w1);
      }
    }
  }

  /** Filtering keeps exactly the light items: each light one as many times as it occurs, no heavy one. */
  lemma {:induction false} FilterMultiset(s: seq<Item>, maxWeight: int, x: Item)
    ensures multiset(Filter(s, maxWeight))[x] == if x.weight <= maxWeight then multiset(s)[x] else 0
  {
    if s != [] {
      assert s == [s[0]] + s[1..];
      FilterMultiset(s[1..], maxWeight, x);
    }
  }

  // ---- Sum and Average ----

  lemma {:induction false} SumAppend(a: seq<Item>, b: seq<Item>)
    ensures Sum(a + b) == Sum(a) + Sum(b)
  {
    if a != [] {
      assert (a + b)[1..] == a[1..] + b;
      SumAppend(a[1..], b);
    } else {
      assert a + b == b;
    }
  }

  lemma SumStep(s: seq<Item>, i: nat)
    requires i < |s|
    ensures Sum(s[..i + 1]) == Sum(s[..i]) + s[i].weight
  {
    assert s[..i + 1] == s[..i] + [s[i]];
    SumAppend(s[..i], [s[i]]);
  }

  lemma {:induction false} SumNonNegative(s: seq<Item>)
    requires forall k :: 0 <= k < |s| ==> s[k].weight >= 0
    ensures Sum(s) >= 0
  {
    if s != [] {
      SumNonNegative(s[1..]);
    }
  }

  /** With non-negative weights the sentinel -1.0 is returned exactly when the Knapsack is empty. */
  lemma SentinelExactlyWhenEmpty(s: seq<Item>)
    requires forall k :: 0 <= k < |s| ==> s[k].weight >= 0
    ensures Average(s) == -1.0 <==> |s| == 0
  {
    if |s| > 0 {
      SumNonNegative(s);
      assert Sum(s) as real / |s| as real >= 0.0;
    }
  }

  /** With a negative weight the sentinel is ambiguous: one item of weight -1 also averages -1.0. */
  lemma SentinelAmbiguousForNegativeWeights()
    ensures Average([Item("Debt", -1)]) == -1.0
  {
  }

  // ---- NonNull ----

  /** The result holds every present entry of s and nothing else. */
  lemma {:induction false} NonNullSound(s: seq<Option<Item>>)
    ensures var r := NonNull(s);
      |r| <= |s| &&
      (forall x :: x in r ==> Some(x) in s) &&
      (forall k :: 0 <= k < |s| && s[k].Some? ==> s[k].value in r)
  {
    if s != [] {
      NonNullSound(s[1..]);
      assert s == [s[0]] + s[1..];
      forall k | 1 <= k < |s| && s[k].Some? ensures s[k].value in NonNull(s) {
        assert s[1..][k - 1] == s[k];
      }
    }
  }

  lemma NonNullStep(s: seq<Option<Item>>, i: nat)
    requires i < |s|
    ensures NonNull(s[..i + 1]) == NonNull(s[..i]) + (if s[i].Some? then [s[i].value] else [])
  {
    assert s[..i + 1] == s[..i] + [s[i]];
    NonNullAppend(s[..i], [s[i]]);
  }

  lemma {:induction false} NonNullAppend(a: seq<Option<Item>>, b: seq<Option<Item>>)
    ensures NonNull(a + b) == NonNull(a) + NonNull(b)
  {
    if a != [] {
      assert (a + b)[1..] == a[1..] + b;
      NonNullAppend(a[1..], b);
    } else {
      assert a + b == b;
    }
  }

  /** Nothing survives the null-filtering exactly when every entry is null. */
  lemma {:induction false} NonNullEmpty(s: seq<Option<Item>>)
    ensures NonNull(s) == [] <==> forall k :: 0 <= k < |s| ==> s[k].None?
  {
    if s != [] {
      NonNullEmpty(s[1..]);
      if s[0].None? {
        forall k | 1 <= k < |s| ensures s[k] == s[1..][k - 1] { }
      }
    }
  }

  // ---- Rendering ----

  lemma {:induction false} JoinSnoc(sep: string, xs: seq<string>, y: string)
    requires |xs| > 0
    ensures Join(sep, xs + [y]) == Join(sep, xs) + sep + y
  {
    if |xs| > 1 {
      assert (xs + [y])[1..] == xs[1..] + [y];
      JoinSnoc(sep, xs[1..], y);
    }
  }

  /** Rendering one more item of s adds ", " (unless it is the first) and that item's text. */
  lemma JoinStep(s: seq<Item>, i: nat)
    requires i < |s|
    ensures Join(", ", Entries(s[..i + 1])) ==
            Join(", ", Entries(s[..i])) + (if i == 0 then "" else ", ") + ItemText(s[i])
  {
    assert Entries(s[..i + 1]) == Entries(s[..i]) + [ItemText(s[i])];
    if i > 0 {
      JoinSnoc(", ", Entries(s[..i]), ItemText(s[i]));
    }
  }

  /** The rendering of one more item appends ", " and that item's text before the closing bracket. */
  lemma RenderSnoc(s: seq<Item>, x: Item)
    requires |s| > 0
    ensures Render(s + [x]) == "[" + Join(", ", Entries(s)) + ", " + ItemText(x) + "]"
  {
    assert Entries(s + [x]) == Entries(s) + [ItemText(x)];
    JoinSnoc(", ", Entries(s), ItemText(x));
  }

  /** The rendering of a non-empty list of entries starts with its first entry. */
  lemma FirstEntryLeads(xs: seq<string>)
    requires |xs| > 0
    ensures ("[" + Join(", ", xs) + "]")[..|xs[0]| + 1] == "[" + xs[0]
  {
  }
}

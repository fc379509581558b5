# Knapsack, modelled in Dafny

A Knapsack (`Knapsack.java`) owns an ordered, growable list of Items. An
Item is a name with an integer weight in grammes. The Knapsack offers:

- mutators: `add`, which rejects null; `addAll`, which appends the non-null
  entries of an array; `reset`; and `keepOnlyItemsWith`, an in-place filter by
  weight;
- queries: `numberOfItems`, `totalWeightInGrammes`, `averageWeightInGrammes`
  (-1.0 when empty), `greatestItem` (null when empty), the non-destructive
  filter `makeNewKnapsackWith`, and `toString`;
- the class method `heaviestKnapsack`, which picks the Knapsack with the
  greatest total weight from an array that may hold nulls.

The model follows the source's imperative form. `Knapsacks.Knapsack` is a
class whose field `sack: seq<Item>` stands for the `ArrayList<Item>`. The
mutators reassign that field under `modifies this`. Every query is a method
with the source's accumulator loop and its loop invariants. Each method is
proved against a specification function of module `KnapsackSpec`: `Filter`,
`Sum`, `NonNull`, `Average` and `Render`. Lemmas in that module state what
those functions promise.

Java's null is `Items.Option.None`. An Item is a value (`Items.Item`), so the
stored list cannot hold null at all. The `Knapsack[]` argument of
`heaviestKnapsack` is an `array<Knapsack?>`.

Where the documentation and the code disagree, the model sides with one of them as follows:

- `toString`: the model follows the code. The example at Knapsack.java:216-226
  leaves out the `g` that the code writes after each weight
  (Knapsack.java:239), and it also allows orders other than storage order.
  The model renders `(name, weightg)` in storage order
  (`Scenarios.PenAndLetter` renders that example).
- `keepOnlyItemsWith` and `heaviestKnapsack`: class `Knapsack` follows the
  documented contract, because the code does not do what its documentation
  promises (see Findings). Module `AsWritten` models the code as written:
  `keepOnlyItemsWith` step by step over the Knapsack's list, and
  `heaviestKnapsack` over the totals of the array's entries.

The average sentinel is a separate point, not a disagreement.
`averageWeightInGrammes` returns -1.0 for an empty Knapsack, but weights are
not checked for sign, so one item of weight -1 also averages -1.0
(`KnapsackSpec.SentinelAmbiguousForNegativeWeights`). The sentinel means
"empty" only when every weight is non-negative
(`KnapsackSpec.SentinelExactlyWhenEmpty`).

Files: `items.dfy` (Option, Item), `decimal.dfy` (decimal rendering of a
weight and its parse-back), `spec.dfy` (specification functions and lemmas),
`knapsack.dfy` (the class), `as_written.dfy` (the defective code as written),
`scenarios.dfy` (the documented examples, proved from the method contracts
alone).

## Model

| member | source | states |
|---|---|---|
| Knapsacks.Knapsack.constructor | Knapsack.java:21-27 | a new Knapsack holds no items |
| Knapsacks.Knapsack.FromItems | Knapsack.java:29-43 | the new Knapsack holds exactly the non-null entries of the array, in order; the array is unchanged |
| Knapsacks.Knapsack.Add | Knapsack.java:47-62 | returns true exactly for a non-null item; then the list is the old list followed by the item, otherwise it is unchanged |
| Knapsacks.Knapsack.AddAll | Knapsack.java:64-86 | appends exactly the non-null entries in their order; returns true iff some entry is non-null |
| Knapsacks.Knapsack.Reset | Knapsack.java:88-94 | the list is empty afterwards |
| Knapsacks.Knapsack.KeepOnlyItemsWith | Knapsack.java:96-110 | the new list is exactly the old list filtered to weight <= the bound, in the same relative order (corrected loop, see Findings) |
| Knapsacks.Knapsack.NumberOfItems | Knapsack.java:114-127 | the count equals the length of the stored list |
| Knapsacks.Knapsack.TotalWeightInGrammes | Knapsack.java:129-140 | the result is the sum of the stored weights (0 when empty) |
| Knapsacks.Knapsack.AverageWeightInGrammes | Knapsack.java:142-162 | -1.0 when empty; otherwise the result times the count equals the total weight |
| Knapsacks.Knapsack.GreatestItem | Knapsack.java:164-185 | null iff empty; otherwise a stored item that no stored item is heavier than, and every item before its first occurrence is strictly lighter |
| Knapsacks.Knapsack.MakeNewKnapsackWith | Knapsack.java:187-206 | returns a fresh Knapsack holding this one's list filtered to weight <= the bound, in order; this Knapsack is unchanged |
| Knapsacks.Knapsack.ToString | Knapsack.java:208-243 | "[" then the items as "(name, weightg)" in storage order, joined by ", ", then "]"; "[]" when empty |
| Knapsacks.Knapsack.HeaviestKnapsack | Knapsack.java:247-267 | null iff every entry is null; otherwise one of the entries whose total weight is >= the total of every non-null entry (corrected code, see Findings) |
| KnapsackSpec.FilterSound | Knapsack.java:96-103 | the kept items all weigh at most the bound, come from the input, and include every input item within the bound |
| KnapsackSpec.FilterSubsequence | Knapsack.java:96-103 | the kept items are the input with some items deleted, in their original order |
| KnapsackSpec.SubsequenceSubMultiset | Knapsack.java:96-103 | deleting items never duplicates one: a subsequence holds each item at most as often as the input |
| KnapsackSpec.FilterStep | Knapsack.java:200-204 | one more item at the end is kept exactly when it weighs at most the bound |
| KnapsackSpec.FilterFrom | Knapsack.java:105-108 | the first item of a suffix is kept exactly when it weighs at most the bound |
| KnapsackSpec.NonNullSound | Knapsack.java:64-71 | the result holds every present entry and nothing that was not a present entry |
| KnapsackSpec.NonNullStep | Knapsack.java:77-83 | one more entry at the end adds its item exactly when it is non-null |
| KnapsackSpec.FilterAppend | Knapsack.java:198-205 | filtering a concatenation is concatenating the filtered parts, so filtering item by item builds the filter |
| KnapsackSpec.FilterIdempotent | Knapsack.java:96-103 | keeping only items within a bound a second time changes nothing |
| KnapsackSpec.FilterCompose | Knapsack.java:96-103 | two successive filters equal one filter with the smaller bound |
| KnapsackSpec.FilterMultiset | Knapsack.java:96-103 | the filter keeps every light item as often as it occurred and no heavy item |
| KnapsackSpec.SumAppend | Knapsack.java:129-140 | the total weight of a concatenation is the sum of the totals |
| KnapsackSpec.SumStep | Knapsack.java:136-138 | one more item at the end adds its weight to the total |
| KnapsackSpec.SumNonNegative | Knapsack.java:129-140 | with non-negative weights the total is non-negative |
| KnapsackSpec.SentinelExactlyWhenEmpty | Knapsack.java:142-155 | with non-negative weights the average is -1.0 iff the Knapsack is empty |
| KnapsackSpec.SentinelAmbiguousForNegativeWeights | Knapsack.java:142-155 | a single item of weight -1 also averages -1.0 |
| KnapsackSpec.NonNullAppend | Knapsack.java:73-86 | null-filtering a concatenation concatenates the filtered parts |
| KnapsackSpec.NonNullEmpty | Knapsack.java:70-71 | nothing is added iff every entry is null |
| KnapsackSpec.JoinSnoc | Knapsack.java:235-240 | appending one more entry appends ", " and that entry |
| KnapsackSpec.JoinStep | Knapsack.java:235-240 | rendering one more item adds ", " (except before the first) and "(name, weightg)" |
| KnapsackSpec.RenderSnoc | Knapsack.java:232-243 | the rendering of a list with one more item ends with ", (name, weightg)]" |
| KnapsackSpec.FirstEntryLeads | Knapsack.java:234-239 | a non-empty rendering starts with "[" and the first item's text |
| Decimal.NatToString | Knapsack.java:239 | the decimal text of a weight is non-empty, all digits, and has no leading zero |
| Decimal.IntToString | Knapsack.java:239 | the text starts with '-' exactly for a negative weight |
| Decimal.NatRoundTrip | Knapsack.java:239 | reading the decimal text back gives the same number |
| Decimal.IntRoundTrip | Knapsack.java:239 | a rendered weight, sign included, reads back as the same integer |
| AsWritten.ForwardScan | Knapsack.java:104-110 | the list the written loop leaves is no longer than the input and holds only input items (its exact contents, order and multiplicity are stated by the closed-form and subsequence lemmas below) |
| AsWritten.ForwardScanClosedForm | Knapsack.java:105-109 | from index i on, the written loop leaves the items before i alone; after them it keeps each item within the bound, and for each heavy item it drops that item and keeps the next one without examining it |
| AsWritten.SkipAfterRemovalSubsequence | Knapsack.java:105-109 | that closed form only deletes items: what remains keeps its original order |
| AsWritten.ForwardScanSubsequence | Knapsack.java:105-109 | the written loop's result is a subsequence and a sub-multiset of the input: nothing is reordered or duplicated |
| AsWritten.KeepOnlyItemsWithAsWritten | Knapsack.java:104-110 | the written forward loop leaves exactly the ForwardScan of the old list, which is the skip-after-removal closed form and a subsequence of the old list |
| AsWritten.ForwardScanKeepsLightItems | Knapsack.java:104-110 | the written loop never drops an item within the bound and keeps their order |
| AsWritten.ForwardScanSkipsShiftedItem | Knapsack.java:104-110 | weights [10, 20, 5] with bound 8 leave [20, 5], but the documented result is [5] |
| AsWritten.HeaviestScanAsWritten | Knapsack.java:270-285 | from a position on, the written loop throws iff a later entry is null; otherwise it returns the last positive entry after index 0, or null when there is none |
| AsWritten.HeaviestAsWritten | Knapsack.java:268-286 | the written code throws iff some entry is null, and otherwise returns the last entry after index 0 with a positive total, or null |
| AsWritten.HeaviestAsWrittenThrowsOnNull | Knapsack.java:253-255 | a null entry makes the written code throw |
| AsWritten.HeaviestAsWrittenReturnsLastPositive | Knapsack.java:278-280 | totals 3000, 4000, 3000 make the written code return the last entry, not the heaviest |
| AsWritten.HeaviestAsWrittenLosesIndexZero | Knapsack.java:282-285 | a heaviest Knapsack at index 0 makes the written code return null |
| Scenarios.SodaAndWater | Knapsack.java:146-147 | Soda 400 g and Water 395 g give total 795, average 397.5 and two items |
| Scenarios.PenAndLetter | Knapsack.java:216-226 | Pen 15 g, Letter 20 g, null, Pen 15 g render as "[(Pen, 15g), (Letter, 20g), (Pen, 15g)]" |
| Scenarios.PenAndLetterStored | Knapsack.java:29-43 | that array stores Pen, Letter, Pen: the null is skipped |
| Scenarios.PenAndLetterRendered | Knapsack.java:232-243 | those three items render as "[(Pen, 15g), (Letter, 20g), (Pen, 15g)]" |
| Scenarios.RenderThree | Knapsack.java:232-243 | three items render as their texts, separated by ", ", between brackets |
| Scenarios.PenText | Knapsack.java:239 | Pen of 15 g renders as "(Pen, 15g)" |
| Scenarios.LetterText | Knapsack.java:239 | Letter of 20 g renders as "(Letter, 20g)" |
| Scenarios.KeepOnlyLightOnes | Knapsack.java:96-103 | keeping weights [10, 20, 5] up to 8 leaves only the 5 g item |
| Scenarios.HeaviestOfTwo | Knapsack.java:248-256 | 3000 g and 4000 g Knapsacks give the 4000 g one, with a null entry between them and when it stands first |

## Left out

- The Item class is not part of this model. An Item is a value with a name and an `int` weight. `compareTo(x) == -1` at Knapsack.java:179 is read as "strictly lighter". That reading assumes `compareTo` returns exactly -1, not merely a negative number, for a lighter item.
- Java's 32-bit `int` arithmetic is left out: totals are unbounded integers, so the overflow of the sums at Knapsack.java:137 and Knapsack.java:276 is not modelled.
- Knapsacks.Knapsack.AverageWeightInGrammes: the result is the exact rational quotient, not an IEEE double. Rounding of the division at Knapsack.java:161 is not modelled.
- The internals of `java.util.ArrayList` (`add`, `remove`, `clear`, `get`) are left out. The list is a sequence value that each mutator replaces.
- The null check at Knapsack.java:122 is left out. It is dead code, because the stored list holds Item values and cannot hold null.
- A null array argument (Knapsack.java:35, 68, 263) is ruled out by Dafny's non-null `array` type instead of failing at run time.
- Knapsacks.Knapsack.HeaviestKnapsack gets each total by calling `TotalWeightInGrammes` instead of repeating the inner summing loop of Knapsack.java:275-277.
- AsWritten.HeaviestAsWritten works on the array's totals (None for a null entry), not on the Knapsack objects, because the written loop looks at nothing else.

## Findings

| source | as written | input that shows it | evidently intended | confidence | as-written member | corrected member |
|---|---|---|---|---|---|---|
| Knapsack.java:105-108 | after `sack.remove(i)` the loop still increments `i`, so the item that shifts into slot `i` is never examined | weights [10, 20, 5], bound 8: leaves [20, 5] | exactly the items of weight <= the bound stay, in order (Knapsack.java:97-99) | high, proved on the model; not executed | AsWritten.KeepOnlyItemsWithAsWritten, AsWritten.ForwardScanSkipsShiftedItem | Knapsacks.Knapsack.KeepOnlyItemsWith |
| Knapsack.java:275 | `knapsacks[i].sack` is read without a null check | [null, 3000 g, 4000 g]: NullPointerException | null entries are skipped (Knapsack.java:253-255) | high, proved on the model; not executed | AsWritten.HeaviestAsWritten, AsWritten.HeaviestAsWrittenThrowsOnNull | Knapsacks.Knapsack.HeaviestKnapsack |
| Knapsack.java:278-280 | `total` is never updated, so every positive total replaces the candidate | totals 3000, 4000, 3000: returns the last (3000 g) | the Knapsack with the greatest total (Knapsack.java:264-266) | high, proved on the model; not executed | AsWritten.HeaviestAsWritten, AsWritten.HeaviestAsWrittenReturnsLastPositive | Knapsacks.Knapsack.HeaviestKnapsack |
| Knapsack.java:282-285 | a recorded index 0 is read as "no Knapsack", so a winner at index 0 returns null | totals 4000, 0: returns null | the Knapsack at index 0 (Knapsack.java:264-266) | high, proved on the model; not executed | AsWritten.HeaviestAsWritten, AsWritten.HeaviestAsWrittenLosesIndexZero | Knapsacks.Knapsack.HeaviestKnapsack |

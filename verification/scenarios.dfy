// The examples of Knapsack.java's documentation, as clients that use only
// the contracts of the Knapsack methods.

module Scenarios {
  import opened Items
  import opened KnapsackSpec
  import opened Knapsacks
  import opened Decimal

  /** Soda (400 g) and Water (395 g): total 795, average 397.5, two items. */
  method SodaAndWater() returns (total: int, average: real, count: int)
    ensures total == 795 && average == 397.5 && count == 2
  {
    var items := new Option<Item>[2][Some(Item("Soda", 400)), Some(Item("Water", 395))];
    assert items[..] == [Some(Item("Soda", 400)), Some(Item("Water", 395))];
    var k := new Knapsack.FromItems(items);
    ghost var entries := [Some(Item("Soda", 400)), Some(Item("Water", 395))];
    assert entries[1..] == [Some(Item("Water", 395))] && entries[1..][1..] == [];
    assert k.sack == [Item("Soda", 400), Item("Water", 395)];
    assert k.sack[1..] == [Item("Water", 395)] && k.sack[1..][1..] == [];
    assert Sum(k.sack[1..][1..]) == 0;
    assert Sum(k.sack[1..]) == 395;
    assert Sum(k.sack) == 795;
    total := k.TotalWeightInGrammes();
    average := k.AverageWeightInGrammes();
    count := k.NumberOfItems();
  }

  /**
   * Pen (15 g), Letter (20 g), null, Pen again: the null is skipped and the
   * items are rendered in storage order, each weight followed by "g".
   */
  method PenAndLetter() returns (text: string)
    ensures text == "[(Pen, 15g), (Letter, 20g), (Pen, 15g)]"
  {
    var pen, letter := Item("Pen", 15), Item("Letter", 20);
    var items := new Option<Item>[4][Some(pen), Some(letter), None, Some(pen)];
    assert items[..] == [Some(pen), Some(letter), None, Some(pen)];
    PenAndLetterStored();
    var k := new Knapsack.FromItems(items);
    PenAndLetterRendered();
    text := k.ToString();
  }

  lemma PenAndLetterStored()
    ensures NonNull([Some(Item("Pen", 15)), Some(Item("Letter", 20)), None, Some(Item("Pen", 15))]) ==
            [Item("Pen", 15), Item("Letter", 20), Item("Pen", 15)]
  {
    var e := [Some(Item("Pen", 15)), Some(Item("Letter", 20)), None, Some(Item("Pen", 15))];
    assert e[1..][1..][1..] == [Some(Item("Pen", 15))];
  }

  lemma PenAndLetterRendered()
    ensures Render([Item("Pen", 15), Item("Letter", 20), Item("Pen", 15)]) ==
            "[(Pen, 15g), (Letter, 20g), (Pen, 15g)]"
  {
    RenderThree(Item("Pen", 15), Item("Letter", 20), Item("Pen", 15));
    PenText();
    LetterText();
    assert "[" + "(Pen, 15g)" + ", " + "(Letter, 20g)" == "[(Pen, 15g), (Letter, 20g)";
    assert "[(Pen, 15g), (Letter, 20g)" + ", " + "(Pen, 15g)" + "]" == "[(Pen, 15g), (Letter, 20g), (Pen, 15g)]";
  }

  /** Three items render as their texts joined by ", " between brackets. */
  lemma RenderThree(a: Item, b: Item, c: Item)
    ensures Render([a, b, c]) == "[" + ItemText(a) + ", " + ItemText(b) + ", " + ItemText(c) + "]"
  {
    var texts := Entries([a, b, c]);
    assert texts == [ItemText(a), ItemText(b), ItemText(c)];
    assert texts[1..] == [ItemText(b), ItemText(c)] && texts[1..][1..] == [ItemText(c)];
    assert Join(", ", texts[1..]) == ItemText(b) + ", " + ItemText(c);
    assert Join(", ", texts) == ItemText(a) + ", " + (ItemText(b) + ", " + ItemText(c));
  }

  lemma PenText()
    ensures ItemText(Item("Pen", 15)) == "(Pen, 15g)"
  {
    assert IntToString(15) == "15";
  }

  lemma LetterText()
    ensures ItemText(Item("Letter", 20)) == "(Letter, 20g)"
  {
    assert IntToString(20) == "20";
  }

  /** Weights [10, 20, 5] kept up to 8 grammes: only the 5-gramme item remains. */
  method KeepOnlyLightOnes() returns (kept: seq<Item>)
    ensures kept == [Item("C", 5)]
  {
    var k := new Knapsack();
    var added := k.Add(Some(Item("A", 10)));
    added := k.Add(Some(Item("B", 20)));
    added := k.Add(None);
    added := k.Add(Some(Item("C", 5)));
    ghost var before := k.sack;
    assert before == [Item("A", 10), Item("B", 20), Item("C", 5)];
    assert before[1..] == [Item("B", 20), Item("C", 5)] && before[1..][1..] == [Item("C", 5)];
    assert Filter(before[1..][1..], 8) == [Item("C", 5)] by {
      assert before[1..][1..][1..] == [];
    }
    assert Filter(before, 8) == [Item("C", 5)];
    k.KeepOnlyItemsWith(8);
    kept := k.sack;
  }

  /**
   * Knapsacks of 3000 g and 4000 g with a null entry between them: the
   * 4000 g one is returned, and also when it stands first.
   */
  method HeaviestOfTwo() returns (heaviest: Knapsack?, first: Knapsack?, k2: Knapsack)
    ensures heaviest == k2 && first == k2
  {
    var k1 := new Knapsack();
    var added := k1.Add(Some(Item("Books", 3000)));
    k2 := new Knapsack();
    added := k2.Add(Some(Item("Water", 4000)));
    assert Sum([Item("Books", 3000)]) == 3000 && Sum([Item("Water", 4000)]) == 4000;
    assert k1.sack == [Item("Books", 3000)] && k2.sack == [Item("Water", 4000)];
    var ks := new Knapsack?[3][k1, null, k2];
    assert ks[..] == [k1, null, k2];
    heaviest := Knapsack.HeaviestKnapsack(ks);
    assert ks[0] == k1 && ks[2] == k2;
    assert heaviest == k1 || heaviest == k2;
    ks := new Knapsack?[2][k2, k1];
    assert ks[..] == [k2, k1];
    first := Knapsack.HeaviestKnapsack(ks);
    assert ks[0] == k2 && ks[1] == k1;
    assert first == k1 || first == k2;
  }
}

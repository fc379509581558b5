// The values a Knapsack holds. `Item` is an external collaborator of the
// Knapsack: it is seen only through its name, its weight in grammes and its
// natural ordering, which compares weights.

module Items {

  /** A nullable reference: `None` stands for Java's null. */
  datatype Option<+T> = None | Some(value: T)

  /** An immutable named value with an integer weight in grammes (any sign). */
  datatype Item = Item(name: string, weight: int)

  /** The natural ordering of Item: `a.compareTo(b) == -1` exactly when a is lighter than b. */
  predicate Lighter(a: Item, b: Item) {
    a.weight < b.weight
  }
}

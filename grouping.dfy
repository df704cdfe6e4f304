/** The category breakdown behind both donut charts: a `reduce` that looks
    up the accumulator entry with the current element's category, adds the
    amount to it in place or pushes a new `{ name, value }` entry. */
module Grouping {

  /** What the reduce reads from each element: its category and amount. */
  datatype Item = Item(category: string, amount: int)

  /** One `{ name, value }` entry of the chart data. */
  datatype Slice = Slice(name: string, value: int)

  // ---------------------------------------------------------------------
  // Reference definitions.

  predicate HasCategory(items: seq<Item>, c: string) {
    exists k | 0 <= k < |items| :: items[k].category == c
  }

  predicate HasName(acc: seq<Slice>, c: string) {
    exists k | 0 <= k < |acc| :: acc[k].name == c
  }

  /** Sum of the amounts of the items with category c. */
  function CategorySum(items: seq<Item>, c: string): int
    decreases |items|
  {
    if items == [] then 0
    else CategorySum(items[..|items| - 1], c)
         + (if items[|items| - 1].category == c then items[|items| - 1].amount else 0)
  }

  /** Sum of all amounts. */
  function ItemsTotal(items: seq<Item>): int
    decreases |items|
  {
    if items == [] then 0 else ItemsTotal(items[..|items| - 1]) + items[|items| - 1].amount
  }

  /** Sum of all entry values. */
  function SlicesTotal(acc: seq<Slice>): int
    decreases |acc|
  {
    if acc == [] then 0 else SlicesTotal(acc[..|acc| - 1]) + acc[|acc| - 1].value
  }

  /** Position of the first item with category c. */
  function FirstIndex(items: seq<Item>, c: string): (k: nat)
    requires HasCategory(items, c)
    ensures k < |items| && items[k].category == c
    ensures forall i :: 0 <= i < k ==> items[i].category != c
    decreases |items|
  {
    if items[0].category == c then 0
    else
      assert HasCategory(items[1..], c) by {
        var k :| 0 <= k < |items| && items[k].category == c;
        assert items[1..][k - 1].category == c;
      }
      1 + FirstIndex(items[1..], c)
  }

  /** No entry name appears twice. */
  ghost predicate DistinctNames(acc: seq<Slice>) {
    forall i, j :: 0 <= i < j < |acc| ==> acc[i].name != acc[j].name
  }

  /** The entry names are exactly the categories of the items. */
  ghost predicate SameNames(items: seq<Item>, acc: seq<Slice>) {
    forall c :: HasName(acc, c) <==> HasCategory(items, c)
  }

  /** Each entry's value is the sum of its category's amounts. */
  ghost predicate SumsMatch(items: seq<Item>, acc: seq<Slice>) {
    forall i :: 0 <= i < |acc| ==> acc[i].value == CategorySum(items, acc[i].name)
  }

  /** Entries are in order of their category's first appearance. */
  ghost predicate FirstSeenOrder(items: seq<Item>, acc: seq<Slice>) {
    forall i, j :: 0 <= i < j < |acc| ==>
      HasCategory(items, acc[i].name) && HasCategory(items, acc[j].name) &&
      FirstIndex(items, acc[i].name) < FirstIndex(items, acc[j].name)
  }

  /** What the chart data must be: one entry per distinct category, no
      name twice, named in order of first appearance, each value the sum
      of its category's amounts. */
  ghost predicate IsBreakdown(items: seq<Item>, acc: seq<Slice>) {
    DistinctNames(acc) && SameNames(items, acc) && SumsMatch(items, acc) && FirstSeenOrder(items, acc)
  }

  // ---------------------------------------------------------------------
  // The reduce.

  /** `acc.find(i => i.name === name)`, as the index found, or -1. */
  function FindSlice(acc: seq<Slice>, name: string): (j: int)
    ensures -1 <= j < |acc|
    ensures 0 <= j ==> acc[j].name == name && forall k :: 0 <= k < j ==> acc[k].name != name
    ensures j == -1 ==> !HasName(acc, name)
    decreases |acc|
  {
    if acc == [] then -1
    else if acc[0].name == name then 0
    else
      var r := FindSlice(acc[1..], name);
      if r == -1 then
        assert !HasName(acc, name) by {
          forall k | 0 <= k < |acc| ensures acc[k].name != name {
            if k > 0 { assert acc[1..][k - 1] == acc[k]; }
          }
        }
        -1
      else r + 1
  }

  /** One step of the reduce: add to the entry found, or push a new one.
      The entries keep their names and order, and the item's category has
      an entry afterwards, new only when it had none. */
  function AddItem(acc: seq<Slice>, curr: Item): (r: seq<Slice>)
    ensures |r| == if HasName(acc, curr.category) then |acc| else |acc| + 1
    ensures forall k :: 0 <= k < |acc| ==> r[k].name == acc[k].name
    ensures HasName(r, curr.category)
  {
    var j := FindSlice(acc, curr.category);
    if j >= 0 then acc[j := acc[j].(value := acc[j].value + curr.amount)]
    else
      var r := acc + [Slice(curr.category, curr.amount)];
      assert r[|acc|].name == curr.category;
      r
  }

  /** The reduce from the empty accumulator: there are no more entries
      than items, and none at all only for no items. */
  function Grouped(items: seq<Item>): (r: seq<Slice>)
    ensures |r| <= |items|
    ensures |r| == 0 <==> |items| == 0
    decreases |items|
  {
    if items == [] then [] else AddItem(Grouped(items[..|items| - 1]), items[|items| - 1])
  }

  /** The reduce loop, updating its accumulator in place. */
  method GroupByCategory(items: seq<Item>) returns (acc: seq<Slice>)
    ensures acc == Grouped(items)
    ensures IsBreakdown(items, acc)
    ensures SlicesTotal(acc) == ItemsTotal(items)
    ensures |acc| <= |items| && (|acc| == 0 <==> |items| == 0)
  {
    acc := [];
    for i := 0 to |items|
      invariant acc == Grouped(items[..i])
    {
      assert items[..i + 1][..i] == items[..i];
      var curr := items[i];
      var j := FindSlice(acc, curr.category);
      if j >= 0 {
        acc := acc[j := acc[j].(value := acc[j].value + curr.amount)];
      } else {
        acc := acc + [Slice(curr.category, curr.amount)];
      }
    }
    assert items[..|items|] == items;
    GroupedIsBreakdown(items);
    GroupedTotal(items);
  }

  // ---------------------------------------------------------------------
  // Lemmas.

  lemma HasCategorySnoc(p: seq<Item>, x: Item, c: string)
    ensures HasCategory(p + [x], c) <==> HasCategory(p, c) || x.category == c
  {
    if HasCategory(p, c) {
      var k :| 0 <= k < |p| && p[k].category == c;
      assert (p + [x])[k] == p[k];
    }
    if HasCategory(p + [x], c) && x.category != c {
      var k :| 0 <= k < |p| + 1 && (p + [x])[k].category == c;
      assert k < |p| && p[k] == (p + [x])[k];
    }
    if x.category == c { assert (p + [x])[|p|] == x; }
  }

  lemma {:induction false} FirstIndexSnoc(p: seq<Item>, x: Item, c: string)
    requires HasCategory(p + [x], c)
    ensures HasCategory(p, c) ==> FirstIndex(p + [x], c) == FirstIndex(p, c) < |p|
    ensures !HasCategory(p, c) ==> FirstIndex(p + [x], c) == |p|
  {
    var q := p + [x];
    var k := FirstIndex(q, c);
    if HasCategory(p, c) {
      var f := FirstIndex(p, c);
      assert q[f] == p[f];
      assert k <= f;
      assert q[k] == p[k];
    }
  }

  lemma {:induction false} CategorySumAbsent(items: seq<Item>, c: string)
    requires !HasCategory(items, c)
    ensures CategorySum(items, c) == 0
    decreases |items|
  {
    if items != [] {
      var p := items[..|items| - 1];
      assert items == p + [items[|items| - 1]];
      HasCategorySnoc(p, items[|items| - 1], c);
      CategorySumAbsent(p, c);
    }
  }

  lemma {:induction false} SlicesTotalUpdate(acc: seq<Slice>, j: nat, v: int)
    requires j < |acc|
    ensures SlicesTotal(acc[j := acc[j].(value := v)]) == SlicesTotal(acc) - acc[j].value + v
    decreases |acc|
  {
    var acc' := acc[j := acc[j].(value := v)];
    var n := |acc| - 1;
    assert acc'[..n] == if j == n then acc[..n] else acc[..n][j := acc[j].(value := v)];
    if j < n { SlicesTotalUpdate(acc[..n], j, v); }
  }

  /** The reduce computes the breakdown. */
  lemma {:induction false} GroupedIsBreakdown(items: seq<Item>)
    ensures IsBreakdown(items, Grouped(items))
    decreases |items|
  {
    if items != [] {
      var n := |items| - 1;
      assert items == items[..n] + [items[n]];
      GroupedIsBreakdown(items[..n]);
      AddItemKeepsBreakdown(items[..n], items[n], Grouped(items[..n]));
    }
  }

  /** One step of the reduce turns the breakdown of p into that of p + [x]. */
  lemma AddItemKeepsBreakdown(p: seq<Item>, x: Item, acc: seq<Slice>)
    requires IsBreakdown(p, acc)
    ensures IsBreakdown(p + [x], AddItem(acc, x))
  {
    forall c ensures HasCategory(p + [x], c) <==> HasCategory(p, c) || x.category == c {
      HasCategorySnoc(p, x, c);
    }
    forall c ensures CategorySum(p + [x], c) == CategorySum(p, c) + (if x.category == c then x.amount else 0) {
      assert (p + [x])[..|p|] == p;
    }
    var j := FindSlice(acc, x.category);
    if j >= 0 {
      var acc' := acc[j := acc[j].(value := acc[j].value + x.amount)];
      assert AddItem(acc, x) == acc';
      ExistingNames(p, x, acc, j);
      ExistingSums(p, x, acc, j);
    } else {
      var acc' := acc + [Slice(x.category, x.amount)];
      assert AddItem(acc, x) == acc';
      NewNames(p, x, acc);
      NewSums(p, x, acc);
    }
  }

  lemma ExistingNames(p: seq<Item>, x: Item, acc: seq<Slice>, j: nat)
    requires DistinctNames(acc) && SameNames(p, acc) && FirstSeenOrder(p, acc)
    requires forall c :: HasCategory(p + [x], c) <==> HasCategory(p, c) || x.category == c
    requires j < |acc| && acc[j].name == x.category
    ensures var acc' := acc[j := acc[j].(value := acc[j].value + x.amount)];
      DistinctNames(acc') && SameNames(p + [x], acc') && FirstSeenOrder(p + [x], acc')
  {
    var acc' := acc[j := acc[j].(value := acc[j].value + x.amount)];
    assert forall i :: 0 <= i < |acc| ==> acc'[i].name == acc[i].name;
    ExistingSameNames(p, x, acc, acc', j);
    ExistingOrder(p, x, acc, acc');
  }

  lemma ExistingSameNames(p: seq<Item>, x: Item, acc: seq<Slice>, acc': seq<Slice>, j: nat)
    requires SameNames(p, acc)
    requires forall c :: HasCategory(p + [x], c) <==> HasCategory(p, c) || x.category == c
    requires j < |acc| && acc[j].name == x.category
    requires |acc'| == |acc| && forall i :: 0 <= i < |acc| ==> acc'[i].name == acc[i].name
    ensures SameNames(p + [x], acc')
  {
    assert HasCategory(p, x.category) by { assert HasName(acc, x.category); }
    forall c ensures HasName(acc', c) <==> HasName(acc, c) {
      if HasName(acc, c) { var k :| 0 <= k < |acc| && acc[k].name == c; assert acc'[k].name == c; }
      if HasName(acc', c) { var k :| 0 <= k < |acc'| && acc'[k].name == c; assert acc[k].name == c; }
    }
  }

  lemma ExistingOrder(p: seq<Item>, x: Item, acc: seq<Slice>, acc': seq<Slice>)
    requires SameNames(p, acc) && FirstSeenOrder(p, acc)
    requires |acc'| == |acc| && forall i :: 0 <= i < |acc| ==> acc'[i].name == acc[i].name
    ensures FirstSeenOrder(p + [x], acc')
  {
    forall i | 0 <= i < |acc'|
      ensures HasCategory(p + [x], acc'[i].name)
      ensures FirstIndex(p + [x], acc'[i].name) == FirstIndex(p, acc'[i].name)
    {
      assert HasName(acc, acc[i].name);
      HasCategorySnoc(p, x, acc'[i].name);
      FirstIndexSnoc(p, x, acc'[i].name);
    }
  }

  lemma ExistingSums(p: seq<Item>, x: Item, acc: seq<Slice>, j: nat)
    requires DistinctNames(acc) && SumsMatch(p, acc)
    requires forall c :: CategorySum(p + [x], c) == CategorySum(p, c) + (if x.category == c then x.amount else 0)
    requires j < |acc| && acc[j].name == x.category
    ensures SumsMatch(p + [x], acc[j := acc[j].(value := acc[j].value + x.amount)])
  {
  }

  lemma NewNames(p: seq<Item>, x: Item, acc: seq<Slice>)
    requires DistinctNames(acc) && SameNames(p, acc) && FirstSeenOrder(p, acc)
    requires forall c :: HasCategory(p + [x], c) <==> HasCategory(p, c) || x.category == c
    requires !HasName(acc, x.category)
    ensures var acc' := acc + [Slice(x.category, x.amount)];
      DistinctNames(acc') && SameNames(p + [x], acc') && FirstSeenOrder(p + [x], acc')
  {
    var acc' := acc + [Slice(x.category, x.amount)];
    forall c ensures HasName(acc', c) <==> HasName(acc, c) || c == x.category {
      if HasName(acc, c) { var k :| 0 <= k < |acc| && acc[k].name == c; assert acc'[k].name == c; }
      if HasName(acc', c) && c != x.category {
        var k :| 0 <= k < |acc'| && acc'[k].name == c;
        assert k < |acc| && acc[k].name == c;
      }
      if c == x.category { assert acc'[|acc|].name == c; }
    }
    forall i | 0 <= i < |acc| ensures acc[i].name != x.category {
      assert HasName(acc, acc[i].name);
    }
    forall i | 0 <= i < |acc'|
      ensures HasCategory(p + [x], acc'[i].name)
      ensures i < |acc| ==> FirstIndex(p + [x], acc'[i].name) == FirstIndex(p, acc'[i].name) < |p|
      ensures i == |acc| ==> FirstIndex(p + [x], acc'[i].name) == |p|
    {
      if i < |acc| { assert HasName(acc, acc[i].name); }
      FirstIndexSnoc(p, x, acc'[i].name);
    }
  }

  lemma NewSums(p: seq<Item>, x: Item, acc: seq<Slice>)
    requires SameNames(p, acc) && SumsMatch(p, acc)
    requires forall c :: CategorySum(p + [x], c) == CategorySum(p, c) + (if x.category == c then x.amount else 0)
    requires !HasName(acc, x.category)
    ensures SumsMatch(p + [x], acc + [Slice(x.category, x.amount)])
  {
    var acc' := acc + [Slice(x.category, x.amount)];
    CategorySumAbsent(p, x.category);
    forall i | 0 <= i < |acc'| ensures acc'[i].value == CategorySum(p + [x], acc'[i].name) {
      if i < |acc| {
        assert HasName(acc, acc[i].name);
      }
    }
  }

  /** The entry values add up to the sum of all amounts. */
  lemma {:induction false} GroupedTotal(items: seq<Item>)
    ensures SlicesTotal(Grouped(items)) == ItemsTotal(items)
    decreases |items|
  {
    if items != [] {
      var n := |items| - 1;
      var p, x := items[..n], items[n];
      GroupedTotal(p);
      AddItemTotal(Grouped(p), x);
    }
  }

  /** One step of the reduce adds the item's amount to the entries' total. */
  lemma AddItemTotal(acc: seq<Slice>, x: Item)
    ensures SlicesTotal(AddItem(acc, x)) == SlicesTotal(acc) + x.amount
  {
    var j := FindSlice(acc, x.category);
    if j >= 0 {
      SlicesTotalUpdate(acc, j, acc[j].value + x.amount);
    } else {
      var s := Slice(x.category, x.amount);
      assert (acc + [s])[..|acc|] == acc;
    }
  }
}

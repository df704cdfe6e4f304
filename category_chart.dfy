/** The category chart component: whatever list of subscriptions it is
    given, grouped by category with their prices summed, categories in
    first-seen order of that list; nothing is drawn for an empty list. */
module CategoryChart {
  import opened Options
  import opened Records
  import opened Grouping

  /** The (category, price) view of the subscriptions the reduce reads. */
  function PriceItems(subscriptions: seq<Subscription>): (items: seq<Item>)
    ensures |items| == |subscriptions|
    ensures forall i :: 0 <= i < |subscriptions| ==>
      items[i] == Item(subscriptions[i].category, subscriptions[i].price)
    decreases |subscriptions|
  {
    if subscriptions == [] then []
    else
      var s := subscriptions[|subscriptions| - 1];
      PriceItems(subscriptions[..|subscriptions| - 1]) + [Item(s.category, s.price)]
  }

  /** The sum of the prices of all the subscriptions. */
  function PriceTotal(subscriptions: seq<Subscription>): int
    decreases |subscriptions|
  {
    if subscriptions == [] then 0
    else PriceTotal(subscriptions[..|subscriptions| - 1]) + subscriptions[|subscriptions| - 1].price
  }

  lemma {:induction false} PriceItemsTotal(subscriptions: seq<Subscription>)
    ensures ItemsTotal(PriceItems(subscriptions)) == PriceTotal(subscriptions)
    decreases |subscriptions|
  {
    if subscriptions != [] {
      var p := subscriptions[..|subscriptions| - 1];
      PriceItemsTotal(p);
      assert PriceItems(subscriptions)[..|p|] == PriceItems(p);
    }
  }

  /** The chart's data, or None where the component renders nothing: one
      slice per category in order of first appearance, each the sum of its
      subscriptions' prices, the slices adding up to the total price. */
  method CategoryData(subscriptions: seq<Subscription>) returns (data: Option<seq<Slice>>)
    ensures data.None? <==> |subscriptions| == 0
    ensures data.Some? ==> IsBreakdown(PriceItems(subscriptions), data.value)
    ensures data.Some? ==> SlicesTotal(data.value) == PriceTotal(subscriptions)
    ensures data.Some? ==> 1 <= |data.value| <= |subscriptions|
  {
    var acc := GroupByCategory(PriceItems(subscriptions));
    PriceItemsTotal(subscriptions);
    if |subscriptions| == 0 {
      data := None;
    } else {
      data := Some(acc);
    }
  }
}

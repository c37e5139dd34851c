/**
 * Line items of an order, the order-level service type derived from them and
 * the order total, as the point-of-sale form computes them.
 */
module Pricing {
  import opened Wrappers

  /** The values of the orders' `service_type` column; `WashDry` is its default. */
  datatype ServiceType = WashDry | WashOnly | DryOnly | Mixed

  /** One line of an order. `service` is `None` when the item carries no type. */
  datatype Item = Item(name: string, quantity: int, service: Option<ServiceType>)

  /** The service types of the items that have one. */
  function PresentTypes(items: seq<Item>): (r: seq<ServiceType>)
    ensures |r| <= |items|
    ensures forall t :: t in r <==> HasType(items, t)
    ensures r == [] <==> forall k :: 0 <= k < |items| ==> items[k].service.None?
  {
    if items == [] then []
    else
      var rest := PresentTypes(items[1..]);
      assert forall t :: HasType(items, t) <==> items[0].service == Some(t) || HasType(items[1..], t) by {
        forall t ensures HasType(items, t) <==> items[0].service == Some(t) || HasType(items[1..], t) {
          if HasType(items, t) {
            var k :| 0 <= k < |items| && items[k].service == Some(t);
            if k > 0 {
              assert items[1..][k - 1] == items[k];
            }
          }
          if HasType(items[1..], t) {
            var k :| 0 <= k < |items[1..]| && items[1..][k].service == Some(t);
            assert items[k + 1] == items[1..][k];
          }
        }
      }
      match items[0].service
      case Some(t) => [t] + rest
      case None => rest
  }

  /** Some item has service type `t`. */
  predicate HasType(items: seq<Item>, t: ServiceType) {
    exists k :: 0 <= k < |items| && items[k].service == Some(t)
  }

  /**
   * The order-level service type: `WashDry` for no items, the one type the
   * typed items share, `Mixed` when they have several, and `WashDry` when no
   * item is typed. The result is always `WashDry`, `Mixed` or some item's type.
   */
  function DetermineServiceType(items: seq<Item>): (r: ServiceType)
    ensures r == WashDry || r == Mixed || HasType(items, r)
  {
    if |items| == 0 then WashDry
    else
      var types := PresentTypes(items);
      var unique := set t | t in types;
      if |unique| == 1 then
        types[0]
      else if |unique| > 1 then Mixed
      else WashDry
  }

  /** When every typed item has type `t`, and one does, the order has type `t`. */
  lemma SharedTypeResolves(items: seq<Item>, t: ServiceType)
    requires HasType(items, t)
    requires forall u :: HasType(items, u) ==> u == t
    ensures DetermineServiceType(items) == t
  {
    var types := PresentTypes(items);
    var unique := set u | u in types;
    assert unique == {t};
    assert types[0] in types;
  }

  /** Two items with different types make the order `Mixed`. */
  lemma DistinctTypesResolveMixed(items: seq<Item>, i: nat, j: nat)
    requires i < |items| && j < |items|
    requires items[i].service.Some? && items[j].service.Some?
    requires items[i].service != items[j].service
    ensures DetermineServiceType(items) == Mixed
  {
    var a, b := items[i].service.value, items[j].service.value;
    assert HasType(items, a) && HasType(items, b);
    var types := PresentTypes(items);
    var unique := set u | u in types;
    assert {a, b} <= unique;
    assert |{a, b}| == 2;
    SubsetCard({a, b}, unique);
  }

  lemma SubsetCard<T>(a: set<T>, b: set<T>)
    requires a <= b
    ensures |a| <= |b|
  {
    assert b == a + (b - a);
  }

  /** Items without a type are ignored; with no typed item the order is `WashDry`. */
  lemma UntypedResolvesWashDry(items: seq<Item>)
    requires forall k :: 0 <= k < |items| ==> items[k].service.None?
    ensures DetermineServiceType(items) == WashDry
  {
    if |items| > 0 {
      var types := PresentTypes(items);
      assert (set u | u in types) == {};
    }
  }

  /** The unit prices of the form's price table. */
  const Prices: map<ServiceType, int> := map[WashDry := 100, WashOnly := 60, DryOnly := 50]

  /**
   * The unit price of an item: a missing type is priced as `WashDry`, and a
   * type outside the table (`Mixed`) gets the fallback price 100.
   */
  function Price(service: Option<ServiceType>): (p: int)
    ensures 50 <= p <= 100
    ensures p == 60 <==> service == Some(WashOnly)
    ensures p == 50 <==> service == Some(DryOnly)
    ensures service.None? || service == Some(WashDry) || service == Some(Mixed) ==> p == 100
  {
    var t := if service.Some? then service.value else WashDry;
    if t in Prices then Prices[t] else 100
  }

  function LineTotal(item: Item): int {
    Price(item.service) * item.quantity
  }

  /** The order total: the sum of price times quantity over the items. */
  function ComputeTotal(items: seq<Item>): int {
    if items == [] then 0 else ComputeTotal(items[..|items| - 1]) + LineTotal(items[|items| - 1])
  }

  function SumQuantities(items: seq<Item>): int {
    if items == [] then 0 else SumQuantities(items[..|items| - 1]) + items[|items| - 1].quantity
  }

  /** The loop both item handlers run to refresh the total. */
  method TotalOf(items: seq<Item>) returns (total: int)
    ensures total == ComputeTotal(items)
  {
    total := 0;
    var i := 0;
    while i < |items|
      invariant 0 <= i <= |items|
      invariant total == ComputeTotal(items[..i])
    {
      assert items[..i + 1][..i] == items[..i];
      total := total + Price(items[i].service) * items[i].quantity;
      i := i + 1;
    }
    assert items[..i] == items;
  }

  lemma {:induction false} TotalAppend(a: seq<Item>, b: seq<Item>)
    ensures ComputeTotal(a + b) == ComputeTotal(a) + ComputeTotal(b)
    decreases |b|
  {
    if b == [] {
      assert a + b == a;
    } else {
      assert (a + b)[..|a + b| - 1] == a + b[..|b| - 1];
      TotalAppend(a, b[..|b| - 1]);
    }
  }

  /** The total does not depend on the order of the items. */
  lemma {:induction false} TotalPermutation(a: seq<Item>, b: seq<Item>)
    requires multiset(a) == multiset(b)
    ensures ComputeTotal(a) == ComputeTotal(b)
    decreases |a|
  {
    if a != [] {
      var last := a[|a| - 1];
      assert a == a[..|a| - 1] + [last];
      assert last in multiset(b);
      var k :| 0 <= k < |b| && b[k] == last;
      TotalWithout(b, k);
      TotalPermutation(a[..|a| - 1], b[..k] + b[k + 1..]);
    } else {
      assert b == [];
    }
  }

  /** Taking out the item at `k` takes one copy out of the multiset and its line out of the total. */
  lemma TotalWithout(b: seq<Item>, k: int)
    requires 0 <= k < |b|
    ensures multiset(b[..k] + b[k + 1..]) == multiset(b) - multiset{b[k]}
    ensures ComputeTotal(b) == ComputeTotal(b[..k] + b[k + 1..]) + LineTotal(b[k])
  {
    var left, right := b[..k], b[k + 1..];
    SplitAt(b, k);
    assert multiset(b) == multiset(left) + multiset{b[k]} + multiset(right);
    TotalAppend(left + [b[k]], right);
    assert (left + [b[k]])[..|left|] == left;
    TotalAppend(left, right);
  }

  lemma SplitAt(b: seq<Item>, k: int)
    requires 0 <= k < |b|
    ensures b == b[..k] + [b[k]] + b[k + 1..]
  {
    assert b[..k] + [b[k]] == b[..k + 1];
    assert b[..k + 1] + b[k + 1..] == b;
  }

  /** With non-negative quantities the total lies between 50 and 100 per unit. */
  lemma {:induction false} TotalBounds(items: seq<Item>)
    requires forall k :: 0 <= k < |items| ==> items[k].quantity >= 0
    ensures 50 * SumQuantities(items) <= ComputeTotal(items) <= 100 * SumQuantities(items)
  {
    if items != [] {
      TotalBounds(items[..|items| - 1]);
      var last := items[|items| - 1];
      assert 50 * last.quantity <= LineTotal(last) <= 100 * last.quantity;
    }
  }

  /** An order of wash-and-dry items costs 100 per unit. */
  lemma {:induction false} TotalAllWashDry(items: seq<Item>)
    requires forall k :: 0 <= k < |items| ==> items[k].service == Some(WashDry)
    ensures ComputeTotal(items) == 100 * SumQuantities(items)
  {
    if items != [] {
      TotalAllWashDry(items[..|items| - 1]);
    }
  }

  /** Two shirts-and-jeans style examples of the pricing rules. */
  lemma PricingExamples()
    ensures var items := [Item("Shirts", 5, Some(WashDry)), Item("Jeans", 2, Some(DryOnly))];
      ComputeTotal(items) == 600 && DetermineServiceType(items) == Mixed
    ensures var items := [Item("Towels", 3, Some(WashOnly))];
      ComputeTotal(items) == 180 && DetermineServiceType(items) == WashOnly
  {
    var mixed := [Item("Shirts", 5, Some(WashDry)), Item("Jeans", 2, Some(DryOnly))];
    assert mixed[..1] == [mixed[0]];
    DistinctTypesResolveMixed(mixed, 0, 1);
    var towels := [Item("Towels", 3, Some(WashOnly))];
    assert towels[0].service == Some(WashOnly);
    assert HasType(towels, WashOnly);
    SharedTypeResolves(towels, WashOnly);
  }
}

/**
 * What the commands do with a sweep's records: the deal filter and the alert messages
 * of the scheduled loop, the grouping and the best price of `!check`, and the window of
 * `!history`.
 */
module SweepConsumers {

  import opened Wrappers
  import opened PriceExtractor
  import opened SweepRunner

  // ---------------------------------------------------------------------------
  // Deals and alerts

  /** `[r for r in results if r['price'] <= target_price]`. */
  function Deals(results: seq<Observation>, target: Cents): seq<Observation>
  {
    if results == [] then []
    else
      var n := |results| - 1;
      Deals(results[..n], target) + (if results[n].price <= target then [results[n]] else [])
  }

  /** The deals are exactly the records at or below the target. */
  lemma {:induction false} DealsMembers(results: seq<Observation>, target: Cents)
    ensures forall o :: o in Deals(results, target) <==> o in results && o.price <= target
  {
    if results != [] {
      var n := |results| - 1;
      DealsMembers(results[..n], target);
      assert results == results[..n] + [results[n]];
    }
  }

  /** Filtering keeps the order of the records: it distributes over concatenation. */
  lemma {:induction false} DealsAppend(a: seq<Observation>, b: seq<Observation>, target: Cents)
    ensures Deals(a + b, target) == Deals(a, target) + Deals(b, target)
  {
    if b != [] {
      var n := |b| - 1;
      assert (a + b)[..|a| + n] == a + b[..n];
      DealsAppend(a, b[..n], target);
    } else {
      assert a + b == a;
    }
  }

  /** Re-evaluating the deals with the same target changes nothing. */
  lemma {:induction false} DealsIdempotent(results: seq<Observation>, target: Cents)
    ensures Deals(Deals(results, target), target) == Deals(results, target)
  {
    if results != [] {
      var n := |results| - 1;
      var last := if results[n].price <= target then [results[n]] else [];
      DealsIdempotent(results[..n], target);
      DealsAppend(Deals(results[..n], target), last, target);
      assert last != [] ==> last[..0] == [];
    }
  }

  /** A message sent to the alert channel: the alert embed for a deal, or the
      `@everyone` line that follows it. */
  datatype Message = PriceAlert(deal: Observation, target: Cents) | EveryoneAlert

  /** The messages for a list of deals. */
  function Alerts(deals: seq<Observation>, target: Cents): seq<Message>
  {
    if deals == [] then []
    else
      var n := |deals| - 1;
      Alerts(deals[..n], target) + [PriceAlert(deals[n], target), EveryoneAlert]
  }

  /** Two messages per deal, in deal order: first its alert, then `@everyone`. */
  lemma {:induction false} AlertsShape(deals: seq<Observation>, target: Cents)
    ensures |Alerts(deals, target)| == 2 * |deals|
    ensures forall i :: 0 <= i < |deals| ==>
      Alerts(deals, target)[2 * i] == PriceAlert(deals[i], target) &&
      Alerts(deals, target)[2 * i + 1] == EveryoneAlert
  {
    if deals != [] {
      var n := |deals| - 1;
      AlertsShape(deals[..n], target);
    }
  }

  // ---------------------------------------------------------------------------
  // The best price of a manual check

  /** `min(results, key=price)`: the first record with the lowest price. */
  function LowestIndex(results: seq<Observation>): (k: nat)
    requires results != []
    ensures k < |results|
    ensures forall j :: 0 <= j < |results| ==> results[k].price <= results[j].price
    ensures forall j :: 0 <= j < k ==> results[j].price > results[k].price
  {
    if |results| == 1 then 0
    else
      var n := |results| - 1;
      var k := LowestIndex(results[..n]);
      if results[n].price < results[k].price then n else k
  }

  // ---------------------------------------------------------------------------
  // The history window

  /** `history[-n:]`: the last n entries, or all of them when there are fewer. */
  function Last(history: seq<Observation>, n: nat): (r: seq<Observation>)
    ensures |r| == (if |history| < n then |history| else n)
    ensures history == history[..|history| - |r|] + r
  {
    if |history| <= n then history else history[|history| - n..]
  }

  // ---------------------------------------------------------------------------
  // Grouping by retailer

  datatype Group = Group(retailer: string, items: seq<Observation>)

  /** The retailers of the records, each once, in order of first appearance. */
  function RetailerOrder(results: seq<Observation>): seq<string>
  {
    if results == [] then []
    else
      var n := |results| - 1;
      var order := RetailerOrder(results[..n]);
      if results[n].retailer in order then order else order + [results[n].retailer]
  }

  /** The records of one retailer, in sweep order. */
  function ItemsOf(results: seq<Observation>, retailer: string): seq<Observation>
  {
    if results == [] then []
    else
      var n := |results| - 1;
      ItemsOf(results[..n], retailer) + (if results[n].retailer == retailer then [results[n]] else [])
  }

  /** `by_retailer` after the grouping loop: one group per retailer, in first-appearance
      order, each with that retailer's records in sweep order. */
  function Grouping(results: seq<Observation>): (groups: seq<Group>)
    ensures |groups| == |RetailerOrder(results)|
    ensures forall i :: 0 <= i < |groups| ==>
      groups[i] == Group(RetailerOrder(results)[i], ItemsOf(results, RetailerOrder(results)[i]))
  {
    var order := RetailerOrder(results);
    seq(|order|, i requires 0 <= i < |order| => Group(order[i], ItemsOf(results, order[i])))
  }

  /** The index of the first record of a retailer, |results| when it has none. */
  function FirstIndex(results: seq<Observation>, retailer: string): (k: nat)
    ensures k <= |results|
    ensures k < |results| ==> results[k].retailer == retailer
    ensures forall j :: 0 <= j < k ==> results[j].retailer != retailer
  {
    if results == [] then 0
    else if results[0].retailer == retailer then 0
    else 1 + FirstIndex(results[1..], retailer)
  }

  lemma {:induction false} RetailerOrderDistinct(results: seq<Observation>)
    ensures var order := RetailerOrder(results);
      forall i, j :: 0 <= i < j < |order| ==> order[i] != order[j]
  {
    if results != [] {
      var n := |results| - 1;
      RetailerOrderDistinct(results[..n]);
      if results[n].retailer !in RetailerOrder(results[..n]) {
        forall i, j | 0 <= i < j < |RetailerOrder(results)|
          ensures RetailerOrder(results)[i] != RetailerOrder(results)[j]
        {
          assert RetailerOrder(results)[i] == RetailerOrder(results[..n])[i];
          assert RetailerOrder(results[..n])[i] in RetailerOrder(results[..n]);
          if j < |RetailerOrder(results[..n])| {
            assert RetailerOrder(results)[j] == RetailerOrder(results[..n])[j];
          }
        }
      }
    }
  }

  /** A retailer is in the order exactly when one of the records is from it. */
  lemma {:induction false} RetailerOrderMembers(results: seq<Observation>)
    ensures forall r :: r in RetailerOrder(results) <==> FirstIndex(results, r) < |results|
  {
    if results != [] {
      var n := |results| - 1;
      var front := results[..n];
      RetailerOrderMembers(front);
      forall r ensures FirstIndex(results, r) < |results| <==> FirstIndex(front, r) < n || results[n].retailer == r {
        FirstIndexSnoc(front, results[n], r);
        assert front + [results[n]] == results;
      }
    }
  }

  lemma {:induction false} FirstIndexSnoc(front: seq<Observation>, o: Observation, r: string)
    ensures FirstIndex(front + [o], r) ==
      if FirstIndex(front, r) < |front| then FirstIndex(front, r)
      else if o.retailer == r then |front| else |front| + 1
  {
    if front != [] {
      assert (front + [o])[1..] == front[1..] + [o];
      FirstIndexSnoc(front[1..], o, r);
    }
  }

  /** A retailer outside the order has no records. */
  lemma {:induction false} ItemsOfAbsent(results: seq<Observation>, r: string)
    requires r !in RetailerOrder(results)
    ensures ItemsOf(results, r) == []
  {
    if results != [] {
      var n := |results| - 1;
      ItemsOfAbsent(results[..n], r);
    }
  }

  /** Groups are listed in the order of each retailer's first record. */
  lemma {:induction false} RetailerOrderByFirstAppearance(results: seq<Observation>)
    ensures var order := RetailerOrder(results);
      forall i, j :: 0 <= i < j < |order| ==> FirstIndex(results, order[i]) < FirstIndex(results, order[j])
  {
    if results != [] {
      var n := |results| - 1;
      var front := results[..n];
      var o := results[n];
      assert front + [o] == results;
      RetailerOrderByFirstAppearance(front);
      RetailerOrderMembers(front);
      forall r | r in RetailerOrder(front) ensures FirstIndex(results, r) == FirstIndex(front, r) < n {
        FirstIndexSnoc(front, o, r);
      }
      FirstIndexSnoc(front, o, o.retailer);
      forall i, j | 0 <= i < j < |RetailerOrder(results)|
        ensures FirstIndex(results, RetailerOrder(results)[i]) < FirstIndex(results, RetailerOrder(results)[j])
      {
        assert RetailerOrder(results)[i] == RetailerOrder(front)[i];
        assert RetailerOrder(front)[i] in RetailerOrder(front);
        if j < |RetailerOrder(front)| {
          assert RetailerOrder(results)[j] == RetailerOrder(front)[j];
          assert RetailerOrder(front)[j] in RetailerOrder(front);
        } else {
          assert RetailerOrder(results)[j] == o.retailer && o.retailer !in RetailerOrder(front);
        }
      }
    }
  }

  /** A retailer's group holds exactly its records. */
  lemma {:induction false} ItemsOfMembers(results: seq<Observation>, retailer: string)
    ensures forall o :: o in ItemsOf(results, retailer) <==> o in results && o.retailer == retailer
  {
    if results != [] {
      var n := |results| - 1;
      ItemsOfMembers(results[..n], retailer);
      assert results == results[..n] + [results[n]];
    }
  }

  /** Where the grouping loop looks a retailer up among the groups built so far. */
  function GroupIndex(groups: seq<Group>, retailer: string): (r: Option<nat>)
    ensures r.Some? ==> r.value < |groups| && groups[r.value].retailer == retailer
    ensures r.None? ==> forall i :: 0 <= i < |groups| ==> groups[i].retailer != retailer
  {
    if groups == [] then None
    else if groups[0].retailer == retailer then Some(0)
    else match GroupIndex(groups[1..], retailer)
      case None => None
      case Some(i) => Some(i + 1)
  }

  /** One more record either goes to the end of its retailer's group or opens a new group
      at the end. */
  lemma GroupingSnoc(front: seq<Observation>, o: Observation)
    ensures var g := Grouping(front);
      Grouping(front + [o]) ==
        match GroupIndex(g, o.retailer)
        case None => g + [Group(o.retailer, [o])]
        case Some(i) => g[i := Group(o.retailer, g[i].items + [o])]
  {
    var s := front + [o];
    assert s[..|s| - 1] == front;
    var g := Grouping(front);
    var order := RetailerOrder(front);
    RetailerOrderDistinct(front);
    assert forall r :: ItemsOf(s, r) == ItemsOf(front, r) + (if o.retailer == r then [o] else []);
    match GroupIndex(g, o.retailer)
    case None =>
      assert o.retailer !in order by {
        forall i | 0 <= i < |order| ensures order[i] != o.retailer {
          assert g[i].retailer == order[i];
        }
      }
      ItemsOfAbsent(front, o.retailer);
      var expected := g + [Group(o.retailer, [o])];
      assert RetailerOrder(s) == order + [o.retailer];
      forall k | 0 <= k < |expected| ensures Grouping(s)[k] == expected[k] {
        if k < |g| {
          assert order[k] != o.retailer;
        }
      }
      assert Grouping(s) == expected;
    case Some(i) =>
      assert order[i] == o.retailer;
      var expected := g[i := Group(o.retailer, g[i].items + [o])];
      assert RetailerOrder(s) == order;
      forall k | 0 <= k < |expected| ensures Grouping(s)[k] == expected[k] {
        if k != i {
          assert order[k] != o.retailer;
        }
      }
      assert Grouping(s) == expected;
  }

  /** The grouping loop of `!check`. */
  method GroupByRetailer(results: seq<Observation>) returns (groups: seq<Group>)
    ensures groups == Grouping(results)
  {
    groups := [];
    for k := 0 to |results|
      invariant groups == Grouping(results[..k])
    {
      var result := results[k];
      GroupingSnoc(results[..k], result);
      assert results[..k + 1] == results[..k] + [result];
      match GroupIndex(groups, result.retailer)
      case None =>
        groups := groups + [Group(result.retailer, [result])];
      case Some(i) =>
        groups := groups[i := Group(result.retailer, groups[i].items + [result])];
    }
    assert results[..|results|] == results;
  }
}

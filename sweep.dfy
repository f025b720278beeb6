/**
 * `OuraPriceTracker` and its `check_all_prices`: one sequential pass over the resolved
 * targets, fetching each page, keeping one record per page that gave a price, and
 * sleeping once per page.
 */
module SweepRunner {

  import opened Wrappers
  import opened PriceExtractor
  import opened Catalog

  /** One price record. The timestamp is an opaque reading of the clock. */
  datatype Observation = Observation(
    timestamp: nat,
    retailer: string,
    color: string,
    price: Cents,
    url: string)

  /** What the k-th request of a sweep gives for a URL (the network is not modelled). */
  type Fetch = (nat, string) -> FetchOutcome

  /** The clock reading taken when the record of the k-th request is made. */
  type Clock = nat -> nat

  /** The record for target t when it is the k-th page fetched: present exactly when the
      page gave a price, and then carrying the target's retailer, colour and URL. */
  function ReadingAt(t: Target, k: nat, fetch: Fetch, clock: Clock): (r: Option<Observation>)
    ensures r.Some? <==> ExtractPrice(fetch(k, t.url)).Some?
    ensures r.Some? ==>
      (r.value.retailer == t.retailer && r.value.color == t.color &&
       r.value.url == t.url && r.value.timestamp == clock(k) &&
       Some(r.value.price) == ExtractPrice(fetch(k, t.url)))
  {
    var price := ExtractPrice(fetch(k, t.url));
    if price.Some? && price.value != 0 then
      Some(Observation(clock(k), t.retailer, t.color, price.value, t.url))
    else None
  }

  /** The records of a sweep over ts, the k-th target being the k-th page fetched. */
  function Sweep(ts: seq<Target>, fetch: Fetch, clock: Clock): (obs: seq<Observation>)
    ensures |obs| <= |ts|
    ensures forall o :: o in obs ==> InRange(o.price)
  {
    if ts == [] then []
    else
      var n := |ts| - 1;
      Sweep(ts[..n], fetch, clock) +
        (match ReadingAt(ts[n], n, fetch, clock) case Some(o) => [o] case None => [])
  }

  /** The indices of the targets that gave a record, in increasing order. */
  ghost function Hits(ts: seq<Target>, fetch: Fetch, clock: Clock): seq<nat>
  {
    if ts == [] then []
    else
      var n := |ts| - 1;
      Hits(ts[..n], fetch, clock) + (if ReadingAt(ts[n], n, fetch, clock).Some? then [n] else [])
  }

  /** The hit indices point into the targets and increase strictly. */
  lemma {:induction false} HitsOrdered(ts: seq<Target>, fetch: Fetch, clock: Clock)
    ensures forall m :: 0 <= m < |Hits(ts, fetch, clock)| ==> Hits(ts, fetch, clock)[m] < |ts|
    ensures forall m, m' :: 0 <= m < m' < |Hits(ts, fetch, clock)| ==>
      Hits(ts, fetch, clock)[m] < Hits(ts, fetch, clock)[m']
  {
    if ts != [] {
      var n := |ts| - 1;
      HitsOrdered(ts[..n], fetch, clock);
    }
  }

  /** An index is a hit exactly when its target's page gave a record. */
  lemma {:induction false} HitsMembers(ts: seq<Target>, fetch: Fetch, clock: Clock)
    ensures forall k :: 0 <= k < |ts| ==>
      (k in Hits(ts, fetch, clock) <==> ReadingAt(ts[k], k, fetch, clock).Some?)
  {
    if ts != [] {
      var n := |ts| - 1;
      HitsMembers(ts[..n], fetch, clock);
      HitsOrdered(ts[..n], fetch, clock);
      assert forall k :: 0 <= k < n ==> ts[..n][k] == ts[k];
      assert n !in Hits(ts[..n], fetch, clock);
    }
  }

  /** The m-th record of a sweep is the reading of its m-th hit. */
  lemma {:induction false} SweepReadings(ts: seq<Target>, fetch: Fetch, clock: Clock)
    ensures |Hits(ts, fetch, clock)| == |Sweep(ts, fetch, clock)|
    ensures forall m :: 0 <= m < |Sweep(ts, fetch, clock)| ==>
      Hits(ts, fetch, clock)[m] < |ts| &&
      ReadingAt(ts[Hits(ts, fetch, clock)[m]], Hits(ts, fetch, clock)[m], fetch, clock) ==
        Some(Sweep(ts, fetch, clock)[m])
  {
    if ts != [] {
      var n := |ts| - 1;
      var front := ts[..n];
      SweepReadings(front, fetch, clock);
      assert forall k :: 0 <= k < n ==> front[k] == ts[k];
      match ReadingAt(ts[n], n, fetch, clock) {
        case Some(o) =>
          assert Sweep(ts, fetch, clock) == Sweep(front, fetch, clock) + [o];
          assert Hits(ts, fetch, clock) == Hits(front, fetch, clock) + [n];
          forall m | 0 <= m < |Sweep(front, fetch, clock)|
            ensures Hits(ts, fetch, clock)[m] == Hits(front, fetch, clock)[m] < n
            ensures Sweep(ts, fetch, clock)[m] == Sweep(front, fetch, clock)[m]
          {
          }
        case None =>
          assert Sweep(ts, fetch, clock) == Sweep(front, fetch, clock);
          assert Hits(ts, fetch, clock) == Hits(front, fetch, clock);
      }
    }
  }

  /** A sweep keeps, in target order, exactly one record for every target whose page gave
      a price, and nothing for the others. */
  lemma SweepHits(ts: seq<Target>, fetch: Fetch, clock: Clock)
    ensures var obs, hs := Sweep(ts, fetch, clock), Hits(ts, fetch, clock);
      |hs| == |obs| &&
      (forall m :: 0 <= m < |obs| ==>
         hs[m] < |ts| && ReadingAt(ts[hs[m]], hs[m], fetch, clock) == Some(obs[m])) &&
      (forall m, m' :: 0 <= m < m' < |hs| ==> hs[m] < hs[m']) &&
      (forall k :: 0 <= k < |ts| ==> (k in hs <==> ReadingAt(ts[k], k, fetch, clock).Some?))
  {
    HitsOrdered(ts, fetch, clock);
    HitsMembers(ts, fetch, clock);
    SweepReadings(ts, fetch, clock);
  }

  /** Appending a target to a sweep appends at most its own record. */
  lemma SweepSnoc(ts: seq<Target>, t: Target, fetch: Fetch, clock: Clock)
    ensures Sweep(ts + [t], fetch, clock) == Sweep(ts, fetch, clock) +
      (match ReadingAt(t, |ts|, fetch, clock) case Some(o) => [o] case None => [])
  {
    var s := ts + [t];
    assert s[..|s| - 1] == ts && s[|s| - 1] == t;
  }

  /** Pages that fail in any way give no record, and the sweep is still a result. */
  lemma {:induction false} AllFailuresGiveEmptySweep(ts: seq<Target>, fetch: Fetch, clock: Clock)
    requires forall k :: 0 <= k < |ts| ==> ExtractPrice(fetch(k, ts[k].url)) == None
    ensures Sweep(ts, fetch, clock) == []
  {
    if ts != [] {
      var n := |ts| - 1;
      assert forall k :: 0 <= k < n ==> ts[..n][k] == ts[k];
      AllFailuresGiveEmptySweep(ts[..n], fetch, clock);
    }
  }

  lemma ResolveTargetsSnoc(rs: seq<Retailer>, i: nat, colors: seq<string>)
    requires AllResolvable(rs) && i < |rs|
    ensures AllResolvable(rs[..i]) && AllResolvable(rs[..i + 1])
    ensures ResolveTargets(rs[..i + 1], colors) == ResolveTargets(rs[..i], colors) + TargetsFor(rs[i], colors)
  {
    assert rs[..i + 1][..i] == rs[..i];
  }

  lemma TargetsForSnoc(r: Retailer, colors: seq<string>, j: nat)
    requires Resolvable(r) && j < |colors|
    ensures TargetsFor(r, colors[..j + 1]) == TargetsFor(r, colors[..j]) + TargetFor(r, colors[j])
  {
    assert colors[..j + 1][..j] == colors[..j];
  }

  /** One step of the inner loop: a colour the retailer does not list, or one without a
      URL, is skipped; otherwise its page is fetched as the next request, its record is kept
      when the page gave a price, and one politeness sleep follows. */
  method VisitColor(r: Retailer, color: string, fetch: Fetch, clock: Clock,
                    ghost done: seq<Target>, resultsBefore: seq<Observation>, sleepsBefore: nat)
    returns (results: seq<Observation>, sleeps: nat)
    requires Resolvable(r)
    requires resultsBefore == Sweep(done, fetch, clock) && sleepsBefore == |done|
    ensures results == Sweep(done + TargetFor(r, color), fetch, clock)
    ensures sleeps == |done + TargetFor(r, color)|
  {
    results, sleeps := resultsBefore, sleepsBefore;
    if color in r.colors {
      var url := UrlFor(r, color);
      if url.Some? && url.value != "" {
        var t := Target(r.name, color, url.value);
        assert TargetFor(r, color) == [t];
        var reading := ReadingAt(t, sleeps, fetch, clock);
        SweepSnoc(done, t, fetch, clock);
        if reading.Some? {
          results := results + [reading.value];
        }
        // await asyncio.sleep(2): once per resolved target, whatever the fetch gave
        sleeps := sleeps + 1;
      } else {
        assert TargetFor(r, color) == [];
        assert done + [] == done;
      }
    } else {
      assert TargetFor(r, color) == [];
      assert done + [] == done;
    }
  }

  /** The inner loop of `check_all_prices` for one retailer, continuing a sweep that has
      already fetched the targets in before: it goes on to the sweep over before followed
      by this retailer's targets, sleeping once per target. */
  method CheckRetailer(r: Retailer, trackedColors: seq<string>, fetch: Fetch, clock: Clock,
                       ghost before: seq<Target>, resultsBefore: seq<Observation>, sleepsBefore: nat)
    returns (results: seq<Observation>, sleeps: nat)
    requires Resolvable(r)
    requires resultsBefore == Sweep(before, fetch, clock) && sleepsBefore == |before|
    ensures results == Sweep(before + TargetsFor(r, trackedColors), fetch, clock)
    ensures sleeps == |before + TargetsFor(r, trackedColors)|
  {
    results, sleeps := resultsBefore, sleepsBefore;
    assert before + TargetsFor(r, trackedColors[..0]) == before;
    for j := 0 to |trackedColors|
      invariant results == Sweep(before + TargetsFor(r, trackedColors[..j]), fetch, clock)
      invariant sleeps == |before + TargetsFor(r, trackedColors[..j])|
    {
      TargetsForSnoc(r, trackedColors, j);
      ghost var done := before + TargetsFor(r, trackedColors[..j]);
      results, sleeps := VisitColor(r, trackedColors[j], fetch, clock, done, results, sleeps);
      assert done + TargetFor(r, trackedColors[j]) == before + TargetsFor(r, trackedColors[..j + 1]);
    }
    assert trackedColors[..|trackedColors|] == trackedColors;
  }

  class PriceTracker {
    const retailers: seq<Retailer>
    var priceHistory: seq<Observation>

    predicate Valid() {
      AllResolvable(retailers)
    }

    constructor ()
      ensures Valid() && retailers == Registry && priceHistory == []
    {
      retailers := Registry;
      priceHistory := [];
      RegistryResolvable();
    }

    /** The nested loop of `check_all_prices`: the records it returns are those of the
        sweep over the resolved targets, and it sleeps once per resolved target. */
    method CheckAllPrices(trackedColors: seq<string>, fetch: Fetch, clock: Clock)
      returns (results: seq<Observation>, sleeps: nat)
      requires Valid()
      ensures results == Sweep(ResolveTargets(retailers, trackedColors), fetch, clock)
      ensures sleeps == |ResolveTargets(retailers, trackedColors)|
    {
      results, sleeps := [], 0;
      for i := 0 to |retailers|
        invariant AllResolvable(retailers[..i])
        invariant results == Sweep(ResolveTargets(retailers[..i], trackedColors), fetch, clock)
        invariant sleeps == |ResolveTargets(retailers[..i], trackedColors)|
      {
        ResolveTargetsSnoc(retailers, i, trackedColors);
        results, sleeps := CheckRetailer(retailers[i], trackedColors, fetch, clock,
                                         ResolveTargets(retailers[..i], trackedColors), results, sleeps);
      }
      assert retailers[..|retailers|] == retailers;
    }
  }
}

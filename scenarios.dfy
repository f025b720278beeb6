/**
 * Whole sweeps over the real registry, from fetched pages to deals.
 */
module Scenarios {

  import opened Wrappers
  import opened PriceExtractor
  import opened Catalog
  import opened SweepRunner
  import opened SweepConsumers

  /** Every page shows `$287.50`. */
  function SamePage(k: nat, url: string): FetchOutcome {
    Response(200, "$287.50")
  }

  /** The first page times out, the second is a 404, every other shows `$999.00`. */
  function FailingPages(k: nat, url: string): FetchOutcome {
    if k == 0 then Raised
    else if k == 1 then Response(404, "$287.50")
    else Response(200, "$999.00")
  }

  lemma SamePageReading(t: Target, k: nat, clock: Clock)
    ensures ReadingAt(t, k, SamePage, clock) == Some(Observation(clock(k), t.retailer, t.color, 28750, t.url))
  {
    PlausibleTagScenario();
  }

  lemma TwoTargetSweep(t0: Target, t1: Target, fetch: Fetch, clock: Clock)
    ensures Sweep([t0, t1], fetch, clock) ==
      (match ReadingAt(t0, 0, fetch, clock) case Some(o) => [o] case None => []) +
      (match ReadingAt(t1, 1, fetch, clock) case Some(o) => [o] case None => [])
  {
    assert [t0, t1][..1] == [t0] && [t0][..0] == [];
  }

  /** Tracking silver fetches Amazon and Oura; both pages at $287.50 give two records of
      287.50, in registration order; a target of $299.00 makes both deals, a target of
      $250.00 none. */
  lemma SilverSweep(clock: Clock)
    ensures var results := Sweep(ResolveTargets(Registry, ["silver"]), SamePage, clock);
      |results| == 2 &&
      results[0] == Observation(clock(0), "Amazon", "silver", 28750, AmazonUrl) &&
      results[1] == Observation(clock(1), "Oura Official", "silver", 28750, OuraSilverUrl) &&
      Deals(results, 29900) == results &&
      Deals(results, 25000) == []
  {
    SilverTargets();
    var t0 := Target("Amazon", "silver", AmazonUrl);
    var t1 := Target("Oura Official", "silver", OuraSilverUrl);
    SamePageReading(t0, 0, clock);
    SamePageReading(t1, 1, clock);
    TwoTargetSweep(t0, t1, SamePage, clock);
    var o0 := Observation(clock(0), "Amazon", "silver", 28750, AmazonUrl);
    var o1 := Observation(clock(1), "Oura Official", "silver", 28750, OuraSilverUrl);
    assert [o0, o1][..1] == [o0] && [o0][..0] == [];
    assert Deals([o0], 29900) == [o0] && Deals([o0], 25000) == [];
    assert Deals([o0, o1], 29900) == [o0, o1];
  }

  /** A timeout, a 404 and implausible pages give no record at all: the sweep is empty,
      not an error. */
  lemma FailingSweep(colors: seq<string>, clock: Clock)
    ensures Sweep(ResolveTargets(Registry, colors), FailingPages, clock) == []
  {
    RegistryResolvable();
    ImplausibleTagScenario();
    var ts := ResolveTargets(Registry, colors);
    forall k | 0 <= k < |ts| ensures ExtractPrice(FailingPages(k, ts[k].url)) == None { }
    AllFailuresGiveEmptySweep(ts, FailingPages, clock);
  }
}

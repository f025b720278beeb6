/**
 * The retailer registry of `OuraPriceTracker` and the first half of `check_all_prices`:
 * which (retailer, colour) pairs are fetched, from which URL, and in which order.
 */
module Catalog {

  import opened Wrappers

  /** One entry of the registry. `baseUrl` and `baseUrls` are the `base_url` and
      `base_urls` keys of the entry, `None` when the entry does not have that key. */
  datatype Retailer = Retailer(
    key: string,
    name: string,
    baseUrl: Option<string>,
    baseUrls: Option<map<string, string>>,
    colors: seq<string>)

  /** One page to fetch: the retailer's display name, the colour and the URL. */
  datatype Target = Target(retailer: string, color: string, url: string)

  const AmazonUrl := "https://www.amazon.com/dp/B0DJCX5KQG"
  const TargetUrl := "https://www.target.com/p/oura-ring-4/-/A-93747936"
  const OuraSilverUrl := "https://ouraring.com/store/rings/oura-ring-4/silver"
  const OuraBlackUrl := "https://ouraring.com/store/rings/oura-ring-4/stealth"
  const OuraGoldUrl := "https://ouraring.com/store/rings/oura-ring-4/gold"
  const OuraRoseGoldUrl := "https://ouraring.com/store/rings/oura-ring-4/rose-gold"

  /** The registry, in registration order: amazon, target, oura. */
  const Registry: seq<Retailer> := [
    Retailer("amazon", "Amazon", Some(AmazonUrl), None, ["silver", "black", "gold"]),
    Retailer("target", "Target", Some(TargetUrl), None, ["black"]),
    Retailer("oura", "Oura Official", None,
             Some(map["silver" := OuraSilverUrl, "black" := OuraBlackUrl,
                      "gold" := OuraGoldUrl, "rose_gold" := OuraRoseGoldUrl]),
             ["silver", "black", "gold", "rose_gold"])
  ]

  /** The entry has the key that the URL choice reads: `base_urls` for the oura entry
      that has one, `base_url` for every other entry (a missing one raises KeyError). */
  predicate Resolvable(r: Retailer) {
    (r.key == "oura" && r.baseUrls.Some?) || r.baseUrl.Some?
  }

  predicate AllResolvable(rs: seq<Retailer>) {
    forall i :: 0 <= i < |rs| ==> Resolvable(rs[i])
  }

  /** The URL for a colour: the per-colour `base_urls` entry for oura (`None` when the
      colour has none), the shared `base_url` for everyone else. */
  function UrlFor(r: Retailer, color: string): Option<string>
    requires Resolvable(r)
  {
    if r.key == "oura" && r.baseUrls.Some? then
      if color in r.baseUrls.value then Some(r.baseUrls.value[color]) else None
    else r.baseUrl
  }

  /** The target of one (retailer, colour) step of the nested loop: none when the
      retailer does not list the colour or the URL is missing or empty. */
  function TargetFor(r: Retailer, color: string): seq<Target>
    requires Resolvable(r)
  {
    if color !in r.colors then []
    else
      match UrlFor(r, color)
      case None => []
      case Some(url) => if url == "" then [] else [Target(r.name, color, url)]
  }

  /** The targets of one retailer, in the order of the tracked colours. */
  function TargetsFor(r: Retailer, colors: seq<string>): seq<Target>
    requires Resolvable(r)
  {
    if colors == [] then []
    else TargetsFor(r, colors[..|colors| - 1]) + TargetFor(r, colors[|colors| - 1])
  }

  /** All targets of a sweep: retailers in registration order, then tracked colours in
      the caller's order. */
  function ResolveTargets(rs: seq<Retailer>, colors: seq<string>): seq<Target>
    requires AllResolvable(rs)
  {
    if rs == [] then []
    else ResolveTargets(rs[..|rs| - 1], colors) + TargetsFor(rs[|rs| - 1], colors)
  }

  // ---------------------------------------------------------------------------
  // Where each target comes from

  /** The indices of the colours that give a target for r, in increasing order. */
  ghost function Picks(r: Retailer, colors: seq<string>): seq<nat>
    requires Resolvable(r)
  {
    if colors == [] then []
    else
      var n := |colors| - 1;
      Picks(r, colors[..n]) + (if TargetFor(r, colors[n]) != [] then [n] else [])
  }

  /** The pairs (i, j) for the colour indices j in ps. */
  ghost function Tagged(i: nat, ps: seq<nat>): (r: seq<(nat, nat)>)
    ensures |r| == |ps| && forall k :: 0 <= k < |ps| ==> r[k] == (i, ps[k])
  {
    seq(|ps|, k requires 0 <= k < |ps| => (i, ps[k]))
  }

  /** The (retailer index, colour index) pair of every target, in sweep order. */
  ghost function Origins(rs: seq<Retailer>, colors: seq<string>): seq<(nat, nat)>
    requires AllResolvable(rs)
  {
    if rs == [] then []
    else
      var n := |rs| - 1;
      Origins(rs[..n], colors) + Tagged(n, Picks(rs[n], colors))
  }

  predicate LexLess(a: (nat, nat), b: (nat, nat)) {
    a.0 < b.0 || (a.0 == b.0 && a.1 < b.1)
  }

  lemma {:induction false} TargetsForPicks(r: Retailer, colors: seq<string>)
    requires Resolvable(r)
    ensures var ts, ps := TargetsFor(r, colors), Picks(r, colors);
      |ps| == |ts| &&
      (forall k :: 0 <= k < |ts| ==> ps[k] < |colors| && TargetFor(r, colors[ps[k]]) == [ts[k]]) &&
      (forall k, l :: 0 <= k < l < |ps| ==> ps[k] < ps[l]) &&
      (forall j :: 0 <= j < |colors| && TargetFor(r, colors[j]) != [] ==> j in ps)
  {
    if colors != [] {
      var n := |colors| - 1;
      var front := colors[..n];
      TargetsForPicks(r, front);
      assert forall j :: 0 <= j < n ==> front[j] == colors[j];
      var t := TargetFor(r, colors[n]);
      assert |t| <= 1;
    }
  }

  /** Every target comes from one (retailer, colour) step that lists the colour and has
      a URL, and each step contributes its target at its own place. */
  lemma {:induction false} OriginsSound(rs: seq<Retailer>, colors: seq<string>)
    requires AllResolvable(rs)
    ensures var ts, os := ResolveTargets(rs, colors), Origins(rs, colors);
      |os| == |ts| &&
      forall k :: 0 <= k < |ts| ==>
        os[k].0 < |rs| && os[k].1 < |colors| && TargetFor(rs[os[k].0], colors[os[k].1]) == [ts[k]]
  {
    if rs != [] {
      var n := |rs| - 1;
      var front := rs[..n];
      assert AllResolvable(front);
      OriginsSound(front, colors);
      TargetsForPicks(rs[n], colors);
      var m := |Origins(front, colors)|;
      var os := Origins(rs, colors);
      var ts := ResolveTargets(rs, colors);
      forall k | 0 <= k < |ts|
        ensures os[k].0 < |rs| && os[k].1 < |colors| && TargetFor(rs[os[k].0], colors[os[k].1]) == [ts[k]]
      {
        if k < m {
          assert os[k] == Origins(front, colors)[k];
          assert ts[k] == ResolveTargets(front, colors)[k];
          assert rs[os[k].0] == front[os[k].0];
        } else {
          assert os[k] == Tagged(n, Picks(rs[n], colors))[k - m];
          assert ts[k] == TargetsFor(rs[n], colors)[k - m];
        }
      }
    }
  }

  lemma {:induction false} OriginsBelow(rs: seq<Retailer>, colors: seq<string>)
    requires AllResolvable(rs)
    ensures forall k :: 0 <= k < |Origins(rs, colors)| ==> Origins(rs, colors)[k].0 < |rs|
  {
    if rs != [] {
      var n := |rs| - 1;
      assert AllResolvable(rs[..n]);
      OriginsBelow(rs[..n], colors);
    }
  }

  /** Targets follow registration order, then the order of the tracked colours. */
  lemma {:induction false} OriginsOrdered(rs: seq<Retailer>, colors: seq<string>)
    requires AllResolvable(rs)
    ensures var os := Origins(rs, colors);
      forall k, l :: 0 <= k < l < |os| ==> LexLess(os[k], os[l])
  {
    if rs != [] {
      var n := |rs| - 1;
      var front := rs[..n];
      assert AllResolvable(front);
      OriginsOrdered(front, colors);
      OriginsBelow(front, colors);
      TargetsForPicks(rs[n], colors);
      var m := |Origins(front, colors)|;
      var os := Origins(rs, colors);
      assert os == Origins(front, colors) + Tagged(n, Picks(rs[n], colors));
      forall k, l | 0 <= k < l < |os| ensures LexLess(os[k], os[l]) {
        if l < m {
          assert os[k] == Origins(front, colors)[k] && os[l] == Origins(front, colors)[l];
        } else if k < m {
          assert os[k] == Origins(front, colors)[k];
          assert os[k].0 < n;
          assert os[l] == Tagged(n, Picks(rs[n], colors))[l - m];
          assert os[l].0 == n;
        } else {
          assert os[k] == Tagged(n, Picks(rs[n], colors))[k - m];
          assert os[l] == Tagged(n, Picks(rs[n], colors))[l - m];
          assert Picks(rs[n], colors)[k - m] < Picks(rs[n], colors)[l - m];
        }
      }
    }
  }

  lemma PickTagged(i: nat, r: Retailer, colors: seq<string>, j: nat)
    requires Resolvable(r) && j < |colors| && TargetFor(r, colors[j]) != []
    ensures (i, j) in Tagged(i, Picks(r, colors))
  {
    TargetsForPicks(r, colors);
    var ps := Picks(r, colors);
    var k :| 0 <= k < |ps| && ps[k] == j;
    assert Tagged(i, ps)[k] == (i, j);
  }

  /** Every (retailer, colour) step that lists the colour and has a URL gives a target. */
  lemma {:induction false} OriginsComplete(rs: seq<Retailer>, colors: seq<string>)
    requires AllResolvable(rs)
    ensures forall i, j :: 0 <= i < |rs| && 0 <= j < |colors| && TargetFor(rs[i], colors[j]) != [] ==>
      (i, j) in Origins(rs, colors)
  {
    if rs != [] {
      var n := |rs| - 1;
      var front := rs[..n];
      assert AllResolvable(front);
      OriginsComplete(front, colors);
      var ps := Picks(rs[n], colors);
      var os := Origins(rs, colors);
      assert os == Origins(front, colors) + Tagged(n, ps);
      forall i, j | 0 <= i < |rs| && 0 <= j < |colors| && TargetFor(rs[i], colors[j]) != []
        ensures (i, j) in os
      {
        if i == n {
          PickTagged(n, rs[n], colors, j);
        } else {
          assert rs[i] == front[i];
          assert (i, j) in Origins(front, colors);
        }
      }
    }
  }

  // ---------------------------------------------------------------------------
  // The registry

  lemma RegistryResolvable()
    ensures AllResolvable(Registry)
  {
  }

  lemma RegistryUnfolds(colors: seq<string>)
    ensures ResolveTargets(Registry, colors) ==
      TargetsFor(Registry[0], colors) + TargetsFor(Registry[1], colors) + TargetsFor(Registry[2], colors)
  {
    var r01, r0 := Registry[..2], Registry[..1];
    assert r01[..1] == r0 && r0[..0] == [];
    assert ResolveTargets(r0, colors) == TargetsFor(Registry[0], colors);
    assert ResolveTargets(r01, colors) == ResolveTargets(r0, colors) + TargetsFor(Registry[1], colors);
  }

  lemma OneColor(r: Retailer, c: string)
    requires Resolvable(r)
    ensures TargetsFor(r, [c]) == TargetFor(r, c)
  {
    assert [c][..0] == [];
  }

  lemma TwoColors(r: Retailer, c: string, d: string)
    requires Resolvable(r)
    ensures TargetsFor(r, [c, d]) == TargetFor(r, c) + TargetFor(r, d)
  {
    assert [c, d][..1] == [c];
    OneColor(r, c);
  }

  lemma ThreeColors(r: Retailer, c: string, d: string, e: string)
    requires Resolvable(r)
    ensures TargetsFor(r, [c, d, e]) == TargetFor(r, c) + TargetFor(r, d) + TargetFor(r, e)
  {
    assert [c, d, e][..2] == [c, d];
    TwoColors(r, c, d);
  }

  /** The step of each registered retailer for any colour: Amazon and Target fetch their
      shared page for the colours they list, Oura the page of that colour (its black ring
      is sold as "stealth"), and every other colour gives no target. */
  lemma RegistryUrls(c: string)
    ensures TargetFor(Registry[0], c) ==
      (if c in ["silver", "black", "gold"] then [Target("Amazon", c, AmazonUrl)] else [])
    ensures TargetFor(Registry[1], c) ==
      (if c == "black" then [Target("Target", c, TargetUrl)] else [])
    ensures TargetFor(Registry[2], c) ==
      (if c == "silver" then [Target("Oura Official", c, OuraSilverUrl)]
       else if c == "black" then [Target("Oura Official", c, OuraBlackUrl)]
       else if c == "gold" then [Target("Oura Official", c, OuraGoldUrl)]
       else if c == "rose_gold" then [Target("Oura Official", c, OuraRoseGoldUrl)]
       else [])
  {
  }

  /** Two retailers list silver: Amazon and Oura, in that order. */
  lemma SilverTargets()
    ensures ResolveTargets(Registry, ["silver"]) ==
      [Target("Amazon", "silver", AmazonUrl), Target("Oura Official", "silver", OuraSilverUrl)]
  {
    RegistryUnfolds(["silver"]);
    OneColor(Registry[0], "silver");
    OneColor(Registry[1], "silver");
    OneColor(Registry[2], "silver");
  }

  /** `stealth` is accepted as a colour, but no retailer lists it: it yields no target. */
  lemma StealthHasNoTarget()
    ensures ResolveTargets(Registry, ["stealth"]) == []
  {
    RegistryUnfolds(["stealth"]);
    OneColor(Registry[0], "stealth");
    OneColor(Registry[1], "stealth");
    OneColor(Registry[2], "stealth");
  }

  /** The default colours silver, black and gold resolve to seven pages. */
  lemma DefaultColorTargets()
    ensures |ResolveTargets(Registry, ["silver", "black", "gold"])| == 7
  {
    RegistryUnfolds(["silver", "black", "gold"]);
    ThreeColors(Registry[0], "silver", "black", "gold");
    ThreeColors(Registry[1], "silver", "black", "gold");
    ThreeColors(Registry[2], "silver", "black", "gold");
  }

  /** A colour given twice is fetched twice from every retailer, one retailer after the
      other: the colour's step of each retailer appears twice in a row. */
  lemma DuplicateColorTargets(c: string)
    ensures ResolveTargets(Registry, [c, c]) ==
      TargetFor(Registry[0], c) + TargetFor(Registry[0], c) +
      TargetFor(Registry[1], c) + TargetFor(Registry[1], c) +
      TargetFor(Registry[2], c) + TargetFor(Registry[2], c)
  {
    RegistryUnfolds([c, c]);
    TwoColors(Registry[0], c, c);
    TwoColors(Registry[1], c, c);
    TwoColors(Registry[2], c, c);
  }

  /** Black given twice: two Amazon pages, two Target pages, two Oura stealth pages. */
  lemma DuplicateBlackTargets()
    ensures ResolveTargets(Registry, ["black", "black"]) ==
      [Target("Amazon", "black", AmazonUrl), Target("Amazon", "black", AmazonUrl),
       Target("Target", "black", TargetUrl), Target("Target", "black", TargetUrl),
       Target("Oura Official", "black", OuraBlackUrl), Target("Oura Official", "black", OuraBlackUrl)]
  {
    DuplicateColorTargets("black");
    RegistryUrls("black");
  }
}

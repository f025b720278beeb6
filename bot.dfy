/**
 * The decision logic of the bot's commands and of the scheduled `price_check_loop`,
 * over the module-level `tracker` and `config` objects of the program. Discord itself is
 * not modelled: a command's reply is a value, an alert is a message in a returned list,
 * and whether `bot.get_channel` finds the alert channel is the parameter `resolves`.
 */
module Commands {

  import opened Wrappers
  import opened PriceExtractor
  import opened Catalog
  import opened SweepRunner
  import opened Config
  import opened ColorInput
  import opened SweepConsumers

  /** What a command answers. */
  datatype Reply =
    | Started
    | AlreadyRunning
    | Stopped
    | NotRunning
    | PriceSet(cents: Cents)
    | PriceOutOfRange
    | ColorsSet(colors: seq<string>)
    | UnknownColors(invalid: seq<string>)
    | NoColors
    | IntervalSet(minutes: int)
    | IntervalOutOfRange

  /** What `!check` shows: nothing found, or the records grouped by retailer and the
      best price. */
  datatype CheckReport = NoPrices | Prices(groups: seq<Group>, best: Observation)

  const HistoryWindow: nat := 10

  class Bot {
    const config: BotConfig
    const tracker: PriceTracker
    /** `price_check_loop.is_running()`. */
    var loopRunning: bool
    /** How often `price_check_loop.restart()` was requested. */
    var restartRequests: nat

    ghost predicate Valid()
      reads this, config
    {
      config.Valid() && tracker.Valid()
    }

    constructor (stored: Option<map<string, Value>>)
      requires stored.Some? ==> WellFormed(stored.value)
      ensures Valid() && fresh(config) && fresh(tracker)
      ensures config.data == (if stored.Some? then stored.value else Defaults())
      ensures tracker.retailers == Registry && tracker.priceHistory == []
      ensures !loopRunning && restartRequests == 0
    {
      config := new BotConfig(stored);
      tracker := new PriceTracker();
      loopRunning := false;
      restartRequests := 0;
    }

    // -------------------------------------------------------------------------
    // Reading the settings

    /** `config.get('tracking_enabled')`, as an `if` reads it. */
    predicate Enabled()
      reads config
    {
      Truthy(config.Get(EnabledKey, Null))
    }

    function TargetPrice(): Cents
      reads config
      requires config.Valid()
    {
      config.data[TargetPriceKey].cents
    }

    function TrackedColors(): seq<string>
      reads config
      requires config.Valid()
    {
      config.data[ColorsKey].items
    }

    /** `config.get("check_interval")`, which the bot only displays. */
    function Interval(): Value
      reads config
    {
      config.Get(IntervalKey, Null)
    }

    /** `if channel_id:` and then `if channel:` after `bot.get_channel(channel_id)`. */
    predicate AlertChannelResolves(resolves: int -> bool)
      reads config
      requires config.Valid()
    {
      var channel := config.Get(ChannelKey, Null);
      Truthy(channel) && channel.Int? && resolves(channel.number)
    }

    /** The records a sweep with the current settings gives. */
    function SweepNow(fetch: Fetch, clock: Clock): seq<Observation>
      reads this, config
      requires Valid()
    {
      Sweep(ResolveTargets(tracker.retailers, TrackedColors()), fetch, clock)
    }

    // -------------------------------------------------------------------------
    // Commands

    /** `!start`: refused while tracking is on; otherwise turns tracking on, makes the
        caller's channel the alert channel and starts the loop if it is not running. */
    method StartTracking(channel: int) returns (reply: Reply)
      requires Valid()
      modifies this, config
      ensures Valid()
      ensures old(Enabled()) ==>
        reply == AlreadyRunning && config.data == old(config.data) && loopRunning == old(loopRunning) &&
        config.saves == old(config.saves)
      ensures !old(Enabled()) ==>
        reply == Started && loopRunning &&
        config.data == old(config.data)[EnabledKey := Bool(true)][ChannelKey := Int(channel)] &&
        config.saves == old(config.saves) + 2
      ensures restartRequests == old(restartRequests)
      ensures old(InBounds(config.data)) ==> InBounds(config.data)
    {
      if Enabled() {
        return AlreadyRunning;
      }
      config.Set(EnabledKey, Bool(true));
      config.Set(ChannelKey, Int(channel));
      if !loopRunning {
        loopRunning := true;
      }
      reply := Started;
    }

    /** `!stop`: refused while tracking is off; otherwise turns only the flag off. The
        loop task is left running; each iteration sees the flag and does nothing. */
    method StopTracking() returns (reply: Reply)
      requires Valid()
      modifies config
      ensures Valid()
      ensures !old(Enabled()) ==>
        reply == NotRunning && config.data == old(config.data) && config.saves == old(config.saves)
      ensures old(Enabled()) ==>
        reply == Stopped && config.data == old(config.data)[EnabledKey := Bool(false)] &&
        config.saves == old(config.saves) + 1
      ensures old(InBounds(config.data)) ==> InBounds(config.data)
    {
      if !Enabled() {
        return NotRunning;
      }
      config.Set(EnabledKey, Bool(false));
      reply := Stopped;
    }

    /** `!setprice`: accepts only $100.00 to $600.00. */
    method SetPrice(price: Cents) returns (reply: Reply)
      requires Valid()
      modifies config
      ensures Valid()
      ensures price < 10000 || price > 60000 ==>
        reply == PriceOutOfRange && config.data == old(config.data) && config.saves == old(config.saves)
      ensures 10000 <= price <= 60000 ==>
        reply == PriceSet(price) && config.data == old(config.data)[TargetPriceKey := Money(price)] &&
        config.saves == old(config.saves) + 1
      ensures old(InBounds(config.data)) ==> InBounds(config.data)
    {
      if price < 10000 || price > 60000 {
        return PriceOutOfRange;
      }
      config.Set(TargetPriceKey, Money(price));
      reply := PriceSet(price);
    }

    /** `!colors`: lowercases the names; refuses when any is not accepted (reported in
        order), then refuses an empty list; otherwise stores the names as given,
        duplicates included. */
    method SetColors(colors: seq<string>) returns (reply: Reply)
      requires Valid()
      modifies config
      ensures Valid()
      ensures var lowered := LowerAll(colors);
        var invalid := InvalidColors(lowered);
        (invalid != [] ==>
           reply == UnknownColors(invalid) && config.data == old(config.data) &&
           config.saves == old(config.saves)) &&
        (invalid == [] && colors == [] ==>
           reply == NoColors && config.data == old(config.data) && config.saves == old(config.saves)) &&
        (invalid == [] && colors != [] ==>
           reply == ColorsSet(lowered) && config.data == old(config.data)[ColorsKey := Strings(lowered)] &&
           config.saves == old(config.saves) + 1)
      ensures old(InBounds(config.data)) ==> InBounds(config.data)
    {
      var lowered := LowerAll(colors);
      var invalid := InvalidColors(lowered);
      if invalid != [] {
        return UnknownColors(invalid);
      }
      if lowered == [] {
        return NoColors;
      }
      InvalidColorsEmpty(lowered);
      config.Set(ColorsKey, Strings(lowered));
      reply := ColorsSet(lowered);
    }

    /** `!interval`: accepts only 10 to 1440 minutes, and asks for a loop restart when
        tracking is on. */
    method SetInterval(minutes: int) returns (reply: Reply)
      requires Valid()
      modifies this, config
      ensures Valid()
      ensures loopRunning == old(loopRunning)
      ensures minutes < 10 || minutes > 1440 ==>
        reply == IntervalOutOfRange && config.data == old(config.data) &&
        config.saves == old(config.saves) && restartRequests == old(restartRequests)
      ensures 10 <= minutes <= 1440 ==>
        reply == IntervalSet(minutes) && config.data == old(config.data)[IntervalKey := Int(minutes)] &&
        config.saves == old(config.saves) + 1 && restartRequests == old(restartRequests) + (if old(Enabled()) then 1 else 0)
      ensures old(InBounds(config.data)) ==> InBounds(config.data)
    {
      if minutes < 10 || minutes > 1440 {
        return IntervalOutOfRange;
      }
      config.Set(IntervalKey, Int(minutes));
      if Enabled() {
        restartRequests := restartRequests + 1;
      }
      reply := IntervalSet(minutes);
    }

    /** `!check`: one sweep with the current settings, reported without touching the
        history (the method changes nothing). No record gives `NoPrices`; otherwise the
        records grouped by retailer and the first record with the lowest price. */
    method CheckNow(fetch: Fetch, clock: Clock) returns (report: CheckReport, sleeps: nat)
      requires Valid()
      ensures var results := SweepNow(fetch, clock);
        (results == [] <==> report == NoPrices) &&
        (results != [] ==> report == Prices(Grouping(results), results[LowestIndex(results)]))
      ensures sleeps == |ResolveTargets(tracker.retailers, TrackedColors())|
    {
      var results;
      results, sleeps := tracker.CheckAllPrices(TrackedColors(), fetch, clock);
      if results == [] {
        return NoPrices, sleeps;
      }
      var groups := GroupByRetailer(results);
      var lowest := results[LowestIndex(results)];
      report := Prices(groups, lowest);
    }

    /** `!history`: nothing when the history is empty, else its last ten entries. */
    function ShowHistory(): (r: Option<seq<Observation>>)
      reads tracker
      ensures r.None? <==> tracker.priceHistory == []
      ensures r.Some? ==> r.value == Last(tracker.priceHistory, HistoryWindow)
    {
      if tracker.priceHistory == [] then None else Some(Last(tracker.priceHistory, HistoryWindow))
    }

    /** One iteration of `price_check_loop`. With tracking off nothing happens. Otherwise
        a sweep runs; its records are appended to the history, and when the alert
        channel resolves every deal (a record at or below the target, in sweep order)
        is sent as two messages. */
    method PriceCheckLoop(fetch: Fetch, clock: Clock, resolves: int -> bool)
      returns (sent: seq<Message>, sleeps: nat)
      requires Valid()
      modifies tracker
      ensures Valid()
      ensures !Enabled() ==> tracker.priceHistory == old(tracker.priceHistory) && sent == [] && sleeps == 0
      ensures Enabled() ==>
        var results := SweepNow(fetch, clock);
        tracker.priceHistory == old(tracker.priceHistory) + results &&
        sleeps == |ResolveTargets(tracker.retailers, TrackedColors())| &&
        sent == (if AlertChannelResolves(resolves) then Alerts(Deals(results, TargetPrice()), TargetPrice()) else [])
    {
      sent, sleeps := [], 0;
      if !Enabled() {
        return;
      }
      var results;
      results, sleeps := tracker.CheckAllPrices(TrackedColors(), fetch, clock);
      if results == [] {
        return;
      }
      tracker.priceHistory := tracker.priceHistory + results;
      var target := TargetPrice();
      var deals := Deals(results, target);
      if deals != [] {
        var channel := config.Get(ChannelKey, Null);
        if Truthy(channel) && channel.Int? && resolves(channel.number) {
          sent := SendAlerts(deals, target);
        }
      }
    }
  }

  /** The alert loop of `price_check_loop`: for every deal in order, its alert and then
      the `@everyone` message. */
  method SendAlerts(deals: seq<Observation>, target: Cents) returns (sent: seq<Message>)
    ensures sent == Alerts(deals, target)
  {
    sent := [];
    for i := 0 to |deals|
      invariant sent == Alerts(deals[..i], target)
    {
      assert deals[..i + 1][..i] == deals[..i];
      sent := sent + [PriceAlert(deals[i], target)];
      sent := sent + [EveryoneAlert];
    }
    assert deals[..|deals|] == deals;
  }

  /** Stopping and starting again keeps the target, the colours and the interval, and
      makes the new caller's channel the alert channel. */
  method StopThenStart(bot: Bot, channel: int)
    requires bot.Valid() && bot.Enabled()
    modifies bot, bot.config
    ensures bot.Valid() && bot.Enabled() && bot.loopRunning
    ensures bot.TargetPrice() == old(bot.TargetPrice())
    ensures bot.TrackedColors() == old(bot.TrackedColors())
    ensures bot.Interval() == old(bot.Interval())
    ensures bot.config.Get(ChannelKey, Null) == Int(channel)
  {
    var stopped := bot.StopTracking();
    var started := bot.StartTracking(channel);
  }
}

# Oura Ring price tracker: a Dafny model of its sweep and tracking logic

The program is a Discord bot. It watches the price of the Oura Ring 4 at three
retailers (Amazon, Target and Oura's own store). It alerts a channel when a price is at
or below a target the operators set. This project models the logic beneath the Discord
glue and proves properties of it:

- **PriceExtractor** (`extractor.dfy`): the two price patterns of `extract_price` on
  the page text. The `$ddd(.dd)` pattern is tried first, then `ddd(.dd) USD`. Only the
  leftmost match of each pattern is looked at. An amount outside $200.00–$600.00 falls
  through to the next pattern, never to a later match of the same pattern: an implausible
  `$` amount hands over to the `USD` pattern (`ImplausibleDollarFallsThrough`). Amounts
  are integer cents.
- **Catalog** (`catalog.dfy`): the retailer registry and the target resolution of
  `check_all_prices`. Retailers come in registration order, then colours in the
  caller's order. A colour the retailer does not list is skipped. Oura uses its
  per-colour URL; the others use their shared URL; a missing URL is skipped.
- **SweepRunner** (`sweep.dfy`): `OuraPriceTracker` as a class. `CheckAllPrices` is the
  nested loop, proved against the `Sweep` function. It also counts the politeness
  sleeps.
- **Config** (`config.dfy`): `OuraBotConfig` as a class over a key/value map, with the
  defaults, `get` and `set`.
- **ColorInput** (`colors.dfy`): lowercasing and the invalid-colour list of `!colors`.
- **SweepConsumers** (`consumers.dfy`): the deal filter and alert messages of the
  scheduled loop, the grouping and best price of `!check`, and the ten-entry window of
  `!history`.
- **Commands** (`bot.dfy`): the `Bot` class holding the tracker and the config. It has
  `!start`, `!stop`, `!setprice`, `!colors`, `!interval`, `!check`, `!history` and one
  iteration of `price_check_loop`. `!check` reports a sweep without adding it to
  `price_history`, so `Commands.Bot.CheckNow` has no `modifies` clause. A save of the
  settings file is counted by `config.saves`, once per `config.set`.
- **Scenarios** (`scenarios.dfy`): whole sweeps over the real registry.

The network is an oracle. `fetch(k, url)` is what the k-th request of a sweep returns:
an exception, or a status and the page's plain text. `clock(k)` is the opaque timestamp
of that request's record. Whether `bot.get_channel` finds the alert channel is a
predicate `resolves` on the channel id. A command's Discord reply is a `Reply` value.
An alert is a `Message` in the list a loop iteration returns.

## Model

| member | source | states |
|---|---|---|
| `PriceExtractor.MatchAt` | oura_discord_bot.py:61-64 | a match of either pattern starts inside the text and captures at most three whole digits and two decimals (under 100000 cents) |
| `PriceExtractor.SkipSpaces` | oura_discord_bot.py:63 | `\s*` stops at the end of the run of white space: everything skipped is white space and the next character is not |
| `PriceExtractor.Search` | oura_discord_bot.py:67 | `re.search` returns the leftmost position where the pattern matches, with its captured amount; no earlier position matches; no result means no position matches |
| `PriceExtractor.SearchIsFirstMatch` | oura_discord_bot.py:67 | the search result is exactly the first match in the text, stated without the search |
| `PriceExtractor.ExtractFromText` | oura_discord_bot.py:66-73 | any amount returned lies in [$200.00, $600.00] |
| `PriceExtractor.ExtractFromTextSpec` | oura_discord_bot.py:61-73 | the result is c exactly when the leftmost `$` match is the plausible c, or when no plausible leftmost `$` match exists and the leftmost `USD` match is the plausible c |
| `PriceExtractor.ExtractFromTextNone` | oura_discord_bot.py:66-73 | no signal exactly when neither pattern's leftmost match is plausible |
| `PriceExtractor.LaterDollarMatchIgnored` | oura_discord_bot.py:66-72 | an implausible first `$` amount hides a plausible later `$` amount: with no `USD` match the result is no signal |
| `PriceExtractor.ImplausibleDollarFallsThrough` | oura_discord_bot.py:66-72 | an implausible first `$` amount falls through to the leftmost `USD` match, which is returned when plausible |
| `PriceExtractor.ExtractPrice` | oura_discord_bot.py:50-76 | an exception or a status other than 200 gives no price; a 200 gives what the text gives; any price returned is plausible |
| `PriceExtractor.PriceTagIsExtracted` | oura_discord_bot.py:62-70 | a `$ddd.dd` tag before which the page has no `$` is read back exactly, whatever surrounds it, when plausible; when implausible and the page has no `USD` amount it gives no signal |
| `PriceExtractor.NoUsdWithoutU` | oura_discord_bot.py:63 | a text without the letter `U` has no `USD` match |
| `PriceExtractor.PlausibleTagScenario` | oura_discord_bot.py:61-73 | the page `$287.50` gives 287.50 |
| `PriceExtractor.ImplausibleTagScenario` | oura_discord_bot.py:61-73 | the page `$999.00` gives no signal |
| `Catalog.RegistryUrls` | oura_discord_bot.py:21-94 | for every colour, Amazon fetches its shared page exactly for silver, black and gold, Target exactly for black, and Oura the page of that colour for silver, black (its "stealth" page), gold and rose gold; any other colour gives no target |
| `Catalog.RegistryResolvable` | oura_discord_bot.py:21-42 | every registry entry has the URL key that the URL choice reads |
| `Catalog.TargetsForPicks` | oura_discord_bot.py:83-94 | a retailer's targets come one per tracked colour that it lists and that has a URL, in colour order, and every such colour gives one |
| `Catalog.OriginsSound` | oura_discord_bot.py:82-94 | each resolved target is the target of one (retailer, colour) step that lists the colour and has a non-empty URL |
| `Catalog.OriginsOrdered` | oura_discord_bot.py:82-83 | resolved targets follow registration order, then tracked-colour order |
| `Catalog.OriginsComplete` | oura_discord_bot.py:82-94 | every (retailer, colour) step that lists the colour and has a URL contributes a target |
| `Catalog.SilverTargets` | oura_discord_bot.py:82-94 | tracking silver resolves to Amazon's URL, then Oura's silver URL |
| `Catalog.StealthHasNoTarget` | oura_discord_bot.py:21-42 | the accepted colour `stealth` resolves to no target |
| `Catalog.DefaultColorTargets` | oura_discord_bot.py:82-94 | the default colours resolve to seven targets |
| `Catalog.DuplicateColorTargets` | oura_discord_bot.py:82-94 | for every colour, giving it twice repeats each retailer's step for it twice in a row, retailer after retailer, so it is fetched twice at every retailer listing it |
| `Catalog.DuplicateBlackTargets` | oura_discord_bot.py:82-94 | black given twice resolves to six targets: two Amazon pages, two Target pages, two Oura stealth pages |
| `SweepRunner.ReadingAt` | oura_discord_bot.py:97-107 | a target gives a record exactly when its page gives a price; the record carries the target's retailer name, colour and URL, that price and the request's timestamp |
| `SweepRunner.Sweep` | oura_discord_bot.py:78-112 | a sweep has no more records than targets and every recorded price is plausible; that each record belongs to a distinct target, in target order, is proved in `SweepHits` |
| `SweepRunner.SweepHits` | oura_discord_bot.py:97-112 | the records are, in target order, exactly the readings of the targets whose page gave a price |
| `SweepRunner.AllFailuresGiveEmptySweep` | oura_discord_bot.py:97-107 | when no page gives a price the sweep is empty, not an error |
| `SweepRunner.VisitColor` | oura_discord_bot.py:84-110 | one colour step extends the sweep by that colour's target at this retailer (nothing when the retailer does not list it or has no URL) and sleeps once for that target |
| `SweepRunner.CheckRetailer` | oura_discord_bot.py:83-110 | the colour loop extends the sweep by all of the retailer's targets, in colour order, with one sleep each |
| `SweepRunner.PriceTracker.constructor` | oura_discord_bot.py:19-42 | a new tracker has the registry and an empty history |
| `SweepRunner.PriceTracker.CheckAllPrices` | oura_discord_bot.py:78-112 | the loop returns the sweep over the resolved targets and sleeps exactly once per resolved target |
| `Config.Defaults` | oura_discord_bot.py:126-132 | the defaults hold every key within the validated bounds, with tracking off and no alert channel |
| `Config.BotConfig.constructor` | oura_discord_bot.py:121-133 | loading gives the stored settings, or the defaults and one save |
| `Config.BotConfig.Set` | oura_discord_bot.py:139-144 | one key is overwritten and one save is made; afterwards `get` of that key gives the new value whatever the default, and `get` of every other key gives what it gave before |
| `ColorInput.LowerChar` | oura_discord_bot.py:278 | lowercasing leaves no capital letter, moves capitals by 32 and keeps everything else |
| `ColorInput.LowerIdempotent` | oura_discord_bot.py:278 | lowercasing twice is lowercasing once |
| `ColorInput.InvalidColorsMembers` | oura_discord_bot.py:280 | the invalid list holds exactly the given names that are not accepted |
| `ColorInput.InvalidColorsAppend` | oura_discord_bot.py:280 | the invalid list keeps the order of the given names (the filter distributes over concatenation) |
| `ColorInput.InvalidColorsEmpty` | oura_discord_bot.py:280-281 | the invalid list is empty exactly when every given name is accepted |
| `SweepConsumers.DealsMembers` | oura_discord_bot.py:413 | the deals are exactly the records priced at or below the target |
| `SweepConsumers.DealsAppend` | oura_discord_bot.py:413 | the deal filter keeps record order (it distributes over concatenation) |
| `SweepConsumers.DealsIdempotent` | oura_discord_bot.py:413 | filtering the deals again with the same target changes nothing |
| `SweepConsumers.AlertsShape` | oura_discord_bot.py:421-435 | each deal gives two messages in deal order: its alert, then `@everyone` |
| `SweepConsumers.LowestIndex` | oura_discord_bot.py:264 | the best price is a record no other undercuts, and no earlier record has the same price |
| `SweepConsumers.Last` | oura_discord_bot.py:376 | the window holds the last min(10, length) entries, in chronological order |
| `SweepConsumers.Grouping` | oura_discord_bot.py:249-254 | the groups are listed by `RetailerOrder`, each pairing a retailer with `ItemsOf` its records; that this is one group per distinct retailer holding exactly its records, in first-appearance order, is proved in `RetailerOrderDistinct`, `RetailerOrderMembers`, `ItemsOfMembers` and `RetailerOrderByFirstAppearance` |
| `SweepConsumers.RetailerOrderDistinct` | oura_discord_bot.py:249-254 | no retailer gets two groups |
| `SweepConsumers.RetailerOrderMembers` | oura_discord_bot.py:249-254 | a retailer has a group exactly when some record is from it |
| `SweepConsumers.RetailerOrderByFirstAppearance` | oura_discord_bot.py:249-256 | groups are listed in the order of each retailer's first record |
| `SweepConsumers.ItemsOfMembers` | oura_discord_bot.py:249-254 | a group holds exactly the records of its retailer |
| `SweepConsumers.GroupingSnoc` | oura_discord_bot.py:250-254 | one more record joins the end of its retailer's group, or opens a new group at the end |
| `SweepConsumers.GroupByRetailer` | oura_discord_bot.py:249-254 | the grouping loop builds exactly the grouping |
| `Commands.Bot.constructor` | oura_discord_bot.py:152-154 | the bot starts with the loaded settings, an empty history and the loop not running |
| `Commands.Bot.StartTracking` | oura_discord_bot.py:170-180 | while tracking is on nothing changes and nothing is saved; otherwise tracking goes on, the caller's channel becomes the alert channel, nothing else changes, the settings are saved twice (once per `set`), and the loop runs |
| `Commands.Bot.StopTracking` | oura_discord_bot.py:195-201 | while tracking is off nothing changes and nothing is saved; otherwise only the flag goes off, with one save, the target, colours, interval and channel are kept, and the loop task is left running |
| `Commands.Bot.SetPrice` | oura_discord_bot.py:213-219 | prices outside $100.00–$600.00 change and save nothing; others replace only the target, with one save |
| `Commands.Bot.SetColors` | oura_discord_bot.py:275-289 | an invalid name (checked first) or an empty list changes and saves nothing; otherwise only the colours change, to the lowercased names with duplicates kept, with one save |
| `Commands.Bot.SetInterval` | oura_discord_bot.py:301-311 | intervals outside 10–1440 minutes change and save nothing; others replace only the interval, with one save, and request a restart exactly when tracking is on |
| `Commands.Bot.CheckNow` | oura_discord_bot.py:231-269 | a manual check changes nothing; no record gives "no prices"; otherwise the report is the grouping and the first lowest-priced record |
| `Commands.Bot.ShowHistory` | oura_discord_bot.py:369-376 | an empty history shows nothing; otherwise the last ten entries are shown |
| `Commands.Bot.PriceCheckLoop` | oura_discord_bot.py:395-435 | with tracking off nothing changes; otherwise the history becomes the old history followed by exactly the sweep's records, and the alerts for the deals are sent exactly when the alert channel is set and resolves |
| `Commands.SendAlerts` | oura_discord_bot.py:421-435 | the alert loop sends exactly the alert messages of the deals: for each deal in order, its alert and then `@everyone` |
| `Commands.StopThenStart` | oura_discord_bot.py:172-201 | stopping and starting again keeps the target, the colours and the interval |
| `Scenarios.SilverSweep` | oura_discord_bot.py:82-112 | two silver pages at $287.50 give two records of 287.50 in registration order; both are deals at a $299.00 target and none at $250.00 |
| `Scenarios.FailingSweep` | oura_discord_bot.py:50-112 | a timeout, a 404 and implausible pages give an empty sweep |

## Left out

- Discord plumbing and logging: bot setup, `on_ready`, `!status`, `!help_oura`, embeds and message text, `ctx.send` and `main`, and the console `print` calls (the fetch error in `extract_price`, the start of a scheduled run and its empty-sweep notice). These are display and a foreign API. A reply is a `Reply` value and an alert a `Message`.
- HTTP and HTML: `requests.get` and BeautifulSoup's `get_text` are library calls. The fetch is an oracle returning an exception or a status with the page's plain text.
- The settings file: reading and writing JSON are not modelled. `load_config` takes the stored map as a parameter, already in the model's values (numbers as cents), and `save_config` is a ghost counter. The flag, the alert channel and the interval may be missing or hold any value, as in the source, which reads them through `get` with the default `None`. A stored map without a numeric `target_price` or a list `tracked_colors` is excluded by a precondition (`WellFormed`): the source raises once it uses them, in a sweep's colour loop, in the deal comparison or in `!status`.
- Timing and concurrency: `asyncio.sleep` is counted, not waited. The `tasks.loop` cadence, `before_loop`/`change_interval` and the first firing are not modelled. Each command and each loop iteration runs without interleaving; the source can interleave them while a sweep awaits.
- Commands.Bot.SetInterval: `price_check_loop.restart()` is only counted (`restartRequests`). Its effect on the cadence belongs to the `discord.ext.tasks` library and is not modelled.
- Floating point: prices are integer cents. A `!setprice` argument with more than two decimals, or NaN (which the source's range guard does not reject), is not modelled.
- Character classes: `\d` and `\s` are read as under `re.ASCII`, and `str.lower` only maps `A`–`Z`. Python's default patterns also match Unicode digits, Unicode white space and the separators `\x1c`–`\x1f`; those, and non-ASCII case mappings, are not modelled.
- Timestamps: `datetime.now()` is an opaque number supplied by `clock`.
- A registry entry lacking the URL key the choice reads would raise KeyError in the source. `Catalog.Resolvable` excludes it; the real registry satisfies it (`Catalog.RegistryResolvable`).

/**
 * `OuraBotConfig`: the bot's settings as a key/value map, with the defaults written when
 * no settings file exists. The file itself is not modelled; a save is counted.
 */
module Config {

  import opened Wrappers

  /** The JSON values the settings hold. Prices are cents; a channel id is an `Int`. */
  datatype Value =
    | Null
    | Bool(flag: bool)
    | Int(number: int)
    | Money(cents: int)
    | Strings(items: seq<string>)

  /** Python truthiness, as `if config.get(...)` reads a value. */
  predicate Truthy(v: Value) {
    match v
    case Null => false
    case Bool(b) => b
    case Int(n) => n != 0
    case Money(c) => c != 0
    case Strings(xs) => xs != []
  }

  const TargetPriceKey := "target_price"
  const IntervalKey := "check_interval"
  const ColorsKey := "tracked_colors"
  const EnabledKey := "tracking_enabled"
  const ChannelKey := "alert_channel_id"

  /** The colours `!colors` accepts. */
  const ValidColorNames: seq<string> := ["silver", "black", "gold", "rose_gold", "stealth"]

  /** The settings hold the two keys whose value the bot computes with: a target price
      and a list of colours. The flag and the alert channel are read through `get` with
      the default `None` and tested for truth, and the interval is only displayed, so
      those may be missing or hold any value. */
  predicate WellFormed(data: map<string, Value>) {
    && TargetPriceKey in data && data[TargetPriceKey].Money?
    && ColorsKey in data && data[ColorsKey].Strings?
  }

  /** The settings are within the bounds the validated commands enforce. */
  predicate InBounds(data: map<string, Value>) {
    && WellFormed(data)
    && IntervalKey in data && data[IntervalKey].Int?
    && 10000 <= data[TargetPriceKey].cents <= 60000
    && 10 <= data[IntervalKey].number <= 1440
    && data[ColorsKey].items != []
    && forall c :: c in data[ColorsKey].items ==> c in ValidColorNames
  }

  /** The settings written when there is no settings file: target $299.00, every 60
      minutes, silver, black and gold, tracking off, no alert channel. */
  function Defaults(): (d: map<string, Value>)
    ensures InBounds(d)
    ensures EnabledKey in d && ChannelKey in d && !Truthy(d[EnabledKey]) && !Truthy(d[ChannelKey])
  {
    map[
      TargetPriceKey := Money(29900),
      IntervalKey := Int(60),
      ColorsKey := Strings(["silver", "black", "gold"]),
      EnabledKey := Bool(false),
      ChannelKey := Null
    ]
  }

  class BotConfig {
    var data: map<string, Value>
    ghost var saves: nat

    ghost predicate Valid()
      reads this
    {
      WellFormed(data)
    }

    /** `load_config`: the stored settings when the file exists, else the defaults,
        which are then saved. */
    constructor (stored: Option<map<string, Value>>)
      ensures data == (if stored.Some? then stored.value else Defaults())
      ensures saves == (if stored.Some? then 0 else 1)
    {
      if stored.Some? {
        data := stored.value;
        saves := 0;
      } else {
        data := Defaults();
        saves := 1;
      }
    }

    /** `get(key, default)`: the stored value, or the caller's default for a missing key. */
    function Get(key: string, default: Value): Value
      reads this
    {
      if key in data then data[key] else default
    }

    /** `set(key, value)`: overwrites one key and saves. A later `get` of that key gives
        the new value whatever the default, and every other key reads as before. */
    method Set(key: string, value: Value)
      modifies this
      ensures data == old(data)[key := value]
      ensures saves == old(saves) + 1
      ensures forall d :: Get(key, d) == value
      ensures forall k, d :: k != key ==> Get(k, d) == old(Get(k, d))
    {
      data := data[key := value];
      saves := saves + 1;
    }
  }
}

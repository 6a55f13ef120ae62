/** The two sensor entities: which store slot each reads, when it is
    available, its unique id, and the battery icon. */
module Sensor {
  import opened Wrappers
  import opened Wire
  import opened Telemetry

  /** The two entities, one per metric. */
  datatype Kind = Battery | Temperature

  /** A sensor's native value: the raw state-of-charge integer or degrees Celsius. */
  datatype Value = Percent(level: int) | Degrees(celsius: real)

  /** The store key and unique-id suffix of each entity. */
  function Key(k: Kind): string {
    match k
    case Battery => "battery"
    case Temperature => "temperature"
  }

  /** The packet identifier whose slot an entity reads. */
  function SourceId(k: Kind): byte {
    match k
    case Battery => PacketIdBatterySoc
    case Temperature => PacketIdTemperature
  }

  /** The entity's current value: the store slot for its own key. */
  function NativeValue(k: Kind, d: Store): (v: Option<Value>)
    ensures v.Some? <==> (if k == Battery then d.battery.Some? else d.temperature.Some?)
  {
    match k
    case Battery => if d.battery.Some? then Some(Percent(d.battery.value)) else None
    case Temperature => if d.temperature.Some? then Some(Degrees(d.temperature.value)) else None
  }

  /** An entity is available when the last update succeeded and it has a
      value, which is when its own store slot is filled. */
  function Available(lastUpdateSuccess: bool, k: Kind, d: Store): (a: bool)
    ensures a <==> lastUpdateSuccess && (if k == Battery then d.battery.Some? else d.temperature.Some?)
  {
    lastUpdateSuccess && NativeValue(k, d).Some?
  }

  /** A packet for the other metric never changes an entity's value, and a
      packet for its own metric sets the value it carries. */
  lemma NativeValueReadsOwnSlot(k: Kind, d: Store, p: Packet)
    requires IsKnownId(p.packetId)
    ensures p.packetId != SourceId(k) ==> NativeValue(k, Write(d, p).store) == NativeValue(k, d)
    ensures p.packetId == SourceId(k) && k == Battery ==>
              NativeValue(k, Write(d, p).store) == Some(Percent(p.parsedValue))
    ensures p.packetId == SourceId(k) && k == Temperature ==>
              NativeValue(k, Write(d, p).store) == Some(Degrees(Celsius(p.parsedValue)))
  {
  }

  /** Availability after a write: a state of charge of 0 is a value like any
      other, so the battery entity is available exactly when the last update
      succeeded; the other entity's availability is untouched. */
  lemma AvailableAfterWrite(ok: bool, k: Kind, d: Store, p: Packet)
    requires IsKnownId(p.packetId)
    ensures p.packetId == SourceId(k) ==> (Available(ok, k, Write(d, p).store) <==> ok)
    ensures p.packetId != SourceId(k) ==> Available(ok, k, Write(d, p).store) == Available(ok, k, d)
  {
  }

  /** Before any reading no entity is available. */
  lemma NothingAvailableInitially(ok: bool, k: Kind)
    ensures !Available(ok, k, Telemetry.Empty)
  {
  }

  /** The entity's unique id: the device address and the entity's key. */
  function UniqueId(address: string, k: Kind): (id: string)
    ensures |id| == |address| + 1 + |Key(k)|
    ensures id[..|address|] == address
    ensures id[|address|..] == "_" + Key(k)
  {
    address + "_" + Key(k)
  }

  /** Unique ids never collide: the id determines both the address and the
      entity, so in particular the two entities of one bike differ. */
  lemma UniqueIdInjective(a1: string, k1: Kind, a2: string, k2: Kind)
    requires UniqueId(a1, k1) == UniqueId(a2, k2)
    ensures a1 == a2 && k1 == k2
  {
    var id := UniqueId(a1, k1);
    assert id[|id| - 1] == (if k1 == Battery then 'y' else 'e');
    assert UniqueId(a2, k2)[|id| - 1] == (if k2 == Battery then 'y' else 'e');
    assert id[..|a1|] == a1 && id[..|a2|] == a2;
  }

  /** The battery icon: a cascade of thresholds over the unclamped level. The
      unknown icon is shown exactly when there is no level; every icon is a
      battery icon. */
  function BatteryIcon(level: Option<int>): (icon: string)
    ensures icon == "mdi:battery-unknown" <==> level.None?
    ensures "mdi:battery" <= icon
    ensures icon == "mdi:battery" <==> level.Some? && level.value >= 90
  {
    match level
    case None => "mdi:battery-unknown"
    case Some(v) =>
      if v >= 90 then "mdi:battery"
      else if v >= 80 then "mdi:battery-90"
      else if v >= 70 then "mdi:battery-80"
      else if v >= 60 then "mdi:battery-70"
      else if v >= 50 then "mdi:battery-60"
      else if v >= 40 then "mdi:battery-50"
      else if v >= 30 then "mdi:battery-40"
      else if v >= 20 then "mdi:battery-30"
      else if v >= 10 then "mdi:battery-20"
      else "mdi:battery-10"
  }

  function Digit(d: nat): char
    requires d < 10
  {
    "0123456789"[d]
  }

  /** The decimal notation of a natural number. */
  function DecimalString(n: nat): (s: string)
    ensures |s| >= 1
    decreases n
  {
    if n < 10 then [Digit(n)] else DecimalString(n / 10) + [Digit(n % 10)]
  }

  /** The charge level an icon depicts, in steps of ten; 100 is the full battery. */
  function Bucket(v: int): (b: int)
    ensures 10 <= b <= 100 && b % 10 == 0
  {
    if v >= 90 then 100 else if v < 10 then 10 else 10 * (v / 10) + 10
  }

  /** The icon name for a depicted level. */
  function LevelIcon(b: nat): string {
    if b >= 100 then "mdi:battery" else "mdi:battery-" + DecimalString(b)
  }

  /** The threshold cascade is the arithmetic rule: every level of 90 or more
      (including levels above 100, which nothing clamps) shows the full
      battery, every level below 10 the lowest icon, and a level in between
      the icon named by the next multiple of ten above it. */
  lemma BatteryIconIsBucketed(v: int)
    ensures BatteryIcon(Some(v)) == LevelIcon(Bucket(v))
    ensures v >= 90 ==> BatteryIcon(Some(v)) == "mdi:battery"
    ensures v < 10 ==> BatteryIcon(Some(v)) == "mdi:battery-10"
    ensures 10 <= v < 90 ==> BatteryIcon(Some(v)) == "mdi:battery-" + DecimalString(10 * (v / 10) + 10)
  {
    if 10 <= v < 90 {
      var b := 10 * (v / 10) + 10;
      assert DecimalString(b) == [Digit(b / 10), '0'];
    } else if v < 10 {
      assert DecimalString(10) == "10";
    }
  }

  /** Reading an icon back: the level it depicts, or 0 for the unknown icon. */
  function IconLevel(icon: string): int {
    if icon == "mdi:battery" then 100
    else if icon == "mdi:battery-90" then 90
    else if icon == "mdi:battery-80" then 80
    else if icon == "mdi:battery-70" then 70
    else if icon == "mdi:battery-60" then 60
    else if icon == "mdi:battery-50" then 50
    else if icon == "mdi:battery-40" then 40
    else if icon == "mdi:battery-30" then 30
    else if icon == "mdi:battery-20" then 20
    else if icon == "mdi:battery-10" then 10
    else 0
  }

  /** Every battery icon depicts its bucket, and the unknown icon depicts none. */
  lemma IconLevelOfBatteryIcon(v: int)
    ensures IconLevel(BatteryIcon(Some(v))) == Bucket(v)
    ensures IconLevel(BatteryIcon(None)) == 0
  {
    BatteryIconIsBucketed(v);
    if 10 <= v < 90 {
      assert DecimalString(10 * (v / 10) + 10) == [Digit(v / 10 + 1), '0'];
    }
  }

  /** A higher battery level never shows a lower icon. */
  lemma BatteryIconMonotone(v: int, w: int)
    requires v <= w
    ensures IconLevel(BatteryIcon(Some(v))) <= IconLevel(BatteryIcon(Some(w)))
  {
    IconLevelOfBatteryIcon(v);
    IconLevelOfBatteryIcon(w);
    if 10 <= v && w < 90 {
      assert v / 10 <= w / 10;
    }
  }
}

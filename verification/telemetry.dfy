/** The coordinator's last-known-value store: one slot per metric, written
    only by decoded packets. */
module Telemetry {
  import opened Wrappers
  import opened Wire

  /** The two metric slots; None until a value has been observed. The battery
      slot holds the raw state-of-charge byte, the temperature slot degrees
      Celsius. */
  datatype Store = Store(battery: Option<int>, temperature: Option<real>)

  /** The store before any notification has arrived. */
  const Empty: Store := Store(None, None)

  /** Degrees Celsius for a raw temperature reading in tenths of a degree. */
  function Celsius(raw: int): (c: real)
    ensures c * 10.0 == raw as real
  {
    raw as real / 10.0
  }

  /** The store after a write, and whether the handler counts it as an update. */
  datatype Written = Written(store: Store, updated: bool)

  /** Writes a decoded packet into the slot for its identifier. The write is
      unconditional: it never compares with the value already stored. An
      identifier with no slot leaves the store alone and is not an update. */
  function Write(s: Store, p: Packet): (w: Written)
    ensures w.updated <==> IsKnownId(p.packetId)
    ensures p.packetId == PacketIdBatterySoc ==>
              w.store.battery == Some(p.parsedValue) && w.store.temperature == s.temperature
    ensures p.packetId == PacketIdTemperature ==>
              w.store.temperature.Some? && w.store.temperature.value * 10.0 == p.parsedValue as real
              && w.store.battery == s.battery
    ensures !IsKnownId(p.packetId) ==> w.store == s
  {
    if p.packetId == PacketIdBatterySoc then
      Written(s.(battery := Some(p.parsedValue)), true)
    else if p.packetId == PacketIdTemperature then
      Written(s.(temperature := Some(Celsius(p.parsedValue))), true)
    else
      Written(s, false)
  }

  /** Two writes for the same metric leave only the second value: no merging,
      no history. */
  lemma LastWriteWins(s: Store, p: Packet, q: Packet)
    requires p.packetId == q.packetId
    ensures Write(Write(s, p).store, q).store == Write(s, q).store
  {
  }

  /** Writes to different metrics touch disjoint slots, so their order does
      not matter. */
  lemma WritesToDifferentSlotsCommute(s: Store, p: Packet, q: Packet)
    requires IsKnownId(p.packetId) && IsKnownId(q.packetId) && p.packetId != q.packetId
    ensures Write(Write(s, p).store, q).store == Write(Write(s, q).store, p).store
  {
  }

  /** Repeating a reading changes nothing in the store, yet it still counts as
      an update. */
  lemma RepeatedWriteStillUpdates(s: Store, p: Packet)
    requires IsKnownId(p.packetId)
    ensures Write(Write(s, p).store, p).store == Write(s, p).store
    ensures Write(Write(s, p).store, p).updated
  {
  }

  /** A raw temperature of 235 tenths is stored as 23.5 degrees. */
  lemma CelsiusExample()
    ensures Write(Empty, Packet(PacketIdTemperature, 235)).store.temperature == Some(23.5)
  {
  }
}

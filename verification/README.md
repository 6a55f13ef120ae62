# Hyena e-bike BLE integration — Dafny model

This project models the core of a Home Assistant integration that keeps a
Bluetooth Low Energy link to a Hyena e-bike controller, decodes its telemetry
notifications (battery state of charge and battery temperature), and publishes
them as two sensors. It is written in Dafny 4.11 and proves properties of the
model.

The model has six modules:

- `Wrappers` (`wrappers.dfy`): `Option` and `Result`.
- `Wire` (`wire.dfy`): bytes, the packet identifiers, the 8-byte frame
  delimiter `ee00000000000000`, and `ParsePacket`, the decoder. An encoder is
  included as the decoder's inverse.
- `Telemetry` (`telemetry.dfy`): the two-slot store and `Write`, the
  overwrite that the notification handler performs.
- `Coordinator` (`coordinator.dfy`): the coordinator as an immutable state
  record. The record holds the client (absent, or present with connected and
  subscribed flags), the expected-disconnect mark, the idle-disconnect task,
  the count of scheduled reconnections, the count of connect attempts, the
  links left open after the coordinator dropped them (orphans), and the
  store. Every locked section of the source is one atomic transition. The BLE
  stack's results are inputs: `ConnectOutcome` and `DisconnectOutcome`.
  `Step` and `Run` drive the transitions from a sequence of events.
- `Sensor` (`sensor.dfy`): which slot each entity reads, availability,
  unique ids and the battery icon cascade.
- `ConfigFlow` (`config_flow.dfy`): the Bluetooth discovery step, the confirm
  step and the user step with its candidate filter.

Behaviours of the code that the model makes explicit:

- The handler sets `updated` on every successful decode, whether or not the
  stored value changes (coordinator.py:155-175). So a repeated reading is
  published again and restarts the idle timer (`RepeatedReadingRepublishes`).
- The comments at coordinator.py:158 and coordinator.py:195 call the battery
  value a percentage from 0 to 100. Nothing clamps it: the decoder returns the
  raw byte, 0 to 255 (`DecodeBatterySoc`). The icon treats anything from 90 up
  as full.
- The disconnect callback returns without touching anything while a
  disconnect is expected (coordinator.py:125-127). The `finally` block of
  `_async_disconnect` clears the client instead (coordinator.py:248-250,
  `AsyncDisconnect`).
- Shutdown cancels only the idle task (coordinator.py:252-258). A
  reconnection that the disconnect callback already scheduled is not
  cancelled, and when it runs it connects again
  (`ShutdownDoesNotCancelReconnect`).
- The client is stored before the telemetry subscription is made. If
  subscribing fails, the client stays connected but unsubscribed. Every later
  poll then sees a connected client and does nothing. No telemetry arrives
  over that link until it drops (`SubscribeFailureIsSticky`).
- When unsubscribing raises, `_async_disconnect` never calls `disconnect()`
  but still drops the client reference (coordinator.py:243-250). The link
  stays open and subscribed, still wired to the handler and the callback.
  The model keeps such links as the state's orphans: their readings keep
  writing the store and restarting the idle timer, the timer then finds no
  client to close, and when the link finally drops the callback schedules a
  reconnection (`OrphanedLinkOutlivesDisconnect`). The callback does not look
  at which link dropped, so that drop also clears a newer client
  (`OrphanLossDropsCurrentClient`). See "## Findings".

## Model

| member | source | states |
|---|---|---|
| Wire.UnpackU16BE | coordinator.py:200-202 | unpacking succeeds exactly on two bytes; the result is below 65536 and its high and low bytes are the two inputs |
| Wire.ParsePacket | coordinator.py:177-212 | a decoded packet carries the frame's first byte, which is 0x0A or 0x07; a state of charge is in 0..255; a temperature is in 0..65535 and needs at least three bytes |
| Wire.DecodeEncode | coordinator.py:194-202 | decoding the encoding of any encodable packet, followed by any trailing bytes, gives the packet back |
| Wire.EncodeDecode | coordinator.py:185-202 | every decoded packet is encodable, and its encoding is a prefix of the frame it was decoded from |
| Wire.ParsePacketRejects | coordinator.py:182-206 | a frame decodes to nothing if and only if it is shorter than 2 bytes, has an identifier other than 0x0A/0x07, or is a 0x07 frame shorter than 3 bytes |
| Wire.DecodeBatterySoc | coordinator.py:196-197 | a 0x0A frame of length at least 2 decodes to exactly byte 1, unclamped |
| Wire.DecodeTemperature | coordinator.py:199-210 | a 0x07 frame of length at least 3 decodes to byte1*256+byte2; the unpacking error branch cannot be reached |
| Wire.DelimiterDecodesToNothing | const.py:25 | the decoder rejects the 8-byte frame delimiter by itself, since 0xEE is not interpreted |
| Wire.IgnoredIdsDecodeToNothing | const.py:17-23 | frames tagged voltage, speed, power, cadence or motor status decode to nothing, whatever their payload |
| Telemetry.Celsius | coordinator.py:164-165 | the stored temperature times ten is the raw reading |
| Telemetry.Write | coordinator.py:155-168 | a packet is an update exactly when its identifier is known; it writes only its own slot, unconditionally; the other slot is unchanged |
| Telemetry.LastWriteWins | coordinator.py:157-166 | two writes to one metric leave only the second value |
| Telemetry.WritesToDifferentSlotsCommute | coordinator.py:157-168 | writes to different metrics commute |
| Telemetry.RepeatedWriteStillUpdates | coordinator.py:155-168 | repeating a reading leaves the store as it was but still counts as an update |
| Telemetry.CelsiusExample | coordinator.py:163-166 | a raw temperature of 235 is stored as 23.5 degrees |
| Coordinator.ResetDisconnectTimer | coordinator.py:214-224 | afterwards exactly one idle task is pending; it is newer than every earlier task and replaces the old one; nothing else changes |
| Coordinator.NotificationHandler | coordinator.py:135-175 | the delimiter and undecodable frames change nothing and publish nothing; a decoded packet writes its slot, is published and leaves one freshly created pending idle task, with the connection fields untouched |
| Coordinator.DelimiterCheckIsRedundant | coordinator.py:139-146 | the handler behaves the same without its explicit delimiter check |
| Coordinator.RepeatedReadingRepublishes | coordinator.py:155-175 | the same frame handled twice is published both times; the store keeps its value and the idle task is replaced |
| Coordinator.EnsureConnection | coordinator.py:77-120 | a no-op when connected; otherwise it succeeds exactly when connect and subscribe both succeed; a missing device raises DeviceNotFound without a connect attempt and a connect error raises ConnectionFailed, both leaving the client as it was; a subscribe error raises ConnectionFailed and leaves a connected, unsubscribed client; only the client and the attempt count change |
| Coordinator.UpdateData | coordinator.py:66-75 | the poll performs exactly the connection attempt of `_ensure_connection` on the state; it returns the store unchanged whenever it succeeds, never writes telemetry, and fails exactly when the reconnection it needed failed, with that attempt's error |
| Coordinator.DisconnectedCallback | coordinator.py:122-133 | while a disconnect is expected it changes nothing, not even the client; otherwise it forgets the client and schedules exactly one reconnection, touching nothing else |
| Coordinator.AsyncDisconnect | coordinator.py:234-250 | a no-op unless connected; otherwise it ends with no client and no expected mark, whichever step raised, and the callback fired while closing schedules no reconnection; the link is closed after a clean close, left open and subscribed when unsubscribing raised, and left open unsubscribed when closing raised |
| Coordinator.AsyncDisconnectCorrected | coordinator.py:243-250 | the disconnect with unsubscribing made best effort: whenever closing succeeds the link is closed, whether or not unsubscribing raised; only a raised close leaves one link open |
| Coordinator.StopNotifyErrorLeavesLinkOpen | coordinator.py:243-250 | for a subscribed client, a raised unsubscribe leaves the subscribed link open, where the corrected disconnect closes it |
| Coordinator.Shutdown | coordinator.py:252-258 | afterwards no idle task is referenced and nothing is connected: a connected client is dropped and the expected mark cleared, and otherwise only the task reference changes; the store, the counts and the scheduled reconnections are kept; the earlier open links are kept, and the client's link is added to them, subscribed as it was, when unsubscribing raised, or unsubscribed when closing raised; after a clean close or with nothing connected the open links are unchanged |
| Coordinator.ShutdownIdempotent | coordinator.py:252-258 | a second shutdown changes nothing |
| Coordinator.ShutdownWhenNeverConnected | coordinator.py:252-258 | shutting down a freshly built coordinator leaves it as it was |
| Coordinator.TimerElapsed | coordinator.py:226-250 | only the live referenced task disconnects when its delay elapses and is marked finished: a connected client is dropped with the expected mark cleared, and its link stays open, subscribed as it was, when unsubscribing raised, or unsubscribed when closing raised, beside the earlier open links; after a clean close the open links are unchanged; with nothing connected only the task changes; a cancelled or finished task does nothing |
| Coordinator.Step | coordinator.py:66-258 | one event of the coordinator's life; only a notification changes the store, and task and attempt counts never go down |
| Coordinator.Run | coordinator.py:66-258 | a sequence of events in order; task and attempt counts never go down |
| Coordinator.StepPreservesValid | coordinator.py:66-258 | between locked sections no disconnect is expected, a stored client is connected, and the idle task reference is to a created task; every event keeps this |
| Coordinator.RunPreservesValid | coordinator.py:66-258 | the same invariant holds after any sequence of events |
| Coordinator.OnlyNotificationsWriteStore | coordinator.py:66-258 | a run of events without notifications ends with the store it started with |
| Coordinator.UnexpectedLossSchedulesOneReconnect | coordinator.py:129-133 | an unexpected loss of the client's link clears the client and schedules exactly one reconnection, leaving the store and other links alone |
| Coordinator.OrphanLossDropsCurrentClient | coordinator.py:122-133 | when a link the coordinator had dropped goes down while a newer client is connected, the callback clears the newer client, whose link stays up and is orphaned, and schedules one reconnection |
| Coordinator.ExpectedDisconnectSchedulesNothing | coordinator.py:241-250 | a disconnect made by the coordinator schedules no reconnection and clears the client, whichever step raised |
| Coordinator.IdleTimeoutDisconnects | coordinator.py:226-250 | when no reading follows the last one, the idle task drops the client once its delay elapses; the link is closed exactly when no step of closing raised |
| Coordinator.OrphanedLinkOutlivesDisconnect | coordinator.py:135-175 | after a raised unsubscribe the link stays open: its readings are written and restart the idle timer, the timer then closes nothing, and the link's later drop schedules a reconnection |
| Coordinator.ReadingRestartsIdleWindow | coordinator.py:214-224 | a reading that arrives before the delay elapses cancels the earlier task; that task's elapse does nothing and the link stays up |
| Coordinator.SecondEnsureConnectionIsNoOp | coordinator.py:79-81 | two serialized connection calls reach the BLE stack once when the first succeeds |
| Coordinator.SubscribeFailureIsSticky | coordinator.py:97-120 | after a subscribe failure the link is connected and unsubscribed; later polls and notifications over the client's link change nothing |
| Coordinator.ShutdownDoesNotCancelReconnect | coordinator.py:252-258 | a reconnection scheduled before shutdown still connects when it runs |
| Coordinator.PollKeepsStore | coordinator.py:66-75 | a poll that finds no device or fails to connect keeps the store, and a later successful poll connects |
| Sensor.NativeValue | sensor.py:96-98 | each entity has a value exactly when its own slot is filled |
| Sensor.Available | sensor.py:72-75 | an entity is available exactly when the last update succeeded and its own store slot is filled |
| Sensor.NativeValueReadsOwnSlot | sensor.py:145-148 | a packet for the other metric never changes an entity's value; one for its own metric sets the value it carries |
| Sensor.AvailableAfterWrite | sensor.py:72-75 | after its own metric is written, an entity is available exactly when the last update succeeded, a reading of 0 included; other writes do not change its availability |
| Sensor.NothingAvailableInitially | sensor.py:72-75 | before any reading, no entity is available |
| Sensor.UniqueId | sensor.py:93 | the unique id is the address, then an underscore, then the entity's key |
| Sensor.UniqueIdInjective | sensor.py:143 | equal unique ids have the same address and the same entity, so a bike's battery and temperature ids differ |
| Sensor.BatteryIcon | sensor.py:100-124 | the unknown icon is shown exactly when there is no level; every icon is a battery icon; the full battery is shown exactly for levels of 90 or more |
| Sensor.BatteryIconIsBucketed | sensor.py:100-124 | the cascade equals the rule: at least 90 gives mdi:battery, below 10 gives mdi:battery-10, and in between gives mdi:battery- followed by 10*(v/10)+10 |
| Sensor.IconLevelOfBatteryIcon | sensor.py:104-124 | each icon depicts the level bucket of its input; the icon for a missing value depicts none |
| Sensor.BatteryIconMonotone | sensor.py:106-124 | a higher level never shows a lower icon |
| ConfigFlow.StepConfirm | config_flow.py:49-70 | on confirmation the entry data is exactly the discovered address; otherwise it shows the confirmation form with the discovered name and address |
| ConfigFlow.IsBikeName | config_flow.py:37 | a name is a bike's exactly when it is present and starts with the device prefix; the emptiness test adds nothing |
| ConfigFlow.ClaimAbort | config_flow.py:41-42 | setting the unique id aborts with already_in_progress exactly when another flow in progress holds it; otherwise the flow aborts with already_configured exactly when an entry has it; the claim stands exactly when neither holds |
| ConfigFlow.StepBluetooth | config_flow.py:30-47 | aborts with not_supported exactly when the name is missing, empty or lacks the prefix; then aborts with already_in_progress, leaving the flow unchanged, exactly when another flow holds the address; otherwise it claims the address as unique id, aborts exactly when that address is configured, and else shows the confirmation form for the discovery; it never creates an entry itself |
| ConfigFlow.SubmitAddress | config_flow.py:78-91 | aborts with already_in_progress, leaving the flow unchanged, exactly when another flow holds the address; otherwise claims it as unique id and aborts exactly when it is configured; it creates an entry, with data exactly that address, if and only if neither abort applies |
| ConfigFlow.EntryCarriesUniqueId | config_flow.py:40-59 | on both paths, the created entry's address equals the unique id the flow claimed before creating it |
| ConfigFlow.Eligible | config_flow.py:98-103 | a scanned device is offered exactly when its name starts with the device prefix and its address is not configured |
| ConfigFlow.Insert | config_flow.py:98-104 | one filter iteration adds exactly the address of an eligible device, mapped to that device, and leaves every other candidate unchanged; an ineligible device changes nothing |
| ConfigFlow.EligibleAddressesExactly | config_flow.py:98-103 | an address is eligible exactly when some scanned device with that address has a name with the prefix and an address that is not configured |
| ConfigFlow.CollectCandidates | config_flow.py:97-104 | the candidate addresses are the earlier ones plus exactly the devices whose name has the prefix and whose address is not configured; each address holds one device, the last eligible one seen; earlier candidates not seen again are kept |
| ConfigFlow.Choices | config_flow.py:117-122 | the offered choices are exactly the candidate addresses |
| ConfigFlow.UserForm | config_flow.py:106-124 | with no candidates the form asks for a free-text address, and only then; otherwise it offers exactly the candidate addresses, each labelled "name (address)" |
| ConfigFlow.StepUser | config_flow.py:72-130 | with input it behaves as SubmitAddress; without input it adds exactly the eligible scanned devices to the candidates, each new candidate an eligible device with its own address, each address holding the last eligible device seen, and earlier candidates not seen again kept; it changes nothing else in the flow and shows the form for the candidates |

## Left out

- The BLE stack (`establish_connection` with its retries, `start_notify`, `stop_notify`, `disconnect`) and the Home Assistant device lookup. They are foreign code. Only their success or failure is modelled, as the `ConnectOutcome` and `DisconnectOutcome` inputs.
- Exceptions other than the Bleak and timeout errors the code catches. Such an exception would propagate out of `_ensure_connection` or `_async_disconnect` (after the `finally` block). The model does not represent it.
- asyncio itself: the lock, `sleep`, task creation and cancellation. Each locked section is one atomic transition. The idle timer is a task record with an id. The 120-second delay is the `TimerFired` event. The 60-second polling interval is the `Poll` event. A cancellation that interrupts a task already inside `_async_disconnect` is not modelled.
- The BLE stack's delivery rules are an assumption of `Coordinator.Step`, not code: notifications arrive only over a subscribed link, whether the coordinator still references it or not, and the disconnect callback fires only for a link that is open. An orphaned link is identified only by its subscription flag, which is all that distinguishes two orphaned links for the model. On a clean close the stack calls the disconnect callback before `disconnect()` returns, while the expected mark is still set: `DisconnectOutcome.Closed` runs `DisconnectedCallback` inside the locked section. That an expected disconnection schedules no reconnection (`Coordinator.ExpectedDisconnectSchedulesNothing`, `Coordinator.AsyncDisconnect`) holds only under this assumption. A stack that delivered the callback after the `finally` block cleared the mark would make the callback drop the client and schedule a reconnection (coordinator.py:129-133).
- Whether a `disconnect()` that raised left the link up is up to the BLE stack. The model takes the case that it did, leaving an open, unsubscribed orphan.
- Telemetry.Celsius: uses an exact real `raw / 10`, not an IEEE double.
- Logging and the `raw_data` hex field of the parsed packet. They are diagnostic only.
- `DataUpdateCoordinator` internals: publishing to listeners and tracking `last_update_success`. The handler returns a `published` flag. `Sensor.Available` takes the last update's success as a parameter.
- `__init__.py` (setup, unload and the global `hass.data` registry). The one behaviour of note there is that a failed first refresh does not abort setup. `Coordinator.PollKeepsStore` covers the coordinator's side of that.
- Entity metadata (`DeviceInfo`, device class, units, names), voluptuous schemas and form rendering. The config flow's forms are modelled only by their content: the confirm placeholders, free-text entry, or the address choices with labels.
- `_async_current_ids` is the `configured` set parameter. `async_discovered_service_info` is the `devices` parameter.
- Home Assistant's flow registry is not modelled. The unique ids held by the other flows in progress are the `inProgress` set parameter of `ConfigFlow.ClaimAbort`. The order of its two checks (in progress before configured) follows Home Assistant's `async_set_unique_id` and `_abort_if_unique_id_configured`, which are not part of this model.

## Findings

| source | as written | input that shows it | evidently intended | confidence | as-written member | corrected member |
|---|---|---|---|---|---|---|
| coordinator.py:243-250 | `stop_notify` and `disconnect` share one `try`, so when unsubscribing raises a `BleakError` the link is never closed, yet the `finally` block drops the client reference | a connected, subscribed client whose `stop_notify` raises: the link stays open and subscribed; its readings keep writing the store and restarting the idle timer, whose disconnect then finds no client; its later drop schedules a reconnection and clears any newer client | closing is attempted even when unsubscribing failed, so a disconnect closes the link unless closing itself raises | medium, not executed | Coordinator.AsyncDisconnect, Coordinator.StopNotifyErrorLeavesLinkOpen, Coordinator.OrphanedLinkOutlivesDisconnect | Coordinator.AsyncDisconnectCorrected |

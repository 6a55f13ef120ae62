/** The configuration flow: accepting a Bluetooth discovery, confirming it, and
    the user-initiated step that lists nearby bikes or asks for an address. */
module ConfigFlow {
  import opened Wrappers

  /** Every bike advertises a name starting with this prefix. */
  const DeviceNamePrefix: string := "XWTK00008OXW"

  /** The single key of a config entry's data. */
  const ConfDeviceAddress: string := "device_address"

  /** An advertisement seen by the Bluetooth stack. */
  datatype DiscoveryInfo = DiscoveryInfo(name: Option<string>, address: string)

  datatype AbortReason = NotSupported | AlreadyInProgress | AlreadyConfigured

  datatype Form =
    | ConfirmForm(name: Option<string>, address: string)
    | AddressEntry
    | AddressChoice(choices: map<string, string>)

  datatype FlowResult =
    | Abort(reason: AbortReason)
    | ShowForm(form: Form)
    | CreateEntry(title: string, data: map<string, string>)

  /** The flow's own state: the unique id it claimed, the discovery it is
      confirming, and the bikes found by the user step so far, by address. */
  datatype Flow = Flow(uniqueId: Option<string>, discovery: Option<DiscoveryInfo>,
                       discovered: map<string, DiscoveryInfo>)

  datatype Outcome = Outcome(flow: Flow, result: FlowResult)

  const NewFlow: Flow := Flow(None, None, map[])

  /** A name is a bike's when it is present, non-empty and has the prefix.
      The prefix is non-empty, so the emptiness test decides nothing. */
  function IsBikeName(name: Option<string>): (b: bool)
    ensures b <==> name.Some? && DeviceNamePrefix <= name.value
  {
    name.Some? && name.value != "" && DeviceNamePrefix <= name.value
  }

  /** How a possibly missing name is formatted into text. */
  function NameText(name: Option<string>): string {
    if name.Some? then name.value else "None"
  }

  /** The data of every entry this flow creates. */
  function EntryData(address: string): map<string, string> {
    map[ConfDeviceAddress := address]
  }

  /** Confirming a discovery: with the user's confirmation, an entry for the
      discovered address; without, the confirmation form showing the
      discovered name and address. */
  function StepConfirm(flow: Flow, confirmed: bool): (o: Outcome)
    requires flow.discovery.Some?
    ensures o.flow == flow
    ensures confirmed ==>
              && o.result.CreateEntry?
              && o.result.data.Keys == {ConfDeviceAddress}
              && o.result.data[ConfDeviceAddress] == flow.discovery.value.address
    ensures !confirmed ==>
              o.result == ShowForm(ConfirmForm(flow.discovery.value.name, flow.discovery.value.address))
  {
    var info := flow.discovery.value;
    if confirmed then
      Outcome(flow, CreateEntry("Hyena E-Bike (" + NameText(info.name) + ")", EntryData(info.address)))
    else
      Outcome(flow, ShowForm(ConfirmForm(info.name, info.address)))
  }

  /** Why claiming `address` as the flow's unique id aborts, if it does.
      Setting the unique id aborts when another flow in progress holds the same
      id, before the id is claimed; once claimed, the flow aborts when an entry
      is already configured with it. `inProgress` holds the unique ids of the
      other flows in progress, `configured` those of the existing entries. */
  function ClaimAbort(address: string, inProgress: set<string>, configured: set<string>)
    : (a: Option<AbortReason>)
    ensures a == Some(AlreadyInProgress) <==> address in inProgress
    ensures a == Some(AlreadyConfigured) <==> address !in inProgress && address in configured
    ensures a.None? <==> address !in inProgress && address !in configured
  {
    if address in inProgress then Some(AlreadyInProgress)
    else if address in configured then Some(AlreadyConfigured)
    else None
  }

  /** Handles a Bluetooth discovery: aborts unless the name is a bike's, claims
      the address as the unique id, aborts when another flow holds it or it is
      already configured, and otherwise asks for confirmation. */
  function StepBluetooth(flow: Flow, info: DiscoveryInfo, inProgress: set<string>,
                         configured: set<string>): (o: Outcome)
    ensures o.result == Abort(NotSupported) <==> !IsBikeName(info.name)
    ensures o.result == Abort(AlreadyInProgress) <==> IsBikeName(info.name) && info.address in inProgress
    ensures o.result == Abort(AlreadyConfigured) <==>
              IsBikeName(info.name) && info.address !in inProgress && info.address in configured
    ensures IsBikeName(info.name) && info.address !in inProgress ==> o.flow.uniqueId == Some(info.address)
    ensures !IsBikeName(info.name) || info.address in inProgress ==> o.flow == flow
    ensures IsBikeName(info.name) && info.address !in inProgress && info.address !in configured ==>
              && o.result == ShowForm(ConfirmForm(info.name, info.address))
              && o.flow.discovery == Some(info)
    ensures !o.result.CreateEntry?
  {
    if !IsBikeName(info.name) then Outcome(flow, Abort(NotSupported))
    else
      match ClaimAbort(info.address, inProgress, configured)
      case Some(AlreadyInProgress) => Outcome(flow, Abort(AlreadyInProgress))
      case Some(reason) => Outcome(flow.(uniqueId := Some(info.address)), Abort(reason))
      case None => StepConfirm(flow.(uniqueId := Some(info.address), discovery := Some(info)), false)
  }

  /** The user submits an address: unless another flow holds it, it becomes
      the unique id and, unless already configured, the entry. */
  function SubmitAddress(flow: Flow, address: string, inProgress: set<string>,
                         configured: set<string>): (o: Outcome)
    ensures address !in inProgress ==> o.flow.uniqueId == Some(address)
    ensures address in inProgress ==> o.flow == flow
    ensures o.result == Abort(AlreadyInProgress) <==> address in inProgress
    ensures o.result == Abort(AlreadyConfigured) <==> address !in inProgress && address in configured
    ensures o.result.CreateEntry? <==> address !in inProgress && address !in configured
    ensures o.result.CreateEntry? ==> o.result.data == EntryData(address)
  {
    match ClaimAbort(address, inProgress, configured)
    case Some(AlreadyInProgress) => Outcome(flow, Abort(AlreadyInProgress))
    case Some(reason) => Outcome(flow.(uniqueId := Some(address)), Abort(reason))
    case None =>
      Outcome(flow.(uniqueId := Some(address)), CreateEntry("Hyena E-Bike (" + address + ")", EntryData(address)))
  }

  /** Every entry, from either path, is created after the flow claimed the
      entry's address as its unique id, and its data is exactly that address. */
  lemma EntryCarriesUniqueId(flow: Flow, info: DiscoveryInfo, address: string,
                             inProgress: set<string>, configured: set<string>)
    ensures var shown := StepBluetooth(flow, info, inProgress, configured);
            shown.result.ShowForm? ==>
              && StepConfirm(shown.flow, true).flow.uniqueId == Some(info.address)
              && StepConfirm(shown.flow, true).result.data == EntryData(info.address)
    ensures var submitted := SubmitAddress(flow, address, inProgress, configured);
            submitted.result.CreateEntry? ==>
              && submitted.result.data == EntryData(address)
              && submitted.result.data[ConfDeviceAddress] == submitted.flow.uniqueId.value
  {
  }

  /** A discovered device the user step offers: its name carries the prefix
      and its address is not configured yet. */
  function Eligible(d: DiscoveryInfo, configured: set<string>): (e: bool)
    ensures e <==> d.name.Some? && DeviceNamePrefix <= d.name.value && d.address !in configured
  {
    IsBikeName(d.name) && d.address !in configured
  }

  /** The addresses of the eligible devices among `devices`. */
  function EligibleAddresses(devices: seq<DiscoveryInfo>, configured: set<string>): set<string>
    decreases |devices|
  {
    if |devices| == 0 then {}
    else
      var last := devices[|devices| - 1];
      EligibleAddresses(devices[..|devices| - 1], configured)
        + (if Eligible(last, configured) then {last.address} else {})
  }

  /** The eligible addresses are exactly the addresses of devices whose name
      is a bike's and whose address is not configured. */
  lemma {:induction false} EligibleAddressesExactly(devices: seq<DiscoveryInfo>, configured: set<string>, a: string)
    ensures a in EligibleAddresses(devices, configured) <==>
              exists i :: 0 <= i < |devices| && devices[i].address == a && Eligible(devices[i], configured)
    decreases |devices|
  {
    if |devices| > 0 {
      var init := devices[..|devices| - 1];
      EligibleAddressesExactly(init, configured, a);
      if exists i :: 0 <= i < |devices| && devices[i].address == a && Eligible(devices[i], configured) {
        var i :| 0 <= i < |devices| && devices[i].address == a && Eligible(devices[i], configured);
        if i < |init| {
          assert init[i] == devices[i];
        }
      }
      if exists i :: 0 <= i < |init| && init[i].address == a && Eligible(init[i], configured) {
        var i :| 0 <= i < |init| && init[i].address == a && Eligible(init[i], configured);
        assert devices[i] == init[i];
      }
    }
  }

  /** Device i is the last eligible one with its address. */
  predicate LastEligibleAt(devices: seq<DiscoveryInfo>, configured: set<string>, i: int)
    requires 0 <= i < |devices|
  {
    && Eligible(devices[i], configured)
    && forall j :: i < j < |devices| && devices[j].address == devices[i].address ==>
         !Eligible(devices[j], configured)
  }

  /** One iteration of the user step's filter: an eligible device is stored
      under its address, replacing any earlier one. */
  function Insert(r: map<string, DiscoveryInfo>, d: DiscoveryInfo, configured: set<string>)
    : (r': map<string, DiscoveryInfo>)
    ensures r'.Keys == r.Keys + (if Eligible(d, configured) then {d.address} else {})
    ensures Eligible(d, configured) ==> r'[d.address] == d
    ensures forall a :: a in r && a != d.address ==> r'[a] == r[a]
    ensures !Eligible(d, configured) ==> r' == r
  {
    if IsBikeName(d.name) && d.address !in configured then r[d.address := d] else r
  }

  /** What the candidates hold after the filter has seen `devices`: the
      earlier candidates' addresses plus exactly the eligible ones; every new
      candidate is an eligible device stored under its own address; every
      address holds the last eligible device seen with it; and an earlier
      candidate not seen again is kept. */
  predicate CollectedFrom(found: map<string, DiscoveryInfo>, devices: seq<DiscoveryInfo>,
                          configured: set<string>, r: map<string, DiscoveryInfo>)
  {
    && r.Keys == found.Keys + EligibleAddresses(devices, configured)
    && (forall a :: a in r && a !in found ==> Eligible(r[a], configured) && r[a].address == a)
    && (forall i :: 0 <= i < |devices| && LastEligibleAt(devices, configured, i) ==>
          devices[i].address in r && r[devices[i].address] == devices[i])
    && (forall a :: a in found && a !in EligibleAddresses(devices, configured) ==> r[a] == found[a])
  }

  lemma CollectedFromSnoc(found: map<string, DiscoveryInfo>, devices: seq<DiscoveryInfo>,
                          d: DiscoveryInfo, configured: set<string>, r: map<string, DiscoveryInfo>)
    requires CollectedFrom(found, devices, configured, r)
    ensures CollectedFrom(found, devices + [d], configured, Insert(r, d, configured))
  {
    var extended := devices + [d];
    var r' := Insert(r, d, configured);
    EligibleAddressesSnoc(devices, d, configured);
    assert r'.Keys == found.Keys + EligibleAddresses(extended, configured);
    assert forall a :: a in r' && a !in found ==> Eligible(r'[a], configured) && r'[a].address == a;
    LastEligibleKept(found, devices, d, configured, r);
    assert forall a :: a in found && a !in EligibleAddresses(extended, configured) ==> r'[a] == found[a];
  }

  lemma LastEligibleKept(found: map<string, DiscoveryInfo>, devices: seq<DiscoveryInfo>,
                         d: DiscoveryInfo, configured: set<string>, r: map<string, DiscoveryInfo>)
    requires CollectedFrom(found, devices, configured, r)
    ensures var extended := devices + [d];
            forall i :: 0 <= i < |extended| && LastEligibleAt(extended, configured, i) ==>
              extended[i].address in Insert(r, d, configured)
              && Insert(r, d, configured)[extended[i].address] == extended[i]
  {
    var extended := devices + [d];
    var r' := Insert(r, d, configured);
    LastEligibleSnoc(devices, d, configured);
    forall i | 0 <= i < |extended| && LastEligibleAt(extended, configured, i)
      ensures extended[i].address in r' && r'[extended[i].address] == extended[i]
    {
      if i < |devices| {
        assert extended[i] == devices[i];
        assert LastEligibleAt(devices, configured, i);
      } else {
        assert extended[i] == d;
      }
    }
  }

  /** Adds the eligible devices to the candidates found so far, keyed by
      address, so a repeated address keeps one entry: the last one seen. */
  method CollectCandidates(found: map<string, DiscoveryInfo>, devices: seq<DiscoveryInfo>,
                           configured: set<string>)
    returns (r: map<string, DiscoveryInfo>)
    ensures r.Keys == found.Keys + EligibleAddresses(devices, configured)
    ensures forall a :: a in r && a !in found ==> Eligible(r[a], configured) && r[a].address == a
    ensures forall i :: 0 <= i < |devices| && LastEligibleAt(devices, configured, i) ==>
              devices[i].address in r && r[devices[i].address] == devices[i]
    ensures forall a :: a in found && a !in EligibleAddresses(devices, configured) ==> r[a] == found[a]
  {
    r := found;
    var k := 0;
    assert devices[..0] == [];
    while k < |devices|
      invariant 0 <= k <= |devices|
      invariant CollectedFrom(found, devices[..k], configured, r)
    {
      var device := devices[k];
      CollectedFromSnoc(found, devices[..k], device, configured, r);
      if IsBikeName(device.name) && device.address !in configured {
        r := r[device.address := device];
      }
      assert devices[..k + 1] == devices[..k] + [device];
      k := k + 1;
    }
    assert devices[..k] == devices;
  }

  lemma EligibleAddressesSnoc(devices: seq<DiscoveryInfo>, d: DiscoveryInfo, configured: set<string>)
    ensures EligibleAddresses(devices + [d], configured) ==
              EligibleAddresses(devices, configured) + (if Eligible(d, configured) then {d.address} else {})
  {
    assert (devices + [d])[..|devices|] == devices;
  }

  /** Appending a device: the last eligible device of the extended sequence is
      the new one when it is eligible, or one that was last before and does
      not share the new one's address. */
  lemma LastEligibleSnoc(devices: seq<DiscoveryInfo>, d: DiscoveryInfo, configured: set<string>)
    ensures forall i :: 0 <= i < |devices| && LastEligibleAt(devices + [d], configured, i) ==>
              LastEligibleAt(devices, configured, i)
                && (Eligible(d, configured) ==> devices[i].address != d.address)
  {
    var extended := devices + [d];
    forall i | 0 <= i < |devices| && LastEligibleAt(extended, configured, i)
      ensures LastEligibleAt(devices, configured, i)
      ensures Eligible(d, configured) ==> devices[i].address != d.address
    {
      assert extended[|devices|] == d;
      forall j | i < j < |devices| && devices[j].address == devices[i].address
        ensures !Eligible(devices[j], configured)
      {
        assert extended[j] == devices[j];
      }
    }
  }

  /** The label shown for each candidate: "name (address)". */
  function Choices(found: map<string, DiscoveryInfo>): (c: map<string, string>)
    ensures c.Keys == found.Keys
  {
    map a | a in found :: NameText(found[a].name) + " (" + a + ")"
  }

  /** The form the user step shows for the candidates found: a free-text
      address when there are none, otherwise exactly the candidate addresses,
      each labelled "name (address)". */
  function UserForm(found: map<string, DiscoveryInfo>): (r: FlowResult)
    ensures r == ShowForm(AddressEntry) <==> |found| == 0
    ensures |found| > 0 ==>
              && r.ShowForm? && r.form.AddressChoice?
              && r.form.choices.Keys == found.Keys
              && forall a :: a in r.form.choices ==>
                   r.form.choices[a] == NameText(found[a].name) + " (" + a + ")"
  {
    if |found| == 0 then ShowForm(AddressEntry) else ShowForm(AddressChoice(Choices(found)))
  }

  /** The user-initiated step. With an address it claims it and creates the
      entry; without, it adds the eligible nearby bikes to the candidates and
      shows the form for them. */
  method StepUser(flow: Flow, userInput: Option<string>, inProgress: set<string>,
                  configured: set<string>, devices: seq<DiscoveryInfo>)
    returns (o: Outcome)
    ensures userInput.Some? ==> o == SubmitAddress(flow, userInput.value, inProgress, configured)
    ensures userInput.None? ==>
              o.flow.discovered.Keys == flow.discovered.Keys + EligibleAddresses(devices, configured)
    ensures userInput.None? ==> CollectedFrom(flow.discovered, devices, configured, o.flow.discovered)
    ensures userInput.None? ==> o.flow == flow.(discovered := o.flow.discovered)
    ensures userInput.None? ==> o.result == UserForm(o.flow.discovered)
  {
    if userInput.Some? {
      return SubmitAddress(flow, userInput.value, inProgress, configured);
    }
    var found := CollectCandidates(flow.discovered, devices, configured);
    o := Outcome(flow.(discovered := found), UserForm(found));
  }
}

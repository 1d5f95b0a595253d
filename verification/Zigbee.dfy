/**
 * Friendly names of Zigbee devices on the hub and on the bridge (zigbee/zigbee.service.ts, zigbee/zigbee.controller.ts,
 * zigbee/store/zigbee-pairable-devices.ts, and the renaming parts of devices/devices.service.ts).
 */
module Zigbee {
  import opened Options

  /** A device as the bridge lists it. */
  datatype BridgeDevice = BridgeDevice(
    name: string, coordinator: bool, supported: bool, disabled: bool,
    interviewCompleted: bool, interviewSuccessful: bool)

  /** The bridge's devices by IEEE address. */
  type Listing = map<string, BridgeDevice>

  datatype HubDevice = HubDevice(ieee: Option<string>, name: Option<string>)

  datatype Request = Rename(ieee: string, name: string) | Unpair(ieee: string)

  datatype Message = DeviceList(devices: Listing) | RenameResponse(from: string, to: string)

  /** The stored devices by id, the snapshot of the bridge's eligible names, and the requests published so far. */
  datatype HubState = HubState(
    devices: map<string, HubDevice>, cache: map<string, string>, requests: seq<Request>, connected: bool)

  predicate Eligible(d: BridgeDevice) {
    !d.coordinator && d.supported && !d.disabled && d.interviewCompleted && d.interviewSuccessful
  }

  function EligibleNames(list: Listing): map<string, string> {
    map x | x in list && Eligible(list[x]) :: list[x].name
  }

  // ---------------------------------------------------------------------------------------------
  // The hub
  // ---------------------------------------------------------------------------------------------

  /** The name passes the schema and no other device has it. */
  predicate NameSaves(validName: string -> bool, devices: map<string, HubDevice>, id: string, name: string) {
    validName(name) && forall other :: other in devices && other != id ==> devices[other].name != Some(name)
  }

  function Publish(h: HubState, request: Request): HubState {
    if h.connected then h.(requests := h.requests + [request]) else h
  }

  /** A device with an IEEE address needs a name, and only such a device; a name is checked when it changes. */
  predicate DeviceSaves(validName: string -> bool, devices: map<string, HubDevice>, id: string, updated: HubDevice)
    requires id in devices
  {
    && (updated.ieee.Some? ==> updated.name.Some?)
    && (updated.name.Some? && updated.name != devices[id].name ==>
          updated.ieee.Some? && NameSaves(validName, devices, id, updated.name.value))
  }

  /** A saved name is published when it is not the one in the snapshot. */
  function UpdateDevice(validName: string -> bool, h: HubState, id: string, name: Option<string>): HubState {
    if id !in h.devices then h
    else
      var updated := h.devices[id].(name := OrElse(name, h.devices[id].name));
      if !DeviceSaves(validName, h.devices, id, updated) then h
      else
        var saved := h.(devices := h.devices[id := updated]);
        if updated.ieee.Some? && (updated.ieee.value !in h.cache || h.cache[updated.ieee.value] != updated.name.value)
        then Publish(saved, Rename(updated.ieee.value, updated.name.value))
        else saved
  }

  lemma UpdateFrame(validName: string -> bool, h: HubState, id: string, name: Option<string>)
    ensures var h' := UpdateDevice(validName, h, id, name);
            forall other :: other in h.devices && other != id ==>
              other in h'.devices && h'.devices[other] == h.devices[other]
  {
  }

  function AddDevice(validName: string -> bool, h: HubState, id: string, ieee: string, name: string): HubState {
    if id in h.devices || ieee !in h.cache || !NameSaves(validName, h.devices, id, name) then h
    else
      var saved := h.(devices := h.devices[id := HubDevice(Some(ieee), Some(name))]);
      if name == "" then saved else Publish(saved, Rename(ieee, name))
  }

  function RemoveDevice(h: HubState, id: string): HubState {
    if id !in h.devices then h
    else
      var removed := h.(devices := h.devices - {id});
      if h.devices[id].ieee.Some? then Publish(removed, Unpair(h.devices[id].ieee.value)) else removed
  }

  /** The list gives the device another, non-empty name. */
  predicate Drifted(d: HubDevice, list: Listing) {
    d.ieee.Some? && d.ieee.value in list && list[d.ieee.value].name != "" && d.name != Some(list[d.ieee.value].name)
  }

  /** Aligning the devices found for a list, in the order found. */
  function SyncFriendlyNames(validName: string -> bool, h: HubState, list: Listing, ids: seq<string>): HubState
    decreases |ids|
  {
    if ids == [] then h else SyncFriendlyNames(validName, SyncDevice(validName, h, list, ids[0]), list, ids[1..])
  }

  function SyncDevice(validName: string -> bool, h: HubState, list: Listing, id: string): HubState {
    if id in h.devices && Drifted(h.devices[id], list)
    then UpdateDevice(validName, h, id, Some(list[h.devices[id].ieee.value].name))
    else h
  }

  /** The snapshot is replaced before the stored names are aligned. */
  function HandleList(validName: string -> bool, h: HubState, list: Listing, ids: seq<string>): HubState {
    SyncFriendlyNames(validName, h.(cache := EligibleNames(list)), list, ids)
  }

  /** `ids` enumerates the stored devices whose address is in the list. */
  ghost predicate Found(devices: map<string, HubDevice>, list: Listing, ids: seq<string>) {
    && (forall i, j :: 0 <= i < j < |ids| ==> ids[i] != ids[j])
    && (forall id :: id in ids <==> id in devices && devices[id].ieee.Some? && devices[id].ieee.value in list)
  }

  /** `id` is the device found under the old name, if any. */
  function HandleRenameResponse(validName: string -> bool, h: HubState, from: string, to: string,
                                id: Option<string>): HubState
  {
    if from == "" || to == "" || from == to || id.None? then h else UpdateDevice(validName, h, id.value, Some(to))
  }

  class ZigbeeHub {
    const validName: string -> bool
    var devices: map<string, HubDevice>
    var pairableDevices: map<string, string>
    var requests: seq<Request>
    var connected: bool

    ghost function State(): HubState
      reads this
    {
      HubState(devices, pairableDevices, requests, connected)
    }

    constructor (validName: string -> bool, devices: map<string, HubDevice>)
      ensures this.validName == validName && State() == HubState(devices, map[], [], false)
    {
      this.validName, this.devices := validName, devices;
      this.pairableDevices, this.requests, this.connected := map[], [], false;
    }

    method RenameDevice(ieee: string, name: string)
      modifies this
      ensures State() == Publish(old(State()), Rename(ieee, name))
    {
      if connected {
        requests := requests + [Rename(ieee, name)];
      }
    }

    method Update(id: string, name: Option<string>)
      modifies this
      ensures State() == UpdateDevice(validName, old(State()), id, name)
    {
      if id !in devices {
        return;
      }
      var updated := devices[id].(name := OrElse(name, devices[id].name));
      if !DeviceSaves(validName, devices, id, updated) {
        return;
      }
      devices := devices[id := updated];
      if updated.ieee.Some? {
        var ieee := updated.ieee.value;
        var oldName := if ieee in pairableDevices then Some(pairableDevices[ieee]) else None;
        if oldName != updated.name {
          RenameDevice(ieee, updated.name.value);
        }
      }
    }

    /** `list` holds the addresses of the listed devices in order. */
    method Save(list: Listing, addresses: seq<string>)
      requires forall x :: x in addresses <==> x in list
      modifies this
      ensures State() == old(State()).(cache := EligibleNames(list))
    {
      var saved: map<string, string> := map[];
      for i := 0 to |addresses|
        invariant saved == map x | x in addresses[..i] && x in list && Eligible(list[x]) :: list[x].name
        invariant State() == old(State())
      {
        assert addresses[..i + 1] == addresses[..i] + [addresses[i]];
        if Eligible(list[addresses[i]]) {
          saved := saved[addresses[i] := list[addresses[i]].name];
        }
      }
      assert addresses[..|addresses|] == addresses;
      pairableDevices := saved;
    }

    method Sync(list: Listing, ids: seq<string>)
      requires Found(devices, list, ids)
      modifies this
      ensures State() == SyncFriendlyNames(validName, old(State()), list, ids)
    {
      var found := devices;
      for i := 0 to |ids|
        invariant forall k :: i <= k < |ids| ==> ids[k] in devices && devices[ids[k]] == found[ids[k]]
        invariant SyncFriendlyNames(validName, State(), list, ids[i..])
                  == SyncFriendlyNames(validName, old(State()), list, ids)
      {
        assert ids[i..][0] == ids[i] && ids[i..][1..] == ids[i + 1..];
        var device := found[ids[i]];
        var friendlyName := list[device.ieee.value].name;
        UpdateFrame(validName, State(), ids[i], Some(friendlyName));
        if friendlyName != "" && device.name != Some(friendlyName) {
          Update(ids[i], Some(friendlyName));
        }
      }
      assert ids[|ids|..] == [];
    }

    method OnConnectedDevicesListChange(list: Listing, addresses: seq<string>, ids: seq<string>)
      requires forall x :: x in addresses <==> x in list
      requires Found(devices, list, ids)
      modifies this
      ensures State() == HandleList(validName, old(State()), list, ids)
    {
      Save(list, addresses);
      Sync(list, ids);
    }
  }

  // ---------------------------------------------------------------------------------------------
  // Single changes
  // ---------------------------------------------------------------------------------------------

  ghost predicate HeldByAnother(devices: map<string, HubDevice>, id: string, name: string) {
    exists other :: other in devices && other != id && devices[other].name == Some(name)
  }

  /** The requests behind publishing one more, which only a connected hub does. */
  function Published(h: HubState, publishes: bool, request: Request): seq<Request> {
    if h.connected && publishes then h.requests + [request] else h.requests
  }

  /**
   * A paired device takes a new name iff it is valid and no other device has it, and the bridge is asked to take it too
   * unless the snapshot has it already. Nothing else changes.
   */
  lemma NameUpdateEffect(validName: string -> bool, h: HubState, id: string, x: string, name: string)
    requires id in h.devices && h.devices[id].ieee == Some(x)
    ensures var h' := UpdateDevice(validName, h, id, Some(name));
            var saved := h.devices[id].name == Some(name) || (validName(name) && !HeldByAnother(h.devices, id, name));
            var known := x in h.cache && h.cache[x] == name;
            && h'.devices == (if saved then h.devices[id := HubDevice(Some(x), Some(name))] else h.devices)
            && h'.requests == Published(h, saved && !known, Rename(x, name))
            && h'.cache == h.cache && h'.connected == h.connected
  {
    var updated := h.devices[id].(name := Some(name));
    assert h.devices[id].name == Some(name) ==> h.devices[id] == HubDevice(Some(x), Some(name));
  }

  /** The bridge has renamed a device: the hub stores the new name for the device it has under the old one. */
  lemma ResponseEffect(validName: string -> bool, h: HubState, from: string, to: string, id: string, x: string)
    requires id in h.devices && h.devices[id] == HubDevice(Some(x), Some(from)) && from != "" && to != ""
    ensures var h' := HandleRenameResponse(validName, h, from, to, Some(id));
            var saved := from != to && validName(to) && !HeldByAnother(h.devices, id, to);
            var known := x in h.cache && h.cache[x] == to;
            && h'.devices == (if saved then h.devices[id := HubDevice(Some(x), Some(to))] else h.devices)
            && h'.requests == Published(h, saved && !known, Rename(x, to))
            && h'.cache == h.cache && h'.connected == h.connected
  {
    NameUpdateEffect(validName, h, id, x, to);
  }

  /** Only devices of the snapshot are paired, under a valid name no other device has; the bridge is told the name. */
  lemma PairingEffect(validName: string -> bool, h: HubState, id: string, x: string, name: string)
    requires id !in h.devices && name != ""
    ensures var h' := AddDevice(validName, h, id, x, name);
            var paired := x in h.cache && validName(name) && !HeldByAnother(h.devices, id, name);
            && h'.devices == (if paired then h.devices[id := HubDevice(Some(x), Some(name))] else h.devices)
            && h'.requests == Published(h, paired, Rename(x, name))
            && h'.cache == h.cache && h'.connected == h.connected
  {
  }

  /** A removed device is also unpaired from the bridge. */
  lemma RemovalEffect(h: HubState, id: string, x: string)
    requires id in h.devices && h.devices[id].ieee == Some(x)
    ensures var h' := RemoveDevice(h, id);
            && h'.devices == h.devices - {id} && h'.requests == Published(h, true, Unpair(x))
            && h'.cache == h.cache && h'.connected == h.connected
  {
  }

  /** The snapshot holds the names of all supported devices that are in use and whose interview has succeeded. */
  lemma SnapshotOf(validName: string -> bool, h: HubState, list: Listing, ids: seq<string>, x: string)
    requires Found(h.devices, list, ids)
    ensures var snapshot := HandleList(validName, h, list, ids).cache;
            && (x in snapshot <==>
                && x in list && !list[x].coordinator && !list[x].disabled && list[x].supported
                && list[x].interviewCompleted && list[x].interviewSuccessful)
            && (x in snapshot ==> snapshot[x] == list[x].name)
  {
    ListHandled(validName, h, list, ids);
  }

  // ---------------------------------------------------------------------------------------------
  // Handling one list
  // ---------------------------------------------------------------------------------------------

  function ListedName(d: HubDevice, list: Listing): string
    requires d.ieee.Some? && d.ieee.value in list
  {
    list[d.ieee.value].name
  }

  /** The list gives the stored device another name, and that name can be saved. */
  predicate CanAlign(validName: string -> bool, devices: map<string, HubDevice>, list: Listing, id: string) {
    id in devices && Drifted(devices[id], list) && NameSaves(validName, devices, id, ListedName(devices[id], list))
  }

  function Aligned(d: HubDevice, list: Listing): HubDevice {
    if Drifted(d, list) then d.(name := Some(ListedName(d, list))) else d
  }

  /** The stored devices after aligning those of `ids` that can be saved, one after the other. */
  function AlignedInTurn(validName: string -> bool, devices: map<string, HubDevice>, list: Listing, ids: seq<string>):
    map<string, HubDevice>
    decreases |ids|
  {
    if ids == [] then devices
    else
      var n := |ids| - 1;
      var before := AlignedInTurn(validName, devices, list, ids[..n]);
      if CanAlign(validName, before, list, ids[n]) then before[ids[n] := Aligned(before[ids[n]], list)] else before
  }

  /** When its turn comes, the device at position `k` can be saved under its listed name, and it is not eligible. */
  predicate RenamedBack(validName: string -> bool, devices: map<string, HubDevice>, list: Listing, ids: seq<string>,
                        k: nat)
    requires k < |ids|
  {
    var before := AlignedInTurn(validName, devices, list, ids[..k]);
    CanAlign(validName, before, list, ids[k]) && !Eligible(list[before[ids[k]].ieee.value])
  }

  /** The renames published while handling a list. */
  function RenamesInTurn(validName: string -> bool, devices: map<string, HubDevice>, list: Listing, ids: seq<string>):
    seq<Request>
    decreases |ids|
  {
    if ids == [] then []
    else
      var n := |ids| - 1;
      var before := AlignedInTurn(validName, devices, list, ids[..n]);
      RenamesInTurn(validName, devices, list, ids[..n])
      + if RenamedBack(validName, devices, list, ids, n)
        then [Rename(before[ids[n]].ieee.value, ListedName(before[ids[n]], list))] else []
  }

  lemma {:induction false} SyncAppend(validName: string -> bool, h: HubState, list: Listing, ids: seq<string>,
                                      id: string)
    ensures SyncFriendlyNames(validName, h, list, ids + [id])
            == SyncDevice(validName, SyncFriendlyNames(validName, h, list, ids), list, id)
    decreases |ids|
  {
    if ids == [] {
      assert [] + [id] == [id] && [id][1..] == [];
      assert SyncFriendlyNames(validName, SyncDevice(validName, h, list, id), list, [])
             == SyncDevice(validName, h, list, id);
    } else {
      assert (ids + [id])[0] == ids[0] && (ids + [id])[1..] == ids[1..] + [id];
      SyncAppend(validName, SyncDevice(validName, h, list, ids[0]), list, ids[1..], id);
    }
  }

  lemma SyncOne(validName: string -> bool, h: HubState, list: Listing, id: string)
    requires h.cache == EligibleNames(list)
    ensures var next := SyncDevice(validName, h, list, id);
            if CanAlign(validName, h.devices, list, id) then
              next == h.(devices := h.devices[id := Aligned(h.devices[id], list)],
                         requests := if h.connected && !Eligible(list[h.devices[id].ieee.value])
                                     then h.requests
                                       + [Rename(h.devices[id].ieee.value, ListedName(h.devices[id], list))]
                                     else h.requests)
            else next == h
  {
  }

  lemma {:induction false} SyncInTurn(validName: string -> bool, h: HubState, list: Listing, ids: seq<string>)
    requires h.cache == EligibleNames(list)
    ensures SyncFriendlyNames(validName, h, list, ids)
            == h.(devices := AlignedInTurn(validName, h.devices, list, ids),
                  requests := h.requests + if h.connected then RenamesInTurn(validName, h.devices, list, ids) else [])
    decreases |ids|
  {
    if ids == [] {
      assert h.requests + [] == h.requests;
    } else {
      var n := |ids| - 1;
      SyncInTurn(validName, h, list, ids[..n]);
      assert ids == ids[..n] + [ids[n]];
      SyncAppend(validName, h, list, ids[..n], ids[n]);
      var before := SyncFriendlyNames(validName, h, list, ids[..n]);
      SyncOne(validName, before, list, ids[n]);
      assert ids[..n][..n] == ids[..n];
      OneMoreRename(validName, h, list, ids);
    }
  }

  lemma OneMoreRename(validName: string -> bool, h: HubState, list: Listing, ids: seq<string>)
    requires ids != []
    ensures var n := |ids| - 1;
            var before := AlignedInTurn(validName, h.devices, list, ids[..n]);
            var earlier := RenamesInTurn(validName, h.devices, list, ids[..n]);
            var now := RenamesInTurn(validName, h.devices, list, ids);
            if RenamedBack(validName, h.devices, list, ids, n)
            then h.requests + now
              == h.requests + earlier + [Rename(before[ids[n]].ieee.value, ListedName(before[ids[n]], list))]
            else now == earlier
  {
  }

  /** Aligning others before leaves a device as it was. */
  lemma {:induction false} UntouchedBefore(validName: string -> bool, devices: map<string, HubDevice>, list: Listing,
                                           ids: seq<string>, id: string)
    requires id !in ids
    ensures var before := AlignedInTurn(validName, devices, list, ids);
            (id in before <==> id in devices) && (id in devices ==> before[id] == devices[id])
    decreases |ids|
  {
    if ids == [] {
    } else {
      var n := |ids| - 1;
      assert ids[n] in ids && forall other :: other in ids[..n] ==> other in ids;
      UntouchedBefore(validName, devices, list, ids[..n], id);
    }
  }

  lemma NotBefore(ids: seq<string>, k: nat)
    requires k < |ids| && forall i, j :: 0 <= i < j < |ids| ==> ids[i] != ids[j]
    ensures ids[k] !in ids[..k]
  {
  }

  /**
   * The rename goes back for the device at position `k`: it had drifted, is not eligible, and its listed name was
   * saved.
   */
  ghost predicate IsRenameAt(validName: string -> bool, devices: map<string, HubDevice>, list: Listing,
                             ids: seq<string>, k: nat, request: Request)
    requires k < |ids|
  {
    && ids[k] in devices && Drifted(devices[ids[k]], list)
    && !Eligible(list[devices[ids[k]].ieee.value])
    && NameSaves(validName, AlignedInTurn(validName, devices, list, ids[..k]), ids[k],
                 ListedName(devices[ids[k]], list))
    && request == Rename(devices[ids[k]].ieee.value, ListedName(devices[ids[k]], list))
  }

  ghost predicate IsRenamedBack(validName: string -> bool, devices: map<string, HubDevice>, list: Listing,
                                ids: seq<string>, request: Request)
  {
    exists k :: 0 <= k < |ids| && IsRenameAt(validName, devices, list, ids, k, request)
  }

  lemma RenamedBackStep(validName: string -> bool, devices: map<string, HubDevice>, list: Listing, ids: seq<string>,
                        request: Request)
    requires ids != []
    ensures var n := |ids| - 1;
            IsRenamedBack(validName, devices, list, ids, request) <==>
              || IsRenamedBack(validName, devices, list, ids[..n], request)
              || IsRenameAt(validName, devices, list, ids, n, request)
  {
    var n := |ids| - 1;
    forall k | 0 <= k < n
      ensures IsRenameAt(validName, devices, list, ids[..n], k, request) <==>
              IsRenameAt(validName, devices, list, ids, k, request)
    {
      assert ids[..n][..k] == ids[..k];
    }
  }

  lemma {:induction false} RenamesAre(validName: string -> bool, devices: map<string, HubDevice>, list: Listing,
                                      ids: seq<string>, request: Request)
    requires forall i, j :: 0 <= i < j < |ids| ==> ids[i] != ids[j]
    ensures request in RenamesInTurn(validName, devices, list, ids) <==>
              IsRenamedBack(validName, devices, list, ids, request)
    decreases |ids|
  {
    if ids == [] {
    } else {
      var n := |ids| - 1;
      RenamesAre(validName, devices, list, ids[..n], request);
      NotBefore(ids, n);
      UntouchedBefore(validName, devices, list, ids[..n], ids[n]);
      RenamedBackStep(validName, devices, list, ids, request);
    }
  }

  predicate AllDriftedEligible(devices: map<string, HubDevice>, list: Listing) {
    forall id :: id in devices && Drifted(devices[id], list) ==> Eligible(list[devices[id].ieee.value])
  }

  /**
   * Because the snapshot is saved first, handling a list never publishes a rename for a device the list shows as
   * eligible, whatever names it holds. A connected hub publishes renames exactly for drifted devices that are listed as
   * not eligible and whose listed names can be saved when their turn comes.
   */
  lemma ListHandled(validName: string -> bool, h: HubState, list: Listing, ids: seq<string>)
    requires Found(h.devices, list, ids)
    ensures var h' := HandleList(validName, h, list, ids);
            && h'.cache == EligibleNames(list) && h'.connected == h.connected
            && h'.devices == AlignedInTurn(validName, h.devices, list, ids)
            && h'.requests == h.requests + (if h.connected then RenamesInTurn(validName, h.devices, list, ids) else [])
            && (forall r :: r in h'.requests[|h.requests|..] <==>
                  h.connected && IsRenamedBack(validName, h.devices, list, ids, r))
            && (AllDriftedEligible(h.devices, list) ==> h'.requests == h.requests)
  {
    SyncInTurn(validName, h.(cache := EligibleNames(list)), list, ids);
    forall r
      ensures r in RenamesInTurn(validName, h.devices, list, ids) <==> IsRenamedBack(validName, h.devices, list, ids, r)
    {
      RenamesAre(validName, h.devices, list, ids, r);
    }
    var h' := HandleList(validName, h, list, ids);
    var published := if h.connected then RenamesInTurn(validName, h.devices, list, ids) else [];
    assert h'.requests == h.requests + published && h'.requests[|h.requests|..] == published;
    if published != [] {
      SomeRename(published);
    }
  }

  lemma SomeRename(requests: seq<Request>)
    requires requests != []
    ensures exists r :: r in requests
  {
    assert requests[0] in requests;
  }

  /**
   * Every listed device can be given its listed name: it is valid and neither stored for nor listed for another one.
   */
  ghost predicate Alignable(validName: string -> bool, devices: map<string, HubDevice>, list: Listing) {
    forall id :: id in devices && Drifted(devices[id], list) ==>
      && NameSaves(validName, devices, id, ListedName(devices[id], list))
      && forall other :: other in devices && other != id && Drifted(devices[other], list) ==>
           ListedName(devices[other], list) != ListedName(devices[id], list)
  }

  lemma AlignOne(validName: string -> bool, devices: map<string, HubDevice>, list: Listing, id: string)
    requires Alignable(validName, devices, list) && id in devices
    ensures Alignable(validName, devices[id := Aligned(devices[id], list)], list)
  {
    var next := devices[id := Aligned(devices[id], list)];
    forall other | other in next && Drifted(next[other], list)
      ensures other != id && other in devices && Drifted(devices[other], list) && next[other] == devices[other]
      ensures NameSaves(validName, next, other, ListedName(next[other], list))
    {
    }
  }

  lemma {:induction false} AlignableAligns(validName: string -> bool, devices: map<string, HubDevice>, list: Listing,
                                           ids: seq<string>)
    requires Alignable(validName, devices, list) && forall id :: id in ids ==> id in devices
    requires forall i, j :: 0 <= i < j < |ids| ==> ids[i] != ids[j]
    ensures AlignedInTurn(validName, devices, list, ids) == AlignedAll(devices, list, ids)
    ensures Alignable(validName, AlignedInTurn(validName, devices, list, ids), list)
    decreases |ids|
  {
    if ids == [] {
      assert AlignedAll(devices, list, ids) == devices;
    } else {
      var n := |ids| - 1;
      AlignableAligns(validName, devices, list, ids[..n]);
      NotBefore(ids, n);
      assert ids[n] in ids;
      AlignedStep(devices, list, ids);
      AlignOneInTurn(validName, devices, list, ids);
    }
  }

  function AlignedAll(devices: map<string, HubDevice>, list: Listing, ids: seq<string>): map<string, HubDevice> {
    map id | id in devices :: if id in ids then Aligned(devices[id], list) else devices[id]
  }

  lemma AlignedStep(devices: map<string, HubDevice>, list: Listing, ids: seq<string>)
    requires ids != [] && ids[|ids| - 1] in devices && ids[|ids| - 1] !in ids[..|ids| - 1]
    ensures var n := |ids| - 1;
            var before := AlignedAll(devices, list, ids[..n]);
            && before[ids[n]] == devices[ids[n]]
            && AlignedAll(devices, list, ids) == before[ids[n] := Aligned(devices[ids[n]], list)]
  {
    var n := |ids| - 1;
    assert forall id :: id in ids <==> id in ids[..n] || id == ids[n];
  }

  lemma AlignOneInTurn(validName: string -> bool, devices: map<string, HubDevice>, list: Listing, ids: seq<string>)
    requires ids != [] && ids[|ids| - 1] in AlignedInTurn(validName, devices, list, ids[..|ids| - 1])
    requires Alignable(validName, AlignedInTurn(validName, devices, list, ids[..|ids| - 1]), list)
    ensures var n := |ids| - 1;
            var before := AlignedInTurn(validName, devices, list, ids[..n]);
            && AlignedInTurn(validName, devices, list, ids) == before[ids[n] := Aligned(before[ids[n]], list)]
            && Alignable(validName, AlignedInTurn(validName, devices, list, ids), list)
  {
    var n := |ids| - 1;
    var before := AlignedInTurn(validName, devices, list, ids[..n]);
    AlignOne(validName, before, list, ids[n]);
    assert !Drifted(before[ids[n]], list) ==> before[ids[n] := before[ids[n]]] == before;
  }

  /**
   * When all listed names can be saved, handling a list aligns every device, and all drifted ineligible ones are
   * renamed back.
   */
  lemma AlignableListHandled(validName: string -> bool, h: HubState, list: Listing, ids: seq<string>)
    requires Found(h.devices, list, ids) && Alignable(validName, h.devices, list)
    ensures var h' := HandleList(validName, h, list, ids);
            && h'.devices == (map id | id in h.devices :: Aligned(h.devices[id], list))
            && (h.connected ==> (h'.requests == h.requests <==> AllDriftedEligible(h.devices, list)))
  {
    ListHandled(validName, h, list, ids);
    AlignableAligns(validName, h.devices, list, ids);
    var h' := HandleList(validName, h, list, ids);
    if id :| id in h.devices && Drifted(h.devices[id], list) && !Eligible(list[h.devices[id].ieee.value]) {
      assert id in ids;
      var k :| 0 <= k < |ids| && ids[k] == id;
      AlignableIsRenamed(validName, h.devices, list, ids, k);
      if h.connected {
        var r := Rename(h.devices[id].ieee.value, ListedName(h.devices[id], list));
        assert IsRenameAt(validName, h.devices, list, ids, k, r);
        assert r in h'.requests[|h.requests|..];
      }
    }
  }

  lemma AlignableIsRenamed(validName: string -> bool, devices: map<string, HubDevice>, list: Listing, ids: seq<string>,
                           k: nat)
    requires Alignable(validName, devices, list) && k < |ids| && forall id :: id in ids ==> id in devices
    requires forall i, j :: 0 <= i < j < |ids| ==> ids[i] != ids[j]
    requires Drifted(devices[ids[k]], list)
    ensures NameSaves(validName, AlignedInTurn(validName, devices, list, ids[..k]), ids[k],
                      ListedName(devices[ids[k]], list))
  {
    assert ids[k] in ids && forall id :: id in ids[..k] ==> id in ids;
    AlignableAligns(validName, devices, list, ids[..k]);
    NotBefore(ids, k);
    assert AlignedInTurn(validName, devices, list, ids[..k])[ids[k]] == devices[ids[k]];
  }

  /** A drifted device that is not eligible is absent from the snapshot, so its new name is sent back to the bridge. */
  lemma IneligibleIsRenamedBack(x: BridgeDevice)
    requires !Eligible(x)
    ensures var hub := HubState(map["a" := HubDevice(Some("1"), Some("one"))], map[], [], true);
            var list := map["1" := x.(name := "two")];
            Found(hub.devices, list, ["a"]) && HandleList(_ => true, hub, list, ["a"]).requests == [Rename("1", "two")]
  {
    var hub := HubState(map["a" := HubDevice(Some("1"), Some("one"))], map[], [], true);
    var list := map["1" := x.(name := "two")];
    var cached := hub.(cache := EligibleNames(list));
    SyncOne(_ => true, cached, list, "a");
    assert ["a"][1..] == [];
    assert HandleList(_ => true, hub, list, ["a"]) == SyncDevice(_ => true, cached, list, "a");
  }

  /** The devices the list shows as eligible, under a name. */
  predicate ListedEligible(d: HubDevice, list: Listing) {
    d.ieee.Some? && d.ieee.value in list && Eligible(list[d.ieee.value]) && list[d.ieee.value].name != ""
  }

  /** When its turn comes, the listed name of the device at position `k` cannot be saved. */
  predicate Refuses(validName: string -> bool, devices: map<string, HubDevice>, list: Listing, ids: seq<string>, k: nat)
    requires k < |ids|
  {
    && ids[k] in devices && Drifted(devices[ids[k]], list)
    && !NameSaves(validName, AlignedInTurn(validName, devices, list, ids[..k]), ids[k],
                  ListedName(devices[ids[k]], list))
  }

  function RefusedBy(validName: string -> bool, devices: map<string, HubDevice>, list: Listing, ids: seq<string>):
    set<string>
  {
    set k | 0 <= k < |ids| && Refuses(validName, devices, list, ids, k) :: ids[k]
  }

  lemma {:induction false} SyncFrame(validName: string -> bool, h: HubState, list: Listing, ids: seq<string>)
    ensures var h' := SyncFriendlyNames(validName, h, list, ids);
            && h'.devices.Keys == h.devices.Keys && h'.cache == h.cache && h'.connected == h.connected
            && (forall id :: id in h.devices ==> h'.devices[id].ieee == h.devices[id].ieee)
            && (forall id :: id in h.devices && id !in ids ==> h'.devices[id] == h.devices[id])
    decreases |ids|
  {
    if ids == [] {
    } else {
      SyncFrame(validName, SyncDevice(validName, h, list, ids[0]), list, ids[1..]);
    }
  }

  lemma SyncOneDevice(validName: string -> bool, h: HubState, list: Listing, id: string)
    ensures SyncDevice(validName, h, list, id).devices
            == if CanAlign(validName, h.devices, list, id) then h.devices[id := Aligned(h.devices[id], list)]
               else h.devices
  {
  }

  /** Which names are stored does not depend on the snapshot. */
  lemma {:induction false} SyncDevicesInTurn(validName: string -> bool, h: HubState, list: Listing, ids: seq<string>)
    ensures SyncFriendlyNames(validName, h, list, ids).devices == AlignedInTurn(validName, h.devices, list, ids)
    decreases |ids|
  {
    if ids == [] {
    } else {
      var n := |ids| - 1;
      SyncDevicesInTurn(validName, h, list, ids[..n]);
      assert ids == ids[..n] + [ids[n]];
      SyncAppend(validName, h, list, ids[..n], ids[n]);
      SyncOneDevice(validName, SyncFriendlyNames(validName, h, list, ids[..n]), list, ids[n]);
    }
  }

  /** A device is changed in its own turn only. */
  lemma {:induction false} AlignedAt(validName: string -> bool, devices: map<string, HubDevice>, list: Listing,
                                     ids: seq<string>, k: nat)
    requires forall i, j :: 0 <= i < j < |ids| ==> ids[i] != ids[j]
    requires k < |ids| && ids[k] in devices
    ensures var after := AlignedInTurn(validName, devices, list, ids);
            && ids[k] in after
            && after[ids[k]] == if Refuses(validName, devices, list, ids, k) then devices[ids[k]]
                                else Aligned(devices[ids[k]], list)
    decreases |ids|
  {
    var n := |ids| - 1;
    if k == n {
      NotBefore(ids, n);
      UntouchedBefore(validName, devices, list, ids[..n], ids[n]);
    } else {
      AlignedAt(validName, devices, list, ids[..n], k);
      assert ids[..n][..k] == ids[..k];
    }
  }

  /** The exact condition: each listed device ends up with its listed name iff that name is not refused in its turn. */
  lemma SyncAlignsIff(validName: string -> bool, h: HubState, list: Listing, ids: seq<string>)
    requires forall i, j :: 0 <= i < j < |ids| ==> ids[i] != ids[j]
    requires forall id :: id in ids ==> id in h.devices
    ensures var h' := SyncFriendlyNames(validName, h, list, ids);
            && h'.devices.Keys == h.devices.Keys
            && forall id :: id in ids && ListedEligible(h.devices[id], list) ==>
                 (h'.devices[id].name == Some(ListedName(h.devices[id], list)) <==>
                  id !in RefusedBy(validName, h.devices, list, ids))
  {
    SyncFrame(validName, h, list, ids);
    SyncDevicesInTurn(validName, h, list, ids);
    var h' := SyncFriendlyNames(validName, h, list, ids);
    forall id | id in ids && ListedEligible(h.devices[id], list)
      ensures h'.devices[id].name == Some(ListedName(h.devices[id], list)) <==>
              id !in RefusedBy(validName, h.devices, list, ids)
    {
      var k :| 0 <= k < |ids| && ids[k] == id;
      AlignedAt(validName, h.devices, list, ids, k);
      RefusedAt(validName, h.devices, list, ids, k);
    }
  }

  lemma RefusedAt(validName: string -> bool, devices: map<string, HubDevice>, list: Listing, ids: seq<string>, k: nat)
    requires forall i, j :: 0 <= i < j < |ids| ==> ids[i] != ids[j]
    requires k < |ids|
    ensures ids[k] in RefusedBy(validName, devices, list, ids) <==> Refuses(validName, devices, list, ids, k)
  {
    if ids[k] in RefusedBy(validName, devices, list, ids) {
      var i :| 0 <= i < |ids| && Refuses(validName, devices, list, ids, i) && ids[i] == ids[k];
      assert i == k;
    }
  }

  /** Nothing is refused if every drifted device can be given its listed name from the start, in whatever order. */
  lemma AlignableRefusesNone(
    validName: string -> bool, devices: map<string, HubDevice>, list: Listing, ids: seq<string>)
    requires Alignable(validName, devices, list) && forall id :: id in ids ==> id in devices
    requires forall i, j :: 0 <= i < j < |ids| ==> ids[i] != ids[j]
    ensures RefusedBy(validName, devices, list, ids) == {}
  {
    forall k | 0 <= k < |ids|
      ensures !Refuses(validName, devices, list, ids, k)
    {
      if Drifted(devices[ids[k]], list) {
        AlignableIsRenamed(validName, devices, list, ids, k);
      }
    }
  }

  // ---------------------------------------------------------------------------------------------
  // Hub and bridge together
  // ---------------------------------------------------------------------------------------------

  /**
   * Two FIFO channels: requests to the bridge are `hub.requests`, messages to the hub are `messages`. `refused` are the
   * devices whose listed names the last list handled could not save in their turn.
   */
  datatype World = World(hub: HubState, bridge: Listing, messages: seq<Message>, refused: set<string>)

  datatype Event =
    | HubUpdates(id: string, name: Option<string>)
    | HubAdds(id: string, ieee: string, newName: string)
    | HubRemoves(id: string)
    | HubReceives(ids: seq<string>, renamed: Option<string>)
    | BridgeReceives(responds: bool)
    | BridgeChanges(devices: Listing)

  /** The bridge publishes its list after every change it makes. */
  function Carry(bridge: Listing, request: Request): Listing {
    match request
    case Rename(x, name) => if x in bridge then bridge[x := bridge[x].(name := name)] else bridge
    case Unpair(x) => bridge - {x}
  }

  function Answers(bridge: Listing, request: Request, responds: bool): seq<Message> {
    if request.ieee !in bridge then []
    else
      (if responds && request.Rename? then [RenameResponse(bridge[request.ieee].name, request.name)] else [])
      + [DeviceList(Carry(bridge, request))]
  }

  /** The last list on its way to the hub. */
  function LastList(messages: seq<Message>): Option<Listing> {
    if messages == [] then None
    else if messages[|messages| - 1].DeviceList? then Some(messages[|messages| - 1].devices)
    else LastList(messages[..|messages| - 1])
  }

  /** Listed names are not empty. */
  ghost predicate Allowed(validName: string -> bool, w: World, event: Event) {
    match event
    case HubReceives(ids, _) =>
      && w.messages != []
      && (w.messages[0].DeviceList? ==>
            && Found(w.hub.devices, w.messages[0].devices, ids)
            && (forall x :: x in w.messages[0].devices ==> w.messages[0].devices[x].name != ""))
    case BridgeReceives(_) => w.hub.requests != []
    case HubAdds(_, _, name) => name != ""
    case _ => true
  }

  ghost function After(validName: string -> bool, w: World, event: Event): World
    requires Allowed(validName, w, event)
  {
    match event
    case HubUpdates(id, name) => w.(hub := UpdateDevice(validName, w.hub, id, name))
    case HubAdds(id, ieee, name) => w.(hub := AddDevice(validName, w.hub, id, ieee, name))
    case HubRemoves(id) => w.(hub := RemoveDevice(w.hub, id), refused := w.refused - {id})
    case HubReceives(ids, renamed) =>
      var rest := w.messages[1..];
      (match w.messages[0]
       case DeviceList(list) =>
         w.(hub := HandleList(validName, w.hub, list, ids), messages := rest,
            refused := RefusedBy(validName, w.hub.devices, list, ids))
       case RenameResponse(from, to) =>
         w.(hub := HandleRenameResponse(validName, w.hub, from, to, renamed), messages := rest))
    case BridgeReceives(responds) =>
      var request := w.hub.requests[0];
      w.(hub := w.hub.(requests := w.hub.requests[1..]), bridge := Carry(w.bridge, request),
         messages := w.messages + Answers(w.bridge, request, responds))
    case BridgeChanges(devices) => w.(bridge := devices, messages := w.messages + [DeviceList(devices)])
  }

  ghost predicate RenameUnderWay(requests: seq<Request>, x: string) {
    exists i :: 0 <= i < |requests| && requests[i].Rename? && requests[i].ieee == x
  }

  /** The last list on its way to the hub, or the snapshot of the last one handled, shows the bridge as it is. */
  ghost predicate BridgeKnown(w: World) {
    match LastList(w.messages)
    case Some(list) => list == w.bridge
    case None => w.hub.cache == EligibleNames(w.bridge)
  }

  /** With no list under way, a stored name is the one in the snapshot, on its way to the bridge, or refused. */
  ghost predicate NamesKnown(w: World) {
    LastList(w.messages).None? ==>
      forall id :: id in w.hub.devices && w.hub.devices[id].ieee.Some?
                   && w.hub.devices[id].ieee.value in w.hub.cache ==>
        || w.hub.devices[id].name == Some(w.hub.cache[w.hub.devices[id].ieee.value])
        || RenameUnderWay(w.hub.requests, w.hub.devices[id].ieee.value)
        || id in w.refused
  }

  ghost predicate Consistent(w: World) {
    w.hub.connected && BridgeKnown(w) && NamesKnown(w)
  }

  /** Names of eligible devices are the same on both sides. */
  ghost predicate NamesAgree(w: World) { NamesAgreeExcept(w, {}) }

  ghost predicate NamesAgreeExcept(w: World, exceptions: set<string>) {
    forall id :: id in w.hub.devices && w.hub.devices[id].ieee.Some? && id !in exceptions ==>
      var x := w.hub.devices[id].ieee.value;
      x in w.bridge && Eligible(w.bridge[x]) ==> w.hub.devices[id].name == Some(w.bridge[x].name)
  }

  lemma QuietMeansAgreed(w: World)
    requires Consistent(w) && w.messages == [] && w.hub.requests == []
    ensures NamesAgreeExcept(w, w.refused)
  {
    forall x
      ensures !RenameUnderWay(w.hub.requests, x)
    {
    }
  }

  lemma StillUnderWay(requests: seq<Request>, more: seq<Request>, x: string)
    requires RenameUnderWay(requests, x)
    ensures RenameUnderWay(requests + more, x)
  {
    var i :| 0 <= i < |requests| && requests[i].Rename? && requests[i].ieee == x;
    assert (requests + more)[i] == requests[i];
  }

  lemma JustPublished(requests: seq<Request>, x: string, name: string)
    ensures RenameUnderWay(requests + [Rename(x, name)], x)
  {
    assert (requests + [Rename(x, name)])[|requests|] == Rename(x, name);
  }

  lemma UpdateKeepsNamesKnown(validName: string -> bool, w: World, id: string, name: Option<string>)
    requires Consistent(w)
    ensures Consistent(w.(hub := UpdateDevice(validName, w.hub, id, name)))
  {
    var hub := UpdateDevice(validName, w.hub, id, name);
    if hub.devices != w.hub.devices || hub.requests != w.hub.requests {
      forall b | b in hub.devices && hub.devices[b].ieee.Some? && hub.devices[b].ieee.value in hub.cache
                 && LastList(w.messages).None?
        ensures || hub.devices[b].name == Some(hub.cache[hub.devices[b].ieee.value])
                || RenameUnderWay(hub.requests, hub.devices[b].ieee.value) || b in w.refused
      {
        var x := hub.devices[b].ieee.value;
        if b == id {
          if hub.devices[b].name != Some(hub.cache[x]) {
            JustPublished(w.hub.requests, x, hub.devices[b].name.value);
          }
        } else if RenameUnderWay(w.hub.requests, x) {
          StillUnderWay(w.hub.requests, hub.requests[|w.hub.requests|..], x);
          assert hub.requests == w.hub.requests + hub.requests[|w.hub.requests|..];
        }
      }
    }
  }

  lemma AddKeepsNamesKnown(validName: string -> bool, w: World, id: string, ieee: string, name: string)
    requires Consistent(w) && name != ""
    ensures Consistent(w.(hub := AddDevice(validName, w.hub, id, ieee, name)))
  {
    var hub := AddDevice(validName, w.hub, id, ieee, name);
    if hub.devices != w.hub.devices {
      forall b | b in hub.devices && hub.devices[b].ieee.Some? && hub.devices[b].ieee.value in hub.cache
                 && LastList(w.messages).None?
        ensures || hub.devices[b].name == Some(hub.cache[hub.devices[b].ieee.value])
                || RenameUnderWay(hub.requests, hub.devices[b].ieee.value) || b in w.refused
      {
        JustPublished(w.hub.requests, ieee, name);
        if b != id && RenameUnderWay(w.hub.requests, hub.devices[b].ieee.value) {
          StillUnderWay(w.hub.requests, [Rename(ieee, name)], hub.devices[b].ieee.value);
        }
      }
    }
  }

  lemma RemoveKeepsNamesKnown(w: World, id: string)
    requires Consistent(w)
    ensures Consistent(w.(hub := RemoveDevice(w.hub, id), refused := w.refused - {id}))
  {
    var hub := RemoveDevice(w.hub, id);
    if id in w.hub.devices {
      forall b | b in hub.devices && hub.devices[b].ieee.Some?
                 && RenameUnderWay(w.hub.requests, hub.devices[b].ieee.value)
        ensures RenameUnderWay(hub.requests, hub.devices[b].ieee.value)
      {
        if w.hub.devices[id].ieee.Some? {
          StillUnderWay(w.hub.requests, [Unpair(w.hub.devices[id].ieee.value)], hub.devices[b].ieee.value);
        }
      }
    }
  }

  lemma {:induction false} LastListOfRest(messages: seq<Message>)
    requires messages != []
    ensures LastList(messages) ==
            if LastList(messages[1..]).Some? then LastList(messages[1..])
            else if messages[0].DeviceList? then Some(messages[0].devices) else None
    decreases |messages|
  {
    var n := |messages|;
    if n > 1 && !messages[n - 1].DeviceList? {
      LastListOfRest(messages[..n - 1]);
      assert messages[1..][..n - 2] == messages[..n - 1][1..];
    }
  }

  lemma LastListAppend(messages: seq<Message>, list: Listing)
    ensures LastList(messages + [DeviceList(list)]) == Some(list)
  {
  }

  lemma ListKeepsConsistent(validName: string -> bool, w: World, ids: seq<string>)
    requires Consistent(w) && w.messages != [] && w.messages[0].DeviceList?
    requires Allowed(validName, w, HubReceives(ids, None))
    ensures Consistent(After(validName, w, HubReceives(ids, None)))
  {
    var list := w.messages[0].devices;
    LastListOfRest(w.messages);
    var cached := w.hub.(cache := EligibleNames(list));
    SyncFrame(validName, cached, list, ids);
    if LastList(w.messages[1..]).None? {
      SyncAlignsIff(validName, cached, list, ids);
    }
  }

  lemma ResponseKeepsConsistent(validName: string -> bool, w: World, ids: seq<string>, renamed: Option<string>)
    requires Consistent(w) && w.messages != [] && w.messages[0].RenameResponse?
    ensures Consistent(After(validName, w, HubReceives(ids, renamed)))
  {
    LastListOfRest(w.messages);
    var next := w.(messages := w.messages[1..]);
    assert Consistent(next);
    if renamed.Some? {
      UpdateKeepsNamesKnown(validName, next, renamed.value, Some(w.messages[0].to));
    }
  }

  lemma BridgeKeepsConsistent(validName: string -> bool, w: World, responds: bool)
    requires Consistent(w) && w.hub.requests != []
    ensures Consistent(After(validName, w, BridgeReceives(responds)))
  {
    var request := w.hub.requests[0];
    var next := After(validName, w, BridgeReceives(responds));
    if request.ieee in w.bridge {
      var answers := Answers(w.bridge, request, responds);
      var carried := Carry(w.bridge, request);
      assert w.messages + answers == (w.messages + answers[..|answers| - 1]) + [DeviceList(carried)];
      LastListAppend(w.messages + answers[..|answers| - 1], carried);
    } else {
      assert Carry(w.bridge, request) == w.bridge && w.messages + [] == w.messages;
      forall x | x in w.hub.cache && RenameUnderWay(w.hub.requests, x) && w.hub.cache == EligibleNames(w.bridge)
        ensures RenameUnderWay(w.hub.requests[1..], x)
      {
        var i :| 0 <= i < |w.hub.requests| && w.hub.requests[i].Rename? && w.hub.requests[i].ieee == x;
        assert i > 0 && w.hub.requests[1..][i - 1] == w.hub.requests[i];
      }
    }
  }

  lemma StepKeepsConsistent(validName: string -> bool, w: World, event: Event)
    requires Consistent(w) && Allowed(validName, w, event)
    ensures Consistent(After(validName, w, event))
  {
    match event
    case HubUpdates(id, name) => UpdateKeepsNamesKnown(validName, w, id, name);
    case HubAdds(id, ieee, name) => AddKeepsNamesKnown(validName, w, id, ieee, name);
    case HubRemoves(id) => RemoveKeepsNamesKnown(w, id);
    case HubReceives(ids, renamed) =>
      if w.messages[0].DeviceList? {
        ListKeepsConsistent(validName, w, ids);
      } else {
        ResponseKeepsConsistent(validName, w, ids, renamed);
      }
    case BridgeReceives(responds) => BridgeKeepsConsistent(validName, w, responds);
    case BridgeChanges(devices) => LastListAppend(w.messages, devices);
  }

  ghost predicate IsRun(validName: string -> bool, w: World, events: seq<Event>)
    decreases |events|
  {
    events != [] ==> Allowed(validName, w, events[0]) && IsRun(validName, After(validName, w, events[0]), events[1..])
  }

  ghost function AfterRun(validName: string -> bool, w: World, events: seq<Event>): World
    requires IsRun(validName, w, events)
    decreases |events|
  {
    if events == [] then w else AfterRun(validName, After(validName, w, events[0]), events[1..])
  }

  /**
   * However updates, renames, pairings and messages interleave: when both channels are empty, the names of all eligible
   * devices agree, except where the last list handled gave a device a name that could not be saved in its turn.
   */
  lemma {:induction false} NamesAgreeWhenQuiet(validName: string -> bool, w: World, events: seq<Event>)
    requires Consistent(w) && IsRun(validName, w, events)
    ensures var end := AfterRun(validName, w, events);
            Consistent(end) && (end.messages == [] && end.hub.requests == [] ==> NamesAgreeExcept(end, end.refused))
    decreases |events|
  {
    if events == [] {
      if w.messages == [] && w.hub.requests == [] {
        QuietMeansAgreed(w);
      }
    } else {
      StepKeepsConsistent(validName, w, events[0]);
      NamesAgreeWhenQuiet(validName, After(validName, w, events[0]), events[1..]);
    }
  }

  /** Every list that the hub handles in the run could be saved as it was. */
  ghost predicate ListsAlignable(validName: string -> bool, w: World, events: seq<Event>)
    requires IsRun(validName, w, events)
    decreases |events|
  {
    events != [] ==>
      && (events[0].HubReceives? && w.messages[0].DeviceList? ==>
            Alignable(validName, w.hub.devices, w.messages[0].devices))
      && ListsAlignable(validName, After(validName, w, events[0]), events[1..])
  }

  lemma {:induction false} AlignableRunRefusesNone(validName: string -> bool, w: World, events: seq<Event>)
    requires w.refused == {} && IsRun(validName, w, events) && ListsAlignable(validName, w, events)
    ensures AfterRun(validName, w, events).refused == {}
    decreases |events|
  {
    if events == [] {
    } else {
      if events[0].HubReceives? && w.messages[0].DeviceList? {
        AlignableRefusesNone(validName, w.hub.devices, w.messages[0].devices, events[0].ids);
      }
      AlignableRunRefusesNone(validName, After(validName, w, events[0]), events[1..]);
    }
  }

  /** Without refused names, all names of eligible devices agree. */
  lemma AlignableRunAgrees(validName: string -> bool, w: World, events: seq<Event>)
    requires Consistent(w) && w.refused == {} && IsRun(validName, w, events) && ListsAlignable(validName, w, events)
    ensures var end := AfterRun(validName, w, events);
            end.messages == [] && end.hub.requests == [] ==> NamesAgree(end)
  {
    NamesAgreeWhenQuiet(validName, w, events);
    AlignableRunRefusesNone(validName, w, events);
  }

  /** A hub that has seen nothing yet is consistent as soon as the bridge's first list is on its way. */
  lemma FirstListIsConsistent(devices: map<string, HubDevice>, bridge: Listing)
    ensures Consistent(World(HubState(devices, map[], [], true), bridge, [DeviceList(bridge)], {}))
  {
    LastListAppend([], bridge);
    assert [] + [DeviceList(bridge)] == [DeviceList(bridge)];
  }

  /** The two devices of a hub, with names on the other's device on the bridge. */
  function TwoNames(): map<string, HubDevice> {
    map["a" := HubDevice(Some("1"), Some("one")), "b" := HubDevice(Some("2"), Some("two"))]
  }

  function SwappedNames(x: BridgeDevice): Listing { map["1" := x.(name := "two"), "2" := x.(name := "one")] }

  /** Neither of the names can be saved while the other device has it. */
  lemma SwappedCannotAlign(x: BridgeDevice)
    ensures !CanAlign(_ => true, TwoNames(), SwappedNames(x), "a")
    ensures !CanAlign(_ => true, TwoNames(), SwappedNames(x), "b")
  {
    assert TwoNames()["b"].name == Some("two") && TwoNames()["a"].name == Some("one");
    assert SwappedNames(x)["1"].name == "two" && SwappedNames(x)["2"].name == "one";
  }

  /**
   * Alignment needs names that can be saved one by one: when the bridge has swapped two names, the unique index on
   * stored names refuses both, and hub and bridge disagree although nothing is under way.
   */
  lemma SwappedNamesStayApart(x: BridgeDevice, ids: seq<string>)
    requires Eligible(x) && ids == ["a", "b"]
    ensures var hub := HubState(TwoNames(), map[], [], true);
            var w := World(HandleList(_ => true, hub, SwappedNames(x), ids), SwappedNames(x), [], {});
            && Found(hub.devices, SwappedNames(x), ids)
            && w.hub.devices == hub.devices && w.hub.requests == [] && !NamesAgree(w)
  {
    var cached := HubState(TwoNames(), EligibleNames(SwappedNames(x)), [], true);
    SwappedCannotAlign(x);
    SyncOne(_ => true, cached, SwappedNames(x), "a");
    SyncOne(_ => true, cached, SwappedNames(x), "b");
    SyncOfTwo(_ => true, cached, SwappedNames(x), "a", "b");
    SwappedDisagree(x, cached);
  }

  lemma SwappedDisagree(x: BridgeDevice, hub: HubState)
    requires Eligible(x) && hub.devices == TwoNames()
    ensures !NamesAgree(World(hub, SwappedNames(x), [], {}))
  {
    assert "a" in hub.devices && hub.devices["a"].ieee == Some("1") && hub.devices["a"].name == Some("one");
    assert SwappedNames(x)["1"].name == "two" && "one" != "two";
  }

  lemma SyncOfTwo(validName: string -> bool, h: HubState, list: Listing, a: string, b: string)
    ensures SyncFriendlyNames(validName, h, list, [a, b])
            == SyncDevice(validName, SyncDevice(validName, h, list, a), list, b)
  {
    var next := SyncDevice(validName, h, list, a);
    assert [a, b][1..] == [b] && [b][1..] == [];
    assert SyncFriendlyNames(validName, next, list, [b]) == SyncDevice(validName, next, list, b);
  }
}

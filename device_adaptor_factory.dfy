// The cache of device queues, one per authentication type
// (src/daemon/device/device-adaptor-factory.cpp). The device service's
// answers (which object path a device id has, which device id an object
// path carries, and the JSON list of devices of a type) are a value here.
module DeviceAdaptorFactoryModel {
  import opened KasTypes
  import opened AuthDeviceJson
  import Utils
  import opened DeviceAdaptorModel

  /** What the device service answers. A device type of `None` stands for the
      -1 sent for a type without devices; a document of `None` for a reply
      that does not parse. */
  datatype DeviceService = DeviceService(
    paths: map<string, string>,
    idAt: map<string, string>,
    devicesByType: map<Option<DeviceType>, Option<Json>>)

  /** GetDevice: the object path of a device id, "" when unknown. */
  function GetDevice(svc: DeviceService, deviceID: string): string
  {
    if deviceID in svc.paths then svc.paths[deviceID] else ""
  }

  function DevicesByType(svc: DeviceService, t: Option<DeviceType>): Option<Json>
  {
    if t in svc.devicesByType then svc.devicesByType[t] else None
  }

  /** A proxy for the device at `path`; its device id is read from the device. */
  function ProxyAt(svc: DeviceService, path: string): DeviceProxy
  {
    DeviceProxy(if path in svc.idAt then svc.idAt[path] else "")
  }

  /** The object path of the first device of a type, "" when there is none. */
  function FirstDevicePath(svc: DeviceService, authType: int): string
  {
    var devices := AuthDevicesFromJson(DevicesByType(svc, Utils.AuthType2DeviceType(authType)));
    if |devices| > 0 then devices[0].objectPath else ""
  }

  /** getDBusDeviceProxy: the suggested device when the service knows it,
      otherwise the first device of the type, otherwise none. */
  function GetDBusDeviceProxy(svc: DeviceService, authType: int, suggestDeviceID: string): (p: Option<DeviceProxy>)
  {
    var suggested := if suggestDeviceID != "" then GetDevice(svc, suggestDeviceID) else "";
    var path := if suggested == "" then FirstDevicePath(svc, authType) else suggested;
    if path != "" then Some(ProxyAt(svc, path)) else None
  }

  /** Selection order of getDBusDeviceProxy. */
  lemma ProxySelection(svc: DeviceService, authType: int, suggestDeviceID: string)
    ensures var p := GetDBusDeviceProxy(svc, authType, suggestDeviceID);
      var suggested := GetDevice(svc, suggestDeviceID);
      var devices := AuthDevicesFromJson(DevicesByType(svc, Utils.AuthType2DeviceType(authType)));
      (suggestDeviceID != "" && suggested != "" ==> p == Some(ProxyAt(svc, suggested)))
      && ((suggestDeviceID == "" || suggested == "") && devices != [] && devices[0].objectPath != "" ==>
            p == Some(ProxyAt(svc, devices[0].objectPath)))
      && ((suggestDeviceID == "" || suggested == "") && (devices == [] || devices[0].objectPath == "") ==>
            p.None?)
  {
  }

  /** A device the service knows under the suggested id, at a path that
      reports that id, is the one selected. */
  lemma SuggestedDeviceWins(svc: DeviceService, authType: int, deviceID: string)
    requires deviceID != "" && deviceID in svc.paths && svc.paths[deviceID] != ""
    requires svc.paths[deviceID] in svc.idAt && svc.idAt[svc.paths[deviceID]] == deviceID
    ensures GetDBusDeviceProxy(svc, authType, deviceID) == Some(DeviceProxy(deviceID))
  {
  }

  /** Without any device known to the service, no proxy is produced. */
  lemma NoDeviceNoProxy(svc: DeviceService, authType: int, suggestDeviceID: string)
    requires svc.paths == map[] && svc.devicesByType == map[]
    ensures GetDBusDeviceProxy(svc, authType, suggestDeviceID).None?
  {
  }

  /** What onDefaultDeviceChanged does to the queue of the type: when it runs
      on another device and the service has a device reporting exactly the
      new id `deviceID` (the proxy `p` it selects for that id), the queue
      moves to it; otherwise it stays as it was. */
  ghost function DefaultChangedSpec(s: AdaptorState, deviceID: string, p: Option<DeviceProxy>): (t: AdaptorState)
    requires WF(s)
    ensures WF(t)
    ensures p == Some(DeviceProxy(deviceID)) ==> t.deviceID == deviceID
    ensures p != Some(DeviceProxy(deviceID)) ==> t == s
  {
    if s.deviceID != deviceID && p == Some(DeviceProxy(deviceID)) then UpdateProxySpec(s, p) else s
  }

  /** A queue created while the default device is already `deviceID` runs
      on the device the service selects for that id, so the default-device
      change leaves it as it was created. */
  lemma CreatedOnDefaultNotRebound(svc: DeviceService, authType: int, deviceID: string)
    ensures var q := GetDBusDeviceProxy(svc, authType, deviceID);
      q.Some? ==>
        var s0 := UpdateProxySpec(InitialState, q);
        s0.proxy == q && DefaultChangedSpec(s0, deviceID, q) == s0
  {
    var q := GetDBusDeviceProxy(svc, authType, deviceID);
    if q.Some? {
      assert InitialState.proxy.None?;
    }
  }

  class DeviceAdaptorFactory {
    var devices: map<int, DeviceAdaptor>

    /** Every cached queue is consistent, and no queue is cached twice. */
    ghost predicate Valid()
      reads this, devices.Values
    {
      (forall t :: t in devices ==> devices[t].Valid())
      && (forall t, u :: t in devices && u in devices && t != u ==> devices[t] != devices[u])
    }

    constructor()
      ensures devices == map[] && Valid()
    {
      devices := map[];
    }

    /** getDeviceAdaptor with createDeviceAdaptor: the cached queue, or a new
        one on the selected device, cached only when a device was found.
        `defaultDeviceID` is the configured default device of the type. */
    method GetDeviceAdaptor(authType: int, defaultDeviceID: string, svc: DeviceService) returns (a: Option<DeviceAdaptor>)
      requires Valid()
      modifies this
      ensures Valid()
      ensures authType in old(devices) ==> a == Some(old(devices)[authType]) && devices == old(devices)
      ensures authType !in old(devices) && GetDBusDeviceProxy(svc, authType, defaultDeviceID).None? ==>
        a.None? && devices == old(devices)
      ensures authType !in old(devices) && GetDBusDeviceProxy(svc, authType, defaultDeviceID).Some? ==>
        a.Some? && fresh(a.value) && devices == old(devices)[authType := a.value]
        && a.value.State() == UpdateProxySpec(InitialState, GetDBusDeviceProxy(svc, authType, defaultDeviceID))
      ensures a.Some? ==> a.value in devices.Values
      ensures forall t :: t in old(devices) ==> t in devices && devices[t] == old(devices)[t]
    {
      if authType in devices {
        assert devices[authType] in devices.Values;
        return Some(devices[authType]);
      }
      var p := GetDBusDeviceProxy(svc, authType, defaultDeviceID);
      if p.None? {
        return None;
      }
      var adaptor := new DeviceAdaptor(p);
      devices := devices[authType := adaptor];
      assert devices[authType] in devices.Values;
      a := Some(adaptor);
    }

    /** The default device of a type changed to `deviceID`: fetch the queue,
        creating and caching it on the selected device when there is none,
        then apply the default-device change to it. No other queue changes. */
    method OnDefaultDeviceChanged(authType: int, deviceID: string, defaultDeviceID: string, svc: DeviceService)
      requires Valid()
      modifies this, devices.Values
      ensures Valid()
      ensures forall t :: t in old(devices) ==> t in devices && devices[t] == old(devices[t])
      ensures forall t :: t in old(devices) && t != authType ==> devices[t].State() == old(devices[t].State())
      ensures authType in old(devices) ==>
        && devices == old(devices)
        && old(devices)[authType].State()
           == DefaultChangedSpec(old(devices[authType].State()), deviceID, GetDBusDeviceProxy(svc, authType, deviceID))
      ensures authType !in old(devices) ==>
        var q := GetDBusDeviceProxy(svc, authType, defaultDeviceID);
        if q.None? then devices == old(devices)
        else
          && authType in devices && fresh(devices[authType])
          && devices == old(devices)[authType := devices[authType]]
          && devices[authType].State()
             == DefaultChangedSpec(UpdateProxySpec(InitialState, q), deviceID, GetDBusDeviceProxy(svc, authType, deviceID))
    {
      var a := GetDeviceAdaptor(authType, defaultDeviceID, svc);
      if a.Some? {
        RebindIfMoved(authType, deviceID, svc);
      }
    }

    /** The rebind step of onDefaultDeviceChanged on the cached queue `t`. */
    method RebindIfMoved(t: int, deviceID: string, svc: DeviceService)
      requires Valid() && t in devices
      modifies devices[t]
      ensures Valid()
      ensures devices[t].State() == DefaultChangedSpec(old(devices[t].State()), deviceID, GetDBusDeviceProxy(svc, t, deviceID))
      ensures forall u :: u in devices && u != t ==> devices[u].State() == old(devices[u].State())
    {
      var adaptor := devices[t];
      assert adaptor.Valid();
      var id := adaptor.GetDeviceID();
      if id != deviceID {
        var p := GetDBusDeviceProxy(svc, t, deviceID);
        if p.Some? && p.value.deviceID == deviceID {
          Rebind(t, p);
        }
      }
    }

    /** The queue under `t` moves to the device of `p`; the other queues
        stay as they were. */
    method Rebind(t: int, p: Option<DeviceProxy>)
      requires Valid() && t in devices
      modifies devices[t]
      ensures Valid()
      ensures devices[t].State() == UpdateProxySpec(old(devices[t].State()), p)
      ensures forall u :: u in devices && u != t ==> devices[u].State() == old(devices[u].State())
    {
      var adaptor := devices[t];
      assert adaptor.Valid();
      UpdateProxyKeepsInv(adaptor.State(), p);
      label Updating:
      adaptor.UpdateDBusDeviceProxy(p);
      forall u | u in devices && u != t
        ensures devices[u].State() == old@Updating(devices[u].State())
      {
        assert devices[u] != adaptor;
      }
    }

    /** The device service went away: every queue is cleared and dropped. */
    method OnAuthDeviceManagerLost()
      requires Valid()
      modifies this, devices.Values
      ensures devices == map[]
      ensures forall t :: t in old(devices) ==> old(devices)[t].State() == RemoveAllSpec(old(devices[t].State()))
    {
      ghost var m := devices;
      ghost var before := map t | t in devices :: devices[t].State();
      assert forall t :: t in devices ==> devices[t].Valid();
      while devices != map[]
        invariant Valid()
        invariant forall t, u :: t in m && u in m && t != u ==> m[t] != m[u]
        invariant forall t :: t in m ==> t in before && WF(before[t])
        invariant forall t :: t in devices ==> t in m && devices[t] == m[t] && m[t].State() == before[t]
        invariant forall t :: t in m && t !in devices ==> m[t].State() == RemoveAllSpec(before[t])
        decreases devices.Keys
      {
        var k := LeastKey(devices.Keys);
        EraseNext(k, m, before);
      }
    }

    /** One step of OnAuthDeviceManagerLost: the queue under `k` is cleared
        and erased; the queues of `m` erased before stay as they were left,
        the ones still cached keep their state `before`. */
    method EraseNext(k: int, ghost m: map<int, DeviceAdaptor>, ghost before: map<int, AdaptorState>)
      requires Valid() && k in devices
      requires forall t, u :: t in m && u in m && t != u ==> m[t] != m[u]
      requires forall t :: t in m ==> t in before && WF(before[t])
      requires forall t :: t in devices ==> t in m && devices[t] == m[t] && m[t].State() == before[t]
      requires forall t :: t in m && t !in devices ==> m[t].State() == RemoveAllSpec(before[t])
      modifies this, devices[k]
      ensures Valid() && devices == old(devices) - {k}
      ensures forall t :: t in devices ==> t in m && devices[t] == m[t] && m[t].State() == before[t]
      ensures forall t :: t in m && t !in devices ==> m[t].State() == RemoveAllSpec(before[t])
    {
      label Clearing:
      ClearAndErase(k);
      forall t | t in m && t !in devices
        ensures m[t].State() == RemoveAllSpec(before[t])
      {
        if t != k {
          assert m[t] != m[k];
          assert m[t].State() == old@Clearing(m[t].State());
        }
      }
    }

    /** The first queue, in ascending type order, that runs on `deviceID`. */
    method FindByDevice(deviceID: string) returns (found: Option<int>)
      ensures found.None? ==> forall t :: t in devices ==> devices[t].deviceID != deviceID
      ensures found.Some? ==>
        found.value in devices && devices[found.value].deviceID == deviceID
        && forall t :: t in devices && t < found.value ==> devices[t].deviceID != deviceID
    {
      found := None;
      var rest := devices.Keys;
      while rest != {} && found.None?
        invariant rest <= devices.Keys
        invariant forall i, j :: i in devices && i !in rest && j in rest ==> i < j
        invariant found.None? ==> forall t :: t in devices && t !in rest ==> devices[t].deviceID != deviceID
        invariant found.Some? ==>
          found.value in devices && devices[found.value].deviceID == deviceID
          && forall t :: t in devices && t < found.value ==> devices[t].deviceID != deviceID
        decreases |rest|
      {
        var k := LeastKey(rest);
        if devices[k].deviceID == deviceID {
          found := Some(k);
        }
        rest := rest - {k};
      }
    }

    /** The queue under `k` is cleared and erased from the cache; the
        other queues stay as they were. */
    method ClearAndErase(k: int)
      requires Valid() && k in devices
      modifies this, devices[k]
      ensures Valid() && devices == old(devices) - {k}
      ensures old(devices)[k].State() == RemoveAllSpec(old(devices[k].State()))
      ensures forall t :: t in devices ==> devices[t].State() == old(devices[t].State())
    {
      var adaptor := devices[k];
      assert adaptor.Valid();
      label Removing:
      adaptor.RemoveAllRequest();
      devices := devices - {k};
      forall t | t in devices
        ensures devices[t].State() == old@Removing(devices[t].State())
      {
        assert devices[t] != adaptor;
      }
    }

    /** A device was unplugged: the first queue (in ascending type order) on
        that device is cleared and dropped; the others stay. */
    method OnDeviceDeleted(deviceID: string)
      requires Valid()
      modifies this, devices.Values
      ensures Valid()
      ensures (forall t :: t in old(devices) ==> old(devices[t].deviceID) != deviceID) ==>
        devices == old(devices) && forall t :: t in devices ==> devices[t].State() == old(devices[t].State())
      ensures forall k ::
        (k in old(devices) && old(devices[k].deviceID) == deviceID
         && forall j :: j in old(devices) && j < k ==> old(devices[j].deviceID) != deviceID)
        ==>
        (devices == old(devices) - {k}
         && old(devices)[k].State() == RemoveAllSpec(old(devices[k].State()))
         && forall t :: t in devices ==> devices[t].State() == old(devices[t].State()))
    {
      var found := FindByDevice(deviceID);
      if found.Some? {
        var k := found.value;
        assert forall i :: i in old(devices) && i < k ==> old(devices[i].deviceID) != deviceID;
        ClearAndErase(k);
        forall j | j in old(devices) && old(devices[j].deviceID) == deviceID
                   && forall i :: i in old(devices) && i < j ==> old(devices[i].deviceID) != deviceID
          ensures j == k
        {
          if j < k {
            assert false;
          }
        }
      }
    }
  }
}

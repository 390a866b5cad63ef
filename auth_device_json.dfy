// Decoding the device list that the device service returns as a JSON text
// (src/daemon/json/auth-device.cpp).
module AuthDeviceJson {
  import opened KasTypes

  /** A JSON value as the Qt JSON classes see it. */
  datatype Json =
    | JNull
    | JBool(b: bool)
    | JNumber(n: int)
    | JString(s: string)
    | JArray(items: seq<Json>)
    | JObject(fields: map<string, Json>)

  datatype AuthDevice = AuthDevice(id: string, name: string, objectPath: string)

  /** QJsonValue::toString() of a member: the text of a string, "" for anything
      else, including a missing member. */
  function MemberString(fields: map<string, Json>, key: string): (r: string)
    ensures key in fields && fields[key].JString? ==> r == fields[key].s
    ensures !(key in fields && fields[key].JString?) ==> r == ""
  {
    if key in fields && fields[key].JString? then fields[key].s else ""
  }

  function DeviceOfObject(fields: map<string, Json>): AuthDevice
  {
    AuthDevice(MemberString(fields, "deviceID"), MemberString(fields, "deviceName"), MemberString(fields, "objectPath"))
  }

  function DevicesOfItems(items: seq<Json>): (r: seq<AuthDevice>)
    ensures |r| <= |items|
  {
    if items == [] then []
    else if items[0].JObject? then [DeviceOfObject(items[0].fields)] + DevicesOfItems(items[1..])
    else DevicesOfItems(items[1..])
  }

  /** The devices listed in a document; `None` is a text that does not parse.
      Anything but an array gives no device, and non-object elements are skipped. */
  function AuthDevicesFromJson(doc: Option<Json>): (r: seq<AuthDevice>)
    ensures !(doc.Some? && doc.value.JArray?) ==> r == []
  {
    if doc.Some? && doc.value.JArray? then DevicesOfItems(doc.value.items) else []
  }

  // ---- Reference definition: keep the objects, then convert each ----

  function ObjectsOf(items: seq<Json>): seq<map<string, Json>>
  {
    if items == [] then []
    else (if items[0].JObject? then [items[0].fields] else []) + ObjectsOf(items[1..])
  }

  /** The decoder is "keep the object elements in order, then read three members of each". */
  lemma {:induction false} DevicesAreConvertedObjects(items: seq<Json>)
    ensures |DevicesOfItems(items)| == |ObjectsOf(items)|
    ensures forall i :: 0 <= i < |ObjectsOf(items)| ==> DevicesOfItems(items)[i] == DeviceOfObject(ObjectsOf(items)[i])
  {
    if items != [] {
      var rest := items[1..];
      DevicesAreConvertedObjects(rest);
      if items[0].JObject? {
        var r, o := DevicesOfItems(items), ObjectsOf(items);
        assert r == [DeviceOfObject(items[0].fields)] + DevicesOfItems(rest);
        assert o == [items[0].fields] + ObjectsOf(rest);
        forall i | 0 <= i < |o|
          ensures r[i] == DeviceOfObject(o[i])
        {
          if i > 0 {
            assert r[i] == DevicesOfItems(rest)[i - 1] && o[i] == ObjectsOf(rest)[i - 1];
          }
        }
      } else {
        assert ObjectsOf(items) == ObjectsOf(rest);
      }
    }
  }

  /** Every element of an array decodes to a device exactly when all are objects. */
  lemma {:induction false} AllObjectsKept(items: seq<Json>)
    ensures |DevicesOfItems(items)| == |items| <==> forall i :: 0 <= i < |items| ==> items[i].JObject?
  {
    if items != [] {
      AllObjectsKept(items[1..]);
      assert forall i :: 1 <= i < |items| ==> items[i] == items[1..][i - 1];
    }
  }

  /** A well-formed entry is read back exactly. */
  lemma ObjectRoundTrip(d: AuthDevice)
    ensures DeviceOfObject(map["deviceID" := JString(d.id), "deviceName" := JString(d.name), "objectPath" := JString(d.objectPath)]) == d
  {
  }
}

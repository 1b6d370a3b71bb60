/** api/UnipiDevice: a device reported by the Unipi controller, read from
    and written to a JSON object. */
module UnipiDevices {
  import opened Wrappers
  import opened Json

  datatype Device = Device(
    dev: Option<string>,
    family: Option<string>,
    model: Option<string>,
    sn: Option<int>,
    boardCount: Option<int>,
    circuit: Option<string>)

  /** The JSON constructor: each key read with `get` and cast, a missing key
      giving null; the board count is read from "board_count". A value of
      the wrong type throws. */
  function DeviceFromJson(json: map<string, Json>): (r: Result<Device>)
    ensures r.Ok? <==>
              && AsText(Get(json, "dev")).Ok? && AsText(Get(json, "family")).Ok? && AsText(Get(json, "model")).Ok?
              && AsLong(Get(json, "sn")).Ok? && AsLong(Get(json, "board_count")).Ok? && AsText(Get(json, "circuit")).Ok?
    ensures r.Err? ==> r.error == ClassCast
    ensures r.Ok? ==>
              && r.value.dev == AsText(Get(json, "dev")).value
              && r.value.family == AsText(Get(json, "family")).value
              && r.value.model == AsText(Get(json, "model")).value
              && r.value.sn == AsLong(Get(json, "sn")).value
              && r.value.boardCount == AsLong(Get(json, "board_count")).value
              && r.value.circuit == AsText(Get(json, "circuit")).value
  {
    match (AsText(Get(json, "dev")), AsText(Get(json, "family")), AsText(Get(json, "model")),
           AsLong(Get(json, "sn")), AsLong(Get(json, "board_count")), AsText(Get(json, "circuit")))
    case (Ok(dev), Ok(family), Ok(model), Ok(sn), Ok(boardCount), Ok(circuit)) =>
      Ok(Device(dev, family, model, sn, boardCount, circuit))
    case _ => Err(ClassCast)
  }

  /** `toJson`: all six keys, a null field as a null value; the board count
      under "boardCount". */
  function DeviceToJson(d: Device): (json: map<string, Json>)
    ensures json.Keys == {"dev", "family", "model", "sn", "boardCount", "circuit"}
    ensures json["dev"] == FromText(d.dev) && json["family"] == FromText(d.family)
    ensures json["model"] == FromText(d.model) && json["sn"] == FromLong(d.sn)
    ensures json["boardCount"] == FromLong(d.boardCount) && json["circuit"] == FromText(d.circuit)
  {
    map["dev" := FromText(d.dev), "family" := FromText(d.family), "model" := FromText(d.model),
        "sn" := FromLong(d.sn), "boardCount" := FromLong(d.boardCount), "circuit" := FromText(d.circuit)]
  }

  /** Rebuilding a device from its own JSON keeps every field but the board
      count, which is written as "boardCount" and read as "board_count". */
  lemma DeviceRoundTrip(d: Device)
    ensures DeviceFromJson(DeviceToJson(d)) == Ok(d.(boardCount := None))
  {
    var json := DeviceToJson(d);
    assert "board_count" !in json;
    assert AsText(FromText(d.dev)) == Ok(d.dev) && AsText(FromText(d.family)) == Ok(d.family);
    assert AsText(FromText(d.model)) == Ok(d.model) && AsText(FromText(d.circuit)) == Ok(d.circuit);
    assert AsLong(FromLong(d.sn)) == Ok(d.sn);
  }
}

/** api/UnipiDeviceRO: a relay output of the Unipi controller. */
module UnipiRelays {
  import opened Wrappers
  import opened Json

  datatype Relay = Relay(dev: Option<string>, circuit: Option<string>, value: Option<int>)

  /** The JSON constructor: dev, circuit and value, a missing key giving
      null; a value of the wrong type throws. */
  function RelayFromJson(json: map<string, Json>): (r: Result<Relay>)
    ensures r.Ok? <==> AsText(Get(json, "dev")).Ok? && AsText(Get(json, "circuit")).Ok? && AsLong(Get(json, "value")).Ok?
    ensures r.Err? ==> r.error == ClassCast
    ensures r.Ok? ==>
              && r.value.dev == AsText(Get(json, "dev")).value
              && r.value.circuit == AsText(Get(json, "circuit")).value
              && r.value.value == AsLong(Get(json, "value")).value
  {
    match (AsText(Get(json, "dev")), AsText(Get(json, "circuit")), AsLong(Get(json, "value")))
    case (Ok(dev), Ok(circuit), Ok(value)) => Ok(Relay(dev, circuit, value))
    case _ => Err(ClassCast)
  }

  /** `toJson`: exactly the three keys, a null field as a null value. */
  function RelayToJson(r: Relay): (json: map<string, Json>)
    ensures json.Keys == {"dev", "circuit", "value"}
    ensures json["dev"] == FromText(r.dev) && json["circuit"] == FromText(r.circuit) && json["value"] == FromLong(r.value)
  {
    map["dev" := FromText(r.dev), "circuit" := FromText(r.circuit), "value" := FromLong(r.value)]
  }

  /** Rebuilding a relay from its own JSON gives it back. */
  lemma RelayRoundTrip(r: Relay)
    ensures RelayFromJson(RelayToJson(r)) == Ok(r)
  {
    assert AsText(FromText(r.dev)) == Ok(r.dev) && AsText(FromText(r.circuit)) == Ok(r.circuit);
    assert AsLong(FromLong(r.value)) == Ok(r.value);
  }
}

/** api/UnipiApi: the URLs of the controller's REST interface and the
    search for a device by circuit. The HTTP requests are not modelled. */
module UnipiUrls {
  import opened Wrappers
  import opened UnipiDevices

  /** `getUrl`: "http://name:port"; a null name or port throws. */
  function GetUrl(name: Option<string>, port: Option<string>): (r: Result<string>)
    ensures r.Ok? <==> name.Some? && port.Some?
    ensures r.Err? ==> r.error == IO
    ensures r.Ok? ==> r.value == "http://" + name.value + ":" + port.value
  {
    if name.Some? && port.Some? then Ok("http://" + name.value + ":" + port.value) else Err(IO)
  }

  /** `getUrlFormat`: the base URL, "/" and the format (a null format is
      written "null", as Java's string concatenation does). */
  function GetUrlFormat(name: Option<string>, port: Option<string>, format: Option<string>): (r: Result<string>)
    ensures r.Ok? <==> GetUrl(name, port).Ok?
    ensures r.Err? ==> r.error == IO
    ensures r.Ok? ==> r.value == GetUrl(name, port).value + "/" + JavaText(format)
  {
    match GetUrl(name, port)
    case Ok(url) => Ok(url + "/" + JavaText(format))
    case Err(e) => Err(e)
  }

  /** `addCircuit`: the URL, "/" and the circuit; a null circuit throws. */
  function AddCircuit(url: string, circuit: Option<string>): (r: Result<string>)
    ensures r.Ok? <==> circuit.Some?
    ensures r.Err? ==> r.error == IO
    ensures r.Ok? ==> r.value == url + "/" + circuit.value && StartsWith(r.value, url)
  {
    if circuit.Some? then Ok(url + "/" + circuit.value) else Err(IO)
  }

  /** The URL `getDeviceList` asks for, built from the three helpers, is
      "http://name:port/json/device_info/all"; with a null name or port no
      URL is built. */
  lemma DeviceListUrl(name: Option<string>, port: Option<string>)
    ensures GetUrlFormat(name, port, Some("json")).Ok? <==> name.Some? && port.Some?
    ensures name.Some? && port.Some? ==>
              AddCircuit(GetUrlFormat(name, port, Some("json")).value + "/" + "device_info", Some("all"))
                == Ok("http://" + name.value + ":" + port.value + "/json/device_info/all")
  {
    if name.Some? && port.Some? {
      var base := "http://" + name.value + ":" + port.value;
      assert JavaText(Some("json")) == "json";
      assert base + "/" + "json" + "/" + "device_info" + "/" + "all" == base + "/json/device_info/all";
    }
  }

  /** The index at which the search of `getDevice` stops: the first device
      whose circuit is null (`getCircuit().equals` throws) or equals the
      one sought; the length when there is none. */
  function SearchStop(devices: seq<Device>, circuit: Option<string>): (k: nat)
    ensures k <= |devices|
    ensures forall i :: 0 <= i < k ==> devices[i].circuit.Some? && devices[i].circuit != circuit
    ensures k < |devices| ==> devices[k].circuit.None? || devices[k].circuit == circuit
  {
    if devices == [] then 0
    else if devices[0].circuit.None? || devices[0].circuit == circuit then 0
    else 1 + SearchStop(devices[1..], circuit)
  }

  /** The search loop of `getDevice` over the device list: the first device,
      in list order, whose circuit equals the one sought; a device without
      a circuit before it throws `NullPointerException`; no match (or no
      list) throws `IOException`. */
  method GetDevice(deviceList: Option<seq<Device>>, circuit: Option<string>) returns (r: Result<Device>)
    ensures deviceList.None? ==> r == Err(IO)
    ensures deviceList.Some? ==>
              var k := SearchStop(deviceList.value, circuit);
              r == if k == |deviceList.value| then Err(IO)
                   else if deviceList.value[k].circuit.None? then Err(NullPointer)
                   else Ok(deviceList.value[k])
  {
    if deviceList.Some? {
      var devices := deviceList.value;
      var i := 0;
      while i < |devices|
        invariant 0 <= i <= |devices|
        invariant forall j :: 0 <= j < i ==> devices[j].circuit.Some? && devices[j].circuit != circuit
      {
        if devices[i].circuit.None? {
          SearchStopAt(devices, circuit, i);
          return Err(NullPointer);
        }
        if devices[i].circuit == circuit {
          SearchStopAt(devices, circuit, i);
          return Ok(devices[i]);
        }
        i := i + 1;
      }
      SearchStopAt(devices, circuit, i);
    }
    return Err(IO);
  }

  /** The search stops at the first index where it can. */
  lemma {:induction false} SearchStopAt(devices: seq<Device>, circuit: Option<string>, k: nat)
    requires k <= |devices|
    requires forall j :: 0 <= j < k ==> devices[j].circuit.Some? && devices[j].circuit != circuit
    requires k < |devices| ==> devices[k].circuit.None? || devices[k].circuit == circuit
    ensures SearchStop(devices, circuit) == k
  {
    if k > 0 {
      SearchStopAt(devices[1..], circuit, k - 1);
    }
  }
}

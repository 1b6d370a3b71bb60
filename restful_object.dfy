/** api/restful/RestfulObject: an object of the REST test service with an
    id, a name, a creation time, a message and a data object, read from and
    written to a JSON object. Only the keys that are present change a
    field; a value of the wrong type throws `ClassCastException`. */
module RestfulObjects {
  import opened Wrappers
  import opened Json

  const IdKey := "id"
  const NameKey := "name"
  const CreatedAtKey := "createdAt"
  const DataKey := "data"
  const MessageKey := "message"

  /** The fields of the object; `None` is a null reference. */
  datatype RestState = RestState(
    id: Option<string>,
    name: Option<string>,
    createdAt: Option<string>,
    message: Option<string>,
    data: Option<map<string, Json>>)

  /** The state `reset` (and so the constructor) leaves: every text field
      null, the data an empty object. */
  const Blank := RestState(None, None, None, None, Some(map[]))

  /** The new value of a text field: the cast value of `key` when the key
      is present, the current value otherwise. */
  function TextField(json: map<string, Json>, key: string, current: Option<string>): (r: Result<Option<string>>)
    ensures key !in json ==> r == Ok(current)
    ensures key in json ==> r == AsText(json[key])
  {
    if key in json then AsText(json[key]) else Ok(current)
  }

  /** `fromJson`: with an "id" key, id is set and then name, createdAt and
      data, each only when its key is present; without one, only message,
      when its key is present. The first value of the wrong type throws and
      leaves the fields set before it. */
  function FromJson(st: RestState, json: map<string, Json>): (r: (RestState, Outcome))
    ensures r.1.Fail? ==> r.1.error == ClassCast
    ensures r.1.Pass? <==>
              if IdKey in json then
                && AsText(json[IdKey]).Ok?
                && TextField(json, NameKey, st.name).Ok?
                && TextField(json, CreatedAtKey, st.createdAt).Ok?
                && (DataKey in json ==> AsObject(json[DataKey]).Ok?)
              else TextField(json, MessageKey, st.message).Ok?
    ensures r.1.Pass? && IdKey in json ==>
              && r.0.id == AsText(json[IdKey]).value
              && r.0.name == TextField(json, NameKey, st.name).value
              && r.0.createdAt == TextField(json, CreatedAtKey, st.createdAt).value
              && r.0.data == (if DataKey in json then AsObject(json[DataKey]).value else st.data)
              && r.0.message == st.message
    ensures r.1.Pass? && IdKey !in json ==>
              r.0 == st.(message := TextField(json, MessageKey, st.message).value)
  {
    if IdKey in json then
      match AsText(json[IdKey])
      case Err(e) => (st, Fail(e))
      case Ok(id) =>
        var st1 := st.(id := id);
        match TextField(json, NameKey, st1.name)
        case Err(e) => (st1, Fail(e))
        case Ok(name) =>
          var st2 := st1.(name := name);
          match TextField(json, CreatedAtKey, st2.createdAt)
          case Err(e) => (st2, Fail(e))
          case Ok(createdAt) =>
            var st3 := st2.(createdAt := createdAt);
            if DataKey !in json then (st3, Pass)
            else
              match AsObject(json[DataKey])
              case Err(e) => (st3, Fail(e))
              case Ok(data) => (st3.(data := data), Pass)
    else
      match TextField(json, MessageKey, st.message)
      case Err(e) => (st, Fail(e))
      case Ok(message) => (st.(message := message), Pass)
  }

  /** `fromJson` never clears or changes a field whose key is absent, and
      never changes message when the object has an id. */
  lemma FromJsonKeepsAbsent(st: RestState, json: map<string, Json>)
    ensures var s := FromJson(st, json).0;
      && (IdKey !in json ==> s.id == st.id)
      && (NameKey !in json || IdKey !in json ==> s.name == st.name)
      && (CreatedAtKey !in json || IdKey !in json ==> s.createdAt == st.createdAt)
      && (DataKey !in json || IdKey !in json ==> s.data == st.data)
      && (MessageKey !in json || IdKey in json ==> s.message == st.message)
  {
  }

  /** `toJson`: a key for each field that is not null, with its value. */
  function ToJson(st: RestState): (json: map<string, Json>)
    ensures json.Keys <= {IdKey, NameKey, CreatedAtKey, DataKey, MessageKey}
    ensures IdKey in json <==> st.id.Some?
    ensures NameKey in json <==> st.name.Some?
    ensures CreatedAtKey in json <==> st.createdAt.Some?
    ensures DataKey in json <==> st.data.Some?
    ensures MessageKey in json <==> st.message.Some?
    ensures st.id.Some? ==> json[IdKey] == JStr(st.id.value)
    ensures st.name.Some? ==> json[NameKey] == JStr(st.name.value)
    ensures st.createdAt.Some? ==> json[CreatedAtKey] == JStr(st.createdAt.value)
    ensures st.data.Some? ==> json[DataKey] == JObj(st.data.value)
    ensures st.message.Some? ==> json[MessageKey] == JStr(st.message.value)
  {
    var m0: map<string, Json> := map[];
    var m1 := if st.id.Some? then m0[IdKey := JStr(st.id.value)] else m0;
    var m2 := if st.name.Some? then m1[NameKey := JStr(st.name.value)] else m1;
    var m3 := if st.createdAt.Some? then m2[CreatedAtKey := JStr(st.createdAt.value)] else m2;
    var m4 := if st.data.Some? then m3[DataKey := JObj(st.data.value)] else m3;
    if st.message.Some? then m4[MessageKey := JStr(st.message.value)] else m4
  }

  /** After `reset`, `toJson` writes the empty data object and nothing else. */
  lemma BlankJson()
    ensures ToJson(Blank) == map[DataKey := JObj(map[])]
  {
  }

  /** Reading an object's own JSON into a fresh object restores id, name,
      createdAt and data (a null data keeps the fresh empty object) but not
      the message, which is read only when there is no id. */
  lemma RoundTripWithId(st: RestState)
    requires st.id.Some?
    ensures FromJson(Blank, ToJson(st)) == (st.(message := None, data := Some(st.data.GetOr(map[]))), Pass)
  {
    var json := ToJson(st);
    assert NameKey != IdKey && CreatedAtKey != IdKey && DataKey != IdKey;
    assert st.name.None? ==> NameKey !in json;
  }

  /** Without an id, the round trip restores the message alone. */
  lemma RoundTripWithoutId(st: RestState)
    requires st.id.None?
    ensures FromJson(Blank, ToJson(st)) == (Blank.(message := st.message), Pass)
  {
  }

  class RestfulObject {
    var id: Option<string>
    var name: Option<string>
    var createdAt: Option<string>
    var message: Option<string>
    var data: Option<map<string, Json>>

    function State(): RestState
      reads this
    {
      RestState(id, name, createdAt, message, data)
    }

    constructor ()
      ensures State() == Blank
    {
      id, name, createdAt, message := None, None, None, None;
      data := Some(map[]);
    }

    /** `reset`. */
    method Reset()
      modifies this
      ensures State() == Blank
    {
      id, name, createdAt, message := None, None, None, None;
      data := Some(map[]);
    }

    /** `fromJson`, field by field through the setters. */
    method FromJsonObject(json: map<string, Json>) returns (outcome: Outcome)
      modifies this
      ensures (State(), outcome) == FromJson(old(State()), json)
    {
      if IdKey in json {
        var v := AsText(json[IdKey]);
        if v.Err? {
          return Fail(v.error);
        }
        id := v.value;
        if NameKey in json {
          v := AsText(json[NameKey]);
          if v.Err? {
            return Fail(v.error);
          }
          name := v.value;
        }
        if CreatedAtKey in json {
          v := AsText(json[CreatedAtKey]);
          if v.Err? {
            return Fail(v.error);
          }
          createdAt := v.value;
        }
        if DataKey in json {
          var d := AsObject(json[DataKey]);
          if d.Err? {
            return Fail(d.error);
          }
          data := d.value;
        }
      } else if MessageKey in json {
        var v := AsText(json[MessageKey]);
        if v.Err? {
          return Fail(v.error);
        }
        message := v.value;
      }
      return Pass;
    }
  }
}

/** api/RestfulObject: the earlier copy of the REST object, without
    `toJson`. Its `fromJson` passes "" instead of null as the default of
    `getOrDefault`, but only ever asks for keys it has just found present,
    so it reads exactly as the newer copy does. */
module ApiRestfulObject {
  import opened Wrappers
  import opened Json
  import opened RestfulObjects

  class RestfulObject {
    var id: Option<string>
    var name: Option<string>
    var createdAt: Option<string>
    var message: Option<string>
    var data: Option<map<string, Json>>

    function State(): RestState
      reads this
    {
      RestState(id, name, createdAt, message, data)
    }

    constructor ()
      ensures State() == Blank
    {
      id, name, createdAt, message := None, None, None, None;
      data := Some(map[]);
    }

    /** `reset`. */
    method Reset()
      modifies this
      ensures State() == Blank
    {
      id, name, createdAt, message := None, None, None, None;
      data := Some(map[]);
    }

    /** `fromJson`. */
    method FromJsonObject(json: map<string, Json>) returns (outcome: Outcome)
      modifies this
      ensures (State(), outcome) == FromJson(old(State()), json)
    {
      if IdKey in json {
        var v := AsText(json[IdKey]);
        if v.Err? {
          return Fail(v.error);
        }
        id := v.value;
        if NameKey in json {
          v := AsText(json[NameKey]);
          if v.Err? {
            return Fail(v.error);
          }
          name := v.value;
        }
        if CreatedAtKey in json {
          v := AsText(json[CreatedAtKey]);
          if v.Err? {
            return Fail(v.error);
          }
          createdAt := v.value;
        }
        if DataKey in json {
          var d := AsObject(json[DataKey]);
          if d.Err? {
            return Fail(d.error);
          }
          data := d.value;
        }
      } else if MessageKey in json {
        var v := AsText(json[MessageKey]);
        if v.Err? {
          return Fail(v.error);
        }
        message := v.value;
      }
      return Pass;
    }
  }
}

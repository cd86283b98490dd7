/**
 * A container read off the JSON map `docker inspect` prints
 * (`HtContainerFromMap`): the id, the name and the labels, each looked up by
 * key and failing with an IllegalStateException that names the missing key.
 */
module ContainerMap {
  import opened Wrappers
  import Text

  /** A JSON value as the map holds it: a string or a nested object. */
  datatype Json = Str(text: string) | Obj(fields: map<string, Json>)

  /** The message naming a missing key. */
  function MissingKey(key: string): (msg: string)
    ensures Text.Contains(msg, key)
  {
    Text.ContainsInfix("Missing property '", key, "'");
    "Missing property '" + key + "'"
  }

  /** The value under `key`, or the failure naming it. */
  function Field(m: map<string, Json>, key: string): (r: Result<Json>)
    ensures r.Ok? <==> key in m
    ensures r.Ok? ==> r.value == m[key]
    ensures r.Err? ==> r.error.IllegalState? && Text.Contains(r.error.message, key)
  {
    if key in m then Ok(m[key]) else Err(IllegalState(MissingKey(key)))
  }

  /** The string under `key`; a value of another shape is a failed cast. */
  function StringField(m: map<string, Json>, key: string): (r: Result<string>)
    ensures r.Ok? <==> key in m && m[key].Str?
    ensures r.Ok? ==> r.value == m[key].text
    ensures key !in m ==> r.Err? && r.error.IllegalState? && Text.Contains(r.error.message, key)
  {
    var v := Field(m, key);
    if v.Err? then Err(v.error)
    else if v.value.Str? then Ok(v.value.text)
    else Err(ClassCast(key))
  }

  /** The object under `key`; a value of another shape is a failed cast. */
  function ObjectField(m: map<string, Json>, key: string): (r: Result<map<string, Json>>)
    ensures r.Ok? <==> key in m && m[key].Obj?
    ensures r.Ok? ==> r.value == m[key].fields
    ensures key !in m ==> r.Err? && r.error.IllegalState? && Text.Contains(r.error.message, key)
  {
    var v := Field(m, key);
    if v.Err? then Err(v.error)
    else if v.value.Obj? then Ok(v.value.fields)
    else Err(ClassCast(key))
  }

  /** `id()`: the string under "Id" (see `StringField`). */
  function Id(m: map<string, Json>): Result<string>
  {
    StringField(m, "Id")
  }

  /** `name()`: the string under "Name" (see `StringField`). */
  function Name(m: map<string, Json>): Result<string>
  {
    StringField(m, "Name")
  }

  /** A labels object as a string map; a label value that is not a string is a failed cast. */
  function StringMap(fields: map<string, Json>): (r: Result<map<string, string>>)
    ensures r.Ok? <==> forall k :: k in fields ==> fields[k].Str?
    ensures r.Ok? ==> r.value.Keys == fields.Keys && forall k :: k in fields ==> r.value[k] == fields[k].text
  {
    if forall k :: k in fields ==> fields[k].Str? then Ok(map k | k in fields :: fields[k].text)
    else Err(ClassCast("Labels"))
  }

  /** `labels()`: Config, then Labels inside it; a missing level fails naming that level. */
  function Labels(m: map<string, Json>): (r: Result<map<string, string>>)
    ensures "Config" !in m ==> r.Err? && r.error.IllegalState? && Text.Contains(r.error.message, "Config")
    ensures "Config" in m && m["Config"].Obj? && "Labels" !in m["Config"].fields ==>
      r.Err? && r.error.IllegalState? && Text.Contains(r.error.message, "Labels")
    ensures r.Ok? <==>
      && "Config" in m && m["Config"].Obj?
      && "Labels" in m["Config"].fields && m["Config"].fields["Labels"].Obj?
      && forall k :: k in m["Config"].fields["Labels"].fields ==> m["Config"].fields["Labels"].fields[k].Str?
    ensures r.Ok? ==>
      var labels := m["Config"].fields["Labels"].fields;
      r.value.Keys == labels.Keys && forall k :: k in labels ==> r.value[k] == labels[k].text
  {
    var config := ObjectField(m, "Config");
    if config.Err? then Err(config.error)
    else
      var labels := ObjectField(config.value, "Labels");
      if labels.Err? then Err(labels.error)
      else StringMap(labels.value)
  }

  /** An id or a name stored as a string is read back as it is. */
  lemma IdNameRoundTrip(m: map<string, Json>, x: string)
    ensures Id(m["Id" := Str(x)]) == Ok(x)
    ensures Name(m["Name" := Str(x)]) == Ok(x)
  {
  }

  /** Labels stored as strings under Config.Labels are read back as they are. */
  lemma LabelsRoundTrip(m: map<string, Json>, labels: map<string, string>)
    ensures var config := Obj(map["Labels" := Obj(map k | k in labels :: Str(labels[k]))]);
      Labels(m["Config" := config]) == Ok(labels)
  {
    var inner := map k | k in labels :: Str(labels[k]);
    var r := StringMap(inner);
    assert r.Ok?;
    assert r.value == labels;
  }
}

/** JSON values as the program sees them after parsing; numbers keep their text. */
module Json {
  import opened Common

  datatype Value =
    | Null
    | Bool(value: bool)
    | Number(text: string)
    | String(chars: string)
    | Array(items: seq<Value>)
    | Object(fields: seq<Field>)

  datatype Field = Field(name: string, value: Value)

  function Get(v: Value, name: string): Option<Value> {
    if v.Object? then Find(v.fields, name) else None
  }

  function Find(fields: seq<Field>, name: string): Option<Value> {
    if fields == [] then None
    else if fields[0].name == name then Some(fields[0].value)
    else Find(fields[1..], name)
  }

  lemma {:induction false} FindIsField(fields: seq<Field>, name: string)
    ensures Find(fields, name).Some? ==>
              exists i :: 0 <= i < |fields| && fields[i] == Field(name, Find(fields, name).value)
    ensures Find(fields, name).None? ==> forall i :: 0 <= i < |fields| ==> fields[i].name != name
  {
    if fields != [] && fields[0].name != name {
      FindIsField(fields[1..], name);
      if Find(fields, name).Some? {
        var i :| 0 <= i < |fields[1..]| && fields[1..][i] == Field(name, Find(fields, name).value);
        assert fields[i + 1] == Field(name, Find(fields, name).value);
      }
    }
  }

  /** No object repeats a key, at any depth. */
  predicate UniqueKeys(v: Value) {
    match v
    case Object(fields) =>
      && (forall i, j :: 0 <= i < j < |fields| ==> fields[i].name != fields[j].name)
      && (forall i :: 0 <= i < |fields| ==> UniqueKeys(fields[i].value))
    case Array(items) => forall i :: 0 <= i < |items| ==> UniqueKeys(items[i])
    case _ => true
  }
}

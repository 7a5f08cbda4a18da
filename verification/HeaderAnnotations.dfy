/**
 The walk over a tool's input schema that finds `x-mcp-header` annotations, and
 the request headers made from them (src/mcp/headers.rs).
 */
module HeaderAnnotations {
  import opened Common
  import opened Json

  datatype Error = ProtocolError | ArgumentError

  /** `name` is the lower-case header name, by which headers are told apart. */
  datatype Parameter = Parameter(path: seq<string>, name: string, kind: string)

  /** What the walk has collected. */
  datatype Collected = Collected(parameters: seq<Parameter>, names: set<string>)

  const EMPTY := Collected([], {})

  // --------------------------------------------------------- one annotation

  predicate IsTokenChar(c: char) {
    || 'a' <= c <= 'z' || 'A' <= c <= 'Z' || '0' <= c <= '9'
    || c in {'!', '#', '$', '%', '&', '\'', '*', '+', '-', '.', '^', '_', '`', '|', '~'}
  }

  function LowerChar(c: char): char {
    if 'A' <= c <= 'Z' then (c as int + 32) as char else c
  }

  function Lower(s: string): (t: string)
    ensures |t| == |s|
  {
    seq(|s|, i requires 0 <= i < |s| => LowerChar(s[i]))
  }

  /** `HeaderName::from_bytes`: a token, made lower-case, of at most 65535 bytes. */
  function HeaderName(suffix: string): Option<string> {
    var name := "Mcp-Param-" + suffix;
    if (forall i :: 0 <= i < |name| ==> IsTokenChar(name[i])) && |name| <= 65535 then Some(Lower(name)) else None
  }

  predicate IsPrimitive(kind: string) {
    kind in {"string", "integer", "boolean"}
  }

  function AnnotationParameter(schema: Value, annotation: Value, path: seq<string>, reachable: bool): Option<Parameter> {
    if !annotation.String? || annotation.chars == "" || HeaderName(annotation.chars).None? then None
    else
      var kind := Get(schema, "type");
      if kind.None? || !kind.value.String? || !reachable || path == [] || !IsPrimitive(kind.value.chars) then None
      else Some(Parameter(path, HeaderName(annotation.chars).value, kind.value.chars))
  }

  /** Collect a parameter, unless it is not one or its name is taken. */
  function Add(acc: Collected, parameter: Option<Parameter>): Option<Collected> {
    if parameter.None? || parameter.value.name in acc.names then None
    else Some(Collected(acc.parameters + [parameter.value], acc.names + {parameter.value.name}))
  }

  function Annotate(schema: Value, path: seq<string>, reachable: bool, acc: Collected): Option<Collected> {
    var annotation := Get(schema, "x-mcp-header");
    if annotation.None? then Some(acc) else Add(acc, AnnotationParameter(schema, annotation.value, path, reachable))
  }

  // ---------------------------------------------- the walk, as functions

  function Walk(schema: Value, path: seq<string>, reachable: bool, acc: Collected): Option<Collected>
    decreases schema, 1, 0
  {
    match schema
    case Object(_) =>
      var annotated := Annotate(schema, path, reachable, acc);
      if annotated.None? then None else WalkFields(schema, 0, path, reachable, annotated.value)
    case Array(_) => WalkItems(schema, 0, path, acc)
    case _ => Some(acc)
  }

  function WalkFields(schema: Value, i: nat, path: seq<string>, reachable: bool, acc: Collected): Option<Collected>
    requires schema.Object? && i <= |schema.fields|
    decreases schema, 0, |schema.fields| - i
  {
    if i == |schema.fields| then Some(acc)
    else
      var f := schema.fields[i];
      var next :=
        if f.name == "properties" && reachable then
          (if f.value.Object? then WalkProperties(f.value, 0, path, acc) else None)
        else Walk(f.value, path, false, acc);
      if next.None? then None else WalkFields(schema, i + 1, path, reachable, next.value)
  }

  function WalkProperties(properties: Value, i: nat, path: seq<string>, acc: Collected): Option<Collected>
    requires properties.Object? && i <= |properties.fields|
    decreases properties, 0, |properties.fields| - i
  {
    if i == |properties.fields| then Some(acc)
    else
      var f := properties.fields[i];
      var next := Walk(f.value, path + [f.name], true, acc);
      if next.None? then None else WalkProperties(properties, i + 1, path, next.value)
  }

  function WalkItems(schema: Value, i: nat, path: seq<string>, acc: Collected): Option<Collected>
    requires schema.Array? && i <= |schema.items|
    decreases schema, 0, |schema.items| - i
  {
    if i == |schema.items| then Some(acc)
    else
      var next := Walk(schema.items[i], path, false, acc);
      if next.None? then None else WalkItems(schema, i + 1, path, next.value)
  }

  function Annotations(schema: Value): Result<seq<Parameter>, Error> {
    var all := Walk(schema, [], true, EMPTY);
    if all.Some? then Ok(all.value.parameters) else Err(ProtocolError)
  }

  // -------------------------------------------------- the walk, as the program runs it

  /** The vector and the set that the walk pushes into. */
  class Collector {
    var parameters: seq<Parameter>
    var names: set<string>

    constructor ()
      ensures Abs() == EMPTY
    {
      parameters, names := [], {};
    }

    function Abs(): Collected
      reads this
    {
      Collected(parameters, names)
    }

    method Visit(schema: Value, path: seq<string>, reachable: bool) returns (ok: bool)
      modifies this
      ensures ok <==> Walk(schema, path, reachable, old(Abs())).Some?
      ensures ok ==> Some(Abs()) == Walk(schema, path, reachable, old(Abs()))
      decreases schema, 1
    {
      match schema {
        case Object(fields) =>
          var annotation := Get(schema, "x-mcp-header");
          if annotation.Some? {
            var parameter := AnnotationParameter(schema, annotation.value, path, reachable);
            if parameter.None? || parameter.value.name in names {
              return false;
            }
            names := names + {parameter.value.name};
            parameters := parameters + [parameter.value];
          }
          ghost var start := Abs();
          for i := 0 to |fields|
            invariant WalkFields(schema, 0, path, reachable, start) == WalkFields(schema, i, path, reachable, Abs())
          {
            ok := VisitChild(fields[i].name, fields[i].value, path, reachable);
            if !ok {
              return false;
            }
          }
        case Array(items) =>
          for i := 0 to |items|
            invariant WalkItems(schema, 0, path, old(Abs())) == WalkItems(schema, i, path, Abs())
          {
            ok := Visit(items[i], path, false);
            if !ok {
              return false;
            }
          }
        case _ =>
      }
      return true;
    }

    method VisitChild(key: string, value: Value, path: seq<string>, reachable: bool) returns (ok: bool)
      modifies this
      ensures var expected :=
                if key == "properties" && reachable then
                  (if value.Object? then WalkProperties(value, 0, path, old(Abs())) else None)
                else Walk(value, path, false, old(Abs()));
              (ok <==> expected.Some?) && (ok ==> Some(Abs()) == expected)
      decreases value, 2
    {
      if key == "properties" && reachable {
        if !value.Object? {
          return false;
        }
        for i := 0 to |value.fields|
          invariant WalkProperties(value, 0, path, old(Abs())) == WalkProperties(value, i, path, Abs())
        {
          ok := Visit(value.fields[i].value, path + [value.fields[i].name], true);
          if !ok {
            return false;
          }
        }
        return true;
      }
      ok := Visit(value, path, false);
    }
  }

  method FindAnnotations(schema: Value) returns (result: Result<seq<Parameter>, Error>)
    ensures result == Annotations(schema)
  {
    var collector := new Collector();
    var ok := collector.Visit(schema, [], true);
    result := if ok then Ok(collector.parameters) else Err(ProtocolError);
  }
}

/**
 What the annotation walk accepts, stated over positions in the schema tree and
 without the walk, and the proof that the walk accepts exactly that.
 */
module AnnotationSites {
  import opened Common
  import opened Json
  import opened HeaderAnnotations

  datatype Step = Key(name: string) | Item(index: nat)

  type Position = seq<Step>

  function At(v: Value, p: Position): Option<Value>
    decreases |p|
  {
    if p == [] then Some(v)
    else match p[0]
      case Key(name) => var child := Get(v, name); if child.Some? then At(child.value, p[1..]) else None
      case Item(i) => if v.Array? && i < |v.items| then At(v.items[i], p[1..]) else None
  }

  /** The position of a property: through `properties` objects only. */
  function Chain(path: seq<string>): Position {
    if path == [] then [] else Chain(path[..|path| - 1]) + [Key("properties"), Key(path[|path| - 1])]
  }

  /** `p` is a `properties` object on a pure chain; its keys are property names, not schema words. */
  ghost predicate IsContainer(p: Position) {
    exists path :: p == Chain(path) + [Key("properties")]
  }

  /** An annotation stands at `p`. */
  ghost predicate Annotated(schema: Value, p: Position) {
    At(schema, p).Some? && !IsContainer(p) && Get(At(schema, p).value, "x-mcp-header").Some?
  }

  /** The parameter that the object at the chain of `path` stands for. */
  function ChainParameter(schema: Value, path: seq<string>): Option<Parameter> {
    var v := At(schema, Chain(path));
    if v.None? || Get(v.value, "x-mcp-header").None? then None
    else AnnotationParameter(v.value, Get(v.value, "x-mcp-header").value, path, true)
  }

  ghost predicate ContainersAreObjects(schema: Value) {
    forall path :: At(schema, Chain(path) + [Key("properties")]).Some? ==>
      At(schema, Chain(path) + [Key("properties")]).value.Object?
  }

  ghost predicate AnnotationsAreParameters(schema: Value) {
    forall p :: Annotated(schema, p) ==> exists path :: p == Chain(path) && ChainParameter(schema, path).Some?
  }

  ghost predicate NamesDiffer(schema: Value) {
    forall path, other ::
      path != other && ChainParameter(schema, path).Some? && ChainParameter(schema, other).Some? ==>
        ChainParameter(schema, path).value.name != ChainParameter(schema, other).value.name
  }

  /** What a schema must be like for all its annotations to be mirrored into headers. */
  ghost predicate WellAnnotated(schema: Value) {
    ContainersAreObjects(schema) && AnnotationsAreParameters(schema) && NamesDiffer(schema)
  }

  // ----------------------------------------------- roles, computed along a position

  datatype Role = Node(reachable: bool, path: seq<string>) | Container(path: seq<string>)

  const ROOT := Node(true, [])

  function Next(role: Role, step: Step): Role {
    match role
    case Container(path) => if step.Key? then Node(true, path + [step.name]) else Node(false, path)
    case Node(reachable, path) =>
      if reachable && step == Key("properties") then Container(path) else Node(false, path)
  }

  function RoleAt(role: Role, p: Position): Role
    decreases |p|
  {
    if p == [] then role else RoleAt(Next(role, p[0]), p[1..])
  }

  lemma {:induction false} RoleAtConcat(role: Role, p: Position, q: Position)
    ensures RoleAt(role, p + q) == RoleAt(RoleAt(role, p), q)
    decreases |p|
  {
    if p == [] {
      assert p + q == q;
    } else {
      assert (p + q)[1..] == p[1..] + q;
      RoleAtConcat(Next(role, p[0]), p[1..], q);
    }
  }

  lemma {:induction false} RoleOfChain(path: seq<string>)
    ensures RoleAt(ROOT, Chain(path)) == Node(true, path)
    ensures RoleAt(ROOT, Chain(path) + [Key("properties")]) == Container(path)
  {
    if path != [] {
      var n := |path| - 1;
      RoleOfChain(path[..n]);
      assert Chain(path) == Chain(path[..n]) + [Key("properties")] + [Key(path[n])];
      RoleAtConcat(ROOT, Chain(path[..n]) + [Key("properties")], [Key(path[n])]);
      assert path[..n] + [path[n]] == path;
    }
    RoleAtConcat(ROOT, Chain(path), [Key("properties")]);
  }

  /** Only pure chains are reachable. */
  lemma {:induction false} ChainOfRole(p: Position)
    ensures match RoleAt(ROOT, p)
            case Container(path) => p == Chain(path) + [Key("properties")]
            case Node(reachable, path) => reachable ==> p == Chain(path)
  {
    if p != [] {
      var n := |p| - 1;
      ChainOfRole(p[..n]);
      assert p == p[..n] + [p[n]];
      RoleAtConcat(ROOT, p[..n], [p[n]]);
      assert RoleAt(RoleAt(ROOT, p[..n]), [p[n]]) == Next(RoleAt(ROOT, p[..n]), p[n]);
      match RoleAt(ROOT, p[..n]) {
        case Container(path) =>
          if p[n].Key? {
            var longer := path + [p[n].name];
            assert longer[..|longer| - 1] == path;
          }
        case Node(_, _) =>
      }
    }
  }

  // -------------------------------------------------- the tree in walk order

  /** One value met in the tree. */
  datatype Visit = Visit(position: Position, role: Role, value: Value)

  function Visits(v: Value, at: Position, role: Role): seq<Visit>
    decreases v, 1, 0
  {
    [Visit(at, role, v)] +
    match v
    case Object(_) => VisitFields(v, 0, at, role)
    case Array(_) => VisitItems(v, 0, at, role)
    case _ => []
  }

  function VisitFields(v: Value, i: nat, at: Position, role: Role): seq<Visit>
    requires v.Object? && i <= |v.fields|
    decreases v, 0, |v.fields| - i
  {
    if i == |v.fields| then []
    else
      var step := Key(v.fields[i].name);
      Visits(v.fields[i].value, at + [step], Next(role, step)) + VisitFields(v, i + 1, at, role)
  }

  function VisitItems(v: Value, i: nat, at: Position, role: Role): seq<Visit>
    requires v.Array? && i <= |v.items|
    decreases v, 0, |v.items| - i
  {
    if i == |v.items| then []
    else Visits(v.items[i], at + [Item(i)], Next(role, Item(i))) + VisitItems(v, i + 1, at, role)
  }

  /** What the walk does at one value. */
  function Process(acc: Collected, visit: Visit): Option<Collected> {
    match visit.role
    case Container(_) => if visit.value.Object? then Some(acc) else None
    case Node(reachable, path) => Annotate(visit.value, path, reachable, acc)
  }

  function Fold(acc: Collected, visits: seq<Visit>): Option<Collected>
    decreases |visits|
  {
    if visits == [] then Some(acc)
    else
      var next := Process(acc, visits[0]);
      if next.None? then None else Fold(next.value, visits[1..])
  }

  lemma {:induction false} FoldConcat(acc: Collected, a: seq<Visit>, b: seq<Visit>)
    ensures Fold(acc, a + b) == (if Fold(acc, a).None? then None else Fold(Fold(acc, a).value, b))
    decreases |a|
  {
    if a == [] {
      assert a + b == b;
    } else {
      assert (a + b)[0] == a[0] && (a + b)[1..] == a[1..] + b;
      var next := Process(acc, a[0]);
      if next.Some? {
        FoldConcat(next.value, a[1..], b);
      }
    }
  }

  lemma FoldOne(acc: Collected, visit: Visit)
    ensures Fold(acc, [visit]) == Process(acc, visit)
  {
    assert [visit][1..] == [];
  }

  lemma {:induction false} WalkIsFold(v: Value, path: seq<string>, reachable: bool, acc: Collected, at: Position)
    ensures Walk(v, path, reachable, acc) == Fold(acc, Visits(v, at, Node(reachable, path)))
    decreases v, 1, 0
  {
    hide Annotate;
    var role := Node(reachable, path);
    var head := [Visit(at, role, v)];
    FoldOne(acc, head[0]);
    match v {
      case Object(_) =>
        FoldConcat(acc, head, VisitFields(v, 0, at, role));
        var annotated := Annotate(v, path, reachable, acc);
        if annotated.Some? {
          FieldsIsFold(v, 0, path, reachable, annotated.value, at);
        }
      case Array(_) =>
        NothingToAnnotate(v, path, reachable, acc);
        FoldConcat(acc, head, VisitItems(v, 0, at, role));
        ItemsIsFold(v, 0, path, reachable, acc, at);
      case _ =>
        NothingToAnnotate(v, path, reachable, acc);
        assert head + [] == head;
    }
  }

  lemma NothingToAnnotate(v: Value, path: seq<string>, reachable: bool, acc: Collected)
    requires !v.Object?
    ensures Annotate(v, path, reachable, acc) == Some(acc)
  {
  }

  lemma {:induction false} FieldsIsFold(v: Value, i: nat, path: seq<string>, reachable: bool, acc: Collected, at: Position)
    requires v.Object? && i <= |v.fields|
    ensures WalkFields(v, i, path, reachable, acc) == Fold(acc, VisitFields(v, i, at, Node(reachable, path)))
    decreases v, 0, |v.fields| - i
  {
    hide Annotate;
    if i < |v.fields| {
      var f, role := v.fields[i], Node(reachable, path);
      var step := Key(f.name);
      var here := Visits(f.value, at + [step], Next(role, step));
      FoldConcat(acc, here, VisitFields(v, i + 1, at, role));
      if f.name == "properties" && reachable {
        ContainerIsFold(f.value, path, acc, at + [step]);
      } else {
        WalkIsFold(f.value, path, false, acc, at + [step]);
      }
      if Fold(acc, here).Some? {
        FieldsIsFold(v, i + 1, path, reachable, Fold(acc, here).value, at);
      }
    }
  }

  lemma {:induction false} ContainerIsFold(v: Value, path: seq<string>, acc: Collected, at: Position)
    ensures Fold(acc, Visits(v, at, Container(path))) ==
            if v.Object? then WalkProperties(v, 0, path, acc) else None
    decreases v, 1, 0
  {
    var head := [Visit(at, Container(path), v)];
    FoldOne(acc, head[0]);
    if v.Object? {
      FoldConcat(acc, head, VisitFields(v, 0, at, Container(path)));
      PropertiesIsFold(v, 0, path, acc, at);
    } else {
      FoldConcat(acc, head, Visits(v, at, Container(path))[1..]);
      assert Visits(v, at, Container(path)) == head + Visits(v, at, Container(path))[1..];
    }
  }

  lemma {:induction false} PropertiesIsFold(v: Value, i: nat, path: seq<string>, acc: Collected, at: Position)
    requires v.Object? && i <= |v.fields|
    ensures WalkProperties(v, i, path, acc) == Fold(acc, VisitFields(v, i, at, Container(path)))
    decreases v, 0, |v.fields| - i
  {
    if i < |v.fields| {
      var f := v.fields[i];
      var step := Key(f.name);
      var here := Visits(f.value, at + [step], Next(Container(path), step));
      FoldConcat(acc, here, VisitFields(v, i + 1, at, Container(path)));
      WalkIsFold(f.value, path + [f.name], true, acc, at + [step]);
      if Fold(acc, here).Some? {
        PropertiesIsFold(v, i + 1, path, Fold(acc, here).value, at);
      }
    }
  }

  lemma {:induction false} ItemsIsFold(v: Value, i: nat, path: seq<string>, reachable: bool, acc: Collected, at: Position)
    requires v.Array? && i <= |v.items|
    ensures WalkItems(v, i, path, acc) == Fold(acc, VisitItems(v, i, at, Node(reachable, path)))
    decreases v, 0, |v.items| - i
  {
    if i < |v.items| {
      var here := Visits(v.items[i], at + [Item(i)], Node(false, path));
      FoldConcat(acc, here, VisitItems(v, i + 1, at, Node(reachable, path)));
      WalkIsFold(v.items[i], path, false, acc, at + [Item(i)]);
      if Fold(acc, here).Some? {
        ItemsIsFold(v, i + 1, path, reachable, Fold(acc, here).value, at);
      }
    }
  }

  // ------------------------------------ the walk order meets every position once

  /** `visit` is what stands at its position below `at`. */
  ghost predicate Located(v: Value, at: Position, role: Role, visit: Visit) {
    at <= visit.position &&
    var p := visit.position[|at|..];
    At(v, p) == Some(visit.value) && visit.role == RoleAt(role, p)
  }

  lemma LocatedBelow(v: Value, child: Value, at: Position, role: Role, step: Step, visit: Visit)
    requires At(v, [step]) == Some(child) && Located(child, at + [step], Next(role, step), visit)
    ensures Located(v, at, role, visit)
    ensures |visit.position| > |at| && visit.position[|at|] == step
  {
    var p := visit.position[|at|..];
    var q := visit.position[|at| + 1..];
    assert (at + [step])[|at|] == step && visit.position[|at|] == step;
    assert p[0] == step && p[1..] == q;
    assert forall k :: 0 <= k < |at| ==> visit.position[k] == (at + [step])[k];
    assert [step][1..] == [];
  }

  lemma FieldAt(v: Value, i: nat)
    requires v.Object? && i < |v.fields| && UniqueKeys(v)
    ensures At(v, [Key(v.fields[i].name)]) == Some(v.fields[i].value)
  {
    FindIsField(v.fields, v.fields[i].name);
    assert [Key(v.fields[i].name)][1..] == [];
  }

  lemma ItemAt(v: Value, i: nat)
    requires v.Array? && i < |v.items|
    ensures At(v, [Item(i)]) == Some(v.items[i])
  {
    assert [Item(i)][1..] == [];
  }

  ghost predicate Sound(v: Value, at: Position, role: Role, visits: seq<Visit>) {
    && (forall k :: 0 <= k < |visits| ==> Located(v, at, role, visits[k]))
    && (forall j, k :: 0 <= j < k < |visits| ==> visits[j].position != visits[k].position)
  }

  lemma {:induction false} VisitsSound(v: Value, at: Position, role: Role)
    requires UniqueKeys(v)
    ensures Sound(v, at, role, Visits(v, at, role))
    decreases v, 1, 0
  {
    match v {
      case Object(_) =>
        FieldsSound(v, 0, at, role);
        SoundRoot(v, at, role, VisitFields(v, 0, at, role), KeysFrom(v, 0));
      case Array(_) =>
        ItemsSound(v, 0, at, role);
        SoundRoot(v, at, role, VisitItems(v, 0, at, role), ItemsFrom(v, 0));
      case _ =>
    }
  }

  lemma SoundRoot(v: Value, at: Position, role: Role, below: seq<Visit>, steps: set<Step>)
    requires Sound(v, at, role, below)
    requires forall visit :: visit in below ==> StepsBelow(at, visit, steps)
    ensures Sound(v, at, role, [Visit(at, role, v)] + below)
  {
    assert Located(v, at, role, Visit(at, role, v));
    assert forall k :: 0 <= k < |below| ==> StepsBelow(at, below[k], steps);
  }

  /** The step that a position takes below `at`. */
  ghost predicate StepsBelow(at: Position, visit: Visit, steps: set<Step>) {
    |visit.position| > |at| && visit.position[|at|] in steps
  }

  ghost function KeysFrom(v: Value, i: nat): set<Step>
    requires v.Object? && i <= |v.fields|
  {
    set k | i <= k < |v.fields| :: Key(v.fields[k].name)
  }

  ghost function ItemsFrom(v: Value, i: nat): set<Step>
    requires v.Array? && i <= |v.items|
  {
    set k | i <= k < |v.items| :: Item(k)
  }

  lemma {:induction false} FieldsSound(v: Value, i: nat, at: Position, role: Role)
    requires v.Object? && i <= |v.fields| && UniqueKeys(v)
    ensures Sound(v, at, role, VisitFields(v, i, at, role))
    ensures forall visit :: visit in VisitFields(v, i, at, role) ==> StepsBelow(at, visit, KeysFrom(v, i))
    decreases v, 0, |v.fields| - i
  {
    if i < |v.fields| {
      var step := Key(v.fields[i].name);
      FieldAt(v, i);
      VisitsSound(v.fields[i].value, at + [step], Next(role, step));
      FieldsSound(v, i + 1, at, role);
      assert step !in KeysFrom(v, i + 1);
      assert KeysFrom(v, i) == {step} + KeysFrom(v, i + 1);
      SoundConcat(v, v.fields[i].value, at, role, step,
                  Visits(v.fields[i].value, at + [step], Next(role, step)),
                  VisitFields(v, i + 1, at, role), KeysFrom(v, i + 1));
    }
  }

  lemma {:induction false} ItemsSound(v: Value, i: nat, at: Position, role: Role)
    requires v.Array? && i <= |v.items| && UniqueKeys(v)
    ensures Sound(v, at, role, VisitItems(v, i, at, role))
    ensures forall visit :: visit in VisitItems(v, i, at, role) ==> StepsBelow(at, visit, ItemsFrom(v, i))
    decreases v, 0, |v.items| - i
  {
    if i < |v.items| {
      ItemAt(v, i);
      VisitsSound(v.items[i], at + [Item(i)], Next(role, Item(i)));
      ItemsSound(v, i + 1, at, role);
      assert ItemsFrom(v, i) == {Item(i)} + ItemsFrom(v, i + 1);
      SoundConcat(v, v.items[i], at, role, Item(i),
                  Visits(v.items[i], at + [Item(i)], Next(role, Item(i))),
                  VisitItems(v, i + 1, at, role), ItemsFrom(v, i + 1));
    }
  }

  /** The visits below one child, followed by those below the later ones. */
  lemma SoundConcat(v: Value, child: Value, at: Position, role: Role, step: Step,
                    here: seq<Visit>, later: seq<Visit>, steps: set<Step>)
    requires At(v, [step]) == Some(child) && step !in steps
    requires Sound(child, at + [step], Next(role, step), here)
    requires Sound(v, at, role, later)
    requires forall visit :: visit in later ==> StepsBelow(at, visit, steps)
    ensures Sound(v, at, role, here + later)
    ensures forall visit :: visit in here + later ==> StepsBelow(at, visit, {step} + steps)
  {
    hide At, RoleAt;
    var all := here + later;
    forall k | 0 <= k < |here| ensures Located(v, at, role, here[k]) && StepsBelow(at, here[k], {step}) {
      LocatedBelow(v, child, at, role, step, here[k]);
    }
    forall k | 0 <= k < |later| ensures StepsBelow(at, later[k], steps) {
      assert later[k] in later;
    }
    forall j, k | 0 <= j < k < |all| ensures all[j].position != all[k].position {
      if j < |here| <= k {
        assert StepsBelow(at, here[j], {step}) && StepsBelow(at, later[k - |here|], steps);
      }
    }
  }

  lemma {:induction false} VisitsComplete(v: Value, at: Position, role: Role, p: Position)
    requires At(v, p).Some?
    ensures Visit(at + p, RoleAt(role, p), At(v, p).value) in Visits(v, at, role)
    decreases |p|
  {
    if p == [] {
      assert at + p == at;
      assert Visits(v, at, role)[0] == Visit(at, role, v);
    } else {
      assert at + [p[0]] + p[1..] == at + p;
      var visit := Visit(at + p, RoleAt(role, p), At(v, p).value);
      match p[0] {
        case Key(name) =>
          var child := Get(v, name).value;
          VisitsComplete(child, at + [p[0]], Next(role, p[0]), p[1..]);
          FindIsField(v.fields, name);
          var i :| 0 <= i < |v.fields| && v.fields[i] == Field(name, child);
          FieldsInclude(v, 0, i, at, role, visit);
        case Item(i) =>
          VisitsComplete(v.items[i], at + [p[0]], Next(role, p[0]), p[1..]);
          ItemsInclude(v, 0, i, at, role, visit);
      }
    }
  }

  lemma {:induction false} FieldsInclude(v: Value, from: nat, i: nat, at: Position, role: Role, visit: Visit)
    requires v.Object? && from <= i < |v.fields|
    requires var step := Key(v.fields[i].name); visit in Visits(v.fields[i].value, at + [step], Next(role, step))
    ensures visit in VisitFields(v, from, at, role)
    decreases i - from
  {
    if from < i {
      FieldsInclude(v, from + 1, i, at, role, visit);
    }
  }

  lemma {:induction false} ItemsInclude(v: Value, from: nat, i: nat, at: Position, role: Role, visit: Visit)
    requires v.Array? && from <= i < |v.items|
    requires visit in Visits(v.items[i], at + [Item(i)], Next(role, Item(i)))
    ensures visit in VisitItems(v, from, at, role)
    decreases i - from
  {
    if from < i {
      ItemsInclude(v, from + 1, i, at, role, visit);
    }
  }

  // ------------------------------------------------ what the fold accepts

  function Found(visit: Visit): Option<Option<Parameter>> {
    match visit.role
    case Container(_) => None
    case Node(reachable, path) =>
      var annotation := Get(visit.value, "x-mcp-header");
      if annotation.None? then None
      else Some(AnnotationParameter(visit.value, annotation.value, path, reachable))
  }

  /** A container is an object, and an annotation is a parameter. */
  predicate GoodOne(visit: Visit) {
    && (visit.role.Container? ==> visit.value.Object?)
    && (Found(visit).Some? ==> Found(visit).value.Some?)
  }

  /** Every visit is good by itself, and no two found names are equal. */
  ghost predicate Good(visits: seq<Visit>) {
    && (forall visit :: visit in visits ==> GoodOne(visit))
    && (forall j, k :: 0 <= j < k < |visits| && IsFound(visits[j]) && IsFound(visits[k]) ==>
          FoundName(visits[j]) != FoundName(visits[k]))
  }

  predicate IsFound(visit: Visit) {
    Found(visit).Some? && Found(visit).value.Some?
  }

  function FoundName(visit: Visit): string
    requires IsFound(visit)
  {
    Found(visit).value.value.name
  }

  ghost predicate HoldsFound(parameters: seq<Parameter>, visits: seq<Visit>) {
    forall x :: x in parameters <==> exists visit :: visit in visits && Found(visit) == Some(Some(x))
  }

  ghost predicate HoldsNames(names: set<string>, visits: seq<Visit>) {
    forall n :: n in names <==> exists visit :: visit in visits && IsFound(visit) && FoundName(visit) == n
  }

  /** What was collected is exactly what was found. */
  ghost predicate Reflects(acc: Collected, visits: seq<Visit>) {
    && HoldsFound(acc.parameters, visits)
    && HoldsNames(acc.names, visits)
    && (forall i, j :: 0 <= i < j < |acc.parameters| ==> acc.parameters[i].name != acc.parameters[j].name)
    && (forall x :: x in acc.parameters ==> x.name in acc.names)
  }

  lemma ProcessFound(acc: Collected, visit: Visit)
    ensures Process(acc, visit) ==
            if visit.role.Container? && !visit.value.Object? then None
            else if Found(visit).None? then Some(acc)
            else Add(acc, Found(visit).value)
  {
  }

  lemma {:induction false} FoldIsGood(visits: seq<Visit>)
    ensures Fold(EMPTY, visits).Some? <==> Good(visits)
    ensures Fold(EMPTY, visits).Some? ==> Reflects(Fold(EMPTY, visits).value, visits)
    decreases |visits|
  {
    hide Process, Found, Add;
    if visits != [] {
      var n := |visits| - 1;
      var before, last := visits[..n], visits[n];
      FoldIsGood(before);
      assert visits == before + [last];
      FoldConcat(EMPTY, before, [last]);
      if Fold(EMPTY, before).Some? {
        var acc := Fold(EMPTY, before).value;
        FoldOne(acc, last);
        GoodExtends(acc, before, last);
      }
    }
  }

  lemma GoodAll(before: seq<Visit>, last: Visit)
    requires Good(before)
    ensures Good(before + [last]) <==>
              && GoodOne(last)
              && (IsFound(last) ==>
                    forall visit :: visit in before && IsFound(visit) ==> FoundName(visit) != FoundName(last))
  {
    hide Found, GoodOne, IsFound;
    var all := before + [last];
    assert last in all && forall visit :: visit in all <==> visit in before || visit == last;
    if Good(all) && IsFound(last) {
      forall visit | visit in before && IsFound(visit) ensures FoundName(visit) != FoundName(last) {
        var k :| 0 <= k < |before| && before[k] == visit;
        assert all[k] == visit && all[|before|] == last;
      }
    }
  }

  lemma FoundExtends(parameters: seq<Parameter>, before: seq<Visit>, last: Visit)
    requires HoldsFound(parameters, before)
    ensures HoldsFound(if IsFound(last) then parameters + [Found(last).value.value] else parameters, before + [last])
  {
    hide Found;
    var all := before + [last];
    var more := if IsFound(last) then parameters + [Found(last).value.value] else parameters;
    assert last in all && forall visit :: visit in all <==> visit in before || visit == last;
    forall x ensures x in more <==> exists visit :: visit in all && Found(visit) == Some(Some(x)) {
      assert x in more <==> x in parameters || Found(last) == Some(Some(x));
    }
  }

  lemma NamesExtend(names: set<string>, before: seq<Visit>, last: Visit)
    requires HoldsNames(names, before)
    ensures HoldsNames(if IsFound(last) then names + {FoundName(last)} else names, before + [last])
  {
    hide IsFound, FoundName;
    var all := before + [last];
    assert last in all && forall visit :: visit in all <==> visit in before || visit == last;
  }

  lemma ReflectsSame(acc: Collected, before: seq<Visit>, last: Visit)
    requires Reflects(acc, before) && !IsFound(last)
    ensures Reflects(acc, before + [last])
  {
    hide HoldsFound, HoldsNames, IsFound;
    FoundExtends(acc.parameters, before, last);
    NamesExtend(acc.names, before, last);
  }

  lemma ReflectsMore(acc: Collected, before: seq<Visit>, last: Visit)
    requires Reflects(acc, before) && IsFound(last) && FoundName(last) !in acc.names
    ensures Reflects(Collected(acc.parameters + [Found(last).value.value], acc.names + {FoundName(last)}), before + [last])
  {
    hide HoldsFound, HoldsNames, Found;
    FoundExtends(acc.parameters, before, last);
    NamesExtend(acc.names, before, last);
    forall x | x in acc.parameters + [Found(last).value.value] ensures x.name in acc.names + {FoundName(last)} {
      assert x in acc.parameters || x == Found(last).value.value;
    }
    assert forall i :: 0 <= i < |acc.parameters| ==> acc.parameters[i] in acc.parameters;
  }

  lemma GoodExtends(acc: Collected, before: seq<Visit>, last: Visit)
    requires Good(before) && Reflects(acc, before)
    ensures Process(acc, last).Some? <==> Good(before + [last])
    ensures Process(acc, last).Some? ==> Reflects(Process(acc, last).value, before + [last])
  {
    hide Process, Found, Good, Reflects;
    ProcessFound(acc, last);
    GoodAll(before, last);
    NamesReflect(acc, before);
    if IsFound(last) {
      if FoundName(last) !in acc.names {
        ReflectsMore(acc, before, last);
      }
    } else {
      ReflectsSame(acc, before, last);
    }
    ContainersAreNotFound(last);
  }

  lemma NamesReflect(acc: Collected, visits: seq<Visit>)
    requires Reflects(acc, visits)
    ensures forall n :: n in acc.names <==> exists visit :: visit in visits && IsFound(visit) && FoundName(visit) == n
  {
  }

  lemma ContainersAreNotFound(visit: Visit)
    ensures visit.role.Container? ==> Found(visit).None?
  {
  }

  // ---------------------------------------------------------- the theorems

  function AllVisits(schema: Value): seq<Visit> {
    Visits(schema, [], ROOT)
  }

  function VisitAt(schema: Value, p: Position): Visit
    requires At(schema, p).Some?
  {
    Visit(p, RoleAt(ROOT, p), At(schema, p).value)
  }

  lemma EveryPositionVisited(schema: Value, p: Position)
    requires At(schema, p).Some?
    ensures VisitAt(schema, p) in AllVisits(schema)
  {
    VisitsComplete(schema, [], ROOT, p);
    assert [] + p == p;
  }

  lemma EveryVisitStands(schema: Value, visit: Visit)
    requires UniqueKeys(schema) && visit in AllVisits(schema)
    ensures At(schema, visit.position).Some? && visit == VisitAt(schema, visit.position)
  {
    VisitsSound(schema, [], ROOT);
    var k :| 0 <= k < |AllVisits(schema)| && AllVisits(schema)[k] == visit;
    assert Located(schema, [], ROOT, AllVisits(schema)[k]);
    assert visit.position[0..] == visit.position;
  }

  lemma OncePerPosition(schema: Value)
    requires UniqueKeys(schema)
    ensures forall j, k :: 0 <= j < k < |AllVisits(schema)| ==>
                             AllVisits(schema)[j].position != AllVisits(schema)[k].position
  {
    VisitsSound(schema, [], ROOT);
  }

  lemma WalkAcceptsGood(schema: Value)
    ensures Annotations(schema).Ok? <==> Good(AllVisits(schema))
    ensures Annotations(schema).Ok? ==>
              exists names :: Reflects(Collected(Annotations(schema).value, names), AllVisits(schema))
  {
    WalkIsFold(schema, [], true, EMPTY, []);
    FoldIsGood(AllVisits(schema));
    if Annotations(schema).Ok? {
      var all := Walk(schema, [], true, EMPTY).value;
      assert all == Collected(Annotations(schema).value, all.names);
    }
  }

  /** A found parameter is that of its own chain. */
  lemma FoundIsChain(schema: Value, p: Position, x: Parameter)
    requires At(schema, p).Some? && Found(VisitAt(schema, p)) == Some(Some(x))
    ensures p == Chain(x.path) && ChainParameter(schema, x.path) == Some(x)
  {
    ChainOfRole(p);
  }

  lemma ChainIsFound(schema: Value, path: seq<string>)
    requires ChainParameter(schema, path).Some?
    ensures At(schema, Chain(path)).Some?
    ensures Found(VisitAt(schema, Chain(path))) == Some(ChainParameter(schema, path))
    ensures ChainParameter(schema, path).value.path == path
  {
    RoleOfChain(path);
  }

  lemma ChainIsInjective(path: seq<string>, other: seq<string>)
    requires Chain(path) == Chain(other)
    ensures path == other
  {
    RoleOfChain(path);
    RoleOfChain(other);
  }

  lemma ContainerRole(p: Position)
    ensures IsContainer(p) <==> RoleAt(ROOT, p).Container?
  {
    ChainOfRole(p);
    if IsContainer(p) {
      var path :| p == Chain(path) + [Key("properties")];
      RoleOfChain(path);
    }
  }

  /** An annotated position is one whose visit found something. */
  lemma AnnotatedIsFound(schema: Value, p: Position)
    requires At(schema, p).Some?
    ensures Annotated(schema, p) <==> Found(VisitAt(schema, p)).Some?
  {
    ContainerRole(p);
  }

  lemma GoodContainers(schema: Value)
    requires Good(AllVisits(schema))
    ensures ContainersAreObjects(schema)
  {
    forall path | At(schema, Chain(path) + [Key("properties")]).Some?
      ensures At(schema, Chain(path) + [Key("properties")]).value.Object?
    {
      EveryPositionVisited(schema, Chain(path) + [Key("properties")]);
      RoleOfChain(path);
    }
  }

  lemma GoodParameters(schema: Value)
    requires Good(AllVisits(schema))
    ensures AnnotationsAreParameters(schema)
  {
    forall p | Annotated(schema, p) ensures exists path :: p == Chain(path) && ChainParameter(schema, path).Some? {
      EveryPositionVisited(schema, p);
      AnnotatedIsFound(schema, p);
      var visit := VisitAt(schema, p);
      assert GoodOne(visit);
      FoundIsChain(schema, p, Found(visit).value.value);
    }
  }

  lemma GoodNames(schema: Value)
    requires Good(AllVisits(schema))
    ensures NamesDiffer(schema)
  {
    hide Found, At, Chain, RoleAt, ChainParameter, Visits;
    forall path, other |
      path != other && ChainParameter(schema, path).Some? && ChainParameter(schema, other).Some?
      ensures ChainParameter(schema, path).value.name != ChainParameter(schema, other).value.name
    {
      ChainIsFound(schema, path);
      ChainIsFound(schema, other);
      EveryPositionVisited(schema, Chain(path));
      EveryPositionVisited(schema, Chain(other));
      var one, two := VisitAt(schema, Chain(path)), VisitAt(schema, Chain(other));
      assert one != two by {
        if one == two {
          ChainIsInjective(path, other);
        }
      }
      NamesOfTwo(AllVisits(schema), one, two);
    }
  }

  lemma NamesOfTwo(visits: seq<Visit>, one: Visit, two: Visit)
    requires Good(visits) && one in visits && two in visits && one != two && IsFound(one) && IsFound(two)
    ensures FoundName(one) != FoundName(two)
  {
    hide Found, GoodOne;
    var j :| 0 <= j < |visits| && visits[j] == one;
    var k :| 0 <= k < |visits| && visits[k] == two;
    if j < k {
      assert FoundName(visits[j]) != FoundName(visits[k]);
    } else {
      assert FoundName(visits[k]) != FoundName(visits[j]);
    }
  }

  lemma WellAnnotatedOne(schema: Value, visit: Visit)
    requires UniqueKeys(schema) && WellAnnotated(schema) && visit in AllVisits(schema)
    ensures GoodOne(visit)
  {
    var p := visit.position;
    EveryVisitStands(schema, visit);
    ChainOfRole(p);
    AnnotatedIsFound(schema, p);
    if Found(visit).Some? {
      var path :| p == Chain(path) && ChainParameter(schema, path).Some?;
      ChainIsFound(schema, path);
    }
  }

  lemma WellAnnotatedNames(schema: Value, one: Visit, two: Visit)
    requires UniqueKeys(schema) && NamesDiffer(schema)
    requires one in AllVisits(schema) && two in AllVisits(schema) && one.position != two.position
    requires IsFound(one) && IsFound(two)
    ensures FoundName(one) != FoundName(two)
  {
    EveryVisitStands(schema, one);
    EveryVisitStands(schema, two);
    FoundIsChain(schema, one.position, Found(one).value.value);
    FoundIsChain(schema, two.position, Found(two).value.value);
  }

  lemma WellAnnotatedGood(schema: Value)
    requires UniqueKeys(schema) && WellAnnotated(schema)
    ensures Good(AllVisits(schema))
  {
    hide Found, GoodOne, IsFound, FoundName, AllVisits;
    var visits := AllVisits(schema);
    forall visit | visit in visits ensures GoodOne(visit) {
      WellAnnotatedOne(schema, visit);
    }
    OncePerPosition(schema);
    forall j, k | 0 <= j < k < |visits| && IsFound(visits[j]) && IsFound(visits[k])
      ensures FoundName(visits[j]) != FoundName(visits[k])
    {
      WellAnnotatedNames(schema, visits[j], visits[k]);
    }
  }

  /** The walk succeeds on exactly the well-annotated schemas. */
  lemma AnnotationsAcceptWellAnnotated(schema: Value)
    requires UniqueKeys(schema)
    ensures Annotations(schema).Ok? <==> WellAnnotated(schema)
  {
    WalkAcceptsGood(schema);
    if Annotations(schema).Ok? {
      GoodContainers(schema);
      GoodParameters(schema);
      GoodNames(schema);
    }
    if WellAnnotated(schema) {
      WellAnnotatedGood(schema);
    }
  }

  /** It returns exactly the parameters that stand at their own chains, under different names. */
  lemma AnnotationsAreThoseAtChains(schema: Value)
    requires UniqueKeys(schema) && Annotations(schema).Ok?
    ensures forall x :: x in Annotations(schema).value <==> ChainParameter(schema, x.path) == Some(x)
    ensures forall i, j :: 0 <= i < j < |Annotations(schema).value| ==>
                             Annotations(schema).value[i].name != Annotations(schema).value[j].name
  {
    hide Found, Annotations, ChainParameter, IsFound, FoundName, AllVisits, VisitAt, At, Chain;
    WalkAcceptsGood(schema);
    var result := Annotations(schema).value;
    var names :| Reflects(Collected(result, names), AllVisits(schema));
    forall x ensures x in result <==> ChainParameter(schema, x.path) == Some(x) {
      if x in result {
        var visit :| visit in AllVisits(schema) && Found(visit) == Some(Some(x));
        EveryVisitStands(schema, visit);
        FoundIsChain(schema, visit.position, x);
      }
      if ChainParameter(schema, x.path) == Some(x) {
        ChainIsFound(schema, x.path);
        EveryPositionVisited(schema, Chain(x.path));
      }
    }
  }

  /** Header names are equal exactly when the annotations are, ignoring case. */
  lemma NamesCollideIffSameIgnoringCase(a: string, b: string)
    requires HeaderName(a).Some? && HeaderName(b).Some?
    ensures HeaderName(a).value == HeaderName(b).value <==> Lower(a) == Lower(b)
  {
    var prefix := "Mcp-Param-";
    assert Lower(prefix + a) == Lower(prefix) + Lower(a);
    assert Lower(prefix + b) == Lower(prefix) + Lower(b);
    assert Lower(prefix + a)[|prefix|..] == Lower(a) && Lower(prefix + b)[|prefix|..] == Lower(b);
  }

  // -------------------------------------------------- what a parameter is

  /** The delimiters of section 5.6.2 of RFC 9110, and the space. */
  const DELIMITERS := {'"', '(', ')', ',', '/', ':', ';', '<', '=', '>', '?', '@', '[', '\\', ']', '{', '}', ' '}

  /** A token character is a visible one that is no delimiter. */
  lemma TokenCharIff(c: char)
    ensures IsTokenChar(c) <==> 32 <= c as int < 127 && c !in DELIMITERS
  {
  }

  /** `t` is `s` with its capital letters made small. */
  predicate IsLower(s: string, t: string) {
    |s| == |t| && forall i :: 0 <= i < |s| ==>
      (t[i] == s[i] && !('A' <= s[i] <= 'Z')) || ('A' <= s[i] <= 'Z' && t[i] as int == s[i] as int + 32)
  }

  /**
   The parameter at the chain of a path, told of the object found there: a nonempty
   path, an annotation that makes a header name, and one of the three primitive types.
   */
  lemma ChainParameterIff(schema: Value, x: Parameter)
    ensures ChainParameter(schema, x.path) == Some(x) <==>
            && x.path != [] && At(schema, Chain(x.path)).Some?
            && x.kind in {"string", "integer", "boolean"}
            && Get(At(schema, Chain(x.path)).value, "type") == Some(String(x.kind))
            && exists suffix: string ::
                 && Get(At(schema, Chain(x.path)).value, "x-mcp-header") == Some(String(suffix))
                 && 0 < |suffix| <= 65525 && (forall c :: c in suffix ==> IsTokenChar(c))
                 && IsLower("Mcp-Param-" + suffix, x.name)
  {
    hide At, Get;
    var v := At(schema, Chain(x.path));
    if v.Some? && Get(v.value, "x-mcp-header").Some? && Get(v.value, "x-mcp-header").value.String? {
      var suffix := Get(v.value, "x-mcp-header").value.chars;
      HeaderNameIff(suffix, x.name);
    }
  }

  lemma HeaderNameIff(suffix: string, name: string)
    ensures HeaderName(suffix) == Some(name) <==>
            |suffix| <= 65525 && (forall c :: c in suffix ==> IsTokenChar(c)) && IsLower("Mcp-Param-" + suffix, name)
  {
    var full := "Mcp-Param-" + suffix;
    assert forall i :: 0 <= i < |suffix| ==> full[i + 10] == suffix[i];
    LowerIff(full, name);
  }

  lemma LowerIff(s: string, t: string)
    ensures Lower(s) == t <==> IsLower(s, t)
  {
  }
}

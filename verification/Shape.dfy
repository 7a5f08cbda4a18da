/**
 The shape report of a JSON value under limits of depth, width and nodes
 (`inspect` in src/shape.rs). All nodes share one counter.
 */
module Shape {
  import opened Common
  import opened Json

  datatype Kind = NullKind | BooleanKind | NumberKind | StringKind

  /** `children` are the reports of the children shown, `omitted` counts the others. */
  datatype Report =
    | Leaf(kind: Kind)
    | Fields(omitted: int, names: seq<string>, children: seq<Report>)
    | Items(omitted: int, length: nat, children: seq<Report>)

  // ------------------------------------------------------------- containers

  function Count(v: Value): nat {
    match v
    case Object(fields) => |fields|
    case Array(items) => |items|
    case _ => 0
  }

  function Child(v: Value, i: nat): (c: Value)
    requires i < Count(v)
    ensures c < v
  {
    if v.Object? then v.fields[i].value else v.items[i]
  }

  /** The names of the first `n` fields. */
  function Names(v: Value, n: nat): (names: seq<string>)
    requires v.Object? && n <= |v.fields|
    ensures |names| == n && forall i :: 0 <= i < n ==> names[i] == v.fields[i].name
  {
    seq(n, i requires 0 <= i < n => v.fields[i].name)
  }

  // ------------------------------------------------------ what is computed

  /** The report of a value whose shown children are reported as `shown`. */
  function ReportOf(v: Value, shown: seq<Report>): Report
    requires |shown| <= Count(v)
  {
    match v
    case Object(fields) => Fields(|fields| - |shown|, Names(v, |shown|), shown)
    case Array(items) => Items(|items| - |shown|, |items|, shown)
    case Null => Leaf(NullKind)
    case Bool(_) => Leaf(BooleanKind)
    case Number(_) => Leaf(NumberKind)
    case String(_) => Leaf(StringKind)
  }

  function Inspect(v: Value, depth: nat, width: nat, budget: nat): (Report, nat)
    requires budget >= 1
    decreases v, 1, 0
  {
    var (shown, left) := Show(v, 0, depth, width, budget - 1);
    (ReportOf(v, shown), left)
  }

  /** The reports of the children from `i` on, as far as the limits allow. */
  function Show(v: Value, i: nat, depth: nat, width: nat, budget: nat): (r: (seq<Report>, nat))
    requires i <= Count(v)
    ensures |r.0| <= Count(v) - i
    decreases v, 0, Count(v) - i
  {
    if i == Count(v) || i >= width || depth == 0 || budget == 0 then ([], budget)
    else
      var (report, left) := Inspect(Child(v, i), depth - 1, width, budget);
      var (more, rest) := Show(v, i + 1, depth, width, left);
      ([report] + more, rest)
  }

  predicate Stops(v: Value, i: nat, depth: nat, width: nat, budget: nat) {
    i >= Count(v) || i >= width || depth == 0 || budget == 0
  }

  lemma ShowStops(v: Value, i: nat, depth: nat, width: nat, budget: nat)
    requires i <= Count(v) && Stops(v, i, depth, width, budget)
    ensures Show(v, i, depth, width, budget) == ([], budget)
  {
  }

  lemma ShowContinues(v: Value, i: nat, depth: nat, width: nat, budget: nat, before: seq<Report>)
    requires i <= Count(v) && !Stops(v, i, depth, width, budget)
    ensures var (report, left) := Inspect(Child(v, i), depth - 1, width, budget);
            && before + Show(v, i, depth, width, budget).0 == before + [report] + Show(v, i + 1, depth, width, left).0
            && Show(v, i, depth, width, budget).1 == Show(v, i + 1, depth, width, left).1
  {
    var (report, left) := Inspect(Child(v, i), depth - 1, width, budget);
    assert Show(v, i, depth, width, budget).0 == [report] + Show(v, i + 1, depth, width, left).0;
  }

  // ------------------------------------------------------------ the program

  class Counter {
    var remaining: nat

    constructor (budget: nat)
      ensures remaining == budget
    {
      remaining := budget;
    }

    /** The counter never goes below zero, although it is decreased without a check. */
    method Visit(v: Value, depth: nat, width: nat) returns (report: Report)
      requires remaining >= 1
      modifies this
      ensures (report, remaining) == Inspect(v, depth, width, old(remaining))
      decreases v
    {
      hide Show;
      remaining := remaining - 1;
      ghost var all := Show(v, 0, depth, width, remaining);
      assert [] + all.0 == all.0;
      match v {
        case Object(fields) =>
          var names: seq<string>, shown := [], [];
          while |shown| < |fields| && |shown| < width && depth != 0 && remaining != 0
            invariant |shown| <= |fields| && names == Names(v, |shown|)
            invariant all.0 == shown + Show(v, |shown|, depth, width, remaining).0
            invariant all.1 == Show(v, |shown|, depth, width, remaining).1
            decreases |fields| - |shown|
          {
            var field := fields[|shown|];
            ShowContinues(v, |shown|, depth, width, remaining, shown);
            var child := Visit(field.value, depth - 1, width);
            names, shown := names + [field.name], shown + [child];
          }
          ShowStops(v, |shown|, depth, width, remaining);
          assert shown + [] == shown;
          report := Fields(|fields| - |shown|, names, shown);
        case Array(items) =>
          var shown := [];
          while |shown| < |items| && |shown| < width && depth != 0 && remaining != 0
            invariant |shown| <= |items|
            invariant all.0 == shown + Show(v, |shown|, depth, width, remaining).0
            invariant all.1 == Show(v, |shown|, depth, width, remaining).1
            decreases |items| - |shown|
          {
            ShowContinues(v, |shown|, depth, width, remaining, shown);
            var child := Visit(items[|shown|], depth - 1, width);
            shown := shown + [child];
          }
          ShowStops(v, |shown|, depth, width, remaining);
          assert shown + [] == shown;
          report := Items(|items| - |shown|, |items|, shown);
        case Null =>
          ShowStops(v, 0, depth, width, remaining);
          report := Leaf(NullKind);
        case Bool(_) =>
          ShowStops(v, 0, depth, width, remaining);
          report := Leaf(BooleanKind);
        case Number(_) =>
          ShowStops(v, 0, depth, width, remaining);
          report := Leaf(NumberKind);
        case String(_) =>
          ShowStops(v, 0, depth, width, remaining);
          report := Leaf(StringKind);
      }
    }
  }

  // ---------------------------------------------------------------- measures

  /** Nodes of a report. */
  function Nodes(r: Report): nat
    decreases r, 1, 0
  {
    1 + if r.Leaf? then 0 else NodesFrom(r, 0)
  }

  function NodesFrom(r: Report, i: nat): nat
    requires !r.Leaf? && i <= |r.children|
    decreases r, 0, |r.children| - i
  {
    if i == |r.children| then 0 else Nodes(r.children[i]) + NodesFrom(r, i + 1)
  }

  function Total(reports: seq<Report>): nat {
    if reports == [] then 0 else Nodes(reports[0]) + Total(reports[1..])
  }

  /** Values in a value, itself included. */
  function Size(v: Value): nat
    decreases v, 1, 0
  {
    1 + SizeFrom(v, 0)
  }

  function SizeFrom(v: Value, i: nat): nat
    requires i <= Count(v)
    decreases v, 0, Count(v) - i
  {
    if i == Count(v) then 0 else Size(Child(v, i)) + SizeFrom(v, i + 1)
  }

  /** No value is nested deeper, and no container is wider. */
  predicate Fits(v: Value, depth: nat, width: nat)
    decreases v
  {
    Count(v) <= width && forall i: nat :: i < Count(v) ==> depth >= 1 && Fits(Child(v, i), depth - 1, width)
  }

  /** The report of one value by itself: its type, its size, and the names of the fields shown. */
  predicate Describes(r: Report, v: Value) {
    match v
    case Null => r == Leaf(NullKind)
    case Bool(_) => r == Leaf(BooleanKind)
    case Number(_) => r == Leaf(NumberKind)
    case String(_) => r == Leaf(StringKind)
    case Object(fields) =>
      && r.Fields? && |r.children| + r.omitted == |fields| && 0 <= r.omitted && |r.names| == |r.children|
      && forall i :: 0 <= i < |r.names| ==> r.names[i] == fields[i].name
    case Array(items) =>
      r.Items? && |r.children| + r.omitted == |items| == r.length && 0 <= r.omitted
  }

  /** A truthful report: the first children in order, each truthful, and the rest counted as omitted. */
  ghost predicate Truthful(r: Report, v: Value)
    decreases r
  {
    Describes(r, v) &&
    (!r.Leaf? ==>
       |r.children| <= Count(v) && forall i :: 0 <= i < |r.children| ==> Truthful(r.children[i], Child(v, i)))
  }

  /** Nothing is omitted anywhere. */
  predicate Complete(r: Report) {
    !r.Leaf? ==> r.omitted == 0 && forall i :: 0 <= i < |r.children| ==> Complete(r.children[i])
  }

  // ---------------------------------------------------------------- theorems

  lemma {:induction false} NodesOfChildren(r: Report, i: nat)
    requires !r.Leaf? && i <= |r.children|
    ensures NodesFrom(r, i) == Total(r.children[i..])
    decreases |r.children| - i
  {
    if i < |r.children| {
      NodesOfChildren(r, i + 1);
      assert r.children[i..][1..] == r.children[i + 1..];
    }
  }

  lemma NodesOfReport(v: Value, shown: seq<Report>)
    requires |shown| <= Count(v)
    ensures Nodes(ReportOf(v, shown)) == 1 + Total(shown)
  {
    var r := ReportOf(v, shown);
    if !r.Leaf? {
      NodesOfChildren(r, 0);
      assert shown[0..] == shown;
    } else {
      assert shown == [];
    }
  }

  /** The budget spent is exactly the number of nodes of the report. */
  lemma {:induction false} SpendsItsNodes(v: Value, depth: nat, width: nat, budget: nat)
    requires budget >= 1
    ensures Inspect(v, depth, width, budget).1 + Nodes(Inspect(v, depth, width, budget).0) == budget
    decreases v, 1, 0
  {
    ShowSpends(v, 0, depth, width, budget - 1);
    NodesOfReport(v, Show(v, 0, depth, width, budget - 1).0);
  }

  lemma {:induction false} ShowSpends(v: Value, i: nat, depth: nat, width: nat, budget: nat)
    requires i <= Count(v)
    ensures Show(v, i, depth, width, budget).1 + Total(Show(v, i, depth, width, budget).0) == budget
    decreases v, 0, Count(v) - i
  {
    if !(i == Count(v) || i >= width || depth == 0 || budget == 0) {
      SpendsItsNodes(Child(v, i), depth - 1, width, budget);
      var left := Inspect(Child(v, i), depth - 1, width, budget).1;
      ShowSpends(v, i + 1, depth, width, left);
      assert Show(v, i, depth, width, budget).0[1..] == Show(v, i + 1, depth, width, left).0;
    }
  }

  lemma TruthfulReport(v: Value, shown: seq<Report>)
    requires |shown| <= Count(v) && forall k :: 0 <= k < |shown| ==> Truthful(shown[k], Child(v, k))
    ensures Truthful(ReportOf(v, shown), v)
  {
    assert Count(v) == 0 ==> shown == [];
  }

  /** Every report is truthful: shown and omitted children add up to the container, in order. */
  lemma {:induction false} ReportIsTruthful(v: Value, depth: nat, width: nat, budget: nat)
    requires budget >= 1
    ensures Truthful(Inspect(v, depth, width, budget).0, v)
    decreases v, 1, 0
  {
    var shown := Show(v, 0, depth, width, budget - 1).0;
    ShowIsTruthful(v, 0, depth, width, budget - 1, shown);
    TruthfulReport(v, shown);
  }

  lemma {:induction false} ShowIsTruthful(
    v: Value, i: nat, depth: nat, width: nat, budget: nat, shown: seq<Report>)
    requires i <= Count(v) && shown == Show(v, i, depth, width, budget).0
    ensures forall k :: 0 <= k < |shown| ==> Truthful(shown[k], Child(v, i + k))
    decreases v, 0, Count(v) - i
  {
    hide Truthful;
    if !Stops(v, i, depth, width, budget) {
      ReportIsTruthful(Child(v, i), depth - 1, width, budget);
      var (report, left) := Inspect(Child(v, i), depth - 1, width, budget);
      var more := Show(v, i + 1, depth, width, left).0;
      ShowIsTruthful(v, i + 1, depth, width, left, more);
      assert shown == [report] + more;
      forall k | 0 <= k < |shown| ensures Truthful(shown[k], Child(v, i + k)) {
        if k > 0 {
          assert shown[k] == more[k - 1] && i + k == i + 1 + (k - 1);
        }
      }
    }
  }

  /** All children from `i` on are reported, and completely. */
  ghost predicate AllShown(v: Value, i: nat, depth: nat, width: nat, budget: nat)
    requires i <= Count(v)
  {
    var shown := Show(v, i, depth, width, budget).0;
    |shown| == Count(v) - i && forall k :: 0 <= k < |shown| ==> Complete(shown[k])
  }

  ghost predicate FitsFrom(v: Value, i: nat, depth: nat, width: nat)
    requires i <= Count(v)
  {
    (i < Count(v) ==> Count(v) <= width) &&
    forall k: nat :: i <= k < Count(v) ==> depth >= 1 && Fits(Child(v, k), depth - 1, width)
  }

  /** The report is complete exactly when depth, width and budget cover the whole value. */
  lemma {:induction false} CompleteIff(v: Value, depth: nat, width: nat, budget: nat)
    requires budget >= 1
    ensures Complete(Inspect(v, depth, width, budget).0) <==> Fits(v, depth, width) && Size(v) <= budget
    decreases v, 1, 0
  {
    AllShownIff(v, 0, depth, width, budget - 1);
    CompleteReport(v, Show(v, 0, depth, width, budget - 1).0);
  }

  lemma CompleteReport(v: Value, shown: seq<Report>)
    requires |shown| <= Count(v)
    ensures Complete(ReportOf(v, shown)) <==> |shown| == Count(v) && forall k :: 0 <= k < |shown| ==> Complete(shown[k])
  {
  }

  lemma {:induction false} AllShownIff(v: Value, i: nat, depth: nat, width: nat, budget: nat)
    requires i <= Count(v)
    ensures AllShown(v, i, depth, width, budget) <==> FitsFrom(v, i, depth, width) && SizeFrom(v, i) <= budget
    decreases v, 0, Count(v) - i
  {
    hide Fits, Complete, Inspect;
    if !Stops(v, i, depth, width, budget) {
      var (report, left) := Inspect(Child(v, i), depth - 1, width, budget);
      var more := Show(v, i + 1, depth, width, left).0;
      assert Show(v, i, depth, width, budget).0 == [report] + more;
      CompleteIff(Child(v, i), depth - 1, width, budget);
      SpendsItsNodes(Child(v, i), depth - 1, width, budget);
      AllShownIff(v, i + 1, depth, width, left);
      AllShownAfter(report, more);
      if Complete(report) {
        ReportIsTruthful(Child(v, i), depth - 1, width, budget);
        CompleteSize(report, Child(v, i));
      }
    } else if i < Count(v) {
      SizeIsPositive(v, i);
    }
  }

  lemma AllShownAfter(report: Report, more: seq<Report>)
    ensures (forall k :: 0 <= k < |[report] + more| ==> Complete(([report] + more)[k])) <==>
            Complete(report) && forall k :: 0 <= k < |more| ==> Complete(more[k])
  {
    hide Complete;
    var all := [report] + more;
    if forall k :: 0 <= k < |all| ==> Complete(all[k]) {
      assert Complete(all[0]);
      forall k | 0 <= k < |more| ensures Complete(more[k]) {
        assert Complete(all[k + 1]);
      }
    }
  }

  lemma SizeIsPositive(v: Value, i: nat)
    requires i < Count(v)
    ensures SizeFrom(v, i) >= 1
  {
  }

  lemma {:induction false} CompleteSize(r: Report, v: Value)
    requires Truthful(r, v) && Complete(r)
    ensures Nodes(r) == Size(v)
    decreases r, 1, 0
  {
    if !r.Leaf? {
      CompleteSizeFrom(r, v, 0);
    }
  }

  lemma {:induction false} CompleteSizeFrom(r: Report, v: Value, i: nat)
    requires !r.Leaf? && Truthful(r, v) && Complete(r) && i <= |r.children| == Count(v)
    ensures NodesFrom(r, i) == SizeFrom(v, i)
    decreases r, 0, |r.children| - i
  {
    if i < |r.children| {
      CompleteSize(r.children[i], Child(v, i));
      CompleteSizeFrom(r, v, i + 1);
    }
  }

  // --------------------------------------------------- nothing is held back

  /** Children are omitted only for depth, for width, or because all nodes are spent. */
  ghost predicate Greedy(r: Report, depth: nat, width: nat, spent: bool)
    decreases r
  {
    !r.Leaf? ==>
      && |r.children| <= width && (depth == 0 ==> r.children == [])
      && (r.omitted == 0 || depth == 0 || |r.children| == width || spent)
      && forall i :: 0 <= i < |r.children| ==> depth >= 1 && Greedy(r.children[i], depth - 1, width, spent)
  }

  lemma GreedyReport(v: Value, shown: seq<Report>, depth: nat, width: nat, spent: bool)
    requires |shown| <= Count(v) && |shown| <= width && (depth == 0 ==> shown == [])
    requires |shown| == Count(v) || depth == 0 || |shown| == width || spent
    requires forall k :: 0 <= k < |shown| ==> depth >= 1 && Greedy(shown[k], depth - 1, width, spent)
    ensures Greedy(ReportOf(v, shown), depth, width, spent)
  {
  }

  /** What is shown respects the limits, and only they or an exhausted count of nodes leave anything out. */
  lemma {:induction false} ReportIsGreedy(v: Value, depth: nat, width: nat, budget: nat, spent: bool)
    requires budget >= 1 && (Inspect(v, depth, width, budget).1 == 0 ==> spent)
    ensures Greedy(Inspect(v, depth, width, budget).0, depth, width, spent)
    decreases v, 1, 0
  {
    hide Greedy;
    var shown := Show(v, 0, depth, width, budget - 1).0;
    ShowIsGreedy(v, 0, depth, width, budget - 1, shown, spent);
    GreedyReport(v, shown, depth, width, spent);
  }

  lemma {:induction false} ShowIsGreedy(
    v: Value, i: nat, depth: nat, width: nat, budget: nat, shown: seq<Report>, spent: bool)
    requires i <= Count(v) && shown == Show(v, i, depth, width, budget).0 && i <= width
    requires Show(v, i, depth, width, budget).1 == 0 ==> spent
    ensures i + |shown| <= width && (depth == 0 ==> shown == [])
    ensures i + |shown| == Count(v) || depth == 0 || i + |shown| == width || spent
    ensures forall k :: 0 <= k < |shown| ==> depth >= 1 && Greedy(shown[k], depth - 1, width, spent)
    decreases v, 0, Count(v) - i
  {
    hide Greedy;
    if !Stops(v, i, depth, width, budget) {
      var (report, left) := Inspect(Child(v, i), depth - 1, width, budget);
      var more := Show(v, i + 1, depth, width, left).0;
      ShowSpends(v, i + 1, depth, width, left);
      ReportIsGreedy(Child(v, i), depth - 1, width, budget, spent);
      ShowIsGreedy(v, i + 1, depth, width, left, more, spent);
      assert shown == [report] + more;
    }
  }
}

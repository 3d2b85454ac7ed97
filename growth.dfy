/** `parse_api_3_growth`: every graph of every section whose label is
    exactly one of the two targets writes the latest value of its data under
    that label, 0.0 when the latest value cannot be read; a later graph with
    the same label overwrites an earlier one. Both files define it
    identically. */
module Growth {
  import opened Wrappers
  import opened OrderedDict
  import opened PyValue
  import opened Flatten

  /** `targets`. */
  const Targets: seq<string> := ["Revenue Growth", "Net Profit Growth"]

  /** `label in targets`: list membership compares with `==`, so only a str
      equal to a target matches. */
  predicate IsTarget(name: Json) {
    name.JStr? && name.s in Targets
  }

  /** `graph.get('label')`. */
  function GraphLabel(fields: seq<(string, Json)>): Json {
    ObjGet(fields, "label", JNull)
  }

  /** `section.get('graphs', [])`. */
  function Graphs(fields: seq<(string, Json)>): Json {
    ObjGet(fields, "graphs", JArr([]))
  }

  /** An exception escapes while handling `section`: it is not a dict
      (`section.get` raises), its graphs cannot be iterated, or one of them
      is not a dict (`graph.get` raises). */
  predicate SectionRaises(section: Json) {
    || !section.JObj?
    || Iterate(Graphs(section.fields)).None?
    || exists j :: 0 <= j < |Iterate(Graphs(section.fields)).value| && !Iterate(Graphs(section.fields)).value[j].JObj?
  }

  /** The graphs the inner loop visits for `section`. */
  function SectionGraphs(section: Json): seq<Json> {
    if section.JObj? then Iterate(Graphs(section.fields)).GetOr([]) else []
  }

  /** Every graph of every section, in the order the two loops visit them. */
  function AllGraphs(sections: seq<Json>): seq<Json> {
    if sections == [] then []
    else AllGraphs(sections[..|sections| - 1]) + SectionGraphs(sections[|sections| - 1])
  }

  /** The write one graph makes: under a target label, the coerced latest
      value, or 0.0 when `graph['data'][-1]['value']` raises. */
  function GraphLog(graph: Json): seq<Write> {
    if graph.JObj? && IsTarget(GraphLabel(graph.fields)) then
      [(GraphLabel(graph.fields).s, JFloat(GraphValue(graph)))]
    else []
  }

  function GraphLogs(graphs: seq<Json>): seq<seq<Write>> {
    seq(|graphs|, j requires 0 <= j < |graphs| => GraphLog(graphs[j]))
  }

  function GraphsLog(graphs: seq<Json>): seq<Write> {
    Concat(GraphLogs(graphs))
  }

  /** `parse_api_3_growth(data)`. */
  function Growth(data: Json): Outcome<Flat> {
    match Iterate(data)
    case None => Raised
    case Some(sections) =>
      if exists i :: 0 <= i < |sections| && SectionRaises(sections[i]) then Raised
      else Done(Replay(EmptyDict(), GraphsLog(AllGraphs(sections))))
  }

  lemma GraphLogsAppend(a: seq<Json>, b: seq<Json>)
    ensures GraphLogs(a + b) == GraphLogs(a) + GraphLogs(b)
  {
    assert forall j :: 0 <= j < |a + b| ==> GraphLogs(a + b)[j] == (GraphLogs(a) + GraphLogs(b))[j] by {
      forall j | 0 <= j < |a + b| ensures GraphLogs(a + b)[j] == (GraphLogs(a) + GraphLogs(b))[j] {
        if j >= |a| {
          assert (a + b)[j] == b[j - |a|];
        }
      }
    }
  }

  /** The writes of two runs of graphs, one after the other. */
  lemma GraphsLogAppend(a: seq<Json>, b: seq<Json>)
    ensures GraphsLog(a + b) == GraphsLog(a) + GraphsLog(b)
  {
    GraphLogsAppend(a, b);
    ConcatAppend(GraphLogs(a), GraphLogs(b));
  }

  /** One more graph appends its write. */
  lemma GraphsLogSnoc(graphs: seq<Json>)
    requires graphs != []
    ensures GraphsLog(graphs) == GraphsLog(graphs[..|graphs| - 1]) + GraphLog(graphs[|graphs| - 1])
  {
    assert GraphLogs(graphs)[..|graphs| - 1] == GraphLogs(graphs[..|graphs| - 1]);
  }

  /** What the value under a target label becomes: the latest value, or
      0.0 when reading it raises. */
  function GraphValue(graph: Json): real
    requires graph.JObj?
  {
    LastValue(graph.fields).GetOr(0.0)
  }

  /** `cur` is what the inner loop holds after its first `i` passes. */
  predicate GraphsDone(d: Flat, graphs: seq<Json>, i: nat, cur: Flat) {
    i <= |graphs| && cur == Replay(d, GraphsLog(graphs[..i]))
  }

  /** One pass of the inner loop over a dict `graph`. */
  lemma GraphStep(d: Flat, graphs: seq<Json>, i: nat, prev: Flat, next: Flat)
    requires i < |graphs| && graphs[i].JObj? && GraphsDone(d, graphs, i, prev)
    requires var g := graphs[i];
             next == if IsTarget(GraphLabel(g.fields)) then Set(prev, GraphLabel(g.fields).s, JFloat(GraphValue(g))) else prev
    ensures GraphsDone(d, graphs, i + 1, next)
  {
    var g := graphs[i];
    GraphsLogSnoc(graphs[..i + 1]);
    assert graphs[..i + 1][..i] == graphs[..i];
    if IsTarget(GraphLabel(g.fields)) {
      ReplaySnoc(d, GraphsLog(graphs[..i]), GraphLabel(g.fields).s, JFloat(GraphValue(g)));
    } else {
      assert GraphsLog(graphs[..i]) + [] == GraphsLog(graphs[..i]);
    }
  }

  /** The inner loop: `for graph in graphs`. */
  method ScanGraphs(d: Flat, graphs: seq<Json>) returns (r: Outcome<Flat>)
    ensures r.Raised? <==> exists j :: 0 <= j < |graphs| && !graphs[j].JObj?
    ensures r.Done? ==> r.value == Replay(d, GraphsLog(graphs))
  {
    var cur := d;
    var i := 0;
    while i < |graphs|
      invariant 0 <= i <= |graphs|
      invariant forall j :: 0 <= j < i ==> graphs[j].JObj?
      invariant GraphsDone(d, graphs, i, cur)
    {
      var graph := graphs[i];
      if !graph.JObj? {
        return Raised;
      }
      assert forall j :: 0 <= j < i + 1 ==> graphs[j].JObj? by {
        forall j | 0 <= j < i + 1 ensures graphs[j].JObj? {
          if j == i { assert graph.JObj?; }
        }
      }
      var next := cur;
      var tag := GraphLabel(graph.fields);
      if IsTarget(tag) {
        var x := LastValue(graph.fields).GetOr(0.0);
        next := Set(cur, tag.s, JFloat(x));
      }
      GraphStep(d, graphs, i, cur, next);
      cur := next;
      i := i + 1;
    }
    assert graphs[..i] == graphs;
    return Done(cur);
  }

  /** The body of the outer loop for one section. */
  method ScanSection(d: Flat, section: Json) returns (r: Outcome<Flat>)
    ensures r.Raised? <==> SectionRaises(section)
    ensures r.Done? ==> r.value == Replay(d, GraphsLog(SectionGraphs(section)))
  {
    if !section.JObj? {
      return Raised;
    }
    var graphs := Iterate(Graphs(section.fields));
    if graphs.None? {
      return Raised;
    }
    r := ScanGraphs(d, graphs.value);
  }

  /** `cur` is what the outer loop holds after its first `i` passes. */
  predicate SectionsDone(sections: seq<Json>, i: nat, cur: Flat) {
    i <= |sections| && cur == Replay(EmptyDict(), GraphsLog(AllGraphs(sections[..i])))
  }

  /** One pass of the outer loop over a section that does not raise. */
  lemma SectionStep(sections: seq<Json>, i: nat, prev: Flat, next: Flat)
    requires i < |sections| && SectionsDone(sections, i, prev)
    requires next == Replay(prev, GraphsLog(SectionGraphs(sections[i])))
    ensures SectionsDone(sections, i + 1, next)
  {
    assert sections[..i + 1][..i] == sections[..i];
    GraphsLogAppend(AllGraphs(sections[..i]), SectionGraphs(sections[i]));
    ReplayAppend(EmptyDict(), GraphsLog(AllGraphs(sections[..i])), GraphsLog(SectionGraphs(sections[i])));
  }

  /** The outer loop: `for section in data`. */
  method ScanSections(sections: seq<Json>) returns (r: Outcome<Flat>)
    ensures r.Raised? <==> exists i :: 0 <= i < |sections| && SectionRaises(sections[i])
    ensures r.Done? ==> r.value == Replay(EmptyDict(), GraphsLog(AllGraphs(sections)))
  {
    var cur := EmptyDict();
    var i := 0;
    while i < |sections|
      invariant 0 <= i <= |sections|
      invariant forall j :: 0 <= j < i ==> !SectionRaises(sections[j])
      invariant SectionsDone(sections, i, cur)
    {
      var step := ScanSection(cur, sections[i]);
      if step.Raised? {
        return Raised;
      }
      assert forall j :: 0 <= j < i + 1 ==> !SectionRaises(sections[j]) by {
        forall j | 0 <= j < i + 1 ensures !SectionRaises(sections[j]) {
          if j == i { assert step.Done?; }
        }
      }
      SectionStep(sections, i, cur, step.value);
      cur := step.value;
      i := i + 1;
    }
    assert sections[..i] == sections;
    return Done(cur);
  }

  /** `parse_api_3_growth(data)` as the code runs it, loop by loop. */
  method ParseGrowth(data: Json) returns (r: Outcome<Flat>)
    ensures r == Growth(data)
  {
    var sections := Iterate(data);
    if sections.None? {
      return Raised;
    }
    r := ScanSections(sections.value);
  }

  // ---------------------------------------------------------------------
  // What the result holds.

  /** The last graph, if any, that writes under `t`. */
  function LastGraph(graphs: seq<Json>, t: string): (r: Option<Json>)
    ensures r.Some? ==> r.value in graphs && r.value.JObj? && GraphLabel(r.value.fields) == JStr(t) && t in Targets
  {
    if graphs == [] then None
    else
      var g := graphs[|graphs| - 1];
      if g.JObj? && GraphLabel(g.fields) == JStr(t) && t in Targets then Some(g)
      else
        var r := LastGraph(graphs[..|graphs| - 1], t);
        assert r.Some? ==> r.value in graphs[..|graphs| - 1];
        r
  }

  /** A later graph overwrites an earlier one: the value under `t` is the
      one the last graph labelled `t` wrote. */
  lemma {:induction false} GraphsLogLast(graphs: seq<Json>, t: string)
    ensures LastWrite(GraphsLog(graphs), t) ==
            match LastGraph(graphs, t)
            case Some(g) => Some(JFloat(LastValue(g.fields).GetOr(0.0)))
            case None => None
    decreases |graphs|
  {
    if graphs != [] {
      var n := |graphs| - 1;
      GraphsLogSnoc(graphs);
      LastWriteAppend(GraphsLog(graphs[..n]), GraphLog(graphs[n]), t);
      GraphsLogLast(graphs[..n], t);
    }
  }

  /** Each target holds what its last graph wrote (0.0 when that graph's
      latest value cannot be read) and is absent when no graph is labelled
      with it. */
  lemma GrowthValue(data: Json, d: Flat, t: string)
    requires Growth(data) == Done(d)
    ensures Get(d, t) == match LastGraph(AllGraphs(Iterate(data).value), t)
                         case Some(g) => Some(JFloat(LastValue(g.fields).GetOr(0.0)))
                         case None => None
  {
    var graphs := AllGraphs(Iterate(data).value);
    ReplayEmptyGet(GraphsLog(graphs), t);
    GraphsLogLast(graphs, t);
  }

  /** The result has no key but the two targets. */
  lemma GrowthKeys(data: Json, d: Flat, key: string)
    requires Growth(data) == Done(d)
    requires key in d.keys
    ensures key == "Revenue Growth" || key == "Net Profit Growth"
  {
    GrowthValue(data, d, key);
  }
}

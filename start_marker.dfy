/** Recognising a start marker, numbering its block and describing it. */
module StartMarker {
  import opened Wrappers
  import opened Errors
  import opened Mdast
  import opened MarkerSyntax
  import opened PluginOptions

  /**
    * The descriptor of a block. The first four fields are the ones the start-marker
    * analyser fills in; the rest are the optional fields the environment renderer
    * reads from the same record.
    */
  datatype BlockStartInfo = BlockStartInfo(
    envName: string,
    line: Line,
    params: Option<string>,
    numbering: Option<int>,
    startLine: Line,
    addNumbering: Option<bool>,
    envStartText: Option<string>,
    envEndText: Option<string>,
    name: Option<string>)

  /** The record the start-marker analyser returns. */
  function StartInfo(envName: string, line: Line, params: string, numbering: int): BlockStartInfo {
    BlockStartInfo(envName, line, Some(params), Some(numbering), None, None, None, None, None)
  }

  /** `node.position?.start.line` */
  function LineOf(n: Node): Line {
    if n.Paragraph? then n.line else None
  }

  /** Every counter label named in the environment table has a counter. */
  predicate CountersCover(envs: Option<EnvTable>, counts: map<string, int>) {
    envs.Some? ==> forall n :: n in envs.value ==> envs.value[n].1 in counts
  }

  /** The counter label of a known environment. */
  function CounterLabel(o: Options, envName: string): string
    requires HasEnv(o, envName)
  {
    o.theoremEnvs.value[envName].1
  }

  /** The counters after one more use of `key`: that counter up by one, no other changed. */
  function Bump(counts: map<string, int>, key: string): (c: map<string, int>)
    requires key in counts
    ensures c.Keys == counts.Keys
    ensures c[key] == counts[key] + 1
    ensures forall k :: k in counts && k != key ==> c[k] == counts[k]
  {
    counts[key := counts[key] + 1]
  }

  /**
    * What analysing `node` as a start marker returns (`None` for "not a marker"), with
    * the counters it leaves behind. The error cases are stated by `StartOutcomeErrors`.
    */
  function StartOutcome(node: Node, startMarker: string, o: Options, counts: map<string, int>)
    : (r: Result<Option<(BlockStartInfo, map<string, int>)>, Error>)
    requires CountersCover(o.theoremEnvs, counts)
    ensures r == Ok(None) <==> !IsMarkerShaped(node, startMarker)
    ensures r.Ok? && r.value.Some? ==>
      && IsMarkerShaped(node, startMarker)
      && MatchStart(node.children[0].value, startMarker).Some?
      && var m := MatchStart(node.children[0].value, startMarker).value;
      && HasEnv(o, m.name) && CounterLabel(o, m.name) != ""
      && r.value.value.0 == StartInfo(m.name, LineOf(node), m.params, counts[CounterLabel(o, m.name)] + 1)
      && r.value.value.1 == Bump(counts, CounterLabel(o, m.name))
      && r.value.value.0.numbering == Some(r.value.value.1[CounterLabel(o, m.name)])
  {
    if !IsMarkerShaped(node, startMarker) then Ok(None)
    else
      match MatchStart(node.children[0].value, startMarker)
      case None => Err(StartFormat(LineOf(node)))
      case Some(m) =>
        if !HasEnv(o, m.name) then Err(UnknownEnvironment(m.name, LineOf(node)))
        else
          var counterKey := CounterLabel(o, m.name);
          if counterKey == "" then Err(CounterLabelNotFound(m.name, LineOf(node)))
          else
            var counts' := Bump(counts, counterKey);
            Ok(Some((StartInfo(m.name, LineOf(node), m.params, counts'[counterKey]), counts')))
  }

  /**
    * The failures, checked in this order: a marker-shaped node whose text does not match
    * `marker{…}` is a format error; a name the environment table lacks is an unknown
    * environment; an empty counter label is reported as not found. All of them come
    * before any counter changes.
    */
  lemma StartOutcomeErrors(node: Node, startMarker: string, o: Options, counts: map<string, int>)
    requires CountersCover(o.theoremEnvs, counts)
    requires IsMarkerShaped(node, startMarker)
    ensures MatchStart(node.children[0].value, startMarker).None?
      ==> StartOutcome(node, startMarker, o, counts) == Err(StartFormat(LineOf(node)))
    ensures MatchStart(node.children[0].value, startMarker).Some?
      ==> var name := MatchStart(node.children[0].value, startMarker).value.name;
        && (!HasEnv(o, name) ==> StartOutcome(node, startMarker, o, counts) == Err(UnknownEnvironment(name, LineOf(node))))
        && (HasEnv(o, name) && CounterLabel(o, name) == ""
            ==> StartOutcome(node, startMarker, o, counts) == Err(CounterLabelNotFound(name, LineOf(node))))
  {
  }

  /** Failing analyses and non-markers leave every counter as it was. */
  predicate CountersAfter(r: Result<Option<(BlockStartInfo, map<string, int>)>, Error>,
                          before: map<string, int>, after: map<string, int>) {
    if r.Ok? && r.value.Some? then after == r.value.value.1 else after == before
  }

  /** The counter table the transform shares with the start-marker analyser. */
  class CounterTable {
    var counts: map<string, int>

    constructor (initial: map<string, int>)
      ensures counts == initial
    {
      counts := initial;
    }

    /** `Map.prototype.set` */
    method Set(key: string, value: int)
      modifies this
      ensures counts == old(counts)[key := value]
    {
      counts := counts[key := value];
    }
  }

  /**
    * parseStartMarker: returns `None` for a node that is not a start marker, throws on
    * a malformed marker, an unknown environment or an empty counter label, and
    * otherwise increments the environment's counter in place and describes the block.
    */
  method ParseStartMarker(node: Node, startMarker: string, o: Options, table: CounterTable)
    returns (r: Result<Option<BlockStartInfo>, Error>)
    requires CountersCover(o.theoremEnvs, table.counts)
    modifies table
    ensures var out := StartOutcome(node, startMarker, o, old(table.counts));
      && (out.Err? ==> r == Err(out.error))
      && (out == Ok(None) ==> r == Ok(None))
      && (out.Ok? && out.value.Some? ==> r == Ok(Some(out.value.value.0)))
      && CountersAfter(out, old(table.counts), table.counts)
  {
    if !IsMarkerShaped(node, startMarker) {
      return Ok(None);
    }
    var value := node.children[0].value;
    var m := MatchStart(value, startMarker);
    if m.None? {
      return Err(StartFormat(LineOf(node)));
    }
    var envName := m.value.name;
    if !HasEnv(o, envName) {
      return Err(UnknownEnvironment(envName, LineOf(node)));
    }
    var params := m.value.params;
    var counterKey := o.theoremEnvs.value[envName].1;
    if counterKey == "" {
      return Err(CounterLabelNotFound(envName, LineOf(node)));
    }
    table.Set(counterKey, table.counts[counterKey] + 1);
    r := Ok(Some(StartInfo(envName, LineOf(node), params, table.counts[counterKey])));
  }

  /**
    * Environments that share a counter label are numbered consecutively: a second
    * start marker, analysed with the counters the first one left, gets the next number.
    */
  lemma SharedCounterConsecutive(n1: Node, n2: Node, startMarker: string, o: Options, counts: map<string, int>)
    requires CountersCover(o.theoremEnvs, counts)
    requires StartOutcome(n1, startMarker, o, counts).Ok? && StartOutcome(n1, startMarker, o, counts).value.Some?
    requires var c1 := StartOutcome(n1, startMarker, o, counts).value.value.1;
      && CountersCover(o.theoremEnvs, c1)
      && StartOutcome(n2, startMarker, o, c1).Ok? && StartOutcome(n2, startMarker, o, c1).value.Some?
    requires var i1 := StartOutcome(n1, startMarker, o, counts).value.value.0;
      var c1 := StartOutcome(n1, startMarker, o, counts).value.value.1;
      var i2 := StartOutcome(n2, startMarker, o, c1).value.value.0;
      CounterLabel(o, i1.envName) == CounterLabel(o, i2.envName)
    ensures var i1 := StartOutcome(n1, startMarker, o, counts).value.value.0;
      var c1 := StartOutcome(n1, startMarker, o, counts).value.value.1;
      var i2 := StartOutcome(n2, startMarker, o, c1).value.value.0;
      i2.numbering.value == i1.numbering.value + 1
  {
  }

  /** A marker-shaped node whose text matches, naming a known environment with a counter label, is accepted. */
  lemma StartOutcomeAccepts(node: Node, startMarker: string, o: Options, counts: map<string, int>, m: StartMatch)
    requires CountersCover(o.theoremEnvs, counts)
    requires IsMarkerShaped(node, startMarker)
    requires MatchStart(node.children[0].value, startMarker) == Some(m)
    requires HasEnv(o, m.name) && CounterLabel(o, m.name) != ""
    ensures var key := CounterLabel(o, m.name);
      StartOutcome(node, startMarker, o, counts)
        == Ok(Some((StartInfo(m.name, LineOf(node), m.params, counts[key] + 1), Bump(counts, key))))
  {
  }
}

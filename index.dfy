/**
  * The transform: one pass over the top-level nodes with a stack of open-block
  * descriptors, a parallel stack of buffers, an output list and a counter table.
  */
module Index {
  import opened Wrappers
  import opened Errors
  import opened Mdast
  import opened JsArrays
  import opened PluginOptions
  import opened MarkerSyntax
  import opened StartMarker
  import opened EndMarker

  /** What the loop keeps between two nodes. */
  datatype ScanState = ScanState(
    blocksInfo: seq<BlockStartInfo>,
    buffer: seq<seq<Node>>,
    newChildren: seq<Node>,
    counters: map<string, int>)

  /** Every open block has exactly one buffer. */
  predicate Lockstep(st: ScanState) {
    |st.blocksInfo| == |st.buffer|
  }

  /** The counter labels the environment table names. */
  function CounterLabels(envs: EnvTable): set<string> {
    set n | n in envs :: envs[n].1
  }

  /** The counters before the first node: one per counter label, each at 0. */
  function InitialCounters(envs: EnvTable): (m: map<string, int>)
    ensures m.Keys == CounterLabels(envs)
    ensures forall k :: k in m ==> m[k] == 0
    ensures CountersCover(Some(envs), m)
  {
    map k | k in CounterLabels(envs) :: 0
  }

  /** The state before the first node. */
  function Initial(envs: EnvTable): ScanState {
    ScanState([], [], [], InitialCounters(envs))
  }

  /** `for (const [, [, counter]] of options.theorem_envs!) counters.set(counter, 0)` */
  method InitCounters(envs: EnvTable) returns (table: CounterTable)
    ensures fresh(table)
    ensures table.counts == InitialCounters(envs)
  {
    table := new CounterTable(map[]);
    var names := envs.Keys;
    while names != {}
      invariant names <= envs.Keys
      invariant table.counts.Keys == set n | n in envs.Keys - names :: envs[n].1
      invariant forall k :: k in table.counts ==> table.counts[k] == 0
      decreases names
    {
      var n :| n in names;
      table.Set(envs[n].1, 0);
      names := names - {n};
    }
  }

  /** The structural facts every successful step keeps. */
  predicate Keeps(st: ScanState, next: ScanState, o: Options) {
    && next.counters.Keys == st.counters.Keys
    && CountersCover(o.theoremEnvs, next.counters)
    && (Lockstep(st) ==> Lockstep(next))
    && |st.newChildren| <= |next.newChildren|
    && next.newChildren[..|st.newChildren|] == st.newChildren
  }

  /** A start-marker-shaped node: a new block opens, or the analysis fails. */
  function StartStep(st: ScanState, node: Node, startMarker: string, o: Options): (r: Result<ScanState, Error>)
    requires CountersCover(o.theoremEnvs, st.counters)
    ensures r.Ok? ==> Keeps(st, r.value, o)
  {
    var out := StartOutcome(node, startMarker, o, st.counters);
    if out.Err? then Err(out.error)
    else if out.value.None? then Ok(st)
    else
      var next := ScanState(st.blocksInfo + [out.value.value.0], st.buffer + [[]], st.newChildren, out.value.value.1);
      assert next.newChildren[..|st.newChildren|] == st.newChildren;
      Ok(next)
  }

  /** An end-marker-shaped node: the innermost block closes, or the analysis fails. */
  function EndStep(st: ScanState, node: Node, endMarker: string, o: Options): (r: Result<ScanState, Error>)
    requires CountersCover(o.theoremEnvs, st.counters)
    ensures r.Ok? ==> Keeps(st, r.value, o)
  {
    match ParseEndMarker(node, endMarker, o, st.blocksInfo, st.buffer)
    case Err(e) => Err(e)
    case Ok(None) => Ok(st)
    case Ok(Some(content)) =>
      Ok(ScanState(st.blocksInfo[..|st.blocksInfo| - 1], st.buffer[..|st.buffer| - 1],
                   st.newChildren + content, st.counters))
  }

  /** Any other node: to the output when no block is open, else to the innermost buffer. */
  function OrdinaryStep(st: ScanState, node: Node, o: Options): (r: Result<ScanState, Error>)
    requires CountersCover(o.theoremEnvs, st.counters)
    ensures r.Ok? ==> Keeps(st, r.value, o)
  {
    if st.blocksInfo == [] then
      Ok(ScanState(st.blocksInfo, st.buffer, st.newChildren + [node], st.counters))
    else if st.buffer == [] then Err(UndefinedElement)
    else
      Ok(ScanState(st.blocksInfo, st.buffer[..|st.buffer| - 1] + [Last(st.buffer) + [node]],
                   st.newChildren, st.counters))
  }

  /**
    * One node: the start-marker test first, then the end-marker test, then the
    * ordinary case.
    */
  function Step(st: ScanState, node: Node, startMarker: string, endMarker: string, o: Options)
    : (r: Result<ScanState, Error>)
    requires CountersCover(o.theoremEnvs, st.counters)
    ensures r.Ok? ==> Keeps(st, r.value, o)
  {
    if IsMarkerShaped(node, startMarker) then StartStep(st, node, startMarker, o)
    else if IsMarkerShaped(node, endMarker) then EndStep(st, node, endMarker, o)
    else OrdinaryStep(st, node, o)
  }

  /** The loop over the nodes: the first error stops it. */
  function Run(nodes: seq<Node>, st: ScanState, startMarker: string, endMarker: string, o: Options)
    : (r: Result<ScanState, Error>)
    requires CountersCover(o.theoremEnvs, st.counters)
    ensures r.Ok? ==> Keeps(st, r.value, o)
    decreases |nodes|
  {
    if nodes == [] then Ok(st)
    else
      match Step(st, nodes[0], startMarker, endMarker, o)
      case Err(e) => Err(e)
      case Ok(next) =>
        var r := Run(nodes[1..], next, startMarker, endMarker, o);
        assert r.Ok? ==> r.value.newChildren[..|st.newChildren|] == r.value.newChildren[..|next.newChildren|][..|st.newChildren|];
        r
  }

  /** One turn of the loop. */
  lemma RunUnfold(nodes: seq<Node>, st: ScanState, startMarker: string, endMarker: string, o: Options)
    requires nodes != [] && CountersCover(o.theoremEnvs, st.counters)
    ensures var step := Step(st, nodes[0], startMarker, endMarker, o);
      && (step.Err? ==> Run(nodes, st, startMarker, endMarker, o) == Err(step.error))
      && (step.Ok? ==> Run(nodes, st, startMarker, endMarker, o) == Run(nodes[1..], step.value, startMarker, endMarker, o))
  {
  }

  /**
    * What the transform computes for a tree: an error when there is no environment
    * table or a node is rejected, and otherwise the output list.
    */
  function TransformResult(tree: seq<Node>, options: Option<Options>): (r: Result<seq<Node>, Error>)
    ensures Effective(options).theoremEnvs.None? ==> r == Err(EnvironmentsUndefined)
    ensures r.Ok? ==> Effective(options).theoremEnvs.Some?
  {
    var o := Effective(options);
    if o.theoremEnvs.None? then Err(EnvironmentsUndefined)
    else
      match Run(tree, Initial(o.theoremEnvs.value), StartMarkerOf(o), EndMarkerOf(o), o)
      case Err(e) => Err(e)
      case Ok(st) => Ok(st.newChildren)
  }

  /** The start branch of the loop body: counters updated in place, stacks pushed. */
  method StartNode(node: Node, startMarker: string, o: Options, table: CounterTable,
                   blocksInfo: seq<BlockStartInfo>, buffer: seq<seq<Node>>, newChildren: seq<Node>)
    returns (r: Result<ScanState, Error>)
    requires CountersCover(o.theoremEnvs, table.counts)
    modifies table
    ensures r == StartStep(ScanState(blocksInfo, buffer, newChildren, old(table.counts)), node, startMarker, o)
    ensures r.Ok? ==> r.value.counters == table.counts
  {
    var info := ParseStartMarker(node, startMarker, o, table);
    if info.Err? {
      return Err(info.error);
    }
    if info.value.None? {
      return Ok(ScanState(blocksInfo, buffer, newChildren, table.counts));
    }
    r := Ok(ScanState(blocksInfo + [info.value.value], buffer + [[]], newChildren, table.counts));
  }

  /** The end branch of the loop body: on a closed block, output appended, stacks popped. */
  method EndNode(node: Node, endMarker: string, o: Options, counts: map<string, int>,
                 blocksInfo: seq<BlockStartInfo>, buffer: seq<seq<Node>>, newChildren: seq<Node>)
    returns (r: Result<ScanState, Error>)
    requires CountersCover(o.theoremEnvs, counts)
    ensures r == EndStep(ScanState(blocksInfo, buffer, newChildren, counts), node, endMarker, o)
    ensures r.Ok? ==> r.value.counters == counts
  {
    var newContent := ParseEndMarker(node, endMarker, o, blocksInfo, buffer);
    if newContent.Err? {
      return Err(newContent.error);
    }
    if newContent.value.None? {
      return Ok(ScanState(blocksInfo, buffer, newChildren, counts));
    }
    r := Ok(ScanState(blocksInfo[..|blocksInfo| - 1], buffer[..|buffer| - 1],
                      newChildren + newContent.value.value, counts));
  }

  /** The last branch of the loop body: the node goes to the output or the innermost buffer. */
  method OrdinaryNode(node: Node, o: Options, counts: map<string, int>,
                      blocksInfo: seq<BlockStartInfo>, buffer: seq<seq<Node>>, newChildren: seq<Node>)
    returns (r: Result<ScanState, Error>)
    requires CountersCover(o.theoremEnvs, counts)
    ensures r == OrdinaryStep(ScanState(blocksInfo, buffer, newChildren, counts), node, o)
    ensures r.Ok? ==> r.value.counters == counts
  {
    if |blocksInfo| == 0 {
      return Ok(ScanState(blocksInfo, buffer, newChildren + [node], counts));
    }
    if |buffer| == 0 {
      return Err(UndefinedElement);
    }
    r := Ok(ScanState(blocksInfo, buffer[..|buffer| - 1] + [buffer[|buffer| - 1] + [node]], newChildren, counts));
  }

  /** The loop body: the start test first, then the end test, then the ordinary case. */
  method ScanNode(node: Node, startMarker: string, endMarker: string, o: Options, table: CounterTable,
                  blocksInfo: seq<BlockStartInfo>, buffer: seq<seq<Node>>, newChildren: seq<Node>)
    returns (r: Result<ScanState, Error>)
    requires CountersCover(o.theoremEnvs, table.counts)
    modifies table
    ensures r == Step(ScanState(blocksInfo, buffer, newChildren, old(table.counts)), node, startMarker, endMarker, o)
    ensures r.Ok? ==> r.value.counters == table.counts
  {
    if IsMarkerShaped(node, startMarker) {
      r := StartNode(node, startMarker, o, table, blocksInfo, buffer, newChildren);
    } else if IsMarkerShaped(node, endMarker) {
      r := EndNode(node, endMarker, o, table.counts, blocksInfo, buffer, newChildren);
    } else {
      r := OrdinaryNode(node, o, table.counts, blocksInfo, buffer, newChildren);
    }
  }

  /** `tree.children.forEach(…)`: the nodes in order, the first error stopping the walk. */
  method Scan(tree: seq<Node>, startMarker: string, endMarker: string, o: Options, table: CounterTable)
    returns (r: Result<ScanState, Error>)
    requires CountersCover(o.theoremEnvs, table.counts)
    modifies table
    ensures r == Run(tree, ScanState([], [], [], old(table.counts)), startMarker, endMarker, o)
  {
    var blocksInfo: seq<BlockStartInfo> := [];
    var buffer: seq<seq<Node>> := [];
    var newChildren: seq<Node> := [];
    ghost var whole := Run(tree, ScanState([], [], [], table.counts), startMarker, endMarker, o);
    var i := 0;
    assert tree[0..] == tree;
    while i < |tree|
      invariant 0 <= i <= |tree|
      invariant CountersCover(o.theoremEnvs, table.counts)
      invariant whole == Run(tree[i..], ScanState(blocksInfo, buffer, newChildren, table.counts), startMarker, endMarker, o)
    {
      ghost var st := ScanState(blocksInfo, buffer, newChildren, table.counts);
      RunUnfold(tree[i..], st, startMarker, endMarker, o);
      assert tree[i..][0] == tree[i] && tree[i..][1..] == tree[i + 1..];
      var next := ScanNode(tree[i], startMarker, endMarker, o, table, blocksInfo, buffer, newChildren);
      if next.Err? {
        return Err(next.error);
      }
      blocksInfo, buffer, newChildren := next.value.blocksInfo, next.value.buffer, next.value.newChildren;
      assert ScanState(blocksInfo, buffer, newChildren, table.counts) == next.value;
      i := i + 1;
    }
    r := Ok(ScanState(blocksInfo, buffer, newChildren, table.counts));
  }

  /**
    * remarkMathEnv's transform: the markers with their fallbacks, the counters at 0,
    * then the loop over the tree's children. The result is the output list the loop
    * builds; the source never writes it back to the tree.
    */
  method RemarkMathEnv(options: Option<Options>, tree: seq<Node>) returns (r: Result<seq<Node>, Error>)
    ensures r == TransformResult(tree, options)
  {
    var o := Effective(options);
    var startMarker := o.startMarker.GetOr(DefaultStartMarker);
    var endMarker := o.endMarker.GetOr(DefaultEndMarker);
    if o.theoremEnvs.None? {
      return Err(EnvironmentsUndefined);
    }
    var table := InitCounters(o.theoremEnvs.value);
    var scanned := Scan(tree, startMarker, endMarker, o, table);
    if scanned.Err? {
      return Err(scanned.error);
    }
    r := Ok(scanned.value.newChildren);
  }

  /** Neither marker test accepts the node. */
  predicate Ordinary(n: Node, startMarker: string, endMarker: string) {
    !IsMarkerShaped(n, startMarker) && !IsMarkerShaped(n, endMarker)
  }

  /**
    * With no block open, a run of ordinary nodes is appended to the output as it is,
    * element for element and in order; the stacks and counters do not move.
    */
  lemma {:induction false} OrdinaryRunCopies(nodes: seq<Node>, st: ScanState, startMarker: string, endMarker: string, o: Options)
    requires CountersCover(o.theoremEnvs, st.counters) && st.blocksInfo == []
    requires forall i :: 0 <= i < |nodes| ==> Ordinary(nodes[i], startMarker, endMarker)
    ensures Run(nodes, st, startMarker, endMarker, o) == Ok(st.(newChildren := st.newChildren + nodes))
    decreases |nodes|
  {
    if nodes == [] {
      assert st.newChildren + nodes == st.newChildren;
    } else {
      var next := st.(newChildren := st.newChildren + [nodes[0]]);
      assert Step(st, nodes[0], startMarker, endMarker, o) == Ok(next);
      OrdinaryRunCopies(nodes[1..], next, startMarker, endMarker, o);
      assert next.newChildren + nodes[1..] == st.newChildren + nodes;
    }
  }

  /** A document without marker paragraphs comes out unchanged, element for element. */
  lemma NoMarkersUnchanged(tree: seq<Node>, options: Option<Options>)
    requires Effective(options).theoremEnvs.Some?
    requires forall i :: 0 <= i < |tree| ==>
      Ordinary(tree[i], StartMarkerOf(Effective(options)), EndMarkerOf(Effective(options)))
    ensures TransformResult(tree, options) == Ok(tree)
  {
    var o := Effective(options);
    OrdinaryRunCopies(tree, Initial(o.theoremEnvs.value), StartMarkerOf(o), EndMarkerOf(o), o);
    assert [] + tree == tree;
  }

  /**
    * An ordinary node seen while a block is open goes to the end of the innermost buffer
    * and nowhere else: the descriptors, the outer buffers, the output and the counters
    * stay as they were.
    */
  lemma OrdinaryInsideBlock(st: ScanState, node: Node, startMarker: string, endMarker: string, o: Options)
    requires CountersCover(o.theoremEnvs, st.counters)
    requires Lockstep(st) && st.blocksInfo != []
    requires Ordinary(node, startMarker, endMarker)
    ensures var r := Step(st, node, startMarker, endMarker, o);
      && r.Ok?
      && r.value.blocksInfo == st.blocksInfo
      && |r.value.buffer| == |st.buffer|
      && r.value.buffer[..|st.buffer| - 1] == st.buffer[..|st.buffer| - 1]
      && Last(r.value.buffer) == Last(st.buffer) + [node]
      && r.value.newChildren == st.newChildren
      && r.value.counters == st.counters
  {
  }

  /**
    * A marker-shaped node is consumed: it is never copied into the output or into a
    * buffer. The output grows only by a whole closed buffer, and the buffer stack only
    * gains an empty buffer or loses its top.
    */
  lemma MarkerConsumed(st: ScanState, node: Node, startMarker: string, endMarker: string, o: Options)
    requires CountersCover(o.theoremEnvs, st.counters)
    requires IsMarkerShaped(node, startMarker) || IsMarkerShaped(node, endMarker)
    requires Step(st, node, startMarker, endMarker, o).Ok?
    ensures var next := Step(st, node, startMarker, endMarker, o).value;
      && (next.newChildren == st.newChildren
          || (st.buffer != [] && next.newChildren == st.newChildren + Last(st.buffer)))
      && (next.buffer == st.buffer || next.buffer == st.buffer + [[]]
          || (st.buffer != [] && next.buffer == st.buffer[..|st.buffer| - 1]))
  {
    if IsMarkerShaped(node, startMarker) {
      StartStepShape(st, node, startMarker, o);
    } else {
      EndStepShape(st, node, endMarker, o);
    }
  }

  /** A successful start step leaves the output alone and pushes at most an empty buffer. */
  lemma StartStepShape(st: ScanState, node: Node, startMarker: string, o: Options)
    requires CountersCover(o.theoremEnvs, st.counters)
    requires StartStep(st, node, startMarker, o).Ok?
    ensures var next := StartStep(st, node, startMarker, o).value;
      next.newChildren == st.newChildren && (next.buffer == st.buffer || next.buffer == st.buffer + [[]])
  {
  }

  /** A successful end step changes nothing, or moves the top buffer to the output and pops it. */
  lemma EndStepShape(st: ScanState, node: Node, endMarker: string, o: Options)
    requires CountersCover(o.theoremEnvs, st.counters)
    requires EndStep(st, node, endMarker, o).Ok?
    ensures var next := EndStep(st, node, endMarker, o).value;
      || (next.newChildren == st.newChildren && next.buffer == st.buffer)
      || (st.buffer != [] && next.newChildren == st.newChildren + Last(st.buffer)
          && next.buffer == st.buffer[..|st.buffer| - 1])
  {
    var out := ParseEndMarker(node, endMarker, o, st.blocksInfo, st.buffer);
    assert out.Ok? && out.value.Some? ==> st.buffer != [] && out.value.value == Last(st.buffer);
  }

  /** A node that passes both marker tests is analysed as a start marker only. */
  lemma StartTestFirst(st: ScanState, node: Node, startMarker: string, endMarker: string, o: Options)
    requires CountersCover(o.theoremEnvs, st.counters)
    requires IsMarkerShaped(node, startMarker) && IsMarkerShaped(node, endMarker)
    ensures Step(st, node, startMarker, endMarker, o) == StartStep(st, node, startMarker, o)
    ensures var out := StartOutcome(node, startMarker, o, st.counters);
      out.Ok? && out.value.Some? ==>
        Step(st, node, startMarker, endMarker, o) == Ok(ScanState(st.blocksInfo + [out.value.value.0],
          st.buffer + [[]], st.newChildren, out.value.value.1))
  {
  }

  /**
    * A closing end marker pops exactly one descriptor and one buffer, and appends that
    * buffer's nodes, in order, to the output (not to the enclosing block's buffer).
    */
  lemma EndPopsOne(st: ScanState, node: Node, startMarker: string, endMarker: string, o: Options)
    requires CountersCover(o.theoremEnvs, st.counters) && Lockstep(st)
    requires !IsMarkerShaped(node, startMarker)
    requires ParseEndMarker(node, endMarker, o, st.blocksInfo, st.buffer).Ok?
    requires ParseEndMarker(node, endMarker, o, st.blocksInfo, st.buffer).value.Some?
    ensures var r := Step(st, node, startMarker, endMarker, o);
      && r.Ok?
      && |r.value.blocksInfo| == |st.blocksInfo| - 1 && |r.value.buffer| == |st.buffer| - 1
      && r.value.blocksInfo == st.blocksInfo[..|st.blocksInfo| - 1]
      && r.value.buffer == st.buffer[..|st.buffer| - 1]
      && r.value.newChildren == st.newChildren + Last(st.buffer)
      && r.value.counters == st.counters
  {
  }

  /** The descriptor and buffer stacks have equal length after every prefix of the walk. */
  lemma RunLockstep(nodes: seq<Node>, st: ScanState, startMarker: string, endMarker: string, o: Options)
    requires CountersCover(o.theoremEnvs, st.counters) && Lockstep(st)
    requires Run(nodes, st, startMarker, endMarker, o).Ok?
    ensures Lockstep(Run(nodes, st, startMarker, endMarker, o).value)
  {
  }

  /**
    * The ordinary branch as written: `buffer[-1].push(node)`. Index -1 of an array is
    * `undefined`, so reading `push` from it throws a TypeError.
    */
  function OrdinaryStepAsWritten(st: ScanState, node: Node): (r: Result<ScanState, Error>)
    ensures r.Ok? <==> st.blocksInfo == []
    ensures r.Ok? ==> r.value.newChildren == st.newChildren + [node] && r.value.buffer == st.buffer
  {
    if st.blocksInfo == [] then
      Ok(ScanState(st.blocksInfo, st.buffer, st.newChildren + [node], st.counters))
    else
      match At(st.buffer, -1)
      case None => Err(UndefinedElement)
      case Some(top) => Ok(ScanState(st.blocksInfo, st.buffer + [top + [node]], st.newChildren, st.counters))
  }

  /**
    * As written, any ordinary node inside an open block makes the transform throw,
    * however many buffers there are; the corrected step (`OrdinaryInsideBlock`) appends it
    * to the innermost buffer.
    */
  lemma OrdinaryStepAsWrittenThrows(st: ScanState, node: Node)
    requires st.blocksInfo != []
    ensures OrdinaryStepAsWritten(st, node) == Err(UndefinedElement)
  {
  }

  /** Walking `a + b` is walking `a`, then walking `b` from where `a` left off. */
  lemma {:induction false} RunAppend(a: seq<Node>, b: seq<Node>, st: ScanState, startMarker: string, endMarker: string, o: Options)
    requires CountersCover(o.theoremEnvs, st.counters)
    ensures Run(a, st, startMarker, endMarker, o).Ok? ==>
      Run(a + b, st, startMarker, endMarker, o) == Run(b, Run(a, st, startMarker, endMarker, o).value, startMarker, endMarker, o)
    ensures Run(a, st, startMarker, endMarker, o).Err? ==>
      Run(a + b, st, startMarker, endMarker, o) == Run(a, st, startMarker, endMarker, o)
    decreases |a|
  {
    if a == [] {
      assert a + b == b;
    } else {
      assert (a + b)[0] == a[0] && (a + b)[1..] == a[1..] + b;
      var step := Step(st, a[0], startMarker, endMarker, o);
      if step.Ok? {
        RunAppend(a[1..], b, step.value, startMarker, endMarker, o);
      }
    }
  }

  /** While a block is open, a run of ordinary nodes is appended, in order, to the innermost buffer. */
  lemma {:induction false} OrdinaryRunBuffers(nodes: seq<Node>, blocksInfo: seq<BlockStartInfo>, outer: seq<seq<Node>>,
                                              top: seq<Node>, newChildren: seq<Node>, counters: map<string, int>,
                                              startMarker: string, endMarker: string, o: Options)
    requires CountersCover(o.theoremEnvs, counters)
    requires |blocksInfo| == |outer| + 1
    requires forall i :: 0 <= i < |nodes| ==> Ordinary(nodes[i], startMarker, endMarker)
    ensures Run(nodes, ScanState(blocksInfo, outer + [top], newChildren, counters), startMarker, endMarker, o)
         == Ok(ScanState(blocksInfo, outer + [top + nodes], newChildren, counters))
    decreases |nodes|
  {
    var st := ScanState(blocksInfo, outer + [top], newChildren, counters);
    if nodes == [] {
      assert top + nodes == top;
    } else {
      OrdinaryInsideBlock(st, nodes[0], startMarker, endMarker, o);
      assert (outer + [top])[..|outer|] == outer;
      var next := ScanState(blocksInfo, outer + [top + [nodes[0]]], newChildren, counters);
      assert Step(st, nodes[0], startMarker, endMarker, o) == Ok(next);
      OrdinaryRunBuffers(nodes[1..], blocksInfo, outer, top + [nodes[0]], newChildren, counters, startMarker, endMarker, o);
      assert top + [nodes[0]] + nodes[1..] == top + nodes;
    }
  }

  /** Walking one node is taking one step. */
  lemma RunSingle(node: Node, st: ScanState, startMarker: string, endMarker: string, o: Options)
    requires CountersCover(o.theoremEnvs, st.counters)
    ensures Run([node], st, startMarker, endMarker, o) == Step(st, node, startMarker, endMarker, o)
  {
    RunUnfold([node], st, startMarker, endMarker, o);
    assert [node][1..] == [];
  }

  /**
    * A start marker whose text matches `startMarker{name}[params]` for a known
    * environment opens a block: a descriptor and an empty buffer are pushed and the
    * environment's counter goes up by one.
    */
  lemma StartMarkerOpens(open: Node, m: StartMatch, st: ScanState, startMarker: string, endMarker: string, o: Options)
    requires HasEnv(o, m.name) && CounterLabel(o, m.name) != ""
    requires CountersCover(o.theoremEnvs, st.counters)
    requires IsMarkerShaped(open, startMarker)
    requires MatchStart(open.children[0].value, startMarker) == Some(m)
    ensures Run([open], st, startMarker, endMarker, o)
         == Ok(ScanState(st.blocksInfo + [StartInfo(m.name, LineOf(open), m.params, st.counters[CounterLabel(o, m.name)] + 1)],
                         st.buffer + [[]], st.newChildren, Bump(st.counters, CounterLabel(o, m.name))))
  {
    StartOutcomeAccepts(open, startMarker, o, st.counters, m);
    RunSingle(open, st, startMarker, endMarker, o);
  }

  /**
    * An end marker (not also start-marker-shaped) whose text matches `endMarker{name}`,
    * where `name` is known and is the innermost open block's, closes that block when its
    * buffer is not empty: both stacks lose their top and the buffer's nodes go to the output.
    */
  lemma EndMarkerCloses(close: Node, name: string, st: ScanState, startMarker: string, endMarker: string, o: Options)
    requires HasEnv(o, name)
    requires CountersCover(o.theoremEnvs, st.counters)
    requires IsMarkerShaped(close, endMarker) && !IsMarkerShaped(close, startMarker)
    requires MatchEnd(close.children[0].value, endMarker) == Some(name)
    requires st.blocksInfo != [] && Last(st.blocksInfo).envName == name
    requires st.buffer != [] && Last(st.buffer) != []
    ensures Run([close], st, startMarker, endMarker, o)
         == Ok(ScanState(st.blocksInfo[..|st.blocksInfo| - 1], st.buffer[..|st.buffer| - 1],
                         st.newChildren + Last(st.buffer), st.counters))
  {
    assert ParseEndMarker(close, endMarker, o, st.blocksInfo, st.buffer) == Ok(Some(Last(st.buffer)));
    RunSingle(close, st, startMarker, endMarker, o);
  }

  /**
    * A start marker followed by ordinary nodes: a block is open and the nodes are its
    * buffer, in order.
    */
  lemma OpenThenBuffer(open: Node, m: StartMatch, content: seq<Node>,
                       st: ScanState, startMarker: string, endMarker: string, o: Options)
    requires HasEnv(o, m.name) && CounterLabel(o, m.name) != ""
    requires CountersCover(o.theoremEnvs, st.counters) && Lockstep(st)
    requires IsMarkerShaped(open, startMarker) && MatchStart(open.children[0].value, startMarker) == Some(m)
    requires forall i :: 0 <= i < |content| ==> Ordinary(content[i], startMarker, endMarker)
    ensures Run([open] + content, st, startMarker, endMarker, o)
         == Ok(ScanState(st.blocksInfo + [StartInfo(m.name, LineOf(open), m.params, st.counters[CounterLabel(o, m.name)] + 1)],
                         st.buffer + [content], st.newChildren, Bump(st.counters, CounterLabel(o, m.name))))
  {
    var info := StartInfo(m.name, LineOf(open), m.params, st.counters[CounterLabel(o, m.name)] + 1);
    var st1 := ScanState(st.blocksInfo + [info], st.buffer + [[]], st.newChildren, Bump(st.counters, CounterLabel(o, m.name)));
    StartMarkerOpens(open, m, st, startMarker, endMarker, o);
    OrdinaryRunBuffers(content, st1.blocksInfo, st.buffer, [], st.newChildren, st1.counters, startMarker, endMarker, o);
    assert [] + content == content;
    RunAppend([open], content, st, startMarker, endMarker, o);
  }

  /**
    * A block: a start marker for a known environment, some ordinary nodes, and a matching
    * end marker. The nodes reach the output unchanged and in order (the loop never renders
    * them, and puts them in the output even inside an enclosing block), the stacks end as
    * they began, and the environment's counter has gone up by one.
    */
  lemma BlockPassesThrough(open: Node, m: StartMatch, content: seq<Node>, close: Node,
                           st: ScanState, startMarker: string, endMarker: string, o: Options)
    requires HasEnv(o, m.name) && CounterLabel(o, m.name) != ""
    requires CountersCover(o.theoremEnvs, st.counters) && Lockstep(st)
    requires IsMarkerShaped(open, startMarker) && MatchStart(open.children[0].value, startMarker) == Some(m)
    requires content != [] && forall i :: 0 <= i < |content| ==> Ordinary(content[i], startMarker, endMarker)
    requires IsMarkerShaped(close, endMarker) && !IsMarkerShaped(close, startMarker)
    requires MatchEnd(close.children[0].value, endMarker) == Some(m.name)
    ensures Run([open] + content + [close], st, startMarker, endMarker, o)
         == Ok(ScanState(st.blocksInfo, st.buffer, st.newChildren + content, Bump(st.counters, CounterLabel(o, m.name))))
  {
    var info := StartInfo(m.name, LineOf(open), m.params, st.counters[CounterLabel(o, m.name)] + 1);
    var st2 := ScanState(st.blocksInfo + [info], st.buffer + [content], st.newChildren, Bump(st.counters, CounterLabel(o, m.name)));
    OpenThenBuffer(open, m, content, st, startMarker, endMarker, o);
    assert st2.blocksInfo[..|st2.blocksInfo| - 1] == st.blocksInfo;
    assert st2.buffer[..|st2.buffer| - 1] == st.buffer;
    EndMarkerCloses(close, m.name, st2, startMarker, endMarker, o);
    RunAppend([open] + content, [close], st, startMarker, endMarker, o);
  }

  /**
    * The lines an author writes, `startMarker{name}` and `endMarker{name}`, around ordinary
    * nodes: the nodes pass through to the output and the environment's counter goes up by one.
    */
  lemma MarkerLinesPassThrough(name: string, content: seq<Node>, startLine: Line, endLine: Line,
                               st: ScanState, startMarker: string, endMarker: string, o: Options)
    requires startMarker == [] || !JsStrings.IsJsWhitespace(startMarker[0])
    requires endMarker == [] || !JsStrings.IsJsWhitespace(endMarker[0])
    requires Plain(name) && HasEnv(o, name) && CounterLabel(o, name) != ""
    requires CountersCover(o.theoremEnvs, st.counters) && Lockstep(st)
    requires !IsMarkerShaped(MarkerParagraph(endMarker + "{" + name + "}", endLine), startMarker)
    requires content != [] && forall i :: 0 <= i < |content| ==> Ordinary(content[i], startMarker, endMarker)
    ensures Run([MarkerParagraph(startMarker + "{" + name + "}", startLine)] + content
                  + [MarkerParagraph(endMarker + "{" + name + "}", endLine)], st, startMarker, endMarker, o)
         == Ok(ScanState(st.blocksInfo, st.buffer, st.newChildren + content, Bump(st.counters, CounterLabel(o, name))))
  {
    BracketLineMatches(startMarker, name, startLine);
    BracketLineMatches(endMarker, name, endLine);
    BlockPassesThrough(MarkerParagraph(startMarker + "{" + name + "}", startLine), StartMatch(name, ""), content,
                       MarkerParagraph(endMarker + "{" + name + "}", endLine), st, startMarker, endMarker, o);
  }

  /**
    * The counter label of the block `node` opens when the loop analyses it as a start
    * marker, or `None` when it opens none.
    */
  function OpenedLabel(node: Node, startMarker: string, o: Options): Option<string> {
    if !IsMarkerShaped(node, startMarker) then None
    else
      match MatchStart(node.children[0].value, startMarker)
      case None => None
      case Some(m) =>
        if HasEnv(o, m.name) && CounterLabel(o, m.name) != "" then Some(CounterLabel(o, m.name)) else None
  }

  /** How many of `nodes` open a block counted under `key`. */
  function Opened(nodes: seq<Node>, startMarker: string, o: Options, key: string): nat
    decreases |nodes|
  {
    if nodes == [] then 0
    else (if OpenedLabel(nodes[0], startMarker, o) == Some(key) then 1 else 0) + Opened(nodes[1..], startMarker, o, key)
  }

  /** A successful step raises the counter of the block it opens by one and no other counter. */
  lemma StepCounts(st: ScanState, node: Node, startMarker: string, endMarker: string, o: Options)
    requires CountersCover(o.theoremEnvs, st.counters)
    requires Step(st, node, startMarker, endMarker, o).Ok?
    ensures forall k :: k in st.counters ==>
      Step(st, node, startMarker, endMarker, o).value.counters[k]
        == st.counters[k] + (if OpenedLabel(node, startMarker, o) == Some(k) then 1 else 0)
  {
    if IsMarkerShaped(node, startMarker) {
      StartStepCounts(st, node, startMarker, o);
    } else {
      OtherStepCounts(st, node, startMarker, endMarker, o);
    }
  }

  /** A successful start step opens a block and bumps that block's counter. */
  lemma StartStepCounts(st: ScanState, node: Node, startMarker: string, o: Options)
    requires CountersCover(o.theoremEnvs, st.counters)
    requires IsMarkerShaped(node, startMarker)
    requires StartStep(st, node, startMarker, o).Ok?
    ensures OpenedLabel(node, startMarker, o).Some?
    ensures OpenedLabel(node, startMarker, o).value in st.counters
    ensures StartStep(st, node, startMarker, o).value.counters == Bump(st.counters, OpenedLabel(node, startMarker, o).value)
  {
    var out := StartOutcome(node, startMarker, o, st.counters);
    assert out.Ok? && out.value.Some?;
  }

  /** A node that is not start-marker shaped leaves the counters alone. */
  lemma OtherStepCounts(st: ScanState, node: Node, startMarker: string, endMarker: string, o: Options)
    requires CountersCover(o.theoremEnvs, st.counters)
    requires !IsMarkerShaped(node, startMarker)
    requires Step(st, node, startMarker, endMarker, o).Ok?
    ensures OpenedLabel(node, startMarker, o).None?
    ensures Step(st, node, startMarker, endMarker, o).value.counters == st.counters
  {
  }

  /**
    * Over a whole walk every counter goes up by exactly the number of blocks opened
    * under its label: counters never decrease, and only start markers raise them.
    */
  lemma {:induction false} RunCounts(nodes: seq<Node>, st: ScanState, startMarker: string, endMarker: string, o: Options)
    requires CountersCover(o.theoremEnvs, st.counters)
    requires Run(nodes, st, startMarker, endMarker, o).Ok?
    ensures forall k :: k in st.counters ==>
      Run(nodes, st, startMarker, endMarker, o).value.counters[k] == st.counters[k] + Opened(nodes, startMarker, o, k)
    decreases |nodes|
  {
    if nodes != [] {
      RunUnfold(nodes, st, startMarker, endMarker, o);
      var next := Step(st, nodes[0], startMarker, endMarker, o).value;
      StepCounts(st, nodes[0], startMarker, endMarker, o);
      RunCounts(nodes[1..], next, startMarker, endMarker, o);
    }
  }

  /**
    * From the initial state, the counter of every label is the number of blocks opened
    * under it so far; with `OpensNumbered`, the blocks of one label are numbered
    * 1, 2, 3, ... in the order they open.
    */
  lemma CountersCountOpened(prefix: seq<Node>, envs: EnvTable, startMarker: string, endMarker: string, o: Options)
    requires o.theoremEnvs == Some(envs)
    requires Run(prefix, Initial(envs), startMarker, endMarker, o).Ok?
    ensures var st := Run(prefix, Initial(envs), startMarker, endMarker, o).value;
      && st.counters.Keys == CounterLabels(envs)
      && forall k :: k in st.counters ==> st.counters[k] == Opened(prefix, startMarker, o, k)
  {
    RunCounts(prefix, Initial(envs), startMarker, endMarker, o);
  }

  /**
    * A node that opens a block under `key` is numbered `n`, one past that counter: the
    * descriptor with number `n` and an empty buffer are pushed and the counter becomes `n`.
    */
  lemma OpensNumbered(st: ScanState, node: Node, startMarker: string, endMarker: string, o: Options, key: string, n: int)
    requires CountersCover(o.theoremEnvs, st.counters)
    requires OpenedLabel(node, startMarker, o) == Some(key)
    requires key in st.counters && st.counters[key] + 1 == n
    ensures var m := MatchStart(node.children[0].value, startMarker).value;
      Step(st, node, startMarker, endMarker, o)
        == Ok(ScanState(st.blocksInfo + [StartInfo(m.name, LineOf(node), m.params, n)], st.buffer + [[]],
                        st.newChildren, st.counters[key := n]))
  {
    var m := MatchStart(node.children[0].value, startMarker).value;
    assert Step(st, node, startMarker, endMarker, o) == StartStep(st, node, startMarker, o);
    StartOutcomeAccepts(node, startMarker, o, st.counters, m);
  }
}

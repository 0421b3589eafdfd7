/** The streaming loop of `run_pipeline`: which nodes are reported, once each, on a fresh run and on one
    resumed from a checkpoint; against the paths of the graph. */
module Pipeline {
  import opened Graph
  import opened Options
  import opened Ranges

  /** The slice of the streamed state that the loop reads. */
  datatype GraphState = GraphState(currentNode: Option<string>, timings: map<string, real>, reportPath: Option<string>)

  /** One yield of the stream: a clause progress payload, or the whole state after a node. */
  datatype Item = Custom(payload: int) | Values(state: GraphState)

  datatype NodeProgress = NodeProgress(node: string, index: Option<int>, total: int, elapsed: Option<real>)

  // ----- the loop -----------------------------------------------------------------------------------

  datatype Loop = Loop(seen: set<string>, last: Option<string>, final: Option<GraphState>,
                       progress: seq<NodeProgress>, clauses: seq<int>)

  function Elements(nodes: seq<string>): set<string> {
    set n | n in nodes
  }

  function Reported(state: GraphState, node: string): NodeProgress {
    NodeProgress(node, NodeIndex(node), TOTAL_STAGES,
                 if node in state.timings then Some(state.timings[node]) else None)
  }

  predicate Reports(seen: set<string>, last: Option<string>, node: Option<string>) {
    node.Some? && node.value != "" && node != last && node.value !in seen
  }

  function Consume(loop: Loop, item: Item): Loop {
    match item
    case Custom(payload) => loop.(clauses := loop.clauses + [payload])
    case Values(state) =>
      var node := state.currentNode;
      if Reports(loop.seen, loop.last, node) then
        loop.(seen := loop.seen + {node.value}, last := node, final := Some(state),
              progress := loop.progress + [Reported(state, node.value)])
      else loop.(last := node, final := Some(state))
  }

  function Consumed(items: seq<Item>, already: set<string>): Loop {
    if items == [] then Loop(already, None, None, [], [])
    else Consume(Consumed(items[..|items| - 1], already), items[|items| - 1])
  }

  /** The streaming loop; `already` are the nodes completed before a resume. */
  method RunPipeline(items: seq<Item>, already: seq<string>)
    returns (progress: seq<NodeProgress>, clauses: seq<int>, final: Option<GraphState>)
    ensures progress == Consumed(items, Elements(already)).progress
    ensures clauses == Consumed(items, Elements(already)).clauses
    ensures final == Consumed(items, Elements(already)).final
  {
    var seen: set<string> := set n | n in already;
    var last: Option<string> := None;
    progress, clauses, final := [], [], None;
    for i := 0 to |items|
      invariant Loop(seen, last, final, progress, clauses) == Consumed(items[..i], Elements(already))
    {
      assert items[..i + 1][..i] == items[..i];
      if items[i].Custom? {
        clauses := clauses + [items[i].payload];
        continue;
      }
      var state := items[i].state;
      final := Some(state);
      var node := state.currentNode;
      if node.Some? && node.value != "" && node != last && node.value !in seen {
        last := node;
        seen := seen + {node.value};
        progress := progress + [Reported(state, node.value)];
      } else {
        last := node;
      }
    }
    assert items[..|items|] == items;
  }

  // ----- first occurrences --------------------------------------------------------------------------

  /** The nodes named by the stream, in order. */
  function NodesOf(items: seq<Item>): seq<string> {
    if items == [] then []
    else
      var before, item := NodesOf(items[..|items| - 1]), items[|items| - 1];
      if item.Values? && item.state.currentNode.Some? && item.state.currentNode.value != "" then
        before + [item.state.currentNode.value]
      else before
  }

  function FirstSeen(nodes: seq<string>, seen: set<string>): seq<string> {
    if nodes == [] then []
    else
      var before, n := FirstSeen(nodes[..|nodes| - 1], seen), nodes[|nodes| - 1];
      if n in seen || n in before then before else before + [n]
  }

  function ReportedNames(progress: seq<NodeProgress>): seq<string> {
    seq(|progress|, i requires 0 <= i < |progress| => progress[i].node)
  }

  /** The loop's output and seen-set, told without its last node. */
  ghost predicate Follows(loop: Loop, nodes: seq<string>, already: set<string>) {
    && ReportedNames(loop.progress) == FirstSeen(nodes, already)
    && loop.seen == already + Elements(FirstSeen(nodes, already))
    && (loop.last.Some? && loop.last.value != "" ==> loop.last.value in loop.seen)
  }

  lemma ElementsSnoc(nodes: seq<string>, n: string)
    ensures Elements(nodes + [n]) == Elements(nodes) + {n}
    ensures n in Elements(nodes) <==> n in nodes
  {
  }

  lemma FirstSeenSnoc(nodes: seq<string>, n: string, seen: set<string>)
    ensures var before := FirstSeen(nodes, seen);
            FirstSeen(nodes + [n], seen) == if n in seen || n in before then before else before + [n]
  {
    assert (nodes + [n])[..|nodes|] == nodes;
  }

  lemma ReportedSnoc(progress: seq<NodeProgress>, p: NodeProgress)
    ensures ReportedNames(progress + [p]) == ReportedNames(progress) + [p.node]
  {
  }

  lemma FollowsNode(loop: Loop, nodes: seq<string>, already: set<string>, state: GraphState)
    requires Follows(loop, nodes, already) && state.currentNode.Some? && state.currentNode.value != ""
    ensures Follows(Consume(loop, Values(state)), nodes + [state.currentNode.value], already)
  {
    var n := state.currentNode.value;
    FirstSeenSnoc(nodes, n, already);
    ElementsSnoc(FirstSeen(nodes, already), n);
    ReportedSnoc(loop.progress, Reported(state, n));
  }

  /** The loop reports exactly the first occurrence of each node that was not completed before; the
      comparison with the last node adds nothing. */
  lemma {:induction false} ReportsFirstOccurrences(items: seq<Item>, already: set<string>)
    ensures Follows(Consumed(items, already), NodesOf(items), already)
  {
    if items != [] {
      var less, item := items[..|items| - 1], items[|items| - 1];
      ReportsFirstOccurrences(less, already);
      if item.Values? && item.state.currentNode.Some? && item.state.currentNode.value != "" {
        FollowsNode(Consumed(less, already), NodesOf(less), already, item.state);
      }
    }
  }

  // ----- what the loop returns ----------------------------------------------------------------------

  predicate NamesNode(item: Item, node: string) {
    item.Values? && item.state.currentNode == Some(node)
  }

  lemma {:induction false} NamedIsSeen(items: seq<Item>, already: set<string>, i: nat, node: string)
    requires i < |items| && NamesNode(items[i], node) && node != ""
    ensures node in Consumed(items, already).seen
    decreases |items|
  {
    var n := |items| - 1;
    ReportsFirstOccurrences(items[..n], already);
    if i < n {
      NamedIsSeen(items[..n], already, i, node);
    }
  }

  /** Every report is made at the first yield that names its node, with that node's stage and, where the
      state has one, its time. */
  lemma {:induction false} ReportedAtFirst(items: seq<Item>, already: set<string>, j: nat) returns (i: nat)
    requires j < |Consumed(items, already).progress|
    ensures var p := Consumed(items, already).progress[j];
            && i < |items| && NamesNode(items[i], p.node)
            && (forall k | 0 <= k < i :: !NamesNode(items[k], p.node))
            && p.index == NodeIndex(p.node) && p.total == 7
            && (p.elapsed.Some? <==> p.node in items[i].state.timings)
            && (p.elapsed.Some? ==> p.elapsed.value == items[i].state.timings[p.node])
    decreases |items|
  {
    var n := |items| - 1;
    var before := Consumed(items[..n], already);
    if j < |before.progress| {
      i := ReportedAtFirst(items[..n], already, j);
    } else {
      i := n;
      var node := Consumed(items, already).progress[j].node;
      forall k | 0 <= k < i ensures !NamesNode(items[k], node) {
        if NamesNode(items[k], node) {
          NamedIsSeen(items[..n], already, k, node);
        }
      }
    }
  }

  /** The final state is the last one yielded, whatever payloads come after it. */
  lemma {:induction false} FinalIsLast(items: seq<Item>, already: set<string>, k: nat)
    requires k <= |items| && (forall i | k <= i < |items| :: items[i].Custom?) && (k > 0 ==> items[k - 1].Values?)
    ensures Consumed(items, already).final == if k == 0 then None else Some(items[k - 1].state)
    decreases |items|
  {
    if k < |items| {
      FinalIsLast(items[..|items| - 1], already, k);
    }
  }

  function PayloadOf(item: Item): seq<int> {
    if item.Custom? then [item.payload] else []
  }

  /** The payloads of a stream, from the front. */
  function Payloads(items: seq<Item>): seq<int> {
    if items == [] then [] else PayloadOf(items[0]) + Payloads(items[1..])
  }

  lemma {:induction false} PayloadsSnoc(items: seq<Item>, item: Item)
    ensures Payloads(items + [item]) == Payloads(items) + PayloadOf(item)
  {
    var more := items + [item];
    if items == [] {
      assert more[0] == item && more[1..] == [];
      assert PayloadOf(item) + [] == [] + PayloadOf(item);
    } else {
      assert more[0] == items[0] && more[1..] == items[1..] + [item];
      PayloadsSnoc(items[1..], item);
      assert PayloadOf(items[0]) + (Payloads(items[1..]) + PayloadOf(item))
          == (PayloadOf(items[0]) + Payloads(items[1..])) + PayloadOf(item);
    }
  }

  /** Every payload reaches the callback, in order, whatever states come between. */
  lemma {:induction false} ClausesArePayloads(items: seq<Item>, already: set<string>)
    ensures Consumed(items, already).clauses == Payloads(items)
  {
    if items != [] {
      var less, item := items[..|items| - 1], items[|items| - 1];
      ClausesArePayloads(less, already);
      PayloadsSnoc(less, item);
      assert items == less + [item];
    }
  }

  lemma {:induction false} FirstSeenDistinct(nodes: seq<string>, seen: set<string>)
    ensures Distinct(FirstSeen(nodes, seen)) && forall n | n in FirstSeen(nodes, seen) :: n in nodes && n !in seen
  {
    if nodes != [] {
      FirstSeenDistinct(nodes[..|nodes| - 1], seen);
      assert nodes == nodes[..|nodes| - 1] + [nodes[|nodes| - 1]];
    }
  }

  // ----- resuming -----------------------------------------------------------------------------------

  /** What a stream names that starts with k nodes of its path done: first the node that the state it starts
      from names, if any, then the rest.  With nodes done that is the last of them; otherwise there is none,
      or, where the input went into a thread with a saved state, the node named there. */
  function Yielded(path: seq<Node>, named: Option<Node>, k: nat): seq<Node>
    requires k <= |path|
  {
    (if named.Some? then [named.value] else []) + path[k..]
  }

  lemma {:induction false} FirstSeenCons(n: string, nodes: seq<string>, seen: set<string>)
    ensures FirstSeen([n] + nodes, seen)
         == if n in seen then FirstSeen(nodes, seen) else [n] + FirstSeen(nodes, seen + {n})
  {
    if nodes == [] {
      assert ([n] + nodes)[..0] == [] && FirstSeen([], seen) == [];
    } else {
      assert ([n] + nodes)[..|nodes|] == [n] + nodes[..|nodes| - 1];
      FirstSeenCons(n, nodes[..|nodes| - 1], seen);
    }
  }

  lemma {:induction false} SkipsSeen(nodes: seq<string>, seen: set<string>, j: nat)
    requires Distinct(nodes) && j <= |nodes|
    requires forall i | 0 <= i < |nodes| :: nodes[i] in seen <==> i < j
    ensures FirstSeen(nodes, seen) == nodes[j..]
  {
    if nodes != [] {
      var n := |nodes| - 1;
      if j <= n {
        SkipsSeen(nodes[..n], seen, j);
        assert nodes[..n][j..] + [nodes[n]] == nodes[j..];
        assert nodes[n] !in nodes[..n][j..];
      } else {
        SkipsSeen(nodes[..n], seen, n);
      }
    }
  }

  lemma SeenBefore(path: seq<string>, from: nat, r: nat, i: nat)
    requires Distinct(path) && from + i < |path| && r <= |path|
    ensures path[from + i] in Elements(path[..r]) <==> from + i < r
  {
    assert from + i < r ==> path[..r][from + i] == path[from + i];
  }

  lemma SliceOfSlice(path: seq<string>, from: nat, j: nat)
    requires from + j <= |path|
    ensures path[from..][j..] == path[from + j..]
  {
  }

  lemma FirstSeenFrom(path: seq<string>, from: nat, r: nat, j: nat)
    requires Distinct(path) && from + j <= |path| && r <= |path| && j == if r <= from then 0 else r - from
    ensures FirstSeen(path[from..], Elements(path[..r])) == path[from + j..]
  {
    var nodes, seen := path[from..], Elements(path[..r]);
    forall i | 0 <= i < |nodes| ensures nodes[i] in seen <==> i < j {
      SeenBefore(path, from, r, i);
    }
    SkipsSeen(nodes, seen, j);
    SliceOfSlice(path, from, j);
  }

  lemma NameInPrefix(path: seq<Node>, n: Node, r: nat)
    requires r <= |path|
    ensures Name(n) in Elements(Names(path)[..r]) <==> n in path[..r]
  {
    if n in path[..r] {
      var i :| 0 <= i < r && path[i] == n;
      assert Names(path)[..r][i] == Name(n);
    }
    if Name(n) in Elements(Names(path)[..r]) {
      var i :| 0 <= i < r && Names(path)[..r][i] == Name(n);
      NamesDiffer(path[i], n);
      assert path[..r][i] == n;
    }
  }

  lemma NamesYielded(path: seq<Node>, named: Option<Node>, k: nat)
    requires k <= |path|
    ensures Names(Yielded(path, named, k)) == (if named.Some? then [Name(named.value)] else []) + Names(path)[k..]
  {
  }

  lemma RestAfterKnown(names: seq<string>, n: string, k: nat, r: nat)
    requires Distinct(names) && k <= r <= |names| && n in Elements(names[..r])
    ensures FirstSeen([n] + names[k..], Elements(names[..r])) == names[r..]
  {
    FirstSeenCons(n, names[k..], Elements(names[..r]));
    FirstSeenFrom(names, k, r, r - k);
  }

  lemma ElementsNext(names: seq<string>, r: nat)
    requires r < |names|
    ensures Elements(names[..r]) + {names[r]} == Elements(names[..r + 1])
  {
    assert names[..r + 1] == names[..r] + [names[r]];
    ElementsSnoc(names[..r], names[r]);
  }

  lemma HeadAndRest(names: seq<string>, r: nat)
    requires r < |names|
    ensures [names[r]] + names[r + 1..] == names[r..]
  {
  }

  lemma RestAfterNext(names: seq<string>, k: nat, r: nat)
    requires Distinct(names) && k <= r + 1 && r < |names|
    ensures FirstSeen([names[r]] + names[k..], Elements(names[..r])) == names[r..]
  {
    var seen, n := Elements(names[..r]), names[r];
    SeenBefore(names, 0, r, r);
    FirstSeenCons(n, names[k..], seen);
    ElementsNext(names, r);
    FirstSeenFrom(names, k, r + 1, r + 1 - k);
    HeadAndRest(names, r);
  }

  /** No node, one that the record has, or the next after it. */
  predicate InTurn(path: seq<Node>, named: Option<Node>, r: nat)
    requires r <= |path|
  {
    named == None || named.value in path[..r] || (r < |path| && named.value == path[r])
  }

  /** Where nodes are done, the one named first is in turn exactly when they are at most one more than the
      record has. */
  lemma InTurnIff(path: seq<Node>, k: nat, r: nat)
    requires IsPath(path) && 0 < k <= |path| && r <= |path|
    ensures InTurn(path, Some(path[k - 1]), r) <==> k <= r + 1
  {
    WalkShape(path);
    if k <= r {
      assert path[..r][k - 1] == path[k - 1];
    }
  }

  /** A first name in turn: the run reports what the record lacks. */
  lemma ReportsRest(path: seq<Node>, named: Option<Node>, k: nat, r: nat)
    requires IsPath(path) && k <= |path| && r <= |path| && InTurn(path, named, r)
    requires k > 0 ==> named == Some(path[k - 1])
    ensures FirstSeen(Names(Yielded(path, named, k)), Elements(Names(path)[..r])) == Names(path)[r..]
  {
    var names := Names(path);
    PathNames(path);
    NamesYielded(path, named, k);
    if k > 0 {
      InTurnIff(path, k, r);
    }
    if named == None {
      assert [] + names[k..] == names[k..];
      FirstSeenFrom(names, k, r, r - k);
    } else if named.value in path[..r] {
      NameInPrefix(path, named.value, r);
      KnownIsBehind(path, named.value, k, r);
      RestAfterKnown(names, Name(named.value), k, r);
    } else {
      RestAfterNext(names, k, r);
    }
  }

  lemma KnownIsBehind(path: seq<Node>, n: Node, k: nat, r: nat)
    requires IsPath(path) && k <= |path| && r <= |path| && n in path[..r] && (k > 0 ==> n == path[k - 1])
    ensures k <= r
  {
    WalkShape(path);
    var i :| 0 <= i < r && path[i] == n;
  }

  lemma FirstReport(names: seq<string>, n: string, k: nat, r: nat)
    requires k <= |names| && r <= |names| && n !in Elements(names[..r])
    ensures var whole := names[..r] + FirstSeen([n] + names[k..], Elements(names[..r]));
            |whole| > r && whole[r] == n
  {
    FirstSeenCons(n, names[k..], Elements(names[..r]));
  }

  /** Any other is reported out of turn. */
  lemma ReportsOutOfTurn(path: seq<Node>, named: Option<Node>, k: nat, r: nat)
    requires IsPath(path) && k <= |path| && r <= |path| && !InTurn(path, named, r)
    ensures Names(path)[..r] + FirstSeen(Names(Yielded(path, named, k)), Elements(Names(path)[..r])) != Names(path)
  {
    NamesYielded(path, named, k);
    NameInPrefix(path, named.value, r);
    FirstReport(Names(path), Name(named.value), k, r);
    if r < |path| {
      NamesDiffer(path[r], named.value);
    }
  }

  /** A run, fresh or resumed, completes the record if and only if the node that its stream names first is in
      turn: then what was recorded and what the run reports are together the path, each node once. */
  lemma RunCompletesIff(path: seq<Node>, named: Option<Node>, k: nat, r: nat, items: seq<Item>)
    requires IsPath(path) && k <= |path| && r <= |path| && NodesOf(items) == Names(Yielded(path, named, k))
    requires k > 0 ==> named == Some(path[k - 1])
    ensures Names(path)[..r] + ReportedNames(Consumed(items, Elements(Names(path)[..r])).progress) == Names(path)
       <==> InTurn(path, named, r)
  {
    var names := Names(path);
    ReportsFirstOccurrences(items, Elements(names[..r]));
    if InTurn(path, named, r) {
      ReportsRest(path, named, k, r);
      assert names[..r] + names[r..] == names;
    } else {
      ReportsOutOfTurn(path, named, k, r);
    }
  }
}

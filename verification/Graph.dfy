/** The analysis graph: its nodes, its edges and the paths through it. */
module Graph {
  import opened Options
  import opened Ranges

  datatype Node = Ingest | Splitter | Crag | SelfRag | RiskScore | Redline | SkipRedline | Report

  const TOTAL_STAGES := 7

  function Name(n: Node): string {
    match n
    case Ingest => "ingest_agent"
    case Splitter => "clause_splitter"
    case Crag => "crag_retrieval"
    case SelfRag => "self_rag_validation"
    case RiskScore => "risk_score"
    case Redline => "redline"
    case SkipRedline => "skip_redline"
    case Report => "report"
  }

  function Names(nodes: seq<Node>): seq<string> {
    seq(|nodes|, i requires 0 <= i < |nodes| => Name(nodes[i]))
  }

  /** The stage a reported name is shown at. */
  function NodeIndex(name: string): Option<int> {
    if name == "ingest_agent" then Some(1)
    else if name == "clause_splitter" then Some(2)
    else if name == "crag_retrieval" then Some(3)
    else if name == "self_rag_validation" then Some(4)
    else if name == "risk_score" then Some(5)
    else if name == "redline" || name == "skip_redline" then Some(6)
    else if name == "report" then Some(7)
    else None
  }

  function Stage(n: Node): int {
    match n
    case Ingest => 1
    case Splitter => 2
    case Crag => 3
    case SelfRag => 4
    case RiskScore => 5
    case Redline => 6
    case SkipRedline => 6
    case Report => 7
  }

  lemma NamesDiffer(m: Node, n: Node)
    ensures Name(m) == Name(n) ==> m == n
    ensures Name(m) != ""
  {

  }

  // ----- paths --------------------------------------------------------------------------------------

  /** Where a node may lead, None being the end: ingestion ends the run on an error, and the risk score
      decides between redlining and skipping it. */
  predicate Routes(n: Node, next: Option<Node>) {
    match n
    case Ingest => next == None || next == Some(Splitter)
    case Splitter => next == Some(Crag)
    case Crag => next == Some(SelfRag)
    case SelfRag => next == Some(RiskScore)
    case RiskScore => next == Some(Redline) || next == Some(SkipRedline)
    case Redline => next == Some(Report)
    case SkipRedline => next == Some(Report)
    case Report => next == None
  }

  /** The two nodes that lead to more than one place. */
  predicate Router(n: Node) {
    n == Ingest || n == RiskScore
  }

  /** A beginning of a path: from the entry point along the edges. */
  predicate Walk(w: seq<Node>) {
    (w != [] ==> w[0] == Ingest) && forall i | 0 < i < |w| :: Routes(w[i - 1], Some(w[i]))
  }

  predicate IsPath(w: seq<Node>) {
    Walk(w) && w != [] && Routes(w[|w| - 1], None)
  }

  lemma {:induction false} WalkStage(w: seq<Node>, i: nat)
    requires Walk(w) && i < |w|
    ensures Stage(w[i]) == i + 1
  {
    if i > 0 {
      WalkStage(w, i - 1);
      assert Routes(w[i - 1], Some(w[i]));
    }
  }

  /** No node comes twice on the way, and there are at most seven. */
  lemma WalkShape(w: seq<Node>)
    requires Walk(w)
    ensures Distinct(w) && |w| <= TOTAL_STAGES
    ensures IsPath(w) ==> |w| in {1, TOTAL_STAGES}
  {
    forall i | 0 <= i < |w| ensures Stage(w[i]) == i + 1 {
      WalkStage(w, i);
    }
    assert w != [] ==> Stage(w[|w| - 1]) == |w|;
  }

  /** Every beginning of a path can be completed. */
  lemma WalkExtends(w: seq<Node>) returns (path: seq<Node>)
    requires Walk(w)
    ensures IsPath(path) && w <= path
    decreases TOTAL_STAGES - |w|
  {
    WalkShape(w);
    if IsPath(w) {
      path := w;
    } else {
      var next: Node;
      if w == [] {
        next := Ingest;
      } else {
        WalkStage(w, |w| - 1);
        next :| Routes(w[|w| - 1], Some(next));
      }
      WalkShape(w + [next]);
      path := WalkExtends(w + [next]);
    }
  }

  /** On every path the i-th node is shown at stage i + 1. */
  lemma PathIndex(path: seq<Node>, i: nat)
    requires IsPath(path) && i < |path|
    ensures NodeIndex(Names(path)[i]) == Some(i + 1)
  {
    WalkStage(path, i);
  }

  lemma PathNames(path: seq<Node>)
    requires Walk(path)
    ensures Distinct(Names(path)) && forall i | 0 <= i < |path| :: Names(path)[i] != ""
  {
    WalkShape(path);
    forall i, j | 0 <= i < j < |path| ensures Names(path)[i] != Names(path)[j] {
      NamesDiffer(path[i], path[j]);
    }
  }
}

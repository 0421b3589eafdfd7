/** One user's learned knowledge base: a vector index and a sidecar of rows, replaced one after the
    other.  A vector is known here by the text it was computed from, so that "row i describes vector i"
    can be said; the embedding service is an oracle, and an append may stop at any point. */
module UserKb {
  import opened Options

  datatype Item = Item(text: string, source: string)
  datatype Row = Row(snippet: string, source: string)
  datatype Vector = Vector(text: string, dim: int)
  datatype Index = Index(dim: int, vectors: seq<Vector>)
  datatype Loaded = Loaded(index: Index, meta: seq<Row>)
  datatype Batch = Batch(vectors: seq<Vector>, rows: seq<Row>)

  /** The dimension of the embedding of the i-th item, or None when it cannot be embedded. */
  type Embedder = (int, string) -> Option<int>

  /** An append that has replaced the index, and then the sidecar. */
  datatype Flight = Idle | IndexReplaced(meta: seq<Row>) | SidecarReplaced

  /** The two files, the cache entry, the append that holds the lock, and the loads that have read the
      index but not yet the sidecar. */
  datatype State = State(index: Option<Index>, meta: Option<seq<Row>>, cache: Option<Loaded>,
                         flight: Flight, loads: map<int, Index>)

  const NOTHING := State(None, None, None, Idle, map[])

  function VectorsOf(s: State): seq<Vector> {
    if s.index.Some? then s.index.value.vectors else []
  }

  function RowsOf(s: State): seq<Row> {
    if s.meta.Some? then s.meta.value else []
  }

  // ----- specification of the steps -----------------------------------------------------------------

  /** The items that could be embedded: vectors and rows side by side. */
  function Embedded(items: seq<Item>, embed: Embedder): Batch {
    if items == [] then Batch([], [])
    else
      var i := |items| - 1;
      var before, item, dim := Embedded(items[..i], embed), items[i], embed(i, items[i].text);
      if dim.None? then before
      else Batch(before.vectors + [Vector(item.text, dim.value)], before.rows + [Row(item.text, item.source)])
  }

  predicate SameDim(vectors: seq<Vector>) {
    forall i | 0 <= i < |vectors| :: vectors[i].dim == vectors[0].dim
  }

  /** Nothing to add, vectors that do not stack, or a dimension other than the index's: no write. */
  predicate Accepts(index: Option<Index>, batch: Batch) {
    && batch.vectors != []
    && SameDim(batch.vectors)
    && (index.Some? ==> index.value.dim == batch.vectors[0].dim)
  }

  function Grown(index: Option<Index>, batch: Batch): Index
    requires batch.vectors != []
  {
    Index(batch.vectors[0].dim, (if index.Some? then index.value.vectors else []) + batch.vectors)
  }

  datatype Step = ReplaceIndex(batch: Batch) | ReplaceSidecar | PopCache | Stop | Restart
                | OpenLoad(id: int) | CloseLoad(id: int)

  function Next(s: State, step: Step): State {
    match step
    case ReplaceIndex(batch) =>
      if s.flight.Idle? && Accepts(s.index, batch) then
        s.(index := Some(Grown(s.index, batch)),
           flight := IndexReplaced((if s.index.Some? then RowsOf(s) else []) + batch.rows))
      else s
    case ReplaceSidecar =>
      if s.flight.IndexReplaced? then s.(meta := Some(s.flight.meta), flight := SidecarReplaced) else s
    case PopCache =>
      if s.flight.SidecarReplaced? then s.(cache := None, flight := Idle) else s
    case Stop => s.(flight := Idle)
    case Restart => s.(flight := Idle, cache := None, loads := map[])
    case OpenLoad(id) =>
      if s.cache.None? && s.index.Some? && s.meta.Some? then s.(loads := s.loads[id := s.index.value]) else s
    case CloseLoad(id) =>
      if id in s.loads then
        s.(loads := s.loads - {id},
           cache := if |RowsOf(s)| == |s.loads[id].vectors| then Some(Loaded(s.loads[id], RowsOf(s))) else s.cache)
      else s
  }

  function Run(s: State, steps: seq<Step>): State {
    if steps == [] then s else Next(Run(s, steps[..|steps| - 1]), steps[|steps| - 1])
  }

  // ----- the code -----------------------------------------------------------------------------------

  /** Where an append may be cut short, by an exception or by the end of the process. */
  datatype Cut = Never | BeforeIndex | BeforeSidecar | BeforeMarker | BeforePop

  function AppendSteps(batch: Batch, cut: Cut): seq<Step> {
    match cut
    case BeforeIndex => []
    case BeforeSidecar => [ReplaceIndex(batch), Stop]
    case BeforeMarker => [ReplaceIndex(batch), ReplaceSidecar, Stop]
    case BeforePop => [ReplaceIndex(batch), ReplaceSidecar, Stop]
    case Never => [ReplaceIndex(batch), ReplaceSidecar, PopCache]
  }

  datatype Outcome = Returned(count: int) | Raised

  class KnowledgeBase {
    var index: Option<Index>
    var meta: Option<seq<Row>>
    var cache: Option<Loaded>
    /** The provider and model stamped on the index when it was made. */
    var marker: Option<string>

    constructor ()
      ensures Snapshot() == NOTHING && marker == None
    {
      index, meta, cache, marker := None, None, None, None;
    }

    function Snapshot(): State
      reads this
    {
      State(index, meta, cache, Idle, map[])
    }

    method AppendClauses(items: seq<Item>, embed: Embedder, provider: string, cut: Cut) returns (outcome: Outcome)
      modifies this
      ensures marker == if old(marker).None? && Accepts(old(index), Embedded(items, embed)) && cut in {BeforePop, Never}
                        then Some(provider) else old(marker)
      ensures Snapshot() == Run(old(Snapshot()), AppendSteps(Embedded(items, embed), cut))
      ensures var batch := Embedded(items, embed);
              outcome == if batch.vectors == [] then Returned(0)
                         else if !SameDim(batch.vectors) then Raised
                         else if !Accepts(old(index), batch) then Returned(0)
                         else if cut != Never then Raised
                         else Returned(|batch.rows|)
    {
      var vectors, rows := [], [];
      for i := 0 to |items|
        invariant Batch(vectors, rows) == Embedded(items[..i], embed)
      {
        assert items[..i + 1][..i] == items[..i];
        var dim := embed(i, items[i].text);
        if dim.None? {
          continue;
        }
        vectors := vectors + [Vector(items[i].text, dim.value)];
        rows := rows + [Row(items[i].text, items[i].source)];
      }
      assert items[..|items|] == items;
      ghost var before, batch := Snapshot(), Batch(vectors, rows);
      AppendUnfolds(before, batch);
      if vectors == [] {
        return Returned(0);
      }
      if !SameDim(vectors) {
        return Raised;
      }
      var existing := [];
      if index.Some? {
        if index.value.dim != vectors[0].dim {
          return Returned(0);
        }
        existing := if meta.Some? then meta.value else [];
      }
      if cut == BeforeIndex {
        return Raised;
      }
      index := Some(Index(vectors[0].dim, (if index.Some? then index.value.vectors else []) + vectors));
      if cut == BeforeSidecar {
        return Raised;
      }
      meta := Some(existing + rows);
      if cut == BeforeMarker {
        return Raised;
      }
      if marker.None? {
        marker := Some(provider);
      }
      if cut == BeforePop {
        return Raised;
      }
      cache := None;
      return Returned(|rows|);
    }

    method LoadUserKb() returns (loaded: Option<Loaded>)
      modifies this`cache
      ensures Snapshot() == Run(old(Snapshot()), [OpenLoad(0), CloseLoad(0)])
      ensures loaded == cache
    {
      ghost var before := Snapshot();
      assert [OpenLoad(0), CloseLoad(0)][..1] == [OpenLoad(0)];
      assert Run(before, [OpenLoad(0)]) == Next(before, OpenLoad(0));
      if cache.Some? {
        return cache;
      }
      if index.None? || meta.None? {
        return None;
      }
      if |meta.value| != |index.value.vectors| {
        return None;
      }
      cache := Some(Loaded(index.value, meta.value));
      return cache;
    }
  }

  lemma AppendUnfolds(s: State, batch: Batch)
    ensures Run(s, []) == s
    ensures Run(s, [ReplaceIndex(batch), Stop]) == Next(Next(s, ReplaceIndex(batch)), Stop)
    ensures Run(s, [ReplaceIndex(batch), ReplaceSidecar, Stop])
         == Next(Next(Next(s, ReplaceIndex(batch)), ReplaceSidecar), Stop)
    ensures Run(s, [ReplaceIndex(batch), ReplaceSidecar, PopCache])
         == Next(Next(Next(s, ReplaceIndex(batch)), ReplaceSidecar), PopCache)
  {
    var one := [ReplaceIndex(batch)];
    assert Run(s, one) == Next(s, ReplaceIndex(batch));
    assert (one + [Stop])[..1] == one && (one + [ReplaceSidecar])[..1] == one;
    assert [ReplaceIndex(batch), Stop] == one + [Stop];
    assert [ReplaceIndex(batch), ReplaceSidecar, Stop][..2] == one + [ReplaceSidecar];
    assert [ReplaceIndex(batch), ReplaceSidecar, PopCache][..2] == one + [ReplaceSidecar];
  }

  // ----- whole runs ---------------------------------------------------------------------------------

  ghost predicate Describes(rows: seq<Row>, vectors: seq<Vector>) {
    |rows| == |vectors| && forall i | 0 <= i < |rows| :: rows[i].snippet == vectors[i].text
  }

  lemma {:induction false} EmbeddedDescribes(items: seq<Item>, embed: Embedder)
    ensures Describes(Embedded(items, embed).rows, Embedded(items, embed).vectors)
  {
    if items != [] {
      EmbeddedDescribes(items[..|items| - 1], embed);
    }
  }

  ghost predicate WellFormed(steps: seq<Step>) {
    forall i | 0 <= i < |steps| && steps[i].ReplaceIndex? :: Describes(steps[i].batch.rows, steps[i].batch.vectors)
  }

  /** The sidecar as it will be once the append that holds the lock is through. */
  function Committed(s: State): seq<Row> {
    if s.flight.IndexReplaced? then s.flight.meta else RowsOf(s)
  }

  /** Vectors that will have no row. */
  function Gap(s: State): int {
    |VectorsOf(s)| - |Committed(s)|
  }

  ghost predicate Sound(s: State) {
    && (s.meta.Some? || s.flight.IndexReplaced? ==> s.index.Some?)
    && RowsOf(s) <= Committed(s)
    && 0 <= Gap(s)
    && (Gap(s) == 0 ==> Describes(Committed(s), VectorsOf(s)))
    && (forall id | id in s.loads :: s.loads[id].vectors <= VectorsOf(s))
  }

  ghost predicate CacheSound(s: State) {
    s.cache.Some? ==> Describes(s.cache.value.meta, s.cache.value.index.vectors)
  }

  lemma ReplaceIndexSound(s: State, batch: Batch)
    requires Sound(s) && Describes(batch.rows, batch.vectors)
    ensures Sound(Next(s, ReplaceIndex(batch))) && Gap(Next(s, ReplaceIndex(batch))) == Gap(s)
  {
    var rows := if s.index.Some? then RowsOf(s) else [];
    assert rows == RowsOf(s);
    if s.flight.Idle? && Accepts(s.index, batch) {
      var next := Next(s, ReplaceIndex(batch));
      assert VectorsOf(next) == VectorsOf(s) + batch.vectors;
      assert Committed(next) == rows + batch.rows;
    }
  }

  /** Every step keeps the index at least as long as the sidecar, and never closes a gap; only cutting
      an append short can open one. */
  lemma SoundStep(s: State, step: Step)
    requires Sound(s) && (step.ReplaceIndex? ==> Describes(step.batch.rows, step.batch.vectors))
    ensures Sound(Next(s, step)) && Gap(s) <= Gap(Next(s, step))
    ensures !step.Stop? && !step.Restart? ==> Gap(Next(s, step)) == Gap(s)
    ensures VectorsOf(s) <= VectorsOf(Next(s, step))
  {
    if step.ReplaceIndex? {
      ReplaceIndexSound(s, step.batch);
    }
  }

  lemma {:induction false} RunSound(s: State, steps: seq<Step>)
    requires Sound(s) && WellFormed(steps)
    ensures Sound(Run(s, steps)) && Gap(s) <= Gap(Run(s, steps))
    ensures |RowsOf(Run(s, steps))| <= |VectorsOf(Run(s, steps))|
    ensures VectorsOf(s) <= VectorsOf(Run(s, steps))
  {
    if steps != [] {
      var n := |steps| - 1;
      RunSound(s, steps[..n]);
      SoundStep(Run(s, steps[..n]), steps[n]);
    }
  }

  /** No append replaced the index while this load was open, or nothing has been lost so far. */
  ghost predicate SafeStep(s: State, step: Step) {
    step.CloseLoad? && step.id in s.loads ==> s.loads[step.id].vectors == VectorsOf(s) || Gap(s) == 0
  }

  ghost predicate SafeRun(s: State, steps: seq<Step>) {
    forall i | 0 <= i < |steps| :: SafeStep(Run(s, steps[..i]), steps[i])
  }

  lemma PrefixDescribes(rows: seq<Row>, vectors: seq<Vector>, somerows: seq<Row>, some: seq<Vector>)
    requires Describes(rows, vectors) && somerows <= rows && some <= vectors && |somerows| == |some|
    ensures Describes(somerows, some)
  {
  }

  lemma CacheStep(s: State, step: Step)
    requires Sound(s) && CacheSound(s) && SafeStep(s, step)
    ensures CacheSound(Next(s, step))
  {
    if step.CloseLoad? && step.id in s.loads && |RowsOf(s)| == |s.loads[step.id].vectors| {
      assert |RowsOf(s)| <= |Committed(s)| <= |VectorsOf(s)|;
      if s.loads[step.id].vectors == VectorsOf(s) {
        assert Gap(s) == 0;
      }
      PrefixDescribes(Committed(s), VectorsOf(s), RowsOf(s), s.loads[step.id].vectors);
    }
  }

  /** Crash safety: whatever appends ran and wherever they stopped, an accepted load pairs row i with
      vector i, provided no append replaced the index during the load or no append was ever cut short. */
  lemma {:induction false} AcceptedLoadIsAligned(s: State, steps: seq<Step>)
    requires Sound(s) && CacheSound(s) && WellFormed(steps) && SafeRun(s, steps)
    ensures CacheSound(Run(s, steps))
  {
    if steps != [] {
      var n := |steps| - 1;
      assert forall i | 0 <= i < n :: steps[..n][..i] == steps[..i];
      AcceptedLoadIsAligned(s, steps[..n]);
      RunSound(s, steps[..n]);
      assert SafeStep(Run(s, steps[..n]), steps[n]);
      CacheStep(Run(s, steps[..n]), steps[n]);
    }
  }

  /** Both hold of every user's files from the first append on. */
  lemma FromTheFirstAppend(steps: seq<Step>)
    requires WellFormed(steps)
    ensures Sound(Run(NOTHING, steps))
    ensures SafeRun(NOTHING, steps) ==> CacheSound(Run(NOTHING, steps))
  {
    RunSound(NOTHING, steps);
    if SafeRun(NOTHING, steps) {
      AcceptedLoadIsAligned(NOTHING, steps);
    }
  }

  // ----- what an index holds ------------------------------------------------------------------------

  ghost predicate OneDimension(index: Index) {
    forall i | 0 <= i < |index.vectors| :: index.vectors[i].dim == index.dim
  }

  ghost predicate DimensionsAgree(s: State) {
    && (s.index.Some? ==> OneDimension(s.index.value))
    && (s.cache.Some? ==> OneDimension(s.cache.value.index))
    && (forall id | id in s.loads :: OneDimension(s.loads[id]))
  }

  lemma GrownOneDimension(index: Option<Index>, batch: Batch)
    requires Accepts(index, batch) && (index.Some? ==> OneDimension(index.value))
    ensures OneDimension(Grown(index, batch))
  {
    forall i | 0 <= i < |batch.vectors| ensures batch.vectors[i].dim == batch.vectors[0].dim {
    }
  }

  /** Whatever is appended, cut, restarted and loaded: every vector of an index, stored, cached or being
      loaded, has the dimension of its index. */
  lemma {:induction false} RunDimensions(steps: seq<Step>)
    ensures DimensionsAgree(Run(NOTHING, steps))
  {
    if steps != [] {
      var n := |steps| - 1;
      RunDimensions(steps[..n]);
      var s := Run(NOTHING, steps[..n]);
      if steps[n].ReplaceIndex? && Accepts(s.index, steps[n].batch) {
        GrownOneDimension(s.index, steps[n].batch);
      }
    }
  }

  /** The places of the items that can be embedded. */
  function Kept(items: seq<Item>, embed: Embedder): seq<nat> {
    if items == [] then []
    else Kept(items[..|items| - 1], embed)
         + if embed(|items| - 1, items[|items| - 1].text).Some? then [|items| - 1] else []
  }

  lemma {:induction false} KeptExact(items: seq<Item>, embed: Embedder)
    ensures forall i: nat :: i in Kept(items, embed) <==> i < |items| && embed(i, items[i].text).Some?
    ensures forall j, k | 0 <= j < k < |Kept(items, embed)| :: Kept(items, embed)[j] < Kept(items, embed)[k]
  {
    if items != [] {
      var n := |items| - 1;
      var less := Kept(items[..n], embed);
      KeptExact(items[..n], embed);
      assert forall j | 0 <= j < |less| :: less[j] in less;
    }
  }

  lemma {:induction false} KeptLength(items: seq<Item>, embed: Embedder)
    ensures |Embedded(items, embed).rows| == |Embedded(items, embed).vectors| == |Kept(items, embed)|
  {
    if items != [] {
      KeptLength(items[..|items| - 1], embed);
    }
  }

  /** An append takes exactly the items that can be embedded, in their order, each with its text, its source
      and the dimension of its embedding. */
  lemma {:induction false} EmbeddedIsKept(items: seq<Item>, embed: Embedder, j: nat)
    requires j < |Kept(items, embed)|
    ensures var batch, i := Embedded(items, embed), Kept(items, embed)[j];
            && |batch.rows| == |batch.vectors| == |Kept(items, embed)| && i < |items|
            && batch.rows[j] == Row(items[i].text, items[i].source)
            && embed(i, items[i].text).Some?
            && batch.vectors[j] == Vector(items[i].text, embed(i, items[i].text).value)
  {
    var n := |items| - 1;
    KeptLength(items, embed);
    KeptLength(items[..n], embed);
    KeptExact(items[..n], embed);
    var less := Kept(items[..n], embed);
    if j < |less| {
      EmbeddedIsKept(items[..n], embed, j);
      assert less[j] in less;
    }
  }

  /** A gap is for ever: once an append lost its rows, no load that sees the index as it is is ever
      accepted again. */
  lemma {:induction false} GapIsForever(s: State, steps: seq<Step>)
    requires Sound(s) && WellFormed(steps) && Gap(s) > 0 && s.cache.None?
    requires forall i | 0 <= i < |steps| && steps[i].CloseLoad? ::
               var t := Run(s, steps[..i]);
               steps[i].id in t.loads ==> t.loads[steps[i].id].vectors == VectorsOf(t)
    ensures Run(s, steps).cache.None?
  {
    if steps != [] {
      var n := |steps| - 1;
      assert forall i | 0 <= i < n :: steps[..n][..i] == steps[..i];
      GapIsForever(s, steps[..n]);
      RunSound(s, steps[..n]);
      var t := Run(s, steps[..n]);
      assert |RowsOf(t)| <= |Committed(t)| < |VectorsOf(t)|;
    }
  }

  /** What an append leaves behind, cut where it may: nothing; the index alone; both files with the old cache;
      or, when it goes through, both files and no cache. */
  lemma AppendLeaves(s: State, batch: Batch, cut: Cut)
    requires s.flight.Idle? && Accepts(s.index, batch)
    ensures var t := Run(s, AppendSteps(batch, cut));
            && t.flight.Idle? && t.loads == s.loads
            && (cut == BeforeIndex ==> t == s)
            && (cut != BeforeIndex ==> t.index == Some(Index(batch.vectors[0].dim, VectorsOf(s) + batch.vectors)))
            && (cut == BeforeSidecar ==> t.meta == s.meta)
            && (cut != BeforeIndex && cut != BeforeSidecar ==>
                  t.meta == Some((if s.index.Some? then RowsOf(s) else []) + batch.rows))
            && t.cache == if cut == Never then None else s.cache
  {
    AppendUnfolds(s, batch);
  }

  /** A load with nothing in between caches what the files hold, when they agree in number. */
  lemma LoadCaches(s: State)
    requires s.cache.None? && s.index.Some? && s.meta.Some? && |s.meta.value| == |s.index.value.vectors|
    ensures Next(Next(s, OpenLoad(0)), CloseLoad(0)).cache == Some(Loaded(s.index.value, s.meta.value))
  {
  }

  /** With nothing lost so far, a load after a completed append sees all of it, behind what was there. */
  lemma LoadSeesAppend(s: State, batch: Batch)
    requires Sound(s) && s.flight.Idle? && s.loads == map[] && Gap(s) == 0
    requires Accepts(s.index, batch) && Describes(batch.rows, batch.vectors)
    ensures var t := Run(s, AppendSteps(batch, Never));
            Next(Next(t, OpenLoad(0)), CloseLoad(0)).cache
              == Some(Loaded(Index(batch.vectors[0].dim, VectorsOf(s) + batch.vectors), RowsOf(s) + batch.rows))
  {
    AppendLeaves(s, batch, Never);
    assert s.index.None? ==> RowsOf(s) == [];
    LoadCaches(Run(s, AppendSteps(batch, Never)));
  }

  // ----- loads that overlap appends -----------------------------------------------------------------

  ghost predicate Uncut(steps: seq<Step>) {
    forall i | 0 <= i < |steps| :: !steps[i].Stop? && !steps[i].Restart?
  }

  /** Without further cuts, every load from here on is aligned, however it overlaps the appends. */
  ghost predicate AlwaysAligned(s: State) {
    forall steps | WellFormed(steps) && Uncut(steps) :: CacheSound(Run(s, steps))
  }

  lemma {:induction false} UncutKeepsGap(s: State, steps: seq<Step>)
    requires Sound(s) && WellFormed(steps) && Uncut(steps)
    ensures Gap(Run(s, steps)) == Gap(s)
  {
    if steps != [] {
      var n := |steps| - 1;
      UncutKeepsGap(s, steps[..n]);
      RunSound(s, steps[..n]);
      SoundStep(Run(s, steps[..n]), steps[n]);
    }
  }

  lemma NoGapIsAligned(s: State, steps: seq<Step>)
    requires Sound(s) && CacheSound(s) && Gap(s) == 0 && WellFormed(steps) && Uncut(steps)
    ensures CacheSound(Run(s, steps))
  {
    forall i | 0 <= i < |steps| ensures SafeStep(Run(s, steps[..i]), steps[i]) {
      UncutKeepsGap(s, steps[..i]);
    }
    AcceptedLoadIsAligned(s, steps);
  }

  function Copies(text: string, dim: int, n: nat): (b: Batch)
    ensures Describes(b.rows, b.vectors) && |b.rows| == n && SameDim(b.vectors)
    ensures forall i | 0 <= i < n :: b.rows[i].snippet == text && b.vectors[i].dim == dim
  {
    Batch(seq(n, _ => Vector(text, dim)), seq(n, _ => Row(text, "")))
  }

  lemma {:induction false} RunConcat(s: State, a: seq<Step>, b: seq<Step>)
    ensures Run(s, a + b) == Run(Run(s, a), b)
  {
    if b == [] {
      assert a + b == a;
    } else {
      assert (a + b)[..|a + b| - 1] == a + b[..|b| - 1];
      RunConcat(s, a, b[..|b| - 1]);
    }
  }

  lemma RunOne(s: State, steps: seq<Step>, i: nat)
    requires i < |steps|
    ensures Run(s, steps[..i + 1]) == Next(Run(s, steps[..i]), steps[i])
  {
    assert steps[..i + 1][..i] == steps[..i];
  }

  function FinishAppend(): seq<Step> {
    [ReplaceSidecar, PopCache]
  }

  /** Let the append in flight finish, then append these. */
  function FinishThenAppend(one: Batch): seq<Step> {
    FinishAppend() + AppendSteps(one, Never)
  }

  lemma AppendFinishes(s: State)
    requires Sound(s)
    ensures var t := Run(s, FinishAppend());
            t.flight.Idle? && Gap(t) == Gap(s) && t.index == s.index && Sound(t)
  {
    RunOne(s, FinishAppend(), 0);
    RunOne(s, FinishAppend(), 1);
    assert FinishAppend()[..2] == FinishAppend() && FinishAppend()[..0] == [];
    RunSound(s, FinishAppend());
  }

  lemma AppendGoesThrough(s: State, one: Batch)
    requires Sound(s) && s.flight.Idle? && s.index.Some? && Accepts(s.index, one)
    requires Describes(one.rows, one.vectors)
    ensures var t := Run(s, AppendSteps(one, Never));
            && t.index.Some? && t.index.value.dim == one.vectors[0].dim && t.meta.Some? && t.cache.None?
            && t.flight.Idle? && Gap(t) == Gap(s) && VectorsOf(t) == VectorsOf(s) + one.vectors
  {
    AppendUnfolds(s, one);
  }

  lemma AppendOne(s: State, one: Batch)
    requires Sound(s) && Gap(s) > 0 && Accepts(s.index, one) && Describes(one.rows, one.vectors)
    ensures var t := Run(s, FinishThenAppend(one));
            && t.index.Some? && t.index.value.dim == one.vectors[0].dim && t.meta.Some? && t.cache.None?
            && t.flight.Idle? && Gap(t) == Gap(s) && VectorsOf(t) == VectorsOf(s) + one.vectors
  {
    AppendFinishes(s);
    AppendGoesThrough(Run(s, FinishAppend()), one);
    RunConcat(s, FinishAppend(), AppendSteps(one, Never));
  }

  /** Open a load, append these, close the load. */
  function LoadAround(many: Batch): seq<Step> {
    [OpenLoad(0), ReplaceIndex(many), ReplaceSidecar, CloseLoad(0)]
  }

  /** As many rows as are missing, appended during the load, make the counts agree. */
  lemma OverlappedLoad(t: State, many: Batch)
    requires t.index.Some? && t.meta.Some? && t.cache.None? && t.flight.Idle?
    requires Accepts(t.index, many) && Gap(t) == |many.rows|
    ensures Run(t, LoadAround(many)).cache == Some(Loaded(t.index.value, RowsOf(t) + many.rows))
  {
    var steps := LoadAround(many);
    RunOne(t, steps, 0); RunOne(t, steps, 1); RunOne(t, steps, 2); RunOne(t, steps, 3);
    assert steps[..4] == steps && steps[..0] == [];
  }

  lemma Misaligned(rows: seq<Row>, many: seq<Row>, vectors: seq<Vector>)
    requires many != [] && vectors != []
    requires many[|many| - 1].snippet != vectors[|vectors| - 1].text
    ensures !Describes(rows + many, vectors)
  {
    if |rows + many| == |vectors| {
      assert (rows + many)[|vectors| - 1] == many[|many| - 1];
    }
  }

  lemma GapMisaligns(s: State)
    requires Sound(s) && Gap(s) > 0
    ensures !AlwaysAligned(s)
  {
    var dim := s.index.value.dim;
    var one, many := Copies("x", dim, 1), Copies("y", dim, Gap(s));
    AppendOne(s, one);
    var t := Run(s, FinishThenAppend(one));
    OverlappedLoad(t, many);
    RunConcat(s, FinishThenAppend(one), LoadAround(many));
    Misaligned(RowsOf(t), many.rows, VectorsOf(t));
    var steps := FinishThenAppend(one) + LoadAround(many);
    assert WellFormed(steps) && Uncut(steps) && !CacheSound(Run(s, steps));
  }

  /** Exactly the lost rows matter: loads may overlap appends at will if and only if no append has been
      cut between its two replaces. */
  lemma AlwaysAlignedIffNoGap(s: State)
    requires Sound(s) && CacheSound(s)
    ensures AlwaysAligned(s) <==> Gap(s) == 0
  {
    if Gap(s) > 0 {
      GapMisaligns(s);
    } else {
      forall steps | WellFormed(steps) && Uncut(steps) ensures CacheSound(Run(s, steps)) {
        NoGapIsAligned(s, steps);
      }
    }
  }
}

/** The evaluation harness's one-to-one matching of findings to gold clauses: candidate pairs above
    an overlap threshold, taken greedily from the best down. */
module Matcher {
  import opened Options
  import opened Ranges

  /** A finding and a gold clause, with the token sets `normalize` gives for their texts. */
  datatype Finding = Finding(tokens: set<string>, section: Option<string>, riskRank: Option<int>)
  datatype Gold = Gold(tokens: set<string>, section: Option<string>, shouldFlag: bool,
                       clauseType: Option<string>, expectedRank: Option<int>)

  /** Containment of the gold snippet in the finding's text. */
  function Overlap(finding: set<string>, snippet: set<string>): (r: real)
    ensures 0.0 <= r <= 1.0
    ensures snippet != {} ==> (r == 1.0 <==> snippet <= finding)
    ensures snippet != {} ==> (r == 0.0 <==> snippet !! finding)
  {
    if snippet == {} then 0.0
    else
      var common := snippet * finding;
      SubsetSize(common, snippet);
      assert common == snippet <==> snippet <= finding;
      |common| as real / |snippet| as real
  }

  predicate SectionMatch(f: Finding, g: Gold) {
    f.section.Some? && g.section.Some? && f.section.value == g.section.value
  }

  /** A candidate pair: finding number `f`, gold clause number `g`. */
  datatype Pair = Pair(overlap: real, section: bool, f: nat, g: nat)

  /** The sort key (overlap, section, -f, -g), descending: `p` comes before `q`. */
  predicate Before(p: Pair, q: Pair) {
    if p.overlap != q.overlap then p.overlap > q.overlap
    else if p.section != q.section then p.section
    else if p.f != q.f then p.f < q.f
    else p.g < q.g
  }

  predicate Shares(p: Pair, q: Pair) {
    p.f == q.f || p.g == q.g
  }

  function PairAt(findings: seq<Finding>, gold: seq<Gold>, f: nat, g: nat): Pair
    requires f < |findings| && g < |gold|
  {
    Pair(Overlap(findings[f].tokens, gold[g].tokens), SectionMatch(findings[f], gold[g]), f, g)
  }

  predicate Candidate(findings: seq<Finding>, gold: seq<Gold>, t: real, p: Pair) {
    p.f < |findings| && p.g < |gold| && p == PairAt(findings, gold, p.f, p.g) && p.overlap >= t
  }

  // ----- specification --------------------------------------------------------------------------

  /** The candidates of finding `f` among the first `n` gold clauses. */
  function RowPairs(findings: seq<Finding>, gold: seq<Gold>, t: real, f: nat, n: nat): seq<Pair>
    requires f < |findings| && n <= |gold|
  {
    if n == 0 then []
    else RowPairs(findings, gold, t, f, n - 1)
         + if PairAt(findings, gold, f, n - 1).overlap >= t then [PairAt(findings, gold, f, n - 1)] else []
  }

  function AllPairs(findings: seq<Finding>, gold: seq<Gold>, t: real, n: nat): seq<Pair>
    requires n <= |findings|
  {
    if n == 0 then []
    else AllPairs(findings, gold, t, n - 1) + RowPairs(findings, gold, t, n - 1, |gold|)
  }

  function Insert(p: Pair, ranked: seq<Pair>): seq<Pair> {
    if ranked == [] then [p]
    else if Before(ranked[0], p) then [ranked[0]] + Insert(p, ranked[1..])
    else [p] + ranked
  }

  /** `pairs.sort(key=..., reverse=True)` */
  function Ranked(pairs: seq<Pair>): seq<Pair> {
    if pairs == [] then [] else Insert(pairs[0], Ranked(pairs[1..]))
  }

  /** Take each pair in turn unless its finding or its gold clause is already used. */
  function Greedy(pairs: seq<Pair>): seq<Pair> {
    if pairs == [] then []
    else
      var taken, p := Greedy(pairs[..|pairs| - 1]), pairs[|pairs| - 1];
      if exists i | 0 <= i < |taken| :: Shares(taken[i], p) then taken else taken + [p]
  }

  function Matching(findings: seq<Finding>, gold: seq<Gold>, t: real): seq<Pair> {
    Greedy(Ranked(AllPairs(findings, gold, t, |findings|)))
  }

  function Fs(pairs: seq<Pair>): set<nat> {
    set i | 0 <= i < |pairs| :: pairs[i].f
  }

  function Gs(pairs: seq<Pair>): set<nat> {
    set i | 0 <= i < |pairs| :: pairs[i].g
  }

  /** An unmatched finding that overlaps a matched risky gold clause. */
  predicate IsSurplus(findings: seq<Finding>, gold: seq<Gold>, t: real, matches: seq<Pair>, f: nat)
    requires f < |findings|
  {
    exists g | 0 <= g < |gold| ::
      g in Gs(matches) && gold[g].shouldFlag && Overlap(findings[f].tokens, gold[g].tokens) >= t
  }

  /** The findings `match` leaves over, in order: the surplus ones, or the false-flag candidates. */
  function Leftover(findings: seq<Finding>, gold: seq<Gold>, t: real, matches: seq<Pair>, surplus: bool,
                    n: nat): seq<nat>
    requires n <= |findings|
  {
    if n == 0 then []
    else Leftover(findings, gold, t, matches, surplus, n - 1)
         + if n - 1 !in Fs(matches) && IsSurplus(findings, gold, t, matches, n - 1) == surplus then [n - 1] else []
  }

  function UnusedGold(matches: seq<Pair>, n: nat): seq<nat> {
    if n == 0 then [] else UnusedGold(matches, n - 1) + if n - 1 in Gs(matches) then [] else [n - 1]
  }

  datatype MatchResult = MatchResult(
    matches: seq<Pair>, unmatchedFindings: seq<nat>, surplusFindings: seq<nat>, unmatchedGold: seq<nat>)

  function Matched(findings: seq<Finding>, gold: seq<Gold>, t: real): MatchResult {
    var matches := Matching(findings, gold, t);
    MatchResult(matches,
                Leftover(findings, gold, t, matches, false, |findings|),
                Leftover(findings, gold, t, matches, true, |findings|),
                UnusedGold(matches, |gold|))
  }

  // ----- the code -------------------------------------------------------------------------------

  method CandidatePairs(findings: seq<Finding>, gold: seq<Gold>, t: real) returns (pairs: seq<Pair>)
    ensures pairs == AllPairs(findings, gold, t, |findings|)
  {
    pairs := [];
    for fi := 0 to |findings|
      invariant pairs == AllPairs(findings, gold, t, fi)
    {
      for gi := 0 to |gold|
        invariant pairs == AllPairs(findings, gold, t, fi) + RowPairs(findings, gold, t, fi, gi)
      {
        var p := PairAt(findings, gold, fi, gi);
        if p.overlap >= t {
          pairs := pairs + [p];
        }
      }
    }
  }

  method TakeGreedily(pairs: seq<Pair>) returns (matches: seq<Pair>, usedF: set<nat>, usedG: set<nat>)
    ensures matches == Greedy(pairs)
    ensures usedF == Fs(matches) && usedG == Gs(matches)
  {
    usedF, usedG, matches := {}, {}, [];
    for i := 0 to |pairs|
      invariant matches == Greedy(pairs[..i])
      invariant usedF == Fs(matches) && usedG == Gs(matches)
    {
      assert pairs[..i + 1][..i] == pairs[..i];
      var p := pairs[i];
      UsedMeansShares(matches, p);
      if p.f in usedF || p.g in usedG {
        continue;
      }
      FsGsAppend(matches, p);
      usedF, usedG := usedF + {p.f}, usedG + {p.g};
      matches := matches + [p];
    }
    assert pairs[..|pairs|] == pairs;
  }

  method Match(findings: seq<Finding>, gold: seq<Gold>, t: real) returns (res: MatchResult)
    ensures res == Matched(findings, gold, t)
  {
    var pairs := CandidatePairs(findings, gold, t);
    var matches, usedF, usedG := TakeGreedily(Ranked(pairs));
    var unmatched, surplus := SplitLeftover(findings, gold, t, matches, usedF);
    var unmatchedGold: seq<nat> := [];
    for gi := 0 to |gold|
      invariant unmatchedGold == UnusedGold(matches, gi)
    {
      if gi !in usedG {
        unmatchedGold := unmatchedGold + [gi];
      }
    }
    res := MatchResult(matches, unmatched, surplus, unmatchedGold);
  }

  /** Findings that no match uses: on a gold clause all the same, or on none. */
  method SplitLeftover(findings: seq<Finding>, gold: seq<Gold>, t: real, matches: seq<Pair>, usedF: set<nat>)
    returns (unmatched: seq<nat>, surplus: seq<nat>)
    requires usedF == Fs(matches)
    ensures unmatched == Leftover(findings, gold, t, matches, false, |findings|)
    ensures surplus == Leftover(findings, gold, t, matches, true, |findings|)
  {
    unmatched, surplus := [], [];
    for fi := 0 to |findings|
      invariant unmatched == Leftover(findings, gold, t, matches, false, fi)
      invariant surplus == Leftover(findings, gold, t, matches, true, fi)
    {
      if fi in usedF {
        continue;
      }
      if IsSurplus(findings, gold, t, matches, fi) {
        surplus := surplus + [fi];
      } else {
        unmatched := unmatched + [fi];
      }
    }
  }

  lemma UsedMeansShares(taken: seq<Pair>, p: Pair)
    ensures (p.f in Fs(taken) || p.g in Gs(taken)) <==> exists i | 0 <= i < |taken| :: Shares(taken[i], p)
  {
  }

  lemma FsGsAppend(taken: seq<Pair>, p: Pair)
    ensures Fs(taken + [p]) == Fs(taken) + {p.f}
    ensures Gs(taken + [p]) == Gs(taken) + {p.g}
  {
    var more := taken + [p];
    assert more[|taken|] == p;
    assert forall i | 0 <= i < |taken| :: more[i] == taken[i];
    assert forall x | x in Fs(taken) :: x in Fs(more);
    assert forall x | x in Gs(taken) :: x in Gs(more);
  }

  // ----- the candidates and their ranking --------------------------------------------------------

  lemma {:induction false} RowPairsExact(findings: seq<Finding>, gold: seq<Gold>, t: real, f: nat, n: nat, p: Pair)
    requires f < |findings| && n <= |gold|
    ensures p in RowPairs(findings, gold, t, f, n) <==> Candidate(findings, gold, t, p) && p.f == f && p.g < n
  {
    if n > 0 {
      RowPairsExact(findings, gold, t, f, n - 1, p);
    }
  }

  lemma InConcat(a: seq<Pair>, b: seq<Pair>, p: Pair)
    ensures p in a + b <==> p in a || p in b
  {
  }

  predicate Listed(findings: seq<Finding>, gold: seq<Gold>, t: real, n: nat, p: Pair)
    requires n <= |findings|
  {
    n > 0 && (Listed(findings, gold, t, n - 1, p) || p in RowPairs(findings, gold, t, n - 1, |gold|))
  }

  lemma {:induction false} AllPairsListed(findings: seq<Finding>, gold: seq<Gold>, t: real, n: nat, p: Pair)
    requires n <= |findings|
    ensures p in AllPairs(findings, gold, t, n) <==> Listed(findings, gold, t, n, p)
  {
    if n > 0 {
      AllPairsListed(findings, gold, t, n - 1, p);
      var less, row := AllPairs(findings, gold, t, n - 1), RowPairs(findings, gold, t, n - 1, |gold|);
      assert AllPairs(findings, gold, t, n) == less + row;
      InConcat(less, row, p);
    }
  }

  lemma {:induction false} ListedExact(findings: seq<Finding>, gold: seq<Gold>, t: real, n: nat, p: Pair)
    requires n <= |findings|
    ensures Listed(findings, gold, t, n, p) <==> Candidate(findings, gold, t, p) && p.f < n
  {
    if n > 0 {
      ListedExact(findings, gold, t, n - 1, p);
      RowPairsExact(findings, gold, t, n - 1, |gold|, p);
    }
  }

  lemma AllPairsExact(findings: seq<Finding>, gold: seq<Gold>, t: real, n: nat, p: Pair)
    requires n <= |findings|
    ensures p in AllPairs(findings, gold, t, n) <==> Candidate(findings, gold, t, p) && p.f < n
  {
    AllPairsListed(findings, gold, t, n, p);
    ListedExact(findings, gold, t, n, p);
  }

  ghost predicate Descending(pairs: seq<Pair>) {
    forall i, j | 0 <= i < j < |pairs| :: !Before(pairs[j], pairs[i])
  }

  lemma {:induction false} InsertKeepsOrder(p: Pair, ranked: seq<Pair>)
    requires Descending(ranked)
    ensures Descending(Insert(p, ranked))
    ensures forall q :: q in Insert(p, ranked) <==> q == p || q in ranked
  {
    if ranked != [] && Before(ranked[0], p) {
      var rest := Insert(p, ranked[1..]);
      InsertKeepsOrder(p, ranked[1..]);
      assert ranked == [ranked[0]] + ranked[1..];
      forall j | 0 <= j < |rest|
        ensures !Before(rest[j], ranked[0])
      {
        assert rest[j] in rest;
      }
    } else if ranked != [] {
      forall j | 0 <= j < |ranked|
        ensures !Before(ranked[j], p)
      {
        assert j == 0 || !Before(ranked[j], ranked[0]);
      }
    }
  }

  lemma {:induction false} RankedSorts(pairs: seq<Pair>)
    ensures Descending(Ranked(pairs))
    ensures forall q :: q in Ranked(pairs) <==> q in pairs
  {
    if pairs != [] {
      RankedSorts(pairs[1..]);
      InsertKeepsOrder(pairs[0], Ranked(pairs[1..]));
      assert pairs == [pairs[0]] + pairs[1..];
    }
  }

  lemma {:induction false} InsertAdds(p: Pair, ranked: seq<Pair>)
    ensures multiset(Insert(p, ranked)) == multiset(ranked) + multiset{p}
  {
    if ranked != [] && Before(ranked[0], p) {
      InsertAdds(p, ranked[1..]);
      assert ranked == [ranked[0]] + ranked[1..];
    }
  }

  lemma {:induction false} RankedPermutes(pairs: seq<Pair>)
    ensures multiset(Ranked(pairs)) == multiset(pairs)
  {
    if pairs != [] {
      RankedPermutes(pairs[1..]);
      InsertAdds(pairs[0], Ranked(pairs[1..]));
      assert pairs == [pairs[0]] + pairs[1..];
    }
  }

  // ----- stability --------------------------------------------------------------------------------

  ghost predicate OneToOne(m: set<Pair>) {
    forall p, q | p in m && q in m && p != q :: !Shares(p, q)
  }

  ghost predicate Blocked(m: set<Pair>, p: Pair) {
    exists q | q in m :: Shares(q, p) && Before(q, p)
  }

  /** A one-to-one set of candidates in which every candidate left out shares a finding or a gold
      clause with a chosen pair of strictly higher rank. */
  ghost predicate Stable(findings: seq<Finding>, gold: seq<Gold>, t: real, m: set<Pair>) {
    && (forall p | p in m :: Candidate(findings, gold, t, p))
    && OneToOne(m)
    && (forall p | Candidate(findings, gold, t, p) && p !in m :: Blocked(m, p))
  }

  ghost function Chosen(pairs: seq<Pair>): set<Pair> {
    set p | p in pairs
  }

  lemma {:induction false} GreedyInvariant(pairs: seq<Pair>)
    requires Descending(pairs)
    ensures var taken := Greedy(pairs);
            && (forall p | p in taken :: p in pairs)
            && (forall i, j | 0 <= i < j < |taken| :: !Shares(taken[i], taken[j]))
            && Descending(taken)
            && (forall p | p in pairs && p !in taken ::
                  exists i | 0 <= i < |taken| :: Shares(taken[i], p) && !Before(p, taken[i]))
    decreases |pairs|
  {
    if pairs != [] {
      var n := |pairs| - 1;
      var init, p := pairs[..n], pairs[n];
      GreedyInvariant(init);
      var before, taken := Greedy(init), Greedy(pairs);
      assert pairs == init + [p];
      forall q | q in init
        ensures !Before(p, q)
      {
        var k :| 0 <= k < n && init[k] == q;
        assert pairs[k] == q;
      }
      forall q | q in pairs && q !in taken
        ensures exists i | 0 <= i < |taken| :: Shares(taken[i], q) && !Before(q, taken[i])
      {
        if q == p {
          var i :| 0 <= i < |before| && Shares(before[i], p);
          assert taken[i] == before[i] && before[i] in init;
        } else {
          assert q in init && q !in before;
          var i :| 0 <= i < |before| && Shares(before[i], q) && !Before(q, before[i]);
          assert taken[i] == before[i];
        }
      }
    }
  }

  lemma SamePlaceSamePair(findings: seq<Finding>, gold: seq<Gold>, t: real, p: Pair, q: Pair)
    requires Candidate(findings, gold, t, p) && Candidate(findings, gold, t, q)
    ensures Before(p, q) || Before(q, p) || p == q
  {
  }

  /** The greedy result is one-to-one and stable over all candidate pairs. */
  lemma MatchingIsStable(findings: seq<Finding>, gold: seq<Gold>, t: real)
    ensures Stable(findings, gold, t, Chosen(Matching(findings, gold, t)))
    ensures |Chosen(Matching(findings, gold, t))| == |Matching(findings, gold, t)|
  {
    var ranked := Ranked(AllPairs(findings, gold, t, |findings|));
    forall p
      ensures p in ranked <==> Candidate(findings, gold, t, p)
    {
      AllPairsExact(findings, gold, t, |findings|, p);
      RankedSorts(AllPairs(findings, gold, t, |findings|));
    }
    RankedSorts(AllPairs(findings, gold, t, |findings|));
    GreedyIsStable(findings, gold, t, ranked);
  }

  lemma GreedyIsStable(findings: seq<Finding>, gold: seq<Gold>, t: real, ranked: seq<Pair>)
    requires Descending(ranked)
    requires forall p :: p in ranked <==> Candidate(findings, gold, t, p)
    ensures Stable(findings, gold, t, Chosen(Greedy(ranked)))
    ensures |Chosen(Greedy(ranked))| == |Greedy(ranked)|
  {
    var taken := Greedy(ranked);
    GreedyInvariant(ranked);
    ChosenOneToOne(taken);
    forall p | Candidate(findings, gold, t, p) && p !in Chosen(taken)
      ensures Blocked(Chosen(taken), p)
    {
      var i :| 0 <= i < |taken| && Shares(taken[i], p) && !Before(p, taken[i]);
      BlockedByTaken(findings, gold, t, taken, i, p);
    }
    NoRepeats(taken);
  }

  lemma BlockedByTaken(findings: seq<Finding>, gold: seq<Gold>, t: real, taken: seq<Pair>, i: nat, p: Pair)
    requires i < |taken| && Shares(taken[i], p) && !Before(p, taken[i])
    requires Candidate(findings, gold, t, p) && Candidate(findings, gold, t, taken[i]) && p !in Chosen(taken)
    ensures Blocked(Chosen(taken), p)
  {
    SamePlaceSamePair(findings, gold, t, p, taken[i]);
    assert taken[i] in Chosen(taken);
  }

  lemma ChosenOneToOne(taken: seq<Pair>)
    requires forall i, j | 0 <= i < j < |taken| :: !Shares(taken[i], taken[j])
    ensures OneToOne(Chosen(taken))
  {
    forall p, q | p in Chosen(taken) && q in Chosen(taken) && p != q ensures !Shares(p, q) {
      var i :| 0 <= i < |taken| && taken[i] == p;
      var j :| 0 <= j < |taken| && taken[j] == q;
      assert !Shares(taken[if i < j then i else j], taken[if i < j then j else i]);
    }
  }

  lemma {:induction false} NoRepeats(pairs: seq<Pair>)
    requires forall i, j | 0 <= i < j < |pairs| :: !Shares(pairs[i], pairs[j])
    ensures |Chosen(pairs)| == |pairs|
    decreases |pairs|
  {
    if pairs != [] {
      var n := |pairs| - 1;
      NoRepeats(pairs[..n]);
      assert pairs == pairs[..n] + [pairs[n]];
      assert Chosen(pairs) == Chosen(pairs[..n]) + {pairs[n]};
      assert pairs[n] !in pairs[..n];
    }
  }

  /** The candidates ranked above `p`. */
  ghost function Above(findings: seq<Finding>, gold: seq<Gold>, t: real, p: Pair): set<Pair> {
    set f, g | 0 <= f < |findings| && 0 <= g < |gold|
               && PairAt(findings, gold, f, g).overlap >= t && Before(PairAt(findings, gold, f, g), p)
      :: PairAt(findings, gold, f, g)
  }

  lemma {:induction false} StableIncluded(findings: seq<Finding>, gold: seq<Gold>, t: real,
                                          m: set<Pair>, n: set<Pair>, p: Pair)
    requires Stable(findings, gold, t, m) && Stable(findings, gold, t, n) && p in m
    ensures p in n
    decreases |Above(findings, gold, t, p)|
  {
    if p !in n {
      var q :| q in n && Shares(q, p) && Before(q, p);
      AboveShrinks(findings, gold, t, p, q);
      StableIncluded(findings, gold, t, n, m, q);
      assert false;
    }
  }

  lemma AboveShrinks(findings: seq<Finding>, gold: seq<Gold>, t: real, p: Pair, q: Pair)
    requires Candidate(findings, gold, t, q) && Before(q, p)
    ensures |Above(findings, gold, t, q)| < |Above(findings, gold, t, p)|
  {
    var a, b := Above(findings, gold, t, q), Above(findings, gold, t, p);
    assert q == PairAt(findings, gold, q.f, q.g) && q in b && q !in a;
    SubsetSize(a, b);
  }

  /** There is only one stable set, so the result does not depend on the order in which candidate
      pairs are generated, nor on how the sort is done. */
  lemma StableIsUnique(findings: seq<Finding>, gold: seq<Gold>, t: real, m: set<Pair>)
    requires Stable(findings, gold, t, m)
    ensures m == Chosen(Matching(findings, gold, t))
  {
    MatchingIsStable(findings, gold, t);
    var best := Chosen(Matching(findings, gold, t));
    forall p
      ensures p in m <==> p in best
    {
      if p in m {
        StableIncluded(findings, gold, t, m, best, p);
      }
      if p in best {
        StableIncluded(findings, gold, t, best, m, p);
      }
    }
  }

  // ----- size ---------------------------------------------------------------------------------------

  ghost function FsOf(m: set<Pair>): set<nat> {
    set p | p in m :: p.f
  }

  ghost function GsOf(m: set<Pair>): set<nat> {
    set p | p in m :: p.g
  }

  lemma {:induction false} ProjectionsInjective(m: set<Pair>)
    requires OneToOne(m)
    ensures |FsOf(m)| == |m| && |GsOf(m)| == |m|
    decreases |m|
  {
    if m != {} {
      var p :| p in m;
      var rest := m - {p};
      ProjectionsInjective(rest);
      assert FsOf(m) == FsOf(rest) + {p.f} && p.f !in FsOf(rest);
      assert GsOf(m) == GsOf(rest) + {p.g} && p.g !in GsOf(rest);
    }
  }

  lemma ProjectionBound(some: set<Pair>, m: set<Pair>, f: bool)
    requires OneToOne(m) && OneToOne(some)
    requires forall p | p in some :: if f then p.f in FsOf(m) else p.g in GsOf(m)
    ensures |some| <= |m|
  {
    ProjectionsInjective(m);
    ProjectionsInjective(some);
    if f {
      SubsetSize(FsOf(some), FsOf(m));
    } else {
      SubsetSize(GsOf(some), GsOf(m));
    }
  }

  lemma HalfOf(m: set<Pair>, n: set<Pair>)
    requires OneToOne(m) && OneToOne(n)
    requires forall p | p in n :: p.f in FsOf(m) || p.g in GsOf(m)
    ensures |n| <= 2 * |m|
  {
    var byF := set p | p in n && p.f in FsOf(m);
    var byG := n - byF;
    ProjectionBound(byF, m, true);
    ProjectionBound(byG, m, false);
    assert n == byF + byG;
  }

  /** No one-to-one set of candidate pairs is more than twice as large as the greedy matching. */
  lemma AtLeastHalfOfMaximum(findings: seq<Finding>, gold: seq<Gold>, t: real, n: set<Pair>)
    requires OneToOne(n) && forall p | p in n :: Candidate(findings, gold, t, p)
    ensures |n| <= 2 * |Matching(findings, gold, t)|
  {
    MatchingIsStable(findings, gold, t);
    var m := Chosen(Matching(findings, gold, t));
    forall p | p in n
      ensures p.f in FsOf(m) || p.g in GsOf(m)
    {
      if p !in m {
        assert Blocked(m, p);
      }
    }
    HalfOf(m, n);
  }

  // ----- told on the fields ---------------------------------------------------------------------------

  lemma OverlapIsShare(finding: set<string>, snippet: set<string>)
    ensures snippet == {} ==> Overlap(finding, snippet) == 0.0
    ensures Overlap(finding, snippet) * |snippet| as real == |snippet * finding| as real
  {
    if snippet == {} {
      assert snippet * finding == {};
    }
  }

  /** A candidate is what it says: the share of the gold snippet's tokens that the finding has, at least t,
      and whether both name the same section. */
  lemma CandidateIsReal(findings: seq<Finding>, gold: seq<Gold>, t: real, p: Pair)
    requires Candidate(findings, gold, t, p)
    ensures p.f < |findings| && p.g < |gold| && p.overlap >= t
    ensures gold[p.g].tokens == {} ==> p.overlap == 0.0
    ensures p.overlap * |gold[p.g].tokens| as real == |gold[p.g].tokens * findings[p.f].tokens| as real
    ensures p.section <==> findings[p.f].section.Some? && findings[p.f].section == gold[p.g].section
  {
    OverlapIsShare(findings[p.f].tokens, gold[p.g].tokens);
  }

  lemma MatchedIsCandidate(findings: seq<Finding>, gold: seq<Gold>, t: real, p: Pair)
    requires p in Matching(findings, gold, t)
    ensures Candidate(findings, gold, t, p)
  {
    MatchingIsStable(findings, gold, t);
    assert p in Chosen(Matching(findings, gold, t));
  }

  /** The pair of this finding and this gold clause is left out. */
  ghost predicate LeftOut(findings: seq<Finding>, gold: seq<Gold>, t: real, f: nat, g: nat) {
    && f < |findings| && g < |gold| && Overlap(findings[f].tokens, gold[g].tokens) >= t
    && forall i | 0 <= i < |Matching(findings, gold, t)| ::
         !(Matching(findings, gold, t)[i].f == f && Matching(findings, gold, t)[i].g == g)
  }

  /** Every pair at the threshold that is left out shares its finding or its gold clause with a matched pair
      of greater overlap; or of equal overlap that has a matching section where it has none; or, alike in
      both, with the smaller finding, or the same finding and the smaller gold clause. */
  lemma LeftOutIsBeaten(findings: seq<Finding>, gold: seq<Gold>, t: real, f: nat, g: nat) returns (i: nat)
    requires LeftOut(findings, gold, t, f, g)
    ensures var m, p := Matching(findings, gold, t), PairAt(findings, gold, f, g);
            && i < |m| && (m[i].f == f || m[i].g == g)
            && (|| m[i].overlap > p.overlap
                || (m[i].overlap == p.overlap && m[i].section && !p.section)
                || (m[i].overlap == p.overlap && m[i].section == p.section
                    && (m[i].f < f || (m[i].f == f && m[i].g < g))))
  {
    var m, p := Matching(findings, gold, t), PairAt(findings, gold, f, g);
    MatchingIsStable(findings, gold, t);
    assert Candidate(findings, gold, t, p) && p !in Chosen(m);
    var q :| q in Chosen(m) && Shares(q, p) && Before(q, p);
    i :| 0 <= i < |m| && m[i] == q;
  }

  /** A pair at the threshold with more overlap than every other that shares its finding or gold clause is
      matched; in particular the best pair of all. */
  lemma BestPairIsMatched(findings: seq<Finding>, gold: seq<Gold>, t: real, f: nat, g: nat)
    requires f < |findings| && g < |gold| && Overlap(findings[f].tokens, gold[g].tokens) >= t
    requires forall f' | 0 <= f' < |findings| && f' != f ::
               Overlap(findings[f'].tokens, gold[g].tokens) < Overlap(findings[f].tokens, gold[g].tokens)
    requires forall g' | 0 <= g' < |gold| && g' != g ::
               Overlap(findings[f].tokens, gold[g'].tokens) < Overlap(findings[f].tokens, gold[g].tokens)
    ensures exists i :: 0 <= i < |Matching(findings, gold, t)|
              && Matching(findings, gold, t)[i].f == f && Matching(findings, gold, t)[i].g == g
  {
    if LeftOut(findings, gold, t, f, g) {
      var i := LeftOutIsBeaten(findings, gold, t, f, g);
      MatchedIsCandidate(findings, gold, t, Matching(findings, gold, t)[i]);
      assert false;
    }
  }

  ghost predicate Ascending(xs: seq<nat>) {
    forall i, j | 0 <= i < j < |xs| :: xs[i] < xs[j]
  }

  lemma {:induction false} LeftoverExact(findings: seq<Finding>, gold: seq<Gold>, t: real, matches: seq<Pair>,
                                         surplus: bool, n: nat)
    requires n <= |findings|
    ensures forall f: nat :: f in Leftover(findings, gold, t, matches, surplus, n)
              <==> f < n && f !in Fs(matches) && IsSurplus(findings, gold, t, matches, f) == surplus
    ensures Ascending(Leftover(findings, gold, t, matches, surplus, n))
    decreases n
  {
    if n > 0 {
      LeftoverExact(findings, gold, t, matches, surplus, n - 1);
      var less := Leftover(findings, gold, t, matches, surplus, n - 1);
      assert forall i | 0 <= i < |less| :: less[i] in less;
    }
  }

  lemma {:induction false} UnusedExact(matches: seq<Pair>, n: nat)
    ensures forall g: nat :: g in UnusedGold(matches, n) <==> g < n && g !in Gs(matches)
    ensures Ascending(UnusedGold(matches, n))
    decreases n
  {
    if n > 0 {
      UnusedExact(matches, n - 1);
      var less := UnusedGold(matches, n - 1);
      assert forall i | 0 <= i < |less| :: less[i] in less;
    }
  }

  /** Finding f overlaps, at the threshold, a risky gold clause that some finding is matched with. */
  ghost predicate OnMatchedRisky(findings: seq<Finding>, gold: seq<Gold>, t: real, matches: seq<Pair>, f: nat)
    requires f < |findings|
  {
    exists i | 0 <= i < |matches| ::
      matches[i].g < |gold| && gold[matches[i].g].shouldFlag
      && Overlap(findings[f].tokens, gold[matches[i].g].tokens) >= t
  }

  /** Where every finding and every gold clause ends: a finding that is in no matched pair is surplus when it
      is on a matched risky clause, and unmatched otherwise; a gold clause in no matched pair is missed; all
      in document order. */
  lemma EveryoneIsPlaced(findings: seq<Finding>, gold: seq<Gold>, t: real)
    ensures var res := Matched(findings, gold, t);
            && (forall f: nat :: f in res.surplusFindings <==>
                  f < |findings| && (forall i | 0 <= i < |res.matches| :: res.matches[i].f != f)
                  && OnMatchedRisky(findings, gold, t, res.matches, f))
            && (forall f: nat :: f in res.unmatchedFindings <==>
                  f < |findings| && (forall i | 0 <= i < |res.matches| :: res.matches[i].f != f)
                  && !OnMatchedRisky(findings, gold, t, res.matches, f))
            && (forall g: nat :: g in res.unmatchedGold <==>
                  g < |gold| && forall i | 0 <= i < |res.matches| :: res.matches[i].g != g)
            && Ascending(res.surplusFindings) && Ascending(res.unmatchedFindings) && Ascending(res.unmatchedGold)
  {
    var m := Matching(findings, gold, t);
    LeftoverExact(findings, gold, t, m, true, |findings|);
    LeftoverExact(findings, gold, t, m, false, |findings|);
    UnusedExact(m, |gold|);
    forall f: nat | f < |findings|
      ensures IsSurplus(findings, gold, t, m, f) <==> OnMatchedRisky(findings, gold, t, m, f)
    {
      SurplusIsOnRisky(findings, gold, t, m, f);
    }
  }

  lemma SurplusIsOnRisky(findings: seq<Finding>, gold: seq<Gold>, t: real, matches: seq<Pair>, f: nat)
    requires f < |findings|
    ensures IsSurplus(findings, gold, t, matches, f) <==> OnMatchedRisky(findings, gold, t, matches, f)
  {
    if OnMatchedRisky(findings, gold, t, matches, f) {
      var i :| 0 <= i < |matches| && matches[i].g < |gold| && gold[matches[i].g].shouldFlag
               && Overlap(findings[f].tokens, gold[matches[i].g].tokens) >= t;
      assert matches[i].g in Gs(matches);
    }
  }
}

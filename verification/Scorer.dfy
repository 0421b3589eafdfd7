/** The evaluation harness's tallies: per document, over the corpus, and per clause type. */
module Scorer {
  import opened Options
  import opened Ranges
  import opened Matcher

  datatype Doc = Doc(ingestError: bool, findings: seq<Finding>, gold: seq<Gold>)

  /** The counters of a tally, global or of one clause type. */
  datatype Counter = TP | FN | FPClean | TN | SevExact | SevWithin | SevN

  /** A table of counters: `tally[TP]` is its `tp`. */
  type Tally = multiset<Counter>

  /** `g.clause_type or "unspecified"` */
  function TypeOf(g: Gold): string {
    if g.clauseType.Some? && g.clauseType.value != "" then g.clauseType.value else "unspecified"
  }

  // ----- specification: everything, or one clause type -------------------------------------------

  predicate Counts(key: Option<string>, g: Gold) {
    key == None || key == Some(TypeOf(g))
  }

  /** One gold clause's detection outcome. */
  function OutcomeOf(g: Gold, flagged: bool): Counter {
    if g.shouldFlag && flagged then TP
    else if g.shouldFlag then FN
    else if flagged then FPClean
    else TN
  }

  function Outcome(g: Gold, flagged: bool): Tally {
    multiset{OutcomeOf(g, flagged)}
  }

  function GoldTally(gold: seq<Gold>, flagged: set<nat>, key: Option<string>, n: nat): Tally
    requires n <= |gold|
  {
    if n == 0 then multiset{}
    else
      (GoldTally(gold, flagged, key, n - 1)
       + (if Counts(key, gold[n - 1]) then Outcome(gold[n - 1], n - 1 in flagged) else multiset{}))
  }

  /** One matched pair's severity outcome. */
  function Severity(f: Finding, g: Gold): Tally {
    if g.shouldFlag && g.expectedRank.Some? && f.riskRank.Some? then
      var d := f.riskRank.value - g.expectedRank.value;
      multiset{SevN} + (if d == 0 then multiset{SevExact} else multiset{})
      + (if -1 <= d <= 1 then multiset{SevWithin} else multiset{})
    else multiset{}
  }

  predicate InRange(findings: seq<Finding>, gold: seq<Gold>, matches: seq<Pair>) {
    forall i | 0 <= i < |matches| :: matches[i].f < |findings| && matches[i].g < |gold|
  }

  function SeverityTally(findings: seq<Finding>, gold: seq<Gold>, matches: seq<Pair>, key: Option<string>,
                        n: nat): Tally
    requires InRange(findings, gold, matches) && n <= |matches|
  {
    if n == 0 then multiset{}
    else
      var p := matches[n - 1];
      (SeverityTally(findings, gold, matches, key, n - 1)
       + (if Counts(key, gold[p.g]) then Severity(findings[p.f], gold[p.g]) else multiset{}))
  }

  lemma MatchesInRange(findings: seq<Finding>, gold: seq<Gold>, t: real)
    ensures InRange(findings, gold, Matching(findings, gold, t))
  {
    MatchingIsStable(findings, gold, t);
    var m := Matching(findings, gold, t);
    forall i | 0 <= i < |m|
      ensures Candidate(findings, gold, t, m[i])
    {
      assert m[i] in Chosen(m);
    }
  }

  function DocTally(doc: Doc, t: real, key: Option<string>): Tally {
    if doc.ingestError then multiset{}
    else
      var m := Matching(doc.findings, doc.gold, t);
      MatchesInRange(doc.findings, doc.gold, t);
      (GoldTally(doc.gold, Gs(m), key, |doc.gold|) + SeverityTally(doc.findings, doc.gold, m, key, |m|))
  }

  function DocUnlabeled(doc: Doc, t: real): nat {
    if doc.ingestError then 0 else |Matched(doc.findings, doc.gold, t).unmatchedFindings|
  }

  function Total(docs: seq<Doc>, t: real, key: Option<string>): Tally {
    if docs == [] then multiset{}
    else (Total(docs[..|docs| - 1], t, key) + DocTally(docs[|docs| - 1], t, key))
  }

  function TotalUnlabeled(docs: seq<Doc>, t: real): nat {
    if docs == [] then 0
    else TotalUnlabeled(docs[..|docs| - 1], t) + DocUnlabeled(docs[|docs| - 1], t)
  }

  // ----- the code -------------------------------------------------------------------------------

  /** `_doc_detection`: the five per-document tallies the bootstrap resamples. */
  method DocDetection(doc: Doc, t: real) returns (tp: nat, fn: nat, fpClean: nat, tn: nat, unlabeled: nat)
    requires !doc.ingestError
    ensures var d := DocTally(doc, t, None); tp == d[TP] && fn == d[FN] && fpClean == d[FPClean] && tn == d[TN]
    ensures var m := Gs(Matching(doc.findings, doc.gold, t));
            && tp == |GoldWith(doc.gold, m, None, true, true, |doc.gold|)|
            && fn == |GoldWith(doc.gold, m, None, true, false, |doc.gold|)|
            && fpClean == |GoldWith(doc.gold, m, None, false, true, |doc.gold|)|
            && tn == |GoldWith(doc.gold, m, None, false, false, |doc.gold|)|
    ensures unlabeled == DocUnlabeled(doc, t)
  {
    var res := Match(doc.findings, doc.gold, t);
    GoldTallyIsCount(doc.gold, Gs(res.matches), None, |doc.gold|);
    tp, fn, fpClean, tn := CountOutcomes(doc.gold, Gs(res.matches));
    unlabeled := |res.unmatchedFindings|;
    MatchesInRange(doc.findings, doc.gold, t);
    SeverityOnly(doc.findings, doc.gold, res.matches, None, |res.matches|);
  }

  /** How many of the first n gold clauses have outcome c. */
  function HowMany(gold: seq<Gold>, flagged: set<nat>, c: Counter, n: nat): nat
    requires n <= |gold|
  {
    if n == 0 then 0
    else HowMany(gold, flagged, c, n - 1) + if OutcomeOf(gold[n - 1], n - 1 in flagged) == c then 1 else 0
  }

  lemma OneMoreOutcome(d: Tally, o: Counter, c: Counter)
    ensures (d + multiset{o})[c] == d[c] + if o == c then 1 else 0
  {
  }

  lemma {:induction false} GoldTallyCounts(gold: seq<Gold>, flagged: set<nat>, c: Counter, n: nat)
    requires n <= |gold|
    ensures GoldTally(gold, flagged, None, n)[c] == HowMany(gold, flagged, c, n)
    decreases n
  {
    if n > 0 {
      GoldTallyCounts(gold, flagged, c, n - 1);
      OneMoreOutcome(GoldTally(gold, flagged, None, n - 1), OutcomeOf(gold[n - 1], n - 1 in flagged), c);
    }
  }

  /** The loop over the gold clauses of one document. */
  method CountOutcomes(gold: seq<Gold>, matchedGold: set<nat>) returns (tp: nat, fn: nat, fpClean: nat, tn: nat)
    ensures var d := GoldTally(gold, matchedGold, None, |gold|);
            tp == d[TP] && fn == d[FN] && fpClean == d[FPClean] && tn == d[TN]
  {
    tp, fn, fpClean, tn := 0, 0, 0, 0;
    for i := 0 to |gold|
      invariant tp == HowMany(gold, matchedGold, TP, i) && fn == HowMany(gold, matchedGold, FN, i)
      invariant fpClean == HowMany(gold, matchedGold, FPClean, i) && tn == HowMany(gold, matchedGold, TN, i)
    {
      var g, flagged := gold[i], i in matchedGold;
      if g.shouldFlag && flagged {
        tp := tp + 1;
      } else if g.shouldFlag && !flagged {
        fn := fn + 1;
      } else if !g.shouldFlag && flagged {
        fpClean := fpClean + 1;
      } else {
        tn := tn + 1;
      }
    }
    GoldTallyCounts(gold, matchedGold, TP, |gold|);
    GoldTallyCounts(gold, matchedGold, FN, |gold|);
    GoldTallyCounts(gold, matchedGold, FPClean, |gold|);
    GoldTallyCounts(gold, matchedGold, TN, |gold|);
  }

  ghost predicate OnlySeverity(s: Tally) {
    s[TP] == s[FN] == s[FPClean] == s[TN] == 0 && s[SevExact] <= s[SevWithin] <= s[SevN]
  }

  lemma OnlySeverityAdds(a: Tally, f: Finding, g: Gold)
    requires OnlySeverity(a)
    ensures OnlySeverity((a + Severity(f, g))) && OnlySeverity((a + multiset{}))
  {
  }

  lemma {:induction false} SeverityOnly(findings: seq<Finding>, gold: seq<Gold>, matches: seq<Pair>,
                        key: Option<string>, n: nat)
    requires InRange(findings, gold, matches) && n <= |matches|
    ensures OnlySeverity(SeverityTally(findings, gold, matches, key, n))
    decreases n
  {
    if n > 0 {
      SeverityOnly(findings, gold, matches, key, n - 1);
      var p := matches[n - 1];
      OnlySeverityAdds(SeverityTally(findings, gold, matches, key, n - 1), findings[p.f], gold[p.g]);
    }
  }

  type ByType = map<string, Tally>

  function Lookup(byType: ByType, key: string): Tally {
    if key in byType then byType[key] else multiset{}
  }

  /** `by_type.setdefault(key, blank)` followed by adding `d` to it. */
  function Bump(byType: ByType, key: string, d: Tally): ByType {
    byType[key := (Lookup(byType, key) + d)]
  }

  /** The global tally and the per-type table, which the code always updates together. */
  datatype Board = Board(total: Tally, byType: ByType)

  function Post(b: Board, g: Gold, d: Tally): Board {
    Board(b.total + d, Bump(b.byType, TypeOf(g), d))
  }

  /** The board after the first `n` gold clauses of a document. */
  function GoldBoard(b: Board, gold: seq<Gold>, flagged: set<nat>, n: nat): Board
    requires n <= |gold|
  {
    if n == 0 then b
    else Post(GoldBoard(b, gold, flagged, n - 1), gold[n - 1], Outcome(gold[n - 1], n - 1 in flagged))
  }

  predicate Graded(f: Finding, g: Gold) {
    g.shouldFlag && g.expectedRank.Some? && f.riskRank.Some?
  }

  /** The board after the first `n` matched pairs of a document. */
  function SeverityBoard(b: Board, findings: seq<Finding>, gold: seq<Gold>, matches: seq<Pair>, n: nat): Board
    requires InRange(findings, gold, matches) && n <= |matches|
  {
    if n == 0 then b
    else
      var before := SeverityBoard(b, findings, gold, matches, n - 1);
      var f, g := findings[matches[n - 1].f], gold[matches[n - 1].g];
      if Graded(f, g) then Post(before, g, Severity(f, g)) else before
  }

  function DocBoard(b: Board, doc: Doc, t: real): Board {
    var m := Matching(doc.findings, doc.gold, t);
    MatchesInRange(doc.findings, doc.gold, t);
    SeverityBoard(GoldBoard(b, doc.gold, Gs(m), |doc.gold|), doc.findings, doc.gold, m, |m|)
  }

  function ScoreBoard(docs: seq<Doc>, t: real): Board {
    if docs == [] then Board(multiset{}, map[])
    else
      var before, doc := ScoreBoard(docs[..|docs| - 1], t), docs[|docs| - 1];
      if doc.ingestError then before else DocBoard(before, doc, t)
  }

  function Errors(docs: seq<Doc>): nat {
    if docs == [] then 0
    else Errors(docs[..|docs| - 1]) + if docs[|docs| - 1].ingestError then 1 else 0
  }

  lemma {:induction false} ErrorsAreCounted(docs: seq<Doc>)
    ensures Errors(docs) == |set d | 0 <= d < |docs| && docs[d].ingestError|
  {
    var all := set d | 0 <= d < |docs| && docs[d].ingestError;
    if docs != [] {
      var n := |docs| - 1;
      ErrorsAreCounted(docs[..n]);
      var less := set d | 0 <= d < |docs[..n]| && docs[..n][d].ingestError;
      if docs[n].ingestError {
        assert all == less + {n};
      } else {
        assert all == less;
      }
    } else {
      assert all == {};
    }
  }

  /** The gold loop of one document. */
  method TallyGold(b: Board, gold: seq<Gold>, flagged: set<nat>) returns (total: Tally, byType: ByType)
    ensures Board(total, byType) == GoldBoard(b, gold, flagged, |gold|)
  {
    total, byType := b.total, b.byType;
    for i := 0 to |gold|
      invariant Board(total, byType) == GoldBoard(b, gold, flagged, i)
    {
      var outcome := Outcome(gold[i], i in flagged);
      total := total + outcome;
      byType := Bump(byType, TypeOf(gold[i]), outcome);
    }
  }

  /** The severity loop over one document's matched pairs. */
  method TallySeverity(b: Board, findings: seq<Finding>, gold: seq<Gold>, matches: seq<Pair>)
    returns (total: Tally, byType: ByType)
    requires InRange(findings, gold, matches)
    ensures Board(total, byType) == SeverityBoard(b, findings, gold, matches, |matches|)
  {
    total, byType := b.total, b.byType;
    for i := 0 to |matches|
      invariant Board(total, byType) == SeverityBoard(b, findings, gold, matches, i)
    {
      var f, g := findings[matches[i].f], gold[matches[i].g];
      if Graded(f, g) {
        var outcome := Severity(f, g);
        total := total + outcome;
        byType := Bump(byType, TypeOf(g), outcome);
      }
    }
  }

  /** The detection and severity part of `score`. */
  method Score(docs: seq<Doc>, t: real) returns (total: Tally, unlabeled: nat, errors: nat, byType: ByType)
    ensures Board(total, byType) == ScoreBoard(docs, t)
    ensures unlabeled == TotalUnlabeled(docs, t)
    ensures errors == |set d | 0 <= d < |docs| && docs[d].ingestError|
    ensures IsCountOf(total, docs, t, None) && forall key | key in byType :: IsCountOf(byType[key], docs, t, Some(key))
  {
    total, unlabeled, errors, byType := multiset{}, 0, 0, map[];
    for d := 0 to |docs|
      invariant Board(total, byType) == ScoreBoard(docs[..d], t)
      invariant unlabeled == TotalUnlabeled(docs[..d], t)
      invariant errors == Errors(docs[..d])
    {
      assert docs[..d + 1][..d] == docs[..d];
      var doc := docs[d];
      if doc.ingestError {
        errors := errors + 1;
        continue;
      }
      var res := Match(doc.findings, doc.gold, t);
      MatchesInRange(doc.findings, doc.gold, t);
      total, byType := TallyGold(Board(total, byType), doc.gold, Gs(res.matches));
      unlabeled := unlabeled + |res.unmatchedFindings|;
      total, byType := TallySeverity(Board(total, byType), doc.findings, doc.gold, res.matches);
    }
    assert docs[..|docs|] == docs;
    ErrorsAreCounted(docs);
    BoardCounts(docs, t, None);
    forall key | key in byType ensures IsCountOf(byType[key], docs, t, Some(key)) {
      BoardCounts(docs, t, Some(key));
    }
  }

  // ----- the board holds the tallies ---------------------------------------------------------------

  /** The global tally, or one clause type's row. */
  function Read(b: Board, key: Option<string>): Tally {
    match key
    case None => b.total
    case Some(k) => Lookup(b.byType, k)
  }

  /** A clause type that occurs in a scored document's gold labels. */
  ghost predicate HasType(gold: seq<Gold>, key: string, n: nat)
    requires n <= |gold|
  {
    exists i | 0 <= i < n :: TypeOf(gold[i]) == key
  }

  ghost predicate OccursIn(doc: Doc, key: string) {
    !doc.ingestError && HasType(doc.gold, key, |doc.gold|)
  }

  ghost predicate Occurs(docs: seq<Doc>, key: string) {
    exists d | 0 <= d < |docs| :: OccursIn(docs[d], key)
  }

  lemma PlusLaws(a: Tally, b: Tally, c: Tally)
    ensures (a + b) + c == a + (b + c)
    ensures a + multiset{} == a
  {
  }

  lemma PostAt(b: Board, g: Gold, d: Tally, key: Option<string>)
    ensures Read(Post(b, g, d), key) == Read(b, key) + if Counts(key, g) then d else multiset{}
  {
    PlusLaws(Read(b, key), multiset{}, multiset{});
  }

  lemma {:induction false} GoldBoardAt(b: Board, gold: seq<Gold>, flagged: set<nat>, n: nat, key: Option<string>)
    requires n <= |gold|
    ensures Read(GoldBoard(b, gold, flagged, n), key) == Read(b, key) + GoldTally(gold, flagged, key, n)
    decreases n
  {
    PlusLaws(Read(b, key), multiset{}, multiset{});
    if n > 0 {
      var g, d := gold[n - 1], Outcome(gold[n - 1], n - 1 in flagged);
      GoldBoardAt(b, gold, flagged, n - 1, key);
      PostAt(GoldBoard(b, gold, flagged, n - 1), g, d, key);
      PlusLaws(Read(b, key), GoldTally(gold, flagged, key, n - 1), if Counts(key, g) then d else multiset{});
    }
  }

  /** What pair n - 1 adds to the tally of `key`. */
  function SeverityPart(findings: seq<Finding>, gold: seq<Gold>, matches: seq<Pair>, key: Option<string>, n: nat): Tally
    requires InRange(findings, gold, matches) && 0 < n <= |matches|
  {
    var p := matches[n - 1];
    if Counts(key, gold[p.g]) then Severity(findings[p.f], gold[p.g]) else multiset{}
  }

  lemma SeverityBoardStep(b: Board, findings: seq<Finding>, gold: seq<Gold>, matches: seq<Pair>, n: nat,
                        key: Option<string>)
    requires InRange(findings, gold, matches) && 0 < n <= |matches|
    ensures Read(SeverityBoard(b, findings, gold, matches, n), key)
         == Read(SeverityBoard(b, findings, gold, matches, n - 1), key) + SeverityPart(findings, gold, matches, key, n)
  {
    var f, g := findings[matches[n - 1].f], gold[matches[n - 1].g];
    var before := SeverityBoard(b, findings, gold, matches, n - 1);
    PostAt(before, g, Severity(f, g), key);
    PlusLaws(Read(before, key), multiset{}, multiset{});
  }

  lemma {:induction false} SeverityBoardAt(b: Board, findings: seq<Finding>, gold: seq<Gold>,
                        matches: seq<Pair>, n: nat, key: Option<string>)
    requires InRange(findings, gold, matches) && n <= |matches|
    ensures Read(SeverityBoard(b, findings, gold, matches, n), key)
         == Read(b, key) + SeverityTally(findings, gold, matches, key, n)
    decreases n
  {
    if n == 0 {
      PlusLaws(Read(b, key), multiset{}, multiset{});
    } else {
      SeverityBoardAt(b, findings, gold, matches, n - 1, key);
      SeverityBoardStep(b, findings, gold, matches, n, key);
      PlusLaws(Read(b, key), SeverityTally(findings, gold, matches, key, n - 1),
               SeverityPart(findings, gold, matches, key, n));
    }
  }

  /** Whatever is read off the board `score` fills, it is that tally over the whole corpus: the
      global one is the sum of the per-document tallies, and every row of the per-type table is the
      same sum restricted to its clause type. */
  lemma {:induction false} BoardHoldsTallies(docs: seq<Doc>, t: real, key: Option<string>)
    ensures Read(ScoreBoard(docs, t), key) == Total(docs, t, key)
    decreases |docs|
  {
    if docs != [] {
      var n := |docs| - 1;
      var before, doc := ScoreBoard(docs[..n], t), docs[n];
      BoardHoldsTallies(docs[..n], t, key);
      PlusLaws(Total(docs[..n], t, key), multiset{}, multiset{});
      if !doc.ingestError {
        DocBoardAt(before, doc, t, key);
      }
    }
  }

  lemma DocBoardAt(b: Board, doc: Doc, t: real, key: Option<string>)
    requires !doc.ingestError
    ensures Read(DocBoard(b, doc, t), key) == Read(b, key) + DocTally(doc, t, key)
  {
    var m := Matching(doc.findings, doc.gold, t);
    MatchesInRange(doc.findings, doc.gold, t);
    GoldBoardAt(b, doc.gold, Gs(m), |doc.gold|, key);
    SeverityBoardAt(GoldBoard(b, doc.gold, Gs(m), |doc.gold|), doc.findings, doc.gold, m, |m|, key);
    PlusLaws(Read(b, key), GoldTally(doc.gold, Gs(m), key, |doc.gold|),
             SeverityTally(doc.findings, doc.gold, m, key, |m|));
  }

  // ----- and the tallies are counts -----------------------------------------------------------------

  /** The clause is counted under this label: its own, or "unspecified" when it has none. */
  predicate Labelled(g: Gold, name: string) {
    if name == "unspecified" then g.clauseType == None || g.clauseType == Some("") || g.clauseType == Some(name)
    else name != "" && g.clauseType == Some(name)
  }

  lemma LabelledIff(g: Gold, key: Option<string>)
    ensures Counts(key, g) <==> key == None || Labelled(g, key.value)
  {
  }

  /** The first n gold clauses, of one type or of any, that are risky or not and matched or not. */
  ghost function GoldWith(gold: seq<Gold>, matched: set<nat>, key: Option<string>, risky: bool, hit: bool, n: nat)
    : set<int>
    requires n <= |gold|
  {
    set i | 0 <= i < n && gold[i].shouldFlag == risky && (i in matched) == hit
            && (key == None || Labelled(gold[i], key.value))
  }

  lemma GoldWithStep(gold: seq<Gold>, matched: set<nat>, key: Option<string>, risky: bool, hit: bool, n: nat)
    requires 0 < n <= |gold|
    ensures |GoldWith(gold, matched, key, risky, hit, n)|
         == |GoldWith(gold, matched, key, risky, hit, n - 1)|
          + if gold[n - 1].shouldFlag == risky && (n - 1 in matched) == hit
               && (key == None || Labelled(gold[n - 1], key.value)) then 1 else 0
  {
    OneMoreIndex(GoldWith(gold, matched, key, risky, hit, n - 1), GoldWith(gold, matched, key, risky, hit, n), n - 1);
  }

  lemma OneMoreIndex(less: set<int>, more: set<int>, n: int)
    requires n !in less && forall i :: i in more && i != n <==> i in less
    ensures |more| == |less| + if n in more then 1 else 0
  {
    if n in more {
      assert forall i :: i in more <==> i in less + {n};
      assert more == less + {n};
    } else {
      assert forall i :: i in more <==> i in less;
      assert more == less;
    }
  }

  lemma NothingMore(d: Tally, c: Counter)
    ensures (d + multiset{})[c] == d[c]
  {
  }

  lemma GoldTallyAt(gold: seq<Gold>, flagged: set<nat>, key: Option<string>, n: nat, c: Counter)
    requires 0 < n <= |gold|
    ensures GoldTally(gold, flagged, key, n)[c]
         == GoldTally(gold, flagged, key, n - 1)[c]
          + if (key == None || Labelled(gold[n - 1], key.value))
               && OutcomeOf(gold[n - 1], n - 1 in flagged) == c then 1 else 0
  {
    LabelledIff(gold[n - 1], key);
    OneMoreOutcome(GoldTally(gold, flagged, key, n - 1), OutcomeOf(gold[n - 1], n - 1 in flagged), c);
    NothingMore(GoldTally(gold, flagged, key, n - 1), c);
  }

  /** The counter for gold clauses that are risky or not and matched or not. */
  function CounterOf(risky: bool, hit: bool): Counter {
    if risky then if hit then TP else FN else if hit then FPClean else TN
  }

  /** The same number, counted up clause by clause. */
  ghost function GoldUpTo(gold: seq<Gold>, matched: set<nat>, key: Option<string>, risky: bool, hit: bool, n: nat): nat
    requires n <= |gold|
  {
    if n == 0 then 0
    else GoldUpTo(gold, matched, key, risky, hit, n - 1)
         + if gold[n - 1].shouldFlag == risky && (n - 1 in matched) == hit
              && (key == None || Labelled(gold[n - 1], key.value)) then 1 else 0
  }

  lemma {:induction false} GoldWithIsUpTo(gold: seq<Gold>, matched: set<nat>, key: Option<string>, risky: bool,
                                          hit: bool, n: nat)
    requires n <= |gold|
    ensures |GoldWith(gold, matched, key, risky, hit, n)| == GoldUpTo(gold, matched, key, risky, hit, n)
    decreases n
  {
    if n == 0 {
      assert GoldWith(gold, matched, key, risky, hit, 0) == {};
    } else {
      GoldWithIsUpTo(gold, matched, key, risky, hit, n - 1);
      GoldWithStep(gold, matched, key, risky, hit, n);
    }
  }

  lemma {:induction false} GoldTallyCount(gold: seq<Gold>, flagged: set<nat>, key: Option<string>, n: nat,
                                          risky: bool, hit: bool)
    requires n <= |gold|
    ensures GoldTally(gold, flagged, key, n)[CounterOf(risky, hit)] == GoldUpTo(gold, flagged, key, risky, hit, n)
    decreases n
  {
    if n > 0 {
      GoldTallyCount(gold, flagged, key, n - 1, risky, hit);
      GoldTallyAt(gold, flagged, key, n, CounterOf(risky, hit));
    }
  }

  lemma GoldTallyIsCount(gold: seq<Gold>, flagged: set<nat>, key: Option<string>, n: nat)
    requires n <= |gold|
    ensures var d := GoldTally(gold, flagged, key, n);
            && d[TP] == |GoldWith(gold, flagged, key, true, true, n)|
            && d[FN] == |GoldWith(gold, flagged, key, true, false, n)|
            && d[FPClean] == |GoldWith(gold, flagged, key, false, true, n)|
            && d[TN] == |GoldWith(gold, flagged, key, false, false, n)|
  {
    forall risky, hit
      ensures GoldTally(gold, flagged, key, n)[CounterOf(risky, hit)] == |GoldWith(gold, flagged, key, risky, hit, n)|
    {
      GoldTallyCount(gold, flagged, key, n, risky, hit);
      GoldWithIsUpTo(gold, flagged, key, risky, hit, n);
    }
    assert CounterOf(true, true) == TP && CounterOf(true, false) == FN;
    assert CounterOf(false, true) == FPClean && CounterOf(false, false) == TN;
  }

  /** How many of the first n matched pairs are on risky clauses, of one type or of any, with both severities
      known, and not further apart than `gap` if that is given. */
  ghost function GradedPairs(findings: seq<Finding>, gold: seq<Gold>, matches: seq<Pair>, key: Option<string>,
                             gap: Option<int>, n: nat): nat
    requires InRange(findings, gold, matches) && n <= |matches|
  {
    if n == 0 then 0
    else GradedPairs(findings, gold, matches, key, gap, n - 1)
         + if IsGraded(findings[matches[n - 1].f], gold[matches[n - 1].g], key, gap) then 1 else 0
  }

  ghost predicate IsGraded(f: Finding, g: Gold, key: Option<string>, gap: Option<int>) {
    && g.shouldFlag && f.riskRank.Some? && g.expectedRank.Some? && (key == None || Labelled(g, key.value))
    && (gap.Some? ==> f.riskRank.value - g.expectedRank.value <= gap.value
                      && g.expectedRank.value - f.riskRank.value <= gap.value)
  }

  predicate OfSeverity(c: Counter) {
    c == SevN || c == SevExact || c == SevWithin
  }

  /** How far apart the severities may be that a counter counts, None for any distance. */
  function GapOf(c: Counter): Option<int> {
    if c == SevExact then Some(0) else if c == SevWithin then Some(1) else None
  }

  lemma SeverityAdds(d: Tally, f: Finding, g: Gold, key: Option<string>, c: Counter)
    requires OfSeverity(c)
    ensures (d + if Counts(key, g) then Severity(f, g) else multiset{})[c]
         == d[c] + if IsGraded(f, g, key, GapOf(c)) then 1 else 0
  {
    LabelledIff(g, key);
  }

  ghost predicate CountsGraded(findings: seq<Finding>, gold: seq<Gold>, matches: seq<Pair>, key: Option<string>,
                               n: nat, c: Counter)
    requires InRange(findings, gold, matches) && n <= |matches|
  {
    SeverityTally(findings, gold, matches, key, n)[c] == GradedPairs(findings, gold, matches, key, GapOf(c), n)
  }

  lemma SeverityTallyStep(findings: seq<Finding>, gold: seq<Gold>, matches: seq<Pair>, key: Option<string>, n: nat,
                          c: Counter)
    requires InRange(findings, gold, matches) && 0 < n <= |matches| && OfSeverity(c)
    requires CountsGraded(findings, gold, matches, key, n - 1, c)
    ensures CountsGraded(findings, gold, matches, key, n, c)
  {
    SeverityAdds(SeverityTally(findings, gold, matches, key, n - 1), findings[matches[n - 1].f],
                 gold[matches[n - 1].g], key, c);
  }

  lemma SeverityTallyStart(findings: seq<Finding>, gold: seq<Gold>, matches: seq<Pair>, key: Option<string>, c: Counter)
    requires InRange(findings, gold, matches)
    ensures CountsGraded(findings, gold, matches, key, 0, c)
  {
    assert SeverityTally(findings, gold, matches, key, 0) == multiset{};
  }

  lemma SeverityTallyIsCount(findings: seq<Finding>, gold: seq<Gold>, matches: seq<Pair>, key: Option<string>, n: nat,
                             c: Counter)
    requires InRange(findings, gold, matches) && n <= |matches| && OfSeverity(c)
    ensures CountsGraded(findings, gold, matches, key, n, c)
  {
    SeverityTallyStart(findings, gold, matches, key, c);
    for i := 0 to n
      invariant CountsGraded(findings, gold, matches, key, i, c)
    {
      SeverityTallyStep(findings, gold, matches, key, i + 1, c);
    }
  }

  /** What a counter counts in a document, among all clause types or one. */
  ghost function DocCount(doc: Doc, t: real, key: Option<string>, c: Counter): nat {
    var m := Matching(doc.findings, doc.gold, t);
    MatchesInRange(doc.findings, doc.gold, t);
    match c
    case TP => |GoldWith(doc.gold, Gs(m), key, true, true, |doc.gold|)|
    case FN => |GoldWith(doc.gold, Gs(m), key, true, false, |doc.gold|)|
    case FPClean => |GoldWith(doc.gold, Gs(m), key, false, true, |doc.gold|)|
    case TN => |GoldWith(doc.gold, Gs(m), key, false, false, |doc.gold|)|
    case SevN => GradedPairs(doc.findings, doc.gold, m, key, None, |m|)
    case SevExact => GradedPairs(doc.findings, doc.gold, m, key, Some(0), |m|)
    case SevWithin => GradedPairs(doc.findings, doc.gold, m, key, Some(1), |m|)
  }

  /** And over the documents that were ingested. */
  ghost function CorpusCount(docs: seq<Doc>, t: real, key: Option<string>, c: Counter): nat {
    if docs == [] then 0
    else CorpusCount(docs[..|docs| - 1], t, key, c)
         + if docs[|docs| - 1].ingestError then 0 else DocCount(docs[|docs| - 1], t, key, c)
  }

  /** A tally, global or of one clause type, counts what its counters are named after. */
  ghost predicate IsCountOf(d: Tally, docs: seq<Doc>, t: real, key: Option<string>) {
    forall c: Counter :: d[c] == CorpusCount(docs, t, key, c)
  }

  lemma {:induction false} NoSeverityInGold(gold: seq<Gold>, flagged: set<nat>, key: Option<string>, n: nat, c: Counter)
    requires n <= |gold| && OfSeverity(c)
    ensures GoldTally(gold, flagged, key, n)[c] == 0
    decreases n
  {
    if n > 0 {
      NoSeverityInGold(gold, flagged, key, n - 1, c);
      GoldTallyAt(gold, flagged, key, n, c);
    }
  }

  lemma SumAt(a: Tally, b: Tally, c: Counter)
    ensures (a + b)[c] == a[c] + b[c]
  {
  }

  lemma DocTallySplits(doc: Doc, t: real, key: Option<string>, m: seq<Pair>, c: Counter)
    requires !doc.ingestError && m == Matching(doc.findings, doc.gold, t) && InRange(doc.findings, doc.gold, m)
    ensures DocTally(doc, t, key)[c]
         == GoldTally(doc.gold, Gs(m), key, |doc.gold|)[c] + SeverityTally(doc.findings, doc.gold, m, key, |m|)[c]
  {
    SumAt(GoldTally(doc.gold, Gs(m), key, |doc.gold|), SeverityTally(doc.findings, doc.gold, m, key, |m|), c);
  }

  lemma DocGoldAt(doc: Doc, t: real, key: Option<string>, c: Counter)
    requires !doc.ingestError && !OfSeverity(c)
    ensures DocTally(doc, t, key)[c] == DocCount(doc, t, key, c)
  {
    var m := Matching(doc.findings, doc.gold, t);
    MatchesInRange(doc.findings, doc.gold, t);
    DocTallySplits(doc, t, key, m, c);
    NoGoldInSeverity(doc.findings, doc.gold, m, key, c);
    GoldTallyIsCount(doc.gold, Gs(m), key, |doc.gold|);
  }

  lemma NoGoldInSeverity(findings: seq<Finding>, gold: seq<Gold>, matches: seq<Pair>, key: Option<string>, c: Counter)
    requires InRange(findings, gold, matches) && !OfSeverity(c)
    ensures SeverityTally(findings, gold, matches, key, |matches|)[c] == 0
  {
    SeverityOnly(findings, gold, matches, key, |matches|);
  }

  lemma DocSeverityAt(doc: Doc, t: real, key: Option<string>, c: Counter)
    requires !doc.ingestError && OfSeverity(c)
    ensures DocTally(doc, t, key)[c] == DocCount(doc, t, key, c)
  {
    var m := Matching(doc.findings, doc.gold, t);
    MatchesInRange(doc.findings, doc.gold, t);
    DocTallySplits(doc, t, key, m, c);
    SeverityTallyIsCount(doc.findings, doc.gold, m, key, |m|, c);
    NoSeverityInGold(doc.gold, Gs(m), key, |doc.gold|, c);
  }

  lemma DocTallyAt(doc: Doc, t: real, key: Option<string>, c: Counter)
    requires !doc.ingestError
    ensures DocTally(doc, t, key)[c] == DocCount(doc, t, key, c)
  {
    if OfSeverity(c) {
      DocSeverityAt(doc, t, key, c);
    } else {
      DocGoldAt(doc, t, key, c);
    }
  }

  lemma {:induction false} TotalIsCount(docs: seq<Doc>, t: real, key: Option<string>, c: Counter)
    ensures Total(docs, t, key)[c] == CorpusCount(docs, t, key, c)
    decreases |docs|
  {
    if docs != [] {
      var less, doc := docs[..|docs| - 1], docs[|docs| - 1];
      TotalIsCount(less, t, key, c);
      SumAt(Total(less, t, key), DocTally(doc, t, key), c);
      if !doc.ingestError {
        DocTallyAt(doc, t, key, c);
      }
    }
  }

  /** Whatever is read off the board `score` fills is a count: of the gold clauses of that type, or of any,
      that are risky or not and matched or not, and of the graded pairs that agree or nearly do. */
  lemma BoardCounts(docs: seq<Doc>, t: real, key: Option<string>)
    ensures IsCountOf(Read(ScoreBoard(docs, t), key), docs, t, key)
  {
    BoardHoldsTallies(docs, t, key);
    forall c: Counter ensures Total(docs, t, key)[c] == CorpusCount(docs, t, key, c) {
      TotalIsCount(docs, t, key, c);
    }
  }

  lemma HasTypeStep(gold: seq<Gold>, key: string, n: nat)
    requires 0 < n <= |gold|
    ensures HasType(gold, key, n) <==> HasType(gold, key, n - 1) || TypeOf(gold[n - 1]) == key
  {
    if HasType(gold, key, n - 1) {
      var i :| 0 <= i < n - 1 && TypeOf(gold[i]) == key;
      assert i < n;
    }
  }

  lemma PostKeys(b: Board, g: Gold, d: Tally, key: string)
    ensures key in Post(b, g, d).byType <==> key in b.byType || key == TypeOf(g)
  {
  }

  lemma {:induction false} GoldBoardKeys(b: Board, gold: seq<Gold>, flagged: set<nat>, n: nat, key: string)
    requires n <= |gold|
    ensures key in GoldBoard(b, gold, flagged, n).byType <==> key in b.byType || HasType(gold, key, n)
    decreases n
  {
    if n > 0 {
      GoldBoardKeys(b, gold, flagged, n - 1, key);
      PostKeys(GoldBoard(b, gold, flagged, n - 1), gold[n - 1], Outcome(gold[n - 1], n - 1 in flagged), key);
      HasTypeStep(gold, key, n);
    }
  }

  lemma {:induction false} SeverityBoardKeys(b: Board, findings: seq<Finding>, gold: seq<Gold>,
                        matches: seq<Pair>, n: nat)
    requires InRange(findings, gold, matches) && n <= |matches|
    requires forall i | 0 <= i < |gold| :: TypeOf(gold[i]) in b.byType
    ensures SeverityBoard(b, findings, gold, matches, n).byType.Keys == b.byType.Keys
    decreases n
  {
    if n > 0 {
      SeverityBoardKeys(b, findings, gold, matches, n - 1);
    }
  }

  /** The per-type table has a row for exactly the clause types that occur. */
  lemma {:induction false} BoardKeys(docs: seq<Doc>, t: real, key: string)
    ensures key in ScoreBoard(docs, t).byType <==> Occurs(docs, key)
    decreases |docs|
  {
    if docs != [] {
      var before, doc := ScoreBoard(docs[..|docs| - 1], t), docs[|docs| - 1];
      BoardKeys(docs[..|docs| - 1], t, key);
      OccursStep(docs, key);
      if !doc.ingestError {
        DocBoardKeys(before, doc, t, key);
      }
    }
  }

  lemma DocBoardKeys(b: Board, doc: Doc, t: real, key: string)
    requires !doc.ingestError
    ensures key in DocBoard(b, doc, t).byType <==> key in b.byType || OccursIn(doc, key)
  {
    var m := Matching(doc.findings, doc.gold, t);
    MatchesInRange(doc.findings, doc.gold, t);
    var golds := GoldBoard(b, doc.gold, Gs(m), |doc.gold|);
    GoldBoardKeys(b, doc.gold, Gs(m), |doc.gold|, key);
    forall i | 0 <= i < |doc.gold|
      ensures TypeOf(doc.gold[i]) in golds.byType
    {
      GoldBoardKeys(b, doc.gold, Gs(m), |doc.gold|, TypeOf(doc.gold[i]));
    }
    SeverityBoardKeys(golds, doc.findings, doc.gold, m, |m|);
  }

  // ----- conservation ---------------------------------------------------------------------------

  /** The indices below `n` that are in `used`. */
  ghost function Hits(used: set<nat>, n: nat): set<nat> {
    set i | 0 <= i < n && i in used
  }

  lemma HitsStep(used: set<nat>, n: nat)
    ensures |Hits(used, n + 1)| == |Hits(used, n)| + if n in used then 1 else 0
  {
    if n in used {
      assert Hits(used, n + 1) == Hits(used, n) + {n};
    } else {
      assert Hits(used, n + 1) == Hits(used, n);
    }
  }

  function Judged(d: Tally): int {
    d[TP] + d[FN] + d[FPClean] + d[TN]
  }

  function Flagged(d: Tally): int {
    d[TP] + d[FPClean]
  }

  lemma {:induction false} OutcomesSum(gold: seq<Gold>, flagged: set<nat>, n: nat)
    requires n <= |gold|
    ensures HowMany(gold, flagged, TP, n) + HowMany(gold, flagged, FN, n)
          + HowMany(gold, flagged, FPClean, n) + HowMany(gold, flagged, TN, n) == n
    ensures HowMany(gold, flagged, TP, n) + HowMany(gold, flagged, FPClean, n) == |Hits(flagged, n)|
    decreases n
  {
    if n > 0 {
      OutcomesSum(gold, flagged, n - 1);
      HitsStep(flagged, n - 1);
    }
  }

  /** Gold clauses are counted once each, and the matched ones are those flagged. */
  lemma GoldConserved(gold: seq<Gold>, flagged: set<nat>, n: nat)
    requires n <= |gold|
    ensures var d := GoldTally(gold, flagged, None, n); Judged(d) == n && Flagged(d) == |Hits(flagged, n)|
  {
    OutcomesSum(gold, flagged, n);
    GoldTallyCounts(gold, flagged, TP, n);
    GoldTallyCounts(gold, flagged, FN, n);
    GoldTallyCounts(gold, flagged, FPClean, n);
    GoldTallyCounts(gold, flagged, TN, n);
  }

  lemma {:induction false} LeftoverConserved(findings: seq<Finding>, gold: seq<Gold>, t: real,
                        matches: seq<Pair>, n: nat)
    requires n <= |findings|
    ensures |Leftover(findings, gold, t, matches, false, n)| + |Leftover(findings, gold, t, matches, true, n)|
            + |Hits(Fs(matches), n)| == n
    decreases n
  {
    if n > 0 {
      LeftoverConserved(findings, gold, t, matches, n - 1);
      HitsStep(Fs(matches), n - 1);
    }
  }

  lemma MatchedIndices(findings: seq<Finding>, gold: seq<Gold>, t: real)
    ensures var m := Matching(findings, gold, t);
            && |Hits(Fs(m), |findings|)| == |m|
            && |Hits(Gs(m), |gold|)| == |m|
  {
    var m := Matching(findings, gold, t);
    MatchingIsStable(findings, gold, t);
    MatchesInRange(findings, gold, t);
    ProjectionsInjective(Chosen(m));
    SameProjections(m);
    assert Hits(Fs(m), |findings|) == Fs(m);
    assert Hits(Gs(m), |gold|) == Gs(m);
  }

  lemma SameProjections(m: seq<Pair>)
    ensures FsOf(Chosen(m)) == Fs(m) && GsOf(Chosen(m)) == Gs(m)
  {
    forall x
      ensures x in FsOf(Chosen(m)) <==> x in Fs(m)
      ensures x in GsOf(Chosen(m)) <==> x in Gs(m)
    {
      if i :| 0 <= i < |m| && m[i].f == x {
        assert m[i] in Chosen(m);
      }
      if i :| 0 <= i < |m| && m[i].g == x {
        assert m[i] in Chosen(m);
      }
    }
  }

  /** Every gold clause and every finding of a document is counted exactly once. */
  lemma TallyConservation(doc: Doc, t: real)
    requires !doc.ingestError
    ensures var d, m := DocTally(doc, t, None), Matched(doc.findings, doc.gold, t);
            && d[TP] + d[FN] + d[FPClean] + d[TN] == |doc.gold|
            && d[TP] + d[FPClean] == |m.matches|
            && d[TP] + d[FPClean] + DocUnlabeled(doc, t) + |m.surplusFindings| == |doc.findings|
            && d[FN] + d[TN] == |doc.gold| - |m.matches|
  {
    var m := Matching(doc.findings, doc.gold, t);
    MatchesInRange(doc.findings, doc.gold, t);
    SeverityOnly(doc.findings, doc.gold, m, None, |m|);
    GoldConserved(doc.gold, Gs(m), |doc.gold|);
    LeftoverConserved(doc.findings, doc.gold, t, m, |doc.findings|);
    MatchedIndices(doc.findings, doc.gold, t);
  }

  /** Findings, and surplus findings, of the documents that were ingested. */
  function Findings(docs: seq<Doc>): nat {
    if docs == [] then 0
    else Findings(docs[..|docs| - 1]) + if docs[|docs| - 1].ingestError then 0 else |docs[|docs| - 1].findings|
  }

  function Surplus(docs: seq<Doc>, t: real): nat {
    if docs == [] then 0
    else
      var doc := docs[|docs| - 1];
      Surplus(docs[..|docs| - 1], t)
      + if doc.ingestError then 0 else |Matched(doc.findings, doc.gold, t).surplusFindings|
  }

  /** Over the corpus every finding is matched, unlabeled or surplus. */
  lemma {:induction false} CorpusConservation(docs: seq<Doc>, t: real)
    ensures Total(docs, t, None)[TP] + Total(docs, t, None)[FPClean] + TotalUnlabeled(docs, t) + Surplus(docs, t)
         == Findings(docs)
    decreases |docs|
  {
    if docs != [] {
      var less, doc := docs[..|docs| - 1], docs[|docs| - 1];
      CorpusConservation(less, t);
      SumAt(Total(less, t, None), DocTally(doc, t, None), TP);
      SumAt(Total(less, t, None), DocTally(doc, t, None), FPClean);
      if !doc.ingestError {
        TallyConservation(doc, t);
      }
    }
  }

  lemma CandidateTouchesMatching(findings: seq<Finding>, gold: seq<Gold>, t: real, p: Pair)
    requires Candidate(findings, gold, t, p)
    ensures p.f in Fs(Matching(findings, gold, t)) || p.g in Gs(Matching(findings, gold, t))
  {
    var m := Matching(findings, gold, t);
    MatchingIsStable(findings, gold, t);
    SameProjections(m);
    if p !in Chosen(m) {
      assert Blocked(Chosen(m), p);
    }
  }

  lemma SurplusByGold(findings: seq<Finding>, gold: seq<Gold>, t: real, matches: seq<Pair>, f: nat, g: nat)
    requires f < |findings| && g < |gold| && g in Gs(matches) && gold[g].shouldFlag
    requires Overlap(findings[f].tokens, gold[g].tokens) >= t
    ensures IsSurplus(findings, gold, t, matches, f)
  {
  }

  /** A finding reported as a false-flag candidate overlaps no risky gold clause at the threshold:
      by maximality that clause would be matched, and the finding would be surplus. */
  lemma UnlabeledOverlapsNothingRisky(findings: seq<Finding>, gold: seq<Gold>, t: real, f: nat, g: nat)
    requires f in Matched(findings, gold, t).unmatchedFindings
    requires g < |gold| && gold[g].shouldFlag
    ensures f < |findings| && Overlap(findings[f].tokens, gold[g].tokens) < t
  {
    var m := Matching(findings, gold, t);
    LeftoverExact(findings, gold, t, m, false, |findings|);
    if Overlap(findings[f].tokens, gold[g].tokens) >= t {
      CandidateTouchesMatching(findings, gold, t, PairAt(findings, gold, f, g));
      if g in Gs(m) {
        SurplusByGold(findings, gold, t, m, f, g);
      }
    }
  }

  // ----- the per-type table sums to the whole ------------------------------------------------------

  lemma OccursStep(docs: seq<Doc>, key: string)
    requires docs != []
    ensures Occurs(docs, key) <==> Occurs(docs[..|docs| - 1], key) || OccursIn(docs[|docs| - 1], key)
  {
    var n := |docs| - 1;
    assert forall x | 0 <= x < n :: docs[x] == docs[..n][x];
    if Occurs(docs[..n], key) {
      var x :| 0 <= x < n && OccursIn(docs[..n][x], key);
      assert OccursIn(docs[x], key);
    }
  }

  ghost function SumOver(keys: seq<string>, part: string -> Tally): Tally {
    if keys == [] then multiset{}
    else (SumOver(keys[..|keys| - 1], part) + part(keys[|keys| - 1]))
  }

  lemma AddSwap(a: Tally, b: Tally, c: Tally, d: Tally)
    ensures ((a + b) + (c + d)) == ((a + c) + (b + d))
  {
  }

  /** Adding two tables adds their sums. */
  lemma {:induction false} SumAdds(keys: seq<string>, a: string -> Tally, b: string -> Tally, c: string -> Tally)
    requires forall k :: c(k) == (a(k) + b(k))
    ensures SumOver(keys, c) == (SumOver(keys, a) + SumOver(keys, b))
    decreases |keys|
  {
    if keys != [] {
      var n := |keys| - 1;
      SumAdds(keys[..n], a, b, c);
      AddSwap(SumOver(keys[..n], a), SumOver(keys[..n], b), a(keys[n]), b(keys[n]));
    }
  }

  lemma LastKey(keys: seq<string>, key: string)
    requires keys != [] && Distinct(keys)
    ensures Distinct(keys[..|keys| - 1])
    ensures key in keys <==> key in keys[..|keys| - 1] || key == keys[|keys| - 1]
    ensures keys[|keys| - 1] !in keys[..|keys| - 1]
  {
    assert keys == keys[..|keys| - 1] + [keys[|keys| - 1]];
  }

  /** A table with one non-zero entry sums to it. */
  lemma {:induction false} SumOne(keys: seq<string>, part: string -> Tally, key: string, d: Tally)
    requires Distinct(keys)
    requires forall k :: part(k) == if k == key then d else multiset{}
    ensures SumOver(keys, part) == if key in keys then d else multiset{}
    decreases |keys|
  {
    if keys != [] {
      var n := |keys| - 1;
      SumOne(keys[..n], part, key, d);
      LastKey(keys, key);
      PlusLaws(d, multiset{}, multiset{});
      PlusLaws(multiset{}, multiset{}, multiset{});
    }
  }

  lemma GoldTypeStep(gold: seq<Gold>, flagged: set<nat>, n: nat, k: string)
    requires 0 < n <= |gold|
    ensures GoldTally(gold, flagged, Some(k), n)
         == GoldTally(gold, flagged, Some(k), n - 1)
          + if k == TypeOf(gold[n - 1]) then Outcome(gold[n - 1], n - 1 in flagged) else multiset{}
  {
  }

  /** The tally of the first n gold clauses, key by key. */
  function GoldByKey(gold: seq<Gold>, flagged: set<nat>, n: nat): string -> Tally
    requires n <= |gold|
  {
    k => GoldTally(gold, flagged, Some(k), n)
  }

  lemma GoldStep(keys: seq<string>, gold: seq<Gold>, flagged: set<nat>, n: nat, d: Tally)
    requires 0 < n <= |gold| && Distinct(keys) && TypeOf(gold[n - 1]) in keys
    requires d == Outcome(gold[n - 1], n - 1 in flagged)
    ensures SumOver(keys, GoldByKey(gold, flagged, n)) == SumOver(keys, GoldByKey(gold, flagged, n - 1)) + d
  {
    var key := TypeOf(gold[n - 1]);
    var one := k => if k == key then d else multiset{};
    var before, after := GoldByKey(gold, flagged, n - 1), GoldByKey(gold, flagged, n);
    SumOne(keys, one, key, d);
    forall k ensures after(k) == before(k) + one(k) {
      GoldTypeStep(gold, flagged, n, k);
    }
    SumAdds(keys, before, one, after);
  }

  lemma {:induction false} GoldSums(keys: seq<string>, gold: seq<Gold>, flagged: set<nat>, n: nat)
    requires n <= |gold| && Distinct(keys)
    requires forall i | 0 <= i < n :: TypeOf(gold[i]) in keys
    ensures SumOver(keys, GoldByKey(gold, flagged, n)) == GoldTally(gold, flagged, None, n)
    decreases n
  {
    if n == 0 {
      SumZero(keys, GoldByKey(gold, flagged, 0));
    } else {
      GoldSums(keys, gold, flagged, n - 1);
      GoldStep(keys, gold, flagged, n, Outcome(gold[n - 1], n - 1 in flagged));
    }
  }

  lemma {:induction false} SumZero(keys: seq<string>, part: string -> Tally)
    requires forall k :: part(k) == multiset{}
    ensures SumOver(keys, part) == multiset{}
    decreases |keys|
  {
    if keys != [] {
      SumZero(keys[..|keys| - 1], part);
      PlusLaws(multiset{}, multiset{}, multiset{});
    }
  }

  lemma SeverityStep(findings: seq<Finding>, gold: seq<Gold>, matches: seq<Pair>, n: nat, k: string)
    requires InRange(findings, gold, matches) && 0 < n <= |matches|
    ensures var p := matches[n - 1];
            SeverityTally(findings, gold, matches, Some(k), n)
              == SeverityTally(findings, gold, matches, Some(k), n - 1)
               + if k == TypeOf(gold[p.g]) then Severity(findings[p.f], gold[p.g]) else multiset{}
  {
  }

  lemma {:induction false} SeveritySums(keys: seq<string>, findings: seq<Finding>, gold: seq<Gold>,
                        matches: seq<Pair>, n: nat)
    requires InRange(findings, gold, matches) && n <= |matches| && Distinct(keys)
    requires forall i | 0 <= i < |gold| :: TypeOf(gold[i]) in keys
    ensures SumOver(keys, k => SeverityTally(findings, gold, matches, Some(k), n))
         == SeverityTally(findings, gold, matches, None, n)
    decreases n
  {
    if n == 0 {
      SumZero(keys, k => SeverityTally(findings, gold, matches, Some(k), 0));
    } else {
      SeveritySums(keys, findings, gold, matches, n - 1);
      var p := matches[n - 1];
      var d, key := Severity(findings[p.f], gold[p.g]), TypeOf(gold[p.g]);
      var one := k => if k == key then d else multiset{};
      var before := k => SeverityTally(findings, gold, matches, Some(k), n - 1);
      var after := k => SeverityTally(findings, gold, matches, Some(k), n);
      SumOne(keys, one, key, d);
      forall k ensures after(k) == before(k) + one(k) {
        SeverityStep(findings, gold, matches, n, k);
      }
      SumAdds(keys, before, one, after);
    }
  }

  /** Summed over any list of distinct clause types that covers the corpus, the per-type tallies
      give the global ones. */
  lemma {:induction false} ByTypeSumsToTotal(keys: seq<string>, docs: seq<Doc>, t: real)
    requires Distinct(keys) && forall k | Occurs(docs, k) :: k in keys
    ensures SumOver(keys, k => Total(docs, t, Some(k))) == Total(docs, t, None)
    decreases |docs|
  {
    if docs == [] {
      SumZero(keys, k => Total([], t, Some(k)));
    } else {
      var n := |docs| - 1;
      var doc := docs[n];
      forall k | Occurs(docs[..n], k) || OccursIn(doc, k)
        ensures k in keys
      {
        OccursStep(docs, k);
      }
      ByTypeSumsToTotal(keys, docs[..n], t);
      DocSums(keys, doc, t);
      SumAdds(keys, k => Total(docs[..n], t, Some(k)), k => DocTally(doc, t, Some(k)), k => Total(docs, t, Some(k)));
    }
  }

  lemma DocSums(keys: seq<string>, doc: Doc, t: real)
    requires Distinct(keys) && forall k | OccursIn(doc, k) :: k in keys
    ensures SumOver(keys, k => DocTally(doc, t, Some(k))) == DocTally(doc, t, None)
  {
    if doc.ingestError {
      SumZero(keys, k => DocTally(doc, t, Some(k)));
    } else {
      var m := Matching(doc.findings, doc.gold, t);
      MatchesInRange(doc.findings, doc.gold, t);
      assert forall i | 0 <= i < |doc.gold| :: HasType(doc.gold, TypeOf(doc.gold[i]), |doc.gold|);
      assert forall i | 0 <= i < |doc.gold| :: OccursIn(doc, TypeOf(doc.gold[i]));
      GoldSums(keys, doc.gold, Gs(m), |doc.gold|);
      SeveritySums(keys, doc.findings, doc.gold, m, |m|);
      SumAdds(keys, k => GoldTally(doc.gold, Gs(m), Some(k), |doc.gold|),
              k => SeverityTally(doc.findings, doc.gold, m, Some(k), |m|),
              k => DocTally(doc, t, Some(k)));
    }
  }
}

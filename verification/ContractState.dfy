/** The state that flows through the analysis graph: clause records keyed by clause id, and the
    reducers that merge what each node returns into it. */
module ContractState {
  import opened Options

  datatype ValidationStatus = Discarded | Validated

  datatype RiskLevel = Low | Medium | High

  datatype RetrievalPath = LocalKb | WebFallback

  /** The keys of a clause record. */
  datatype ClauseField =
    | Text | Position | SectionNumber | ClauseType | SourceLocator
    | ConfidenceScore | PathTaken | EvidenceSnippets
    | RelevanceVerdict | IsrelVerdict | IssupVerdict | RetryCount | FinalStatus
    | RiskLevelField | RiskRationale | IsFailsafe
    | SuggestedRewrite

  /** The values stored under them; `Null` is Python's None, which differs from an absent key. */
  datatype FieldValue =
    | Null
    | Str(text: string)
    | Number(n: int)
    | Score(score: real)
    | Flag(flag: bool)
    | Status(status: ValidationStatus)
    | Level(level: RiskLevel)
    | Path(path: RetrievalPath)
    | Snippets(snippets: seq<string>)

  type Record = map<ClauseField, FieldValue>

  type Clauses = map<string, Record>

  /** `order` lists the clause ids as the nodes visit them: every id once. */
  ghost predicate Enumerates(order: seq<string>, clauses: Clauses) {
    && (forall id | id in order :: id in clauses)
    && (forall id | id in clauses :: id in order)
    && (forall i, j | 0 <= i < j < |order| :: order[i] != order[j])
  }

  /** `record.get(field)` */
  function Get(record: Record, field: ClauseField): FieldValue {
    if field in record then record[field] else Null
  }

  /** What `str.strip` removes. */
  predicate IsSpace(c: char) {
    || '\t' <= c <= '\r'
    || c in {' ', '\U{1c}', '\U{1d}', '\U{1e}', '\U{1f}', '\U{85}', '\U{a0}', '\U{1680}'}
    || '\U{2000}' <= c <= '\U{200a}'
    || c in {'\U{2028}', '\U{2029}', '\U{202f}', '\U{205f}', '\U{3000}'}
  }

  /** `(record.get("text") or "").strip()` is empty. */
  predicate IsBlank(record: Record) {
    var text := Get(record, Text);
    text.Str? ==> forall i | 0 <= i < |text.text| :: IsSpace(text.text[i])
  }

  predicate HasEvidence(record: Record) {
    var evidence := Get(record, EvidenceSnippets);
    evidence.Snippets? && evidence.snippets != []
  }

  function ClauseTypeOf(record: Record): Option<string> {
    match Get(record, ClauseType)
    case Str(s) => Some(s)
    case _ => None
  }

  predicate IsValidated(record: Record) {
    Get(record, FinalStatus) == Status(Validated)
  }

  /** `text.lstrip()`; only whether anything is left matters here. */
  function Stripped(text: string): string {
    if text != "" && IsSpace(text[0]) then Stripped(text[1..]) else text
  }

  lemma {:induction false} StrippedIsEmptyIff(text: string)
    ensures Stripped(text) == "" <==> forall i | 0 <= i < |text| :: IsSpace(text[i])
  {
    if text != "" && IsSpace(text[0]) {
      StrippedIsEmptyIff(text[1..]);
      assert forall i | 0 < i < |text| :: text[i] == text[1..][i - 1];
    }
  }

  /** A clause is blank exactly when stripping its text leaves nothing, or it has no text at all. */
  lemma BlankIffStripped(record: Record)
    ensures IsBlank(record) <==>
              Text !in record || !record[Text].Str? || Stripped(record[Text].text) == ""
  {
    if Text in record && record[Text].Str? {
      StrippedIsEmptyIff(record[Text].text);
    }
  }

  // ----- merge_nested_clause_dicts ---------------------------------------------------------

  /** The fields of clause `id`, none when the update does not mention the clause. */
  function FieldsOf<K, V>(m: map<string, map<K, V>>, id: string): map<K, V> {
    if id in m then m[id] else map[]
  }

  /** A clause's fields from both sides, the right side winning on a shared key. */
  function Merge<K, V>(left: map<string, map<K, V>>, right: map<string, map<K, V>>)
    : map<string, map<K, V>>
  {
    map id | id in left.Keys + right.Keys :: FieldsOf(left, id) + FieldsOf(right, id)
  }

  function OrEmpty<K, V>(m: Option<map<K, V>>): map<K, V> {
    match m
    case None => map[]
    case Some(v) => v
  }

  /** The reducer as the program runs it: copy the left side, then fold the right side's items in
      whatever order they come. */
  method MergeNestedClauseDicts<K, V>(left: Option<map<string, map<K, V>>>,
                                      right: Option<map<string, map<K, V>>>)
    returns (result: map<string, map<K, V>>)
    ensures result == Merge(OrEmpty(left), OrEmpty(right))
  {
    result := OrEmpty(left);
    ghost var l, r := OrEmpty(left), OrEmpty(right);
    ghost var done: set<string> := {};
    if right.Some? {
      var todo := right.value.Keys;
      while todo != {}
        invariant todo !! done && todo + done == r.Keys
        invariant result.Keys == l.Keys + done
        invariant forall id | id in result ::
          result[id] == if id in done then FieldsOf(l, id) + FieldsOf(r, id) else FieldsOf(l, id)
      {
        var id :| id in todo;
        if id in result {
          result := result[id := result[id] + right.value[id]];
        } else {
          PlusEmpty(right.value[id]);
          result := result[id := right.value[id]];
        }
        todo, done := todo - {id}, done + {id};
      }
    }
    forall id | id in result
      ensures result[id] == Merge(l, r)[id]
    {
      PlusEmpty(FieldsOf(l, id));
    }
    assert result.Keys == Merge(l, r).Keys;
  }

  /** The last write wins, field by field; what only one side has is kept. */
  lemma LastWriteWins<K, V>(left: map<string, map<K, V>>, right: map<string, map<K, V>>, id: string, k: K)
    ensures id in Merge(left, right) <==> id in left || id in right
    ensures id in right && k in right[id] ==> k in Merge(left, right)[id] && Merge(left, right)[id][k] == right[id][k]
    ensures !(id in right && k in right[id]) && id in left && k in left[id] ==>
              k in Merge(left, right)[id] && Merge(left, right)[id][k] == left[id][k]
    ensures id in Merge(left, right) && k in Merge(left, right)[id] ==>
              (id in left && k in left[id]) || (id in right && k in right[id])
  {
  }

  lemma PlusEmpty<K, V>(x: map<K, V>)
    ensures x + map[] == x && map[] + x == x
  {
  }

  lemma PlusAssociative<K, V>(x: map<K, V>, y: map<K, V>, z: map<K, V>)
    ensures (x + y) + z == x + (y + z)
  {
  }

  lemma SameFields<K, V>(a: map<string, map<K, V>>, b: map<string, map<K, V>>)
    requires a.Keys == b.Keys
    requires forall id | id in a :: FieldsOf(a, id) == FieldsOf(b, id)
    ensures a == b
  {
    assert forall id | id in a :: a[id] == FieldsOf(a, id) && b[id] == FieldsOf(b, id);
  }

  lemma FieldsOfMerge<K, V>(a: map<string, map<K, V>>, b: map<string, map<K, V>>, id: string)
    ensures FieldsOf(Merge(a, b), id) == FieldsOf(a, id) + FieldsOf(b, id)
  {
    PlusEmpty<K, V>(map[]);
  }

  lemma AssociativeAt<K, V>(a: map<string, map<K, V>>, b: map<string, map<K, V>>,
                            c: map<string, map<K, V>>, id: string)
    ensures FieldsOf(Merge(Merge(a, b), c), id) == FieldsOf(Merge(a, Merge(b, c)), id)
  {
    FieldsOfMerge(a, b, id);
    FieldsOfMerge(Merge(a, b), c, id);
    FieldsOfMerge(b, c, id);
    FieldsOfMerge(a, Merge(b, c), id);
    PlusAssociative(FieldsOf(a, id), FieldsOf(b, id), FieldsOf(c, id));
  }

  lemma KeysAssociative<K, V>(a: map<string, map<K, V>>, b: map<string, map<K, V>>, c: map<string, map<K, V>>)
    ensures Merge(Merge(a, b), c).Keys == Merge(a, Merge(b, c)).Keys
  {
    assert Merge(Merge(a, b), c).Keys == (a.Keys + b.Keys) + c.Keys;
  }

  lemma MergeAssociative<K, V>(a: map<string, map<K, V>>, b: map<string, map<K, V>>,
                               c: map<string, map<K, V>>)
    ensures Merge(Merge(a, b), c) == Merge(a, Merge(b, c))
  {
    var left, right := Merge(Merge(a, b), c), Merge(a, Merge(b, c));
    forall id | id in left
      ensures FieldsOf(left, id) == FieldsOf(right, id)
    {
      AssociativeAt(a, b, c, id);
    }
    KeysAssociative(a, b, c);
    SameFields(left, right);
  }

  lemma MergeIdentity<K, V>(a: map<string, map<K, V>>)
    ensures Merge(a, map[]) == a && Merge(map[], a) == a
  {
    forall id: string
      ensures FieldsOf(Merge(a, map[]), id) == FieldsOf(a, id)
      ensures FieldsOf(Merge(map[], a), id) == FieldsOf(a, id)
    {
      FieldsOfMerge(a, map[], id);
      FieldsOfMerge(map[], a, id);
      PlusEmpty(FieldsOf(a, id));
    }
    SameFields(Merge(a, map[]), a);
    SameFields(Merge(map[], a), a);
  }

  /** The two updates hold no different values for the same field of the same clause. */
  ghost predicate Agree<K, V>(a: map<string, map<K, V>>, b: map<string, map<K, V>>) {
    forall id | id in a && id in b :: PlusCommutes(a[id], b[id])
  }

  ghost predicate PlusCommutes<K, V>(x: map<K, V>, y: map<K, V>) {
    forall k | k in x && k in y :: x[k] == y[k]
  }

  lemma PlusCommutesIff<K, V>(x: map<K, V>, y: map<K, V>)
    ensures x + y == y + x <==> PlusCommutes(x, y)
  {
    if x + y == y + x {
      forall k | k in x && k in y
        ensures x[k] == y[k]
      {
        assert (x + y)[k] == y[k] && (y + x)[k] == x[k];
      }
    }
  }

  /** Two updates can be merged in either order exactly when they agree; updates with disjoint
      clause/field footprints always do. */
  lemma MergeCommutesIffAgree<K, V>(a: map<string, map<K, V>>, b: map<string, map<K, V>>)
    ensures Merge(a, b) == Merge(b, a) <==> Agree(a, b)
    ensures (forall id | id in a && id in b :: a[id].Keys !! b[id].Keys) ==> Agree(a, b)
  {
    forall id: string
      ensures FieldsOf(Merge(a, b), id) == FieldsOf(Merge(b, a), id)
         <==> PlusCommutes(FieldsOf(a, id), FieldsOf(b, id))
    {
      FieldsOfMerge(a, b, id);
      FieldsOfMerge(b, a, id);
      PlusCommutesIff(FieldsOf(a, id), FieldsOf(b, id));
    }
    if Agree(a, b) {
      SameFields(Merge(a, b), Merge(b, a));
    }
    if Merge(a, b) == Merge(b, a) {
      forall id | id in a && id in b
        ensures PlusCommutes(a[id], b[id])
      {
        assert FieldsOf(Merge(a, b), id) == FieldsOf(Merge(b, a), id);
      }
    }
  }
}

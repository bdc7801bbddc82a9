/** The retrieval core of `model_logic.py`: corpus clean-up, the choice of
    engine, the top-3 de-duplication of ranked corpus rows, the medicine table
    lookup and the construction of nearby-clinic records. Embedding, cosine
    similarity and `topk` are outside the model: their output is given as a
    ranked list of hits. */
module ModelLogic {
  import opened Wrappers
  import Text
  import FO = FirstOccurrence

  // ---------------------------------------------------------------------------
  // Corpus clean-up (load_and_preprocess_data)
  // ---------------------------------------------------------------------------

  /** A corpus row: its disease label (the `label` column) and its normalised symptom text. */
  datatype CorpusRow = CorpusRow(disease: string, text: string)

  /** A row of the CSV file: the `Disease` cell and the symptom cells in column
      order, a missing cell (NaN) being `None`. */
  datatype RawRow = RawRow(diseaseCell: string, symptoms: seq<Option<string>>)

  /** The positions of the present cells: strictly increasing, each of a
      present cell, and every present cell's position among them. */
  function PresentPositions(cells: seq<Option<string>>): (ps: seq<nat>)
    ensures forall k :: 0 <= k < |ps| ==> ps[k] < |cells| && cells[ps[k]].Some?
    ensures forall k, l :: 0 <= k < l < |ps| ==> ps[k] < ps[l]
    ensures forall p :: 0 <= p < |cells| && cells[p].Some? ==> p in ps
    decreases |cells|
  {
    if |cells| == 0 then []
    else
      var front := PresentPositions(cells[..|cells| - 1]);
      assert forall p :: 0 <= p < |cells| - 1 ==> cells[..|cells| - 1][p] == cells[p];
      if cells[|cells| - 1].Some? then front + [|cells| - 1] else front
  }

  /** `row.dropna()`: the values of the present cells, in column order, each
      once; the cell at the `k`-th present position gives the `k`-th value. */
  function PresentCells(cells: seq<Option<string>>): (r: seq<string>)
    ensures |r| == |PresentPositions(cells)|
    ensures forall k :: 0 <= k < |r| ==> cells[PresentPositions(cells)[k]] == Some(r[k])
  {
    var ps := PresentPositions(cells);
    seq(|ps|, k requires 0 <= k < |ps| => cells[ps[k]].value)
  }

  /** `', '.join(...)` of the present cells with every `_` made a space:
      the text never contains `_`, and no present cell gives the empty text. */
  function SymptomText(cells: seq<Option<string>>): (text: string)
    ensures '_' !in text
    ensures (forall p :: 0 <= p < |cells| ==> cells[p].None?) ==> text == ""
  {
    var present := PresentCells(cells);
    Text.Join(", ", seq(|present|, k requires 0 <= k < |present| => Text.ReplaceChar(present[k], '_', ' ')))
  }

  /** A raw row after the label is stripped and the symptom cells are merged:
      the label has no surrounding whitespace and the text no `_`. */
  function NormalizeRow(row: RawRow): (r: CorpusRow)
    ensures r.disease == [] || (!Text.IsSpace(r.disease[0]) && !Text.IsSpace(r.disease[|r.disease| - 1]))
    ensures '_' !in r.text
  {
    CorpusRow(Text.Strip(row.diseaseCell), SymptomText(row.symptoms))
  }

  /** Every raw row normalised, in file order. */
  function NormalizeRows(raw: seq<RawRow>): seq<CorpusRow>
  {
    seq(|raw|, i requires 0 <= i < |raw| => NormalizeRow(raw[i]))
  }

  /** `load_and_preprocess_data` after the CSV is read: normalise every row,
      then `drop_duplicates(subset=['label', 'text'])`, keeping the first. */
  function LoadAndPreprocess(raw: seq<RawRow>): (corpus: seq<CorpusRow>)
    ensures FO.NoDuplicates(corpus)
    ensures forall row :: row in corpus ==> row in NormalizeRows(raw)
  {
    FO.KeepFirstSpec(NormalizeRows(raw));
    FO.KeepFirst(NormalizeRows(raw))
  }

  /** The cleaned corpus has no repeated `(label, text)` pair, keeps every
      input pair and keeps file order. */
  lemma LoadAndPreprocessSpec(raw: seq<RawRow>)
    ensures FO.NoDuplicates(LoadAndPreprocess(raw))
    ensures forall i :: 0 <= i < |raw| ==> NormalizeRow(raw[i]) in LoadAndPreprocess(raw)
    ensures FO.IsSubsequence(LoadAndPreprocess(raw), NormalizeRows(raw))
  {
    var rows := NormalizeRows(raw);
    FO.KeepFirstSpec(rows);
    forall i | 0 <= i < |raw| ensures NormalizeRow(raw[i]) in LoadAndPreprocess(raw) {
      assert rows[i] == NormalizeRow(raw[i]);
    }
  }

  /** Every cleaned row has a stripped label and a text without `_`. */
  lemma LoadAndPreprocessRowsNormalized(raw: seq<RawRow>)
    ensures forall row :: row in LoadAndPreprocess(raw) ==>
              && (row.disease == [] || (!Text.IsSpace(row.disease[0]) && !Text.IsSpace(row.disease[|row.disease| - 1])))
              && '_' !in row.text
  {
    var rows := NormalizeRows(raw);
    forall row | row in LoadAndPreprocess(raw)
      ensures row.disease == [] || (!Text.IsSpace(row.disease[0]) && !Text.IsSpace(row.disease[|row.disease| - 1]))
      ensures '_' !in row.text
    {
      var i :| 0 <= i < |rows| && rows[i] == row;
      assert row == NormalizeRow(raw[i]);
    }
  }

  // ---------------------------------------------------------------------------
  // Engine choice (get_top_3_diagnosis, first two lines)
  // ---------------------------------------------------------------------------

  /** The two sentence-embedding engines. */
  datatype Strategy = Fast | Expert

  /** The model that encodes the query and the embedding array it is compared against. */
  datatype Engine = Engine(model: Strategy, embeddings: Strategy)

  /** Mode `"Fast"` selects the fast model and the fast embeddings; any other
      string selects the expert pair. The two choices always agree. */
  function SelectEngine(mode: string): (e: Engine)
    ensures e.model == e.embeddings
    ensures e.model == Fast <==> mode == "Fast"
  {
    Engine(if mode == "Fast" then Fast else Expert, if mode == "Fast" then Fast else Expert)
  }

  // ---------------------------------------------------------------------------
  // Top-3 distinct diagnoses (get_top_3_diagnosis)
  // ---------------------------------------------------------------------------

  /** One entry of the `topk` output: a corpus row index and its score,
      already converted to a confidence in hundredths of a percent. */
  datatype Hit = Hit(index: nat, score: int)

  /** A candidate diagnosis: `{"label": disease, "confidence": ...}`. */
  datatype Candidate = Candidate(disease: string, confidence: int)

  /** Every hit names a row of the corpus. */
  predicate ValidHits(corpus: seq<CorpusRow>, hits: seq<Hit>)
  {
    forall k :: 0 <= k < |hits| ==> hits[k].index < |corpus|
  }

  /** The label of the corpus row of each hit, in ranking order. */
  function HitLabels(corpus: seq<CorpusRow>, hits: seq<Hit>): seq<string>
    requires ValidHits(corpus, hits)
  {
    seq(|hits|, k requires 0 <= k < |hits| => corpus[hits[k].index].disease)
  }

  /** The candidate built from the hit at position `p`. */
  function CandidateAt(corpus: seq<CorpusRow>, hits: seq<Hit>, p: nat): Candidate
    requires ValidHits(corpus, hits) && p < |hits|
  {
    Candidate(corpus[hits[p].index].disease, hits[p].score)
  }

  /** The candidates of the hits at positions `ps`, in the order of `ps`. */
  function CandidatesAt(corpus: seq<CorpusRow>, hits: seq<Hit>, ps: seq<nat>): (r: seq<Candidate>)
    requires ValidHits(corpus, hits)
    requires forall k :: 0 <= k < |ps| ==> ps[k] < |hits|
    ensures |r| == |ps|
  {
    seq(|ps|, k requires 0 <= k < |ps| => CandidateAt(corpus, hits, ps[k]))
  }

  /** The candidates of the hits whose label has not occurred earlier in the ranking. */
  function UniqueCandidates(corpus: seq<CorpusRow>, hits: seq<Hit>): seq<Candidate>
    requires ValidHits(corpus, hits)
  {
    CandidatesAt(corpus, hits, FO.FirstPositions(HitLabels(corpus, hits), |hits|))
  }

  /** The first three of those (all of them if there are fewer). */
  function TopThree(corpus: seq<CorpusRow>, hits: seq<Hit>): (r: seq<Candidate>)
    requires ValidHits(corpus, hits)
    ensures |r| <= 3 && r <= UniqueCandidates(corpus, hits)
    ensures |r| < 3 ==> r == UniqueCandidates(corpus, hits)
  {
    var unique := UniqueCandidates(corpus, hits);
    if |unique| <= 3 then unique else unique[..3]
  }

  /** The ranking the selected engine produces. */
  function RankingFor(engine: Engine, fastTopK: seq<Hit>, expertTopK: seq<Hit>): seq<Hit>
  {
    if engine.embeddings == Fast then fastTopK else expertTopK
  }

  /** `get_top_3_diagnosis`: walk the ranked hits of the engine `mode` selects,
      keep a hit when its label is new, stop once three are kept. */
  method GetTop3Diagnosis(corpus: seq<CorpusRow>, mode: string, fastTopK: seq<Hit>, expertTopK: seq<Hit>)
    returns (uniqueResults: seq<Candidate>)
    requires ValidHits(corpus, fastTopK) && ValidHits(corpus, expertTopK)
    ensures uniqueResults == TopThree(corpus, RankingFor(SelectEngine(mode), fastTopK, expertTopK))
  {
    var topResults := if mode == "Fast" then fastTopK else expertTopK;
    assert topResults == RankingFor(SelectEngine(mode), fastTopK, expertTopK);
    ghost var labels := HitLabels(corpus, topResults);
    uniqueResults := [];
    var seenLabels: set<string> := {};
    var i := 0;
    while i < |topResults|
      invariant i <= |topResults|
      invariant |uniqueResults| < 3
      invariant seenLabels == FO.KeysBelow(labels, i)
      invariant uniqueResults == CandidatesAt(corpus, topResults, FO.FirstPositions(labels, i))
    {
      var idx := topResults[i].index;
      var score := topResults[i].score;
      var disease := corpus[idx].disease;
      ScanStep(corpus, topResults, i);
      assert labels[i] == disease;
      if disease !in seenLabels {
        uniqueResults := uniqueResults + [Candidate(disease, score)];
        seenLabels := seenLabels + {disease};
      }
      if |uniqueResults| == 3 {
        TopThreeOnceThreeKept(corpus, topResults, i + 1);
        break;
      }
      i := i + 1;
    }
  }

  /** One step of the scan: the label of hit `i` joins the labels seen, and
      its candidate is appended exactly when that label is new. */
  lemma ScanStep(corpus: seq<CorpusRow>, hits: seq<Hit>, i: nat)
    requires ValidHits(corpus, hits) && i < |hits|
    ensures var labels := HitLabels(corpus, hits);
            FO.KeysBelow(labels, i + 1) == FO.KeysBelow(labels, i) + {labels[i]}
    ensures var labels := HitLabels(corpus, hits);
            var before := CandidatesAt(corpus, hits, FO.FirstPositions(labels, i));
            CandidatesAt(corpus, hits, FO.FirstPositions(labels, i + 1))
              == if labels[i] in FO.KeysBelow(labels, i) then before else before + [CandidateAt(corpus, hits, i)]
  {
    var labels := HitLabels(corpus, hits);
    var kept := FO.FirstPositions(labels, i);
    FO.FirstPositionsStep(labels, i);
    if labels[i] !in FO.KeysBelow(labels, i) {
      CandidatesAtAppend(corpus, hits, kept, i);
    } else {
      assert FO.FirstPositions(labels, i + 1) == kept;
    }
  }

  /** Keeping one more position appends its candidate. */
  lemma CandidatesAtAppend(corpus: seq<CorpusRow>, hits: seq<Hit>, ps: seq<nat>, p: nat)
    requires ValidHits(corpus, hits) && p < |hits|
    requires forall k :: 0 <= k < |ps| ==> ps[k] < |hits|
    ensures CandidatesAt(corpus, hits, ps + [p]) == CandidatesAt(corpus, hits, ps) + [CandidateAt(corpus, hits, p)]
  {
  }

  /** Once three candidates are kept from the first `n` hits, the rest of the
      ranking cannot change the top three. */
  lemma TopThreeOnceThreeKept(corpus: seq<CorpusRow>, hits: seq<Hit>, n: nat)
    requires ValidHits(corpus, hits) && n <= |hits|
    requires |FO.FirstPositions(HitLabels(corpus, hits), n)| == 3
    ensures TopThree(corpus, hits) == CandidatesAt(corpus, hits, FO.FirstPositions(HitLabels(corpus, hits), n))
  {
    var labels := HitLabels(corpus, hits);
    FO.FirstPositionsPrefix(labels, n, |hits|);
    var kept := FO.FirstPositions(labels, n);
    var all := FO.FirstPositions(labels, |hits|);
    assert all[..3] == kept;
  }

  /** At most three candidates, and never more than there are hits. */
  lemma TopThreeBounds(corpus: seq<CorpusRow>, hits: seq<Hit>)
    requires ValidHits(corpus, hits)
    ensures |TopThree(corpus, hits)| <= 3 && |TopThree(corpus, hits)| <= |hits|
  {
    var ps := FO.FirstPositions(HitLabels(corpus, hits), |hits|);
    FO.KeptCountIsDistinctKeys(HitLabels(corpus, hits), |hits|);
    assert FO.KeysBelow(HitLabels(corpus, hits), |hits|)
        == set k | 0 <= k < |hits| :: HitLabels(corpus, hits)[k];
    CardinalityOfImage(HitLabels(corpus, hits));
  }

  /** A sequence has at least as many elements as distinct values. */
  lemma {:induction false} CardinalityOfImage(s: seq<string>)
    ensures |FO.KeysBelow(s, |s|)| <= |s|
  {
    if s != [] {
      var t := s[..|s| - 1];
      CardinalityOfImage(t);
      assert FO.KeysBelow(s, |s|) == FO.KeysBelow(t, |t|) + {s[|s| - 1]};
    } else {
      assert FO.KeysBelow(s, 0) == {};
    }
  }

  /** Exactly min(3, number of distinct labels among the hits) candidates. */
  lemma TopThreeCount(corpus: seq<CorpusRow>, hits: seq<Hit>)
    requires ValidHits(corpus, hits)
    ensures var distinct := |FO.KeysBelow(HitLabels(corpus, hits), |hits|)|;
            |TopThree(corpus, hits)| == if distinct < 3 then distinct else 3
  {
    FO.KeptCountIsDistinctKeys(HitLabels(corpus, hits), |hits|);
  }

  /** No two candidates share a label. */
  lemma TopThreeDistinctLabels(corpus: seq<CorpusRow>, hits: seq<Hit>)
    requires ValidHits(corpus, hits)
    ensures forall k, l :: 0 <= k < l < |TopThree(corpus, hits)| ==>
              TopThree(corpus, hits)[k].disease != TopThree(corpus, hits)[l].disease
  {
    var labels := HitLabels(corpus, hits);
    var ps := FO.FirstPositions(labels, |hits|);
    var r := TopThree(corpus, hits);
    forall k, l | 0 <= k < l < |r| ensures r[k].disease != r[l].disease {
      assert r[k].disease == labels[ps[k]] && r[l].disease == labels[ps[l]];
      assert ps[k] < ps[l] && FO.IsFirst(labels, ps[l]);
    }
  }

  /** `r` holds the candidates of the hits at the strictly increasing
      positions `ps`, each the first hit carrying its label. */
  ghost predicate FirstHitsInOrder(corpus: seq<CorpusRow>, hits: seq<Hit>, r: seq<Candidate>, ps: seq<nat>)
    requires ValidHits(corpus, hits)
  {
    && |ps| == |r|
    && (forall k, l :: 0 <= k < l < |ps| ==> ps[k] < ps[l])
    && (forall k :: 0 <= k < |ps| ==>
          FO.IsFirst(HitLabels(corpus, hits), ps[k]) && r[k] == CandidateAt(corpus, hits, ps[k]))
  }

  /** Each candidate comes from the first hit carrying its label, and the
      candidates keep the ranking order. */
  lemma TopThreeFirstOccurrences(corpus: seq<CorpusRow>, hits: seq<Hit>)
    requires ValidHits(corpus, hits)
    ensures exists ps :: FirstHitsInOrder(corpus, hits, TopThree(corpus, hits), ps)
  {
    var all := FO.FirstPositions(HitLabels(corpus, hits), |hits|);
    var ps := if |all| <= 3 then all else all[..3];
    assert FirstHitsInOrder(corpus, hits, TopThree(corpus, hits), ps);
  }

  /** When the hits come sorted by score, descending, so do the candidates. */
  lemma TopThreeConfidenceOrder(corpus: seq<CorpusRow>, hits: seq<Hit>)
    requires ValidHits(corpus, hits)
    requires forall i, j :: 0 <= i < j < |hits| ==> hits[i].score >= hits[j].score
    ensures forall k, l :: 0 <= k < l < |TopThree(corpus, hits)| ==>
              TopThree(corpus, hits)[k].confidence >= TopThree(corpus, hits)[l].confidence
  {
    var ps := FO.FirstPositions(HitLabels(corpus, hits), |hits|);
    var r := TopThree(corpus, hits);
    forall k, l | 0 <= k < l < |r| ensures r[k].confidence >= r[l].confidence {
      assert r[k] == CandidateAt(corpus, hits, ps[k]) && r[l] == CandidateAt(corpus, hits, ps[l]);
    }
  }

  /** Fewer than three candidates only when the hits carry fewer than three
      labels; then every label of the hits is among them. */
  lemma TopThreeShortMeansAllLabels(corpus: seq<CorpusRow>, hits: seq<Hit>, p: nat)
    requires ValidHits(corpus, hits)
    ensures |TopThree(corpus, hits)| < 3 && p < |hits| ==>
              exists k :: 0 <= k < |TopThree(corpus, hits)| &&
                TopThree(corpus, hits)[k].disease == corpus[hits[p].index].disease
  {
    if |TopThree(corpus, hits)| >= 3 || p >= |hits| {
      return;
    }
    var labels := HitLabels(corpus, hits);
    var ps := FO.FirstPositions(labels, |hits|);
    FO.KeptKeysCover(labels, |hits|, p);
    var k :| 0 <= k < |ps| && ps[k] <= p && labels[ps[k]] == labels[p];
    assert TopThree(corpus, hits)[k].disease == labels[ps[k]];
  }

  // ---------------------------------------------------------------------------
  // Medicine lookup (get_medicine_details)
  // ---------------------------------------------------------------------------

  /** The fields of one medication record. */
  datatype MedInfo = MedInfo(medicine: string, useCase: string, dosage: string,
                             sideEffects: string, riskLevel: string, warnings: string)

  /** One entry of the ordered medication table. */
  datatype MedEntry = MedEntry(key: string, info: MedInfo)

  /** `key.lower().strip() == disease.lower().strip()`. */
  predicate KeyMatches(key: string, disease: string)
  {
    Text.Normalize(key) == Text.Normalize(disease)
  }

  /** The record of the first entry whose key has the same normal form as
      `disease` under `norm`. The lemmas below hold for every `norm`, so they
      are proved without unfolding the string functions. */
  function FirstMatch(table: seq<MedEntry>, disease: string, norm: string -> string): (r: Option<MedInfo>)
    ensures r.Some? ==> exists i :: 0 <= i < |table| && norm(table[i].key) == norm(disease) && r == Some(table[i].info)
  {
    if table == [] then None
    else if norm(table[0].key) == norm(disease) then Some(table[0].info)
    else FirstMatch(table[1..], disease, norm)
  }

  /** `get_medicine_details`' answer: the record of the first table entry
      whose key matches, if any. */
  function Lookup(table: seq<MedEntry>, disease: string): (r: Option<MedInfo>)
    ensures r.Some? ==> exists i :: 0 <= i < |table| && KeyMatches(table[i].key, disease) && r == Some(table[i].info)
  {
    FirstMatch(table, disease, Text.Normalize)
  }

  /** `get_medicine_details`: scan the table in order and return on the first
      matching key; `None` when nothing matches. */
  method GetMedicineDetails(table: seq<MedEntry>, disease: string) returns (r: Option<MedInfo>)
    ensures r == Lookup(table, disease)
  {
    var wanted := Text.Normalize(disease);
    for i := 0 to |table|
      invariant Lookup(table, disease) == FirstMatch(table[i..], disease, Text.Normalize)
    {
      assert table[i..][1..] == table[i + 1..];
      if Text.Normalize(table[i].key) == wanted {
        return Some(table[i].info);
      }
    }
    return None;
  }

  lemma {:induction false} FirstMatchNoneIffNoMatch(table: seq<MedEntry>, disease: string, norm: string -> string)
    ensures FirstMatch(table, disease, norm).None? <==>
              forall i :: 0 <= i < |table| ==> norm(table[i].key) != norm(disease)
  {
    if table != [] {
      FirstMatchNoneIffNoMatch(table[1..], disease, norm);
      assert forall i :: 1 <= i < |table| ==> table[i] == table[1..][i - 1];
    }
  }

  lemma {:induction false} FirstMatchReturnsFirst(table: seq<MedEntry>, disease: string, norm: string -> string, i: nat)
    requires i < |table| && norm(table[i].key) == norm(disease)
    requires forall j :: 0 <= j < i ==> norm(table[j].key) != norm(disease)
    ensures FirstMatch(table, disease, norm) == Some(table[i].info)
  {
    if i > 0 {
      assert forall j :: 0 <= j < i - 1 ==> table[1..][j] == table[j + 1];
      FirstMatchReturnsFirst(table[1..], disease, norm, i - 1);
    }
  }

  lemma {:induction false} FirstMatchSomeIsFirst(table: seq<MedEntry>, disease: string, norm: string -> string)
    ensures FirstMatch(table, disease, norm).Some? ==>
              exists i :: 0 <= i < |table| && norm(table[i].key) == norm(disease) &&
                (forall j :: 0 <= j < i ==> norm(table[j].key) != norm(disease)) &&
                FirstMatch(table, disease, norm) == Some(table[i].info)
  {
    if table != [] && norm(table[0].key) != norm(disease) {
      var rest := table[1..];
      FirstMatchSomeIsFirst(rest, disease, norm);
      if FirstMatch(rest, disease, norm).Some? {
        var i :| 0 <= i < |rest| && norm(rest[i].key) == norm(disease) &&
                 (forall j :: 0 <= j < i ==> norm(rest[j].key) != norm(disease)) &&
                 FirstMatch(rest, disease, norm) == Some(rest[i].info);
        assert table[i + 1] == rest[i];
        forall j | 0 <= j < i + 1 ensures norm(table[j].key) != norm(disease) {
          if j > 0 { assert table[j] == rest[j - 1]; }
        }
      }
    } else if table != [] {
      assert FirstMatch(table, disease, norm) == Some(table[0].info);
    }
  }

  lemma {:induction false} FirstMatchDependsOnNormalForm(table: seq<MedEntry>, a: string, b: string, norm: string -> string)
    requires norm(a) == norm(b)
    ensures FirstMatch(table, a, norm) == FirstMatch(table, b, norm)
  {
    if table != [] {
      FirstMatchDependsOnNormalForm(table[1..], a, b, norm);
    }
  }

  /** The lookup finds nothing exactly when no key matches. */
  lemma LookupNoneIffNoMatch(table: seq<MedEntry>, disease: string)
    ensures Lookup(table, disease).None? <==>
              forall i :: 0 <= i < |table| ==> !KeyMatches(table[i].key, disease)
  {
    FirstMatchNoneIffNoMatch(table, disease, Text.Normalize);
  }

  /** `i` is the first table position whose key matches `disease`. */
  predicate IsFirstMatch(table: seq<MedEntry>, disease: string, i: int)
  {
    0 <= i < |table| && KeyMatches(table[i].key, disease)
    && forall j :: 0 <= j < i ==> !KeyMatches(table[j].key, disease)
  }

  /** The lookup returns the record of the first matching key, and a record
      it returns is always that of the first matching key. */
  lemma LookupReturnsFirstMatch(table: seq<MedEntry>, disease: string)
    ensures forall i :: IsFirstMatch(table, disease, i) ==> Lookup(table, disease) == Some(table[i].info)
    ensures Lookup(table, disease).Some? ==>
              exists i :: IsFirstMatch(table, disease, i) && Lookup(table, disease) == Some(table[i].info)
  {
    forall i | IsFirstMatch(table, disease, i)
      ensures Lookup(table, disease) == Some(table[i].info)
    {
      FirstMatchReturnsFirst(table, disease, Text.Normalize, i);
    }
    FirstMatchSomeIsFirst(table, disease, Text.Normalize);
  }

  /** Queries with the same normalised form get the same answer. */
  lemma LookupDependsOnNormalForm(table: seq<MedEntry>, a: string, b: string)
    requires Text.Normalize(a) == Text.Normalize(b)
    ensures Lookup(table, a) == Lookup(table, b)
  {
    FirstMatchDependsOnNormalForm(table, a, b, Text.Normalize);
  }

  /** Case and surrounding whitespace of the query make no difference. */
  lemma LookupIgnoresCaseAndPadding(table: seq<MedEntry>, pre: string, a: string, post: string, b: string)
    requires Text.IsBlank(pre) && Text.IsBlank(post)
    requires Text.Lower(a) == Text.Lower(b)
    ensures Lookup(table, pre + a + post) == Lookup(table, b)
  {
    Text.NormalizeIgnoresCaseAndPadding(pre, a, post, b);
    LookupDependsOnNormalForm(table, pre + a + post, b);
  }

  /** `lookup("DIABETES")` and `lookup(" diabetes ")` agree, whatever the table. */
  lemma LookupUpperAndLowerCaseAgree(table: seq<MedEntry>)
    ensures Lookup(table, "DIABETES") == Lookup(table, " diabetes ")
  {
    assert Text.Lower("DIABETES") == Text.Lower("diabetes");
    assert Text.IsBlank(" ");
    assert " diabetes " == " " + "diabetes" + " ";
    LookupIgnoresCaseAndPadding(table, " ", "diabetes", " ", "DIABETES");
  }

  /** When no two keys normalise alike, each key finds its own record. */
  lemma LookupOwnKey(table: seq<MedEntry>, i: nat)
    requires i < |table|
    requires forall j, k :: 0 <= j < k < |table| ==>
               Text.Normalize(table[j].key) != Text.Normalize(table[k].key)
    ensures Lookup(table, table[i].key) == Some(table[i].info)
  {
    FirstMatchReturnsFirst(table, table[i].key, Text.Normalize, i);
  }

  // ---------------------------------------------------------------------------
  // Nearby clinics (get_nearby_doctors)
  // ---------------------------------------------------------------------------

  /** A clinic record as returned to the front ends. */
  datatype Doctor = Doctor(name: string, address: string, rating: string, specialty: string)

  /** One GeoJSON feature of the places reply: its `properties` object, absent
      when the feature has none. */
  datatype Feature = Feature(properties: Option<map<string, string>>)

  /** What `requests.get(url).json()` gave: an exception (network, HTTP or
      parse failure), or a JSON object whose `features` list may be missing. */
  datatype PlacesReply = RequestFailed | Places(features: Option<seq<Feature>>)

  /** `prop.get(key, default)`. */
  function PropertyOr(prop: map<string, string>, key: string, default: string): string
  {
    if key in prop then prop[key] else default
  }

  /** `response.get('features', [])`. */
  function FeaturesOf(reply: PlacesReply): seq<Feature>
    requires reply.Places?
  {
    if reply.features.Some? then reply.features.value else []
  }

  /** Every feature carries a `properties` object (`feature['properties']` raises otherwise). */
  predicate AllHaveProperties(features: seq<Feature>)
  {
    forall k :: 0 <= k < |features| ==> features[k].properties.Some?
  }

  /** `get_nearby_doctors`: the specialist comes from the map, defaulting to
      "General Physician"; each feature gives one record, with defaults for a
      missing name or address; any exception (a failed request, a feature
      without `properties`) gives `[]`. */
  method GetNearbyDoctors(specialists: map<string, string>, disease: string, reply: PlacesReply)
    returns (doctors: seq<Doctor>)
    ensures reply.RequestFailed? ==> doctors == []
    ensures reply.Places? && !AllHaveProperties(FeaturesOf(reply)) ==> doctors == []
    ensures reply.Places? && AllHaveProperties(FeaturesOf(reply)) ==> |doctors| == |FeaturesOf(reply)|
    ensures forall k :: 0 <= k < |doctors| ==>
              var specialist := if disease in specialists then specialists[disease] else "General Physician";
              && reply.Places? && k < |FeaturesOf(reply)| && FeaturesOf(reply)[k].properties.Some?
              && doctors[k].specialty == specialist
              && doctors[k].rating == "N/A"
              && doctors[k].name == PropertyOr(FeaturesOf(reply)[k].properties.value, "name", specialist + " Clinic")
              && doctors[k].address == PropertyOr(FeaturesOf(reply)[k].properties.value, "address_line2", "Address unavailable")
  {
    var specialist := if disease in specialists then specialists[disease] else "General Physician";
    if reply.RequestFailed? {
      return [];
    }
    var features := FeaturesOf(reply);
    doctors := [];
    var k := 0;
    while k < |features|
      invariant k <= |features|
      invariant |doctors| == k
      invariant forall j :: 0 <= j < k ==> features[j].properties.Some?
      invariant forall j :: 0 <= j < k ==>
                  && doctors[j].specialty == specialist
                  && doctors[j].rating == "N/A"
                  && doctors[j].name == PropertyOr(features[j].properties.value, "name", specialist + " Clinic")
                  && doctors[j].address == PropertyOr(features[j].properties.value, "address_line2", "Address unavailable")
    {
      if features[k].properties.None? {
        return [];
      }
      var prop := features[k].properties.value;
      doctors := doctors + [Doctor(PropertyOr(prop, "name", specialist + " Clinic"),
                                   PropertyOr(prop, "address_line2", "Address unavailable"),
                                   "N/A", specialist)];
      k := k + 1;
    }
  }
}

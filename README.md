# Diagnosense core: a Dafny model

This project models the deterministic core of the clinical decision-support demo.
The user describes symptoms. The system ranks the rows of a disease/symptom corpus by embedding similarity. It keeps the best three distinct diseases, and it looks up medication and nearby clinics for them.

Modules:

- `Wrappers`: `Option`, `Outcome` (a call returned a value or raised with a message) and `Result`.
- `Text`: Python's `str.strip()` over the characters for which `str.isspace()` holds, ASCII `lower()`, `replace` of one character, and `', '.join`.
- `FirstOccurrence`: "keep the first occurrence of each key" on sequences. It serves pandas' `drop_duplicates` and the label de-duplication of the ranker.
- `ModelLogic` (`model_logic.py`):
  - clean-up of the corpus;
  - the choice of engine by mode;
  - the top-3 loop over the ranked hits;
  - the medication lookup that ignores case and padding;
  - construction of the clinic records from a geosearch reply.
- `Vitals` (`app.py`): the glucose, systolic-pressure and SpO2 thresholds, and the dashboard colours.
- `Wizard` (`app.py`): the Streamlit session as a class. It has one method per button, and an invariant that every handler keeps.
- `ApiServer` (`api_server.py`): the request validation and status-code decision of each Flask handler. Each handler is a function of the decoded JSON body and of what its downstream call did.
- `Backend` (`backend/app.py`): the inverted label mapping, the two recommendation tables, and the assembly of the `/predict` answer from the classifier's top three.

Everything outside the core is an input:

- The embedding models, similarity and `topk` deliver a ranked list of `(row index, score)` hits. Scores are integer hundredths of a percent, which is `round(x * 100, 2)` scaled by 100.
- The classifier of `backend/app.py` delivers a ranking of `(class id, confidence)`.
- The medication and specialist tables are parameters.
- The Geoapify reply is a `PlacesReply`.
- The outcome of the language-model call, and of any call that may raise, is an `Outcome`.

Edge cases of the code that the model follows:

- **Empty corpus.** `torch.topk(k=5)` raises when there are fewer than five rows. Here the ranked hits are an input, and no hits give no candidates.
- **`/api/diagnosis` errors.** A truthy JSON body that is not an object, or `symptoms` that is not a string, raises before the `try`. Flask then answers with its own 500 (`Response.Unhandled`). A falsy body (`[]`, `0`, `""`, `false`, `null`) becomes `{}` and gets 400.
- **`/api/reasoning` missing input.** "Missing" symptoms or candidates mean Python-falsy ones. Whitespace-only symptoms are accepted there, unlike in `/api/diagnosis`.
- **`/api/doctors` coordinates.** A missing coordinate means an absent or `null` one. A coordinate of `0` is accepted.

## Model

| member | source | states |
|---|---|---|
| Text.Strip | clinical-cds-system/model_logic.py:31 | the result has no leading or trailing whitespace |
| Text.Lower | clinical-cds-system/model_logic.py:190 | `lower()` keeps the length, turns each upper-case ASCII letter into its own lower-case letter (32 code points on), leaves no upper-case ASCII letter, and keeps every other character |
| Text.StripIsTrimmedSlice | clinical-cds-system/model_logic.py:31 | `strip()` returns a contiguous slice of its argument, and only whitespace is cut on either side |
| Text.StripEmptyIffBlank | clinical-cds-system/app.py:81 | `not s.strip()` holds exactly when every character of `s` is whitespace |
| Text.StripIgnoresSurroundingSpace | clinical-cds-system/model_logic.py:190 | whitespace added around a string does not change its stripped form |
| Text.NormalizeIgnoresCaseAndPadding | clinical-cds-system/model_logic.py:190 | two strings equal up to letter case and surrounding whitespace have the same `lower().strip()` |
| Text.ReplaceChar | clinical-cds-system/model_logic.py:36 | `replace('_', ' ')` keeps the length, turns each `_` into a space, keeps every other character, so no `_` is left |
| Text.Join | clinical-cds-system/model_logic.py:36 | every character of `', '.join(parts)` comes from the separator or from one of the parts |
| Text.JoinSnoc | clinical-cds-system/model_logic.py:36 | one part joins to itself, and one more part appends the separator and that part: the parts appear in order with `', '` between neighbours |
| Text.JoinAvoids | clinical-cds-system/model_logic.py:36 | a character absent from the separator and from every part is absent from the joined text |
| FirstOccurrence.FirstPositions | clinical-cds-system/model_logic.py:44 | the positions kept are strictly increasing, each the first occurrence of its key, and every key occurring earlier keeps one position |
| FirstOccurrence.KeptCountIsDistinctKeys | clinical-cds-system/model_logic.py:44 | as many positions are kept as there are distinct keys |
| FirstOccurrence.KeepFirstSpec | clinical-cds-system/model_logic.py:44 | keep-first yields an order-preserving subsequence without repeats, containing every input element and nothing else |
| ModelLogic.PresentPositions | clinical-cds-system/model_logic.py:36 | the positions `dropna()` keeps are strictly increasing, each of a present cell, and include every present cell |
| ModelLogic.PresentCells | clinical-cds-system/model_logic.py:36 | `dropna()` gives the values of the present cells in column order, each once: the `k`-th value is the cell at the `k`-th present position |
| ModelLogic.SymptomText | clinical-cds-system/model_logic.py:35-38 | a merged symptom text never contains `_`, and a row without present cells gives the empty text |
| ModelLogic.NormalizeRow | clinical-cds-system/model_logic.py:31-38 | a normalised row has a label without surrounding whitespace and a text without `_` |
| ModelLogic.LoadAndPreprocess | clinical-cds-system/model_logic.py:25-45 | the cleaned corpus has no repeated `(label, text)` pair and holds only normalised input rows |
| ModelLogic.LoadAndPreprocessSpec | clinical-cds-system/model_logic.py:25-45 | the cleaned corpus has no repeated `(label, text)` pair, keeps every normalised input row and keeps file order |
| ModelLogic.LoadAndPreprocessRowsNormalized | clinical-cds-system/model_logic.py:31-38 | every cleaned row has a stripped label and a text free of `_` |
| ModelLogic.SelectEngine | clinical-cds-system/model_logic.py:161-162 | model and embeddings are always from the same engine, and it is the fast one exactly when the mode is `"Fast"` |
| ModelLogic.TopThree | clinical-cds-system/model_logic.py:170-185 | the reference result of the loop: a prefix of at most three of the distinct-label candidates, and all of them when there are fewer than three |
| ModelLogic.GetTop3Diagnosis | clinical-cds-system/model_logic.py:159-185 | the loop with its `seen_labels` set and early `break` returns the first three distinct-label candidates of the selected engine's ranking |
| ModelLogic.ScanStep | clinical-cds-system/model_logic.py:173-180 | one step of the loop adds the hit's label to `seen_labels` and appends its candidate exactly when that label was not seen before |
| ModelLogic.TopThreeOnceThreeKept | clinical-cds-system/model_logic.py:182-183 | once three candidates are kept, the hits after the `break` cannot change the result |
| ModelLogic.TopThreeBounds | clinical-cds-system/model_logic.py:170-185 | at most three candidates, and never more than there are hits |
| ModelLogic.TopThreeCount | clinical-cds-system/model_logic.py:173-185 | the number of candidates is min(3, number of distinct labels among the hits) |
| ModelLogic.TopThreeDistinctLabels | clinical-cds-system/model_logic.py:178-180 | no two candidates share a label |
| ModelLogic.TopThreeFirstOccurrences | clinical-cds-system/model_logic.py:173-180 | each candidate comes from the first hit with its label, with its score, in ranking order |
| ModelLogic.TopThreeConfidenceOrder | clinical-cds-system/model_logic.py:168-179 | for a ranking in descending score order, the candidates' confidences are non-increasing |
| ModelLogic.TopThreeShortMeansAllLabels | clinical-cds-system/model_logic.py:173-185 | fewer than three candidates only when every label among the hits is already a candidate |
| ModelLogic.FirstMatch | clinical-cds-system/model_logic.py:189-192 | for any normalisation, a record found is that of an entry whose key normalises like the query |
| ModelLogic.Lookup | clinical-cds-system/model_logic.py:189-192 | a record found is that of an entry whose key matches the query under `lower().strip()` |
| ModelLogic.GetMedicineDetails | clinical-cds-system/model_logic.py:187-192 | the table scan returns the record of the first matching entry, or `None` |
| ModelLogic.LookupNoneIffNoMatch | clinical-cds-system/model_logic.py:189-192 | `None` exactly when no key matches under `lower().strip()` |
| ModelLogic.LookupReturnsFirstMatch | clinical-cds-system/model_logic.py:189-191 | the first matching key in table order has its record returned, and any record returned belongs to that first matching key |
| ModelLogic.LookupDependsOnNormalForm | clinical-cds-system/model_logic.py:190 | queries with the same `lower().strip()` get the same answer |
| ModelLogic.LookupIgnoresCaseAndPadding | clinical-cds-system/model_logic.py:190 | case and surrounding whitespace of the query do not matter |
| ModelLogic.LookupUpperAndLowerCaseAgree | clinical-cds-system/model_logic.py:190 | `"DIABETES"` and `" diabetes "` get the same answer for every table |
| ModelLogic.LookupOwnKey | clinical-cds-system/model_logic.py:189-191 | when no two keys normalise alike, each key finds its own record |
| ModelLogic.GetNearbyDoctors | clinical-cds-system/model_logic.py:222-251 | a failed request, or a feature without `properties`, gives `[]`; otherwise one record per feature, with the mapped specialist (default "General Physician"), rating "N/A", and name and address defaulting to "<specialist> Clinic" and "Address unavailable" |
| Vitals.GlucoseStatus | clinical-cds-system/app.py:123 | critical exactly above 200 mg/dL, high exactly in (140, 200], normal exactly at or below 140 |
| Vitals.GlucoseDelta | clinical-cds-system/app.py:123 | the glucose delta text is the text of the glucose status |
| Vitals.GlucoseColor | clinical-cds-system/app.py:128 | the inverse colour exactly when the glucose status is not normal |
| Vitals.BloodPressureStatus | clinical-cds-system/app.py:133 | critical exactly from 180 mmHg, high exactly in (130, 180), normal exactly at or below 130 |
| Vitals.BloodPressureDelta | clinical-cds-system/app.py:133 | the pressure delta text is the text of the pressure status |
| Vitals.BloodPressureColor | clinical-cds-system/app.py:138 | the inverse colour exactly when the pressure status is not normal |
| Vitals.OxygenStatus | clinical-cds-system/app.py:143 | critical exactly below 92 %, low exactly in [92, 95), normal exactly from 95 % |
| Vitals.OxygenDelta | clinical-cds-system/app.py:143 | the saturation delta text is the text of the saturation status |
| Vitals.OxygenColor | clinical-cds-system/app.py:148 | the inverse colour exactly when the saturation status is not normal |
| Vitals.StatusTextInjective | clinical-cds-system/app.py:123-148 | different statuses are shown with different texts, so the delta shown determines the status |
| Vitals.StatusesAreMonotone | clinical-cds-system/app.py:123-148 | a worse reading (higher glucose or pressure, lower saturation) never gets a less severe status |
| Wizard.Session.constructor | clinical-cds-system/app.py:11-22 | a fresh session is on the profile page at the initial step with empty data, and satisfies the session invariant |
| Wizard.Session.SubmitProfile | clinical-cds-system/app.py:79-101 | a blank name changes nothing; otherwise the profile is stored and the diagnosis page opens at the initial step; the invariant is kept |
| Wizard.Session.EditProfile | clinical-cds-system/app.py:105-110 | back to the profile page at the initial step, all data kept, invariant kept |
| Wizard.Session.Analyze | clinical-cds-system/app.py:165-174 | blank symptoms change nothing; otherwise the top three of the selected engine and the symptoms are stored and the follow-up step begins; the stored candidates are at most three distinct labels |
| Wizard.Session.Finalize | clinical-cds-system/app.py:206-213 | a blank follow-up changes nothing; otherwise it is stored and the final step begins |
| Wizard.Session.StartOver | clinical-cds-system/app.py:241-243 | the session returns to exactly the fresh-session defaults |
| ApiServer.Truthy | clinical-cds-system/api_server.py:45 | a JSON value is truthy exactly when it is none of `null`, `false`, `0`, `""`, `[]`, `{}` |
| ApiServer.RequestData | clinical-cds-system/api_server.py:16 | a `null` body and every falsy body read as `{}`, and a truthy body is used as is |
| ApiServer.HealthCheck | clinical-cds-system/api_server.py:8-11 | status 200 with exactly the status, service and version fields |
| ApiServer.Diagnosis | clinical-cds-system/api_server.py:13-35 | 400 exactly for blank symptoms; unhandled exactly for a non-object body or non-string symptoms; 200 exactly when the ranker returns, echoing the candidates, `mode` (default "Fast") and `selectedBodyPart` (default null); a raising ranker on non-blank string symptoms gives exactly 500 with its message, and a 500 reply comes only from that |
| ApiServer.DiagnosisBlankIgnoresRanker | clinical-cds-system/api_server.py:21-27 | with blank symptoms the answer is the same 400 whatever the ranker would do |
| ApiServer.DiagnosisWithoutBody | clinical-cds-system/api_server.py:16-22 | a `null` JSON body behaves as the body `{}` and gets 400 |
| ApiServer.Reasoning | clinical-cds-system/api_server.py:37-55 | 400 exactly when symptoms or candidates are falsy; 200 with the reasoning exactly when the call returns; a raising call on valid input gives exactly 500 with both the error and the "Clinical analysis unavailable: " fallback, and a 500 reply comes only from that |
| ApiServer.WhitespaceSymptomsDiffer | clinical-cds-system/api_server.py:42-46 | whitespace-only symptoms are refused by `/api/diagnosis` but accepted by `/api/reasoning` |
| ApiServer.Medicine | clinical-cds-system/api_server.py:57-70 | 200 with the disease echoed exactly when a record is found; 404 exactly when none is; 500 with the message exactly when the lookup raises |
| ApiServer.MedicineOverLookup | clinical-cds-system/api_server.py:62-67 | over the table lookup, 200 exactly when some key matches after `lower().strip()`, 404 exactly when none does |
| ApiServer.Doctors | clinical-cds-system/api_server.py:72-89 | 400 exactly when the disease is falsy or a coordinate is absent or null; 200 with the records and disease exactly when the lookup returns; a raising lookup on valid input gives exactly 500 with its message, and a 500 reply comes only from that |
| ApiServer.DoctorsAcceptsZeroCoordinates | clinical-cds-system/api_server.py:80 | coordinates of 0 are not refused |
| Backend.Invert | clinical-cds-system/backend/app.py:18 | the keys of `id2label` are exactly the ids of the label mapping |
| Backend.InvertLastWins | clinical-cds-system/backend/app.py:18 | an id maps to the label of the last item carrying it |
| Backend.InvertPairsAreItems | clinical-cds-system/backend/app.py:18 | every `(id, label)` of the inverse is an item of the mapping, reversed |
| Backend.InvertRoundTrip | clinical-cds-system/backend/app.py:18 | with distinct ids, `id2label[label_mapping[k]] == k` for every key |
| Backend.RecommendedTests | clinical-cds-system/backend/app.py:58-65 | the fixed lists for Migraine, Arthritis and Hypertension; the general list exactly for every other disease |
| Backend.GeneralRecommendations | clinical-cds-system/backend/app.py:68-74 | urgent consultation exactly for Hypertension and Heart Disease, routine otherwise; constant self-care and avoid advice |
| Backend.RecommendationsDependOnlyOnUrgency | clinical-cds-system/backend/app.py:68-74 | two diseases on the same side of the urgency test get identical recommendations |
| Backend.PredictionFor | clinical-cds-system/backend/app.py:40-46 | a record carries the label of its id and its confidence, and the general tests exactly when that label has no list of its own |
| Backend.Predict | clinical-cds-system/backend/app.py:21-55 | no body, fewer than three classes, or an unknown id among the top three give the matching error; an unknown id is reported as the first one in ranking order. Otherwise there are exactly three records in ranking order, each with its recommended tests; the recommendations are those of the best one, and the symptoms are echoed |

## Left out

- Sentence embeddings, cosine similarity, `torch.topk`, the classifier and the softmax are floating-point library calls over tensors. Their output is an input here: a ranked list of hits with valid row indices, and a ranking of class ids.
- `round(x * 100, 2)` is floating point. Scores and confidences are given as integer hundredths of a percent.
- Loading of the models, the embeddings, the label-mapping file and the CSV file, and the Streamlit caching decorators, are resource management. Also out: the `Symptom` column selection and the header `strip()`. The model starts from rows already split into a disease cell and the symptom cells.
- `get_gemini_reasoning`, `get_clarifying_questions`, and the Geoapify `requests.get` with the URL it builds, are network I/O. Their results are parameters (`Outcome`, `PlacesReply`).
- Reading of `GEMINI_API_KEY` and `GEOAPIFY_API_KEY` from the environment, and the start-up failure without a Gemini key, are process configuration.
- The contents of `specialist_map` and `detailed_med_map` are static data. The model takes any table in the source's order.
- Streamlit rendering is presentation: titles, metrics, the vitals dashboard layout, the follow-up step calling the reasoning, the final step's medication display, and the `st.stop()` on a reasoning exception.
- Flask routing, CORS, JSON serialisation, `print` logging and server start-up are framework plumbing. JSON numbers are integers in the model.
- `ApiServer.Diagnosis`: an exception that Flask turns into its 500 page (`Unhandled`) carries no body in the model.
- `ApiServer.RequestData`: `None` is a `request.json` of `None`, that is a JSON `null` body. On current Werkzeug, `request.json` itself raises on a request that is not JSON (an error status) before the handler's `or {}` runs; that framework behaviour is not modelled.
- `Text.Lower`: models `str.lower()` for ASCII letters only, because Unicode case mapping is a large table outside the core.
- `ModelLogic.GetNearbyDoctors`: property values are strings. A property present with value `null` is not distinguished from any other value.
- `Backend.Predict`: a `request.json` that is not an object, and tokenizer failures, are not modelled separately. The exception message `str(e)` is an error datatype.

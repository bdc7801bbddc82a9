/** The request validation and status-code decisions of the HTTP API
    (`api_server.py`). Each handler is a function of the decoded request body
    and of what the downstream call (ranker, reasoning, lookup) did. */
module ApiServer {
  import opened Wrappers
  import Text
  import ModelLogic

  /** A decoded JSON value (numbers are integers here). */
  datatype Json =
    | JNull
    | JBool(b: bool)
    | JNumber(n: int)
    | JString(s: string)
    | JArray(items: seq<Json>)
    | JObject(fields: map<string, Json>)

  /** Python truthiness of a decoded value: `None`, `False`, `0`, `""`, `[]`
      and `{}` are false. */
  predicate Truthy(j: Json)
    ensures Truthy(j) <==>
              && j != JNull && j != JBool(false) && j != JNumber(0)
              && j != JString("") && j != JArray([]) && j != JObject(map[])
  {
    match j
    case JNull => false
    case JBool(b) => b
    case JNumber(n) => n != 0
    case JString(s) => |s| != 0
    case JArray(items) => |items| != 0
    case JObject(fields) => fields != map[]
  }

  /** A handler's answer: a JSON body with its status code, or an exception
      that escapes the handler, which Flask turns into its own 500 page. */
  datatype Response = Reply(status: int, body: Json) | Unhandled

  /** The status code the client sees. */
  function StatusOf(r: Response): int
  {
    if r.Unhandled? then 500 else r.status
  }

  /** `request.json or {}`, where `None` is a `request.json` of `None` (a
      JSON `null` body): that and every falsy body read as the empty object. */
  function RequestData(body: Option<Json>): (data: Json)
    ensures body.None? ==> data == JObject(map[])
    ensures body.Some? && !Truthy(body.value) ==> data == JObject(map[])
    ensures body.Some? && Truthy(body.value) ==> data == body.value
  {
    if body.None? || !Truthy(body.value) then JObject(map[]) else body.value
  }

  /** `data.get(key, default)`. */
  function Get(data: Json, key: string, default: Json): Json
    requires data.JObject?
  {
    if key in data.fields then data.fields[key] else default
  }

  /** `{'error': message}`. */
  function ErrorBody(message: string): Json
  {
    JObject(map["error" := JString(message)])
  }

  /** `GET /`: always the same three fields, status 200. */
  function HealthCheck(): (r: Response)
    ensures StatusOf(r) == 200 && r.Reply? && r.body.JObject?
    ensures r.body.fields.Keys == {"status", "service", "version"}
    ensures r.body.fields["status"] == JString("ok")
    ensures r.body.fields["service"] == JString("Diagnosense API")
    ensures r.body.fields["version"] == JString("2.0")
  {
    Reply(200, JObject(map["status" := JString("ok"), "service" := JString("Diagnosense API"),
                            "version" := JString("2.0")]))
  }

  // ----- POST /api/diagnosis -----

  function CandidateJson(c: ModelLogic.Candidate): Json
  {
    JObject(map["label" := JString(c.disease), "confidence" := JNumber(c.confidence)])
  }

  function CandidatesJson(cs: seq<ModelLogic.Candidate>): Json
  {
    JArray(seq(|cs|, k requires 0 <= k < |cs| => CandidateJson(cs[k])))
  }

  /** The symptoms of a diagnosis request are a blank string. */
  predicate BlankSymptoms(data: Json)
  {
    data.JObject? && Get(data, "symptoms", JString("")).JString? && Text.IsBlank(Get(data, "symptoms", JString("")).s)
  }

  /** `api_get_diagnosis`, given what `get_top_3_diagnosis` did. Blank
      symptoms give 400 before the ranker is called; a failing ranker gives
      500 with its message; otherwise the candidates are returned with the
      `mode` (default "Fast") and `selectedBodyPart` (default null) echoed.
      A body that is not an object, or symptoms that are not a string, make
      `.get` or `.strip()` raise outside the `try`. */
  function Diagnosis(body: Option<Json>, ranked: Outcome<seq<ModelLogic.Candidate>>): (r: Response)
    ensures StatusOf(r) == 400 <==> BlankSymptoms(RequestData(body))
    ensures r.Unhandled? <==> !RequestData(body).JObject? || !Get(RequestData(body), "symptoms", JString("")).JString?
    ensures StatusOf(r) == 200 <==>
              && RequestData(body).JObject? && Get(RequestData(body), "symptoms", JString("")).JString?
              && !BlankSymptoms(RequestData(body)) && ranked.Returned?
    ensures StatusOf(r) == 200 ==>
              r.body == JObject(map["diagnosis" := CandidatesJson(ranked.value),
                                    "mode" := Get(RequestData(body), "mode", JString("Fast")),
                                    "selectedBodyPart" := Get(RequestData(body), "selectedBodyPart", JNull)])
    ensures r.Reply? && r.status == 500 ==> ranked.Raised? && r.body == ErrorBody(ranked.message)
    ensures && RequestData(body).JObject? && Get(RequestData(body), "symptoms", JString("")).JString?
            && !BlankSymptoms(RequestData(body)) && ranked.Raised? ==>
              r == Reply(500, ErrorBody(ranked.message))
  {
    var data := RequestData(body);
    if !data.JObject? then Unhandled
    else
      var userInput := Get(data, "symptoms", JString(""));
      var mode := Get(data, "mode", JString("Fast"));
      var selectedBody := Get(data, "selectedBodyPart", JNull);
      if !userInput.JString? then Unhandled
      else
        Text.StripEmptyIffBlank(userInput.s);
        if |Text.Strip(userInput.s)| == 0 then Reply(400, ErrorBody("Symptoms are required"))
        else match ranked
          case Raised(message) => Reply(500, ErrorBody(message))
          case Returned(diagnosis) =>
            Reply(200, JObject(map["diagnosis" := CandidatesJson(diagnosis), "mode" := mode,
                                   "selectedBodyPart" := selectedBody]))
  }

  /** With blank symptoms the answer does not depend on the ranker at all:
      the ranker is not invoked. */
  lemma DiagnosisBlankIgnoresRanker(body: Option<Json>, r1: Outcome<seq<ModelLogic.Candidate>>,
                                    r2: Outcome<seq<ModelLogic.Candidate>>)
    requires BlankSymptoms(RequestData(body))
    ensures Diagnosis(body, r1) == Diagnosis(body, r2) == Reply(400, ErrorBody("Symptoms are required"))
  {
    Text.StripEmptyIffBlank(Get(RequestData(body), "symptoms", JString("")).s);
  }

  /** A `null` JSON body is treated as `{}` and rejected with 400. */
  lemma DiagnosisWithoutBody(ranked: Outcome<seq<ModelLogic.Candidate>>)
    ensures Diagnosis(None, ranked) == Diagnosis(Some(JObject(map[])), ranked)
    ensures StatusOf(Diagnosis(None, ranked)) == 400
  {
    assert BlankSymptoms(JObject(map[]));
  }

  // ----- POST /api/reasoning -----

  /** A reasoning request lacks symptoms or candidates (in Python's sense of
      falsy). */
  predicate MissingReasoningInput(data: Json)
    requires data.JObject?
  {
    !Truthy(Get(data, "symptoms", JString(""))) || !Truthy(Get(data, "candidates", JArray([])))
  }

  /** `api_get_reasoning`, given what `get_gemini_reasoning` did. Falsy
      symptoms or candidates give 400; there is no `strip` here. */
  function Reasoning(body: Option<Json>, reasoned: Outcome<string>): (r: Response)
    ensures r.Unhandled? <==> !RequestData(body).JObject?
    ensures StatusOf(r) == 400 <==> RequestData(body).JObject? && MissingReasoningInput(RequestData(body))
    ensures StatusOf(r) == 200 <==>
              RequestData(body).JObject? && !MissingReasoningInput(RequestData(body)) && reasoned.Returned?
    ensures StatusOf(r) == 200 ==> r.body == JObject(map["reasoning" := JString(reasoned.value)])
    ensures r.Reply? && r.status == 500 ==>
              && reasoned.Raised?
              && r.body == JObject(map["error" := JString(reasoned.message),
                                       "reasoning" := JString("Clinical analysis unavailable: " + reasoned.message)])
    ensures RequestData(body).JObject? && !MissingReasoningInput(RequestData(body)) && reasoned.Raised? ==>
              r == Reply(500, JObject(map["error" := JString(reasoned.message),
                                          "reasoning" := JString("Clinical analysis unavailable: " + reasoned.message)]))
  {
    var data := RequestData(body);
    if !data.JObject? then Unhandled
    else
      var userInput := Get(data, "symptoms", JString(""));
      var candidates := Get(data, "candidates", JArray([]));
      if !Truthy(userInput) || !Truthy(candidates) then
        Reply(400, ErrorBody("Symptoms and candidates are required"))
      else match reasoned
        case Returned(reasoning) => Reply(200, JObject(map["reasoning" := JString(reasoning)]))
        case Raised(message) =>
          Reply(500, JObject(map["error" := JString(message),
                                 "reasoning" := JString("Clinical analysis unavailable: " + message)]))
  }

  /** Whitespace-only symptoms are refused by the diagnosis endpoint but
      accepted by the reasoning endpoint. */
  lemma WhitespaceSymptomsDiffer(candidates: seq<Json>, ranked: Outcome<seq<ModelLogic.Candidate>>,
                                 reasoned: Outcome<string>)
    requires |candidates| != 0
    ensures var body := Some(JObject(map["symptoms" := JString("  "), "candidates" := JArray(candidates)]));
            StatusOf(Diagnosis(body, ranked)) == 400 && StatusOf(Reasoning(body, reasoned)) != 400
  {
    var body := Some(JObject(map["symptoms" := JString("  "), "candidates" := JArray(candidates)]));
    var data := JObject(map["symptoms" := JString("  "), "candidates" := JArray(candidates)]);
    assert "symptoms" in data.fields;
    assert RequestData(body) == data;
    assert Get(data, "symptoms", JString("")) == JString("  ");
    assert Get(data, "candidates", JArray([])) == JArray(candidates);
    assert Text.IsBlank("  ");
    assert BlankSymptoms(data);
    assert !MissingReasoningInput(data);
  }

  // ----- GET /api/medicine/<disease> -----

  function MedInfoJson(m: ModelLogic.MedInfo): Json
  {
    JObject(map["medicine" := JString(m.medicine), "use_case" := JString(m.useCase),
                "dosage" := JString(m.dosage), "side_effects" := JString(m.sideEffects),
                "risk_level" := JString(m.riskLevel), "warnings" := JString(m.warnings)])
  }

  /** `api_get_medicine`, given what `get_medicine_details` did: a record
      gives 200 with the disease echoed, `None` gives 404, an exception 500. */
  function Medicine(disease: string, found: Outcome<Option<ModelLogic.MedInfo>>): (r: Response)
    ensures r.Reply?
    ensures StatusOf(r) == 200 <==> found.Returned? && found.value.Some?
    ensures StatusOf(r) == 404 <==> found.Returned? && found.value.None?
    ensures StatusOf(r) == 200 ==>
              r.body == JObject(map["disease" := JString(disease), "medicine" := MedInfoJson(found.value.value)])
    ensures StatusOf(r) == 500 ==> found.Raised? && r.body == ErrorBody(found.message)
    ensures found.Raised? ==> r == Reply(500, ErrorBody(found.message))
  {
    match found
    case Raised(message) => Reply(500, ErrorBody(message))
    case Returned(medInfo) =>
      // a record always serialises to a non-empty, hence truthy, object
      assert medInfo.Some? ==> "medicine" in MedInfoJson(medInfo.value).fields;
      if medInfo.Some? && Truthy(MedInfoJson(medInfo.value)) then
        Reply(200, JObject(map["disease" := JString(disease), "medicine" := MedInfoJson(medInfo.value)]))
      else
        Reply(404, ErrorBody("Medicine information not found"))
  }

  /** Over the table lookup, the endpoint answers 200 exactly when some table
      key matches the path segment after `lower().strip()`, and 404 otherwise. */
  lemma MedicineOverLookup(table: seq<ModelLogic.MedEntry>, disease: string)
    ensures StatusOf(Medicine(disease, Returned(ModelLogic.Lookup(table, disease)))) == 200 <==>
              exists i :: 0 <= i < |table| && ModelLogic.KeyMatches(table[i].key, disease)
    ensures StatusOf(Medicine(disease, Returned(ModelLogic.Lookup(table, disease)))) == 404 <==>
              forall i :: 0 <= i < |table| ==> !ModelLogic.KeyMatches(table[i].key, disease)
  {
    ModelLogic.LookupNoneIffNoMatch(table, disease);
  }

  // ----- POST /api/doctors -----

  function DoctorJson(d: ModelLogic.Doctor): Json
  {
    JObject(map["name" := JString(d.name), "address" := JString(d.address),
                "rating" := JString(d.rating), "specialty" := JString(d.specialty)])
  }

  function DoctorsJson(ds: seq<ModelLogic.Doctor>): Json
  {
    JArray(seq(|ds|, k requires 0 <= k < |ds| => DoctorJson(ds[k])))
  }

  /** A doctors request lacks a (truthy) disease or a coordinate. */
  predicate MissingDoctorsInput(data: Json)
    requires data.JObject?
  {
    !Truthy(Get(data, "disease", JString(""))) || Get(data, "lat", JNull) == JNull || Get(data, "lng", JNull) == JNull
  }

  /** `api_get_doctors`, given what `get_nearby_doctors` did. A falsy disease
      or a missing (or null) coordinate gives 400; a coordinate of 0 is fine. */
  function Doctors(body: Option<Json>, found: Outcome<seq<ModelLogic.Doctor>>): (r: Response)
    ensures r.Unhandled? <==> !RequestData(body).JObject?
    ensures StatusOf(r) == 400 <==> RequestData(body).JObject? && MissingDoctorsInput(RequestData(body))
    ensures StatusOf(r) == 200 <==>
              RequestData(body).JObject? && !MissingDoctorsInput(RequestData(body)) && found.Returned?
    ensures StatusOf(r) == 200 ==>
              r.body == JObject(map["doctors" := DoctorsJson(found.value),
                                    "disease" := Get(RequestData(body), "disease", JString(""))])
    ensures r.Reply? && r.status == 500 ==> found.Raised? && r.body == ErrorBody(found.message)
    ensures RequestData(body).JObject? && !MissingDoctorsInput(RequestData(body)) && found.Raised? ==>
              r == Reply(500, ErrorBody(found.message))
  {
    var data := RequestData(body);
    if !data.JObject? then Unhandled
    else
      var disease := Get(data, "disease", JString(""));
      var lat := Get(data, "lat", JNull);
      var lng := Get(data, "lng", JNull);
      if !Truthy(disease) || lat == JNull || lng == JNull then
        Reply(400, ErrorBody("Disease and location (lat, lng) are required"))
      else match found
        case Returned(doctors) => Reply(200, JObject(map["doctors" := DoctorsJson(doctors), "disease" := disease]))
        case Raised(message) => Reply(500, ErrorBody(message))
  }

  /** Coordinates of zero are accepted: only a missing or null coordinate is refused. */
  lemma DoctorsAcceptsZeroCoordinates(disease: string, found: Outcome<seq<ModelLogic.Doctor>>)
    requires |disease| != 0
    ensures StatusOf(Doctors(Some(JObject(map["disease" := JString(disease), "lat" := JNumber(0),
                                              "lng" := JNumber(0)])), found)) != 400
  {
  }
}

/**
 * Symptom reports (controllers/symptomController.js): turning one request body
 * into the one record that is created, and the patient's list, newest first.
 */
module Symptoms {
  import opened Wrappers
  import opened JsText
  import opened JsValue
  import opened StoredRows
  import opened Observations

  /** The record handed to the store: exactly these five fields and no others. */
  datatype SymptomRecord = SymptomRecord(
    patientId: Value,
    symptomType: Value,
    severity: Value,
    notes: Value,
    recordedAt: RecordedAt)

  const CategoryAliases: seq<string> := ["symptom_type", "type", "symptom"]
  const SeverityAliases: seq<string> := ["severity", "intensity"]
  const AllAliases: seq<string> := CategoryAliases + SeverityAliases + NotesAliases + TimeAliases

  const MissingCategory := HttpError(400, "symptom_type (or type) is required")

  /**
   * addSymptom: `body` is the request body (Null when there is none), `pathId`
   * the `:id` path segment, `now` the server clock. Each field is the ordered
   * alias table read as the table says: category and time by truthiness,
   * severity and notes by `!= null`.
   */
  function AddSymptom(pathId: string, body: Value, now: int): (r: Result<SymptomRecord, HttpError>)
    ensures r.Success? <==> SomeTruthy(OrElse(body, Obj(map[])), CategoryAliases)
    ensures r.Failure? ==> r.error == MissingCategory
    ensures r.Success? ==> var b := OrElse(body, Obj(map[]));
      r.value == SymptomRecord(
        ParseInt(Str(pathId)),
        FirstTruthy(b, CategoryAliases),
        ParsedOrNull(FirstPresent(b, SeverityAliases)),
        ValueOrNull(FirstPresent(b, NotesAliases)),
        StampOrClock(FirstTruthy(b, TimeAliases), now))
  {
    var patientId := ParseInt(Str(pathId));
    var b := OrElse(body, Obj(map[]));
    var symptomType := OrElse(OrElse(Prop(b, "symptom_type"), Prop(b, "type")), Prop(b, "symptom"));
    var severity :=
      if IsPresent(Prop(b, "severity")) then ParseInt(Prop(b, "severity"))
      else if IsPresent(Prop(b, "intensity")) then ParseInt(Prop(b, "intensity"))
      else Null;
    var notes := IfPresent(Prop(b, "notes"), IfPresent(Prop(b, "note"), Null));
    var recordedAt := StampOrClock(OrElse(Prop(b, "recorded_at"), Prop(b, "timestamp")), now);
    ChainOfThree(b, "symptom_type", "type", "symptom");
    ChainOfTwo(b, "recorded_at", "timestamp");
    if !Truthy(symptomType) then Failure(MissingCategory)
    else Success(SymptomRecord(patientId, symptomType, severity, notes, recordedAt))
  }

  /** A missing body reads as {} and is therefore rejected. */
  lemma MissingBodyRejected(pathId: string, now: int)
    ensures AddSymptom(pathId, Null, now) == Failure(MissingCategory)
  {
  }

  /** The four alias tables of two bodies that agree on every alias read the same. */
  lemma SameTables(b1: Value, b2: Value)
    requires forall k :: k in AllAliases ==> Prop(b1, k) == Prop(b2, k)
    ensures FirstTruthy(b1, CategoryAliases) == FirstTruthy(b2, CategoryAliases)
    ensures FirstPresent(b1, SeverityAliases) == FirstPresent(b2, SeverityAliases)
    ensures FirstPresent(b1, NotesAliases) == FirstPresent(b2, NotesAliases)
    ensures FirstTruthy(b1, TimeAliases) == FirstTruthy(b2, TimeAliases)
  {
    assert AllAliases == ["symptom_type", "type", "symptom", "severity", "intensity", "notes", "note", "recorded_at", "timestamp"];
    SameOnAliases(b1, b2, CategoryAliases);
    SameOnAliases(b1, b2, SeverityAliases);
    SameOnAliases(b1, b2, NotesAliases);
    SameOnAliases(b1, b2, TimeAliases);
  }

  /** Keys outside the alias table play no part: two bodies that agree on it give the same answer. */
  lemma OtherKeysIgnored(pathId: string, b1: map<string, Value>, b2: map<string, Value>, now: int)
    requires forall k :: k in AllAliases ==> Prop(Obj(b1), k) == Prop(Obj(b2), k)
    ensures AddSymptom(pathId, Obj(b1), now) == AddSymptom(pathId, Obj(b2), now)
  {
    var o1 := Obj(b1);
    var o2 := Obj(b2);
    SameTables(o1, o2);
    assert OrElse(o1, Obj(map[])) == o1;
    assert OrElse(o2, Obj(map[])) == o2;
    var r1 := AddSymptom(pathId, o1, now);
    var r2 := AddSymptom(pathId, o2, now);
    assert r1.Success? <==> Truthy(FirstTruthy(o1, CategoryAliases));
    assert r2.Success? <==> Truthy(FirstTruthy(o2, CategoryAliases));
  }

  /**
   * Severity passes through as the client's integer: 0 is kept (it is not
   * null), and values outside 1..10 are not clamped.
   */
  lemma SeverityNotClamped(pathId: string, category: string, n: int, now: int)
    requires category != ""
    ensures var body := Obj(map["symptom_type" := Str(category), "severity" := Num(n)]);
      AddSymptom(pathId, body, now).Success? && AddSymptom(pathId, body, now).value.severity == Num(n)
  {
    var body := Obj(map["symptom_type" := Str(category), "severity" := Num(n)]);
    assert Prop(body, CategoryAliases[0]) == Str(category);
    assert Prop(body, SeverityAliases[0]) == Num(n);
    assert FirstPresent(body, SeverityAliases) == Some(Num(n));
    var r := AddSymptom(pathId, body, now);
    assert r.Success?;
    assert r.value.severity == ParsedOrNull(FirstPresent(body, SeverityAliases));
    ParseIntOfNum(n);
  }

  /** intensity is not read when severity is present. */
  lemma SeverityBeforeIntensity(pathId: string, m: int, n: int, now: int)
    ensures var body := Obj(map["type" := Str("nausea"), "severity" := Num(m), "intensity" := Num(n)]);
      AddSymptom(pathId, body, now).Success? && AddSymptom(pathId, body, now).value.severity == Num(m)
  {
    var body := Obj(map["type" := Str("nausea"), "severity" := Num(m), "intensity" := Num(n)]);
    assert Prop(body, CategoryAliases[1]) == Str("nausea");
    assert Prop(body, SeverityAliases[0]) == Num(m);
    assert FirstPresent(body, SeverityAliases) == Some(Num(m));
    var r := AddSymptom(pathId, body, now);
    assert r.Success?;
    assert r.value.severity == ParsedOrNull(FirstPresent(body, SeverityAliases));
    ParseIntOfNum(m);
  }

  /** intensity is the fallback when severity is absent. */
  lemma IntensityIsFallback(pathId: string, n: int, now: int)
    ensures var body := Obj(map["type" := Str("nausea"), "intensity" := Num(n)]);
      AddSymptom(pathId, body, now).Success? && AddSymptom(pathId, body, now).value.severity == Num(n)
  {
    var body := Obj(map["type" := Str("nausea"), "intensity" := Num(n)]);
    assert Prop(body, CategoryAliases[1]) == Str("nausea");
    assert Prop(body, SeverityAliases[0]) == Null;
    assert Prop(body, SeverityAliases[1]) == Num(n);
    assert FirstPresent(body, SeverityAliases) == Some(Num(n));
    var r := AddSymptom(pathId, body, now);
    assert r.Success?;
    assert r.value.severity == ParsedOrNull(FirstPresent(body, SeverityAliases));
    ParseIntOfNum(n);
  }

  /** An empty notes string is kept (it is not null) and hides `note`. */
  lemma EmptyNotesKept(pathId: string, now: int)
    ensures var body := Obj(map["symptom" := Str("cough"), "notes" := Str(""), "note" := Str("x")]);
      AddSymptom(pathId, body, now).value.notes == Str("")
  {
    var body := Obj(map["symptom" := Str("cough"), "notes" := Str(""), "note" := Str("x")]);
    assert Prop(body, CategoryAliases[2]) == Str("cough");
    assert Prop(body, NotesAliases[0]) == Str("");
    assert FirstPresent(body, NotesAliases) == Some(Str(""));
    var r := AddSymptom(pathId, body, now);
    assert r.Success?;
    assert r.value.notes == ValueOrNull(FirstPresent(body, NotesAliases));
  }

  /** An empty category string is skipped in favour of the next alias. */
  lemma EmptyCategorySkipped(pathId: string, now: int)
    ensures var body := Obj(map["symptom_type" := Str(""), "type" := Str("fatigue")]);
      AddSymptom(pathId, body, now).value.symptomType == Str("fatigue")
  {
    var body := Obj(map["symptom_type" := Str(""), "type" := Str("fatigue")]);
    assert Prop(body, CategoryAliases[0]) == Str("");
    assert Prop(body, CategoryAliases[1]) == Str("fatigue");
    var r := AddSymptom(pathId, body, now);
    assert r.Success?;
    assert r.value.symptomType == FirstTruthy(body, CategoryAliases);
  }

  /** listSymptoms: all of the patient's rows, newest recorded_at first, without a limit. */
  function ListSymptoms(rows: seq<Row>, pathId: string): (r: seq<Row>)
    ensures IsNewestFirstAnswer(rows, ParseInt(Str(pathId)), r, None)
    ensures NewestFirstSorted(r)
    ensures multiset(r) == multiset(OwnedBy(rows, ParseInt(Str(pathId))))
  {
    var r := NewestFirst(rows, ParseInt(Str(pathId)), None);
    AnswerSorted(rows, ParseInt(Str(pathId)), r, None);
    AnswerComplete(rows, ParseInt(Str(pathId)), r);
    r
  }
}

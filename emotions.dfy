/**
 * Emotion entries (controllers/emotionController.js): the same shape of
 * handler as for symptoms, with its own category aliases and a single
 * intensity key.
 */
module Emotions {
  import opened Wrappers
  import opened JsValue
  import opened StoredRows
  import opened Observations

  /** The record handed to the store: exactly these five fields and no others. */
  datatype EmotionRecord = EmotionRecord(
    patientId: Value,
    emotionType: Value,
    intensity: Value,
    notes: Value,
    recordedAt: RecordedAt)

  const CategoryAliases: seq<string> := ["emotion_type", "mood", "emotion"]
  const IntensityAliases: seq<string> := ["intensity"]
  const AllAliases: seq<string> := CategoryAliases + IntensityAliases + NotesAliases + TimeAliases

  const MissingCategory := HttpError(400, "emotion_type (or mood) is required")

  /** addEmotion: `body` is the request body (Null when there is none), `now` the server clock. */
  function AddEmotion(pathId: string, body: Value, now: int): (r: Result<EmotionRecord, HttpError>)
    ensures r.Success? <==> SomeTruthy(OrElse(body, Obj(map[])), CategoryAliases)
    ensures r.Failure? ==> r.error == MissingCategory
    ensures r.Success? ==> var b := OrElse(body, Obj(map[]));
      r.value == EmotionRecord(
        ParseInt(Str(pathId)),
        FirstTruthy(b, CategoryAliases),
        ParsedOrNull(FirstPresent(b, IntensityAliases)),
        ValueOrNull(FirstPresent(b, NotesAliases)),
        StampOrClock(FirstTruthy(b, TimeAliases), now))
  {
    var patientId := ParseInt(Str(pathId));
    var b := OrElse(body, Obj(map[]));
    var emotionType := OrElse(OrElse(Prop(b, "emotion_type"), Prop(b, "mood")), Prop(b, "emotion"));
    var intensity := if IsPresent(Prop(b, "intensity")) then ParseInt(Prop(b, "intensity")) else Null;
    var notes := IfPresent(Prop(b, "notes"), IfPresent(Prop(b, "note"), Null));
    var recordedAt := StampOrClock(OrElse(Prop(b, "recorded_at"), Prop(b, "timestamp")), now);
    ChainOfThree(b, "emotion_type", "mood", "emotion");
    ChainOfTwo(b, "recorded_at", "timestamp");
    if !Truthy(emotionType) then Failure(MissingCategory)
    else Success(EmotionRecord(patientId, emotionType, intensity, notes, recordedAt))
  }

  /** A missing body reads as {} and is therefore rejected. */
  lemma MissingBodyRejected(pathId: string, now: int)
    ensures AddEmotion(pathId, Null, now) == Failure(MissingCategory)
  {
  }

  /** The four alias tables of two bodies that agree on every alias read the same. */
  lemma SameTables(b1: Value, b2: Value)
    requires forall k :: k in AllAliases ==> Prop(b1, k) == Prop(b2, k)
    ensures FirstTruthy(b1, CategoryAliases) == FirstTruthy(b2, CategoryAliases)
    ensures FirstPresent(b1, IntensityAliases) == FirstPresent(b2, IntensityAliases)
    ensures FirstPresent(b1, NotesAliases) == FirstPresent(b2, NotesAliases)
    ensures FirstTruthy(b1, TimeAliases) == FirstTruthy(b2, TimeAliases)
  {
    assert AllAliases == ["emotion_type", "mood", "emotion", "intensity", "notes", "note", "recorded_at", "timestamp"];
    SameOnAliases(b1, b2, CategoryAliases);
    SameOnAliases(b1, b2, IntensityAliases);
    SameOnAliases(b1, b2, NotesAliases);
    SameOnAliases(b1, b2, TimeAliases);
  }

  /** Keys outside the alias table play no part: two bodies that agree on it give the same answer. */
  lemma OtherKeysIgnored(pathId: string, b1: map<string, Value>, b2: map<string, Value>, now: int)
    requires forall k :: k in AllAliases ==> Prop(Obj(b1), k) == Prop(Obj(b2), k)
    ensures AddEmotion(pathId, Obj(b1), now) == AddEmotion(pathId, Obj(b2), now)
  {
    var o1 := Obj(b1);
    var o2 := Obj(b2);
    SameTables(o1, o2);
    assert OrElse(o1, Obj(map[])) == o1;
    assert OrElse(o2, Obj(map[])) == o2;
    var r1 := AddEmotion(pathId, o1, now);
    var r2 := AddEmotion(pathId, o2, now);
    assert r1.Success? <==> Truthy(FirstTruthy(o1, CategoryAliases));
    assert r2.Success? <==> Truthy(FirstTruthy(o2, CategoryAliases));
  }

  /** Unlike symptoms, `severity` is not an alias of intensity here. */
  lemma SeverityNotRead(pathId: string, n: int, now: int)
    ensures var body := Obj(map["mood" := Str("calm"), "severity" := Num(n)]);
      AddEmotion(pathId, body, now).Success? && AddEmotion(pathId, body, now).value.intensity == Null
  {
    var body := Obj(map["mood" := Str("calm"), "severity" := Num(n)]);
    assert Prop(body, CategoryAliases[1]) == Str("calm");
    assert Prop(body, IntensityAliases[0]) == Null;
    assert FirstPresent(body, IntensityAliases) == None;
    var r := AddEmotion(pathId, body, now);
    assert r.Success?;
  }

  /** Intensity passes through as the client's integer, 0 and out-of-range values included. */
  lemma IntensityNotClamped(pathId: string, n: int, now: int)
    ensures var body := Obj(map["mood" := Str("calm"), "intensity" := Num(n)]);
      AddEmotion(pathId, body, now).Success? && AddEmotion(pathId, body, now).value.intensity == Num(n)
  {
    var body := Obj(map["mood" := Str("calm"), "intensity" := Num(n)]);
    assert Prop(body, CategoryAliases[1]) == Str("calm");
    assert Prop(body, IntensityAliases[0]) == Num(n);
    assert FirstPresent(body, IntensityAliases) == Some(Num(n));
    var r := AddEmotion(pathId, body, now);
    assert r.Success?;
    assert r.value.intensity == ParsedOrNull(FirstPresent(body, IntensityAliases));
    ParseIntOfNum(n);
  }

  /** A supplied recorded_at wins over timestamp and over the clock. */
  lemma SuppliedTimeKept(pathId: string, t: string, u: string, now: int)
    requires t != ""
    ensures var body := Obj(map["emotion" := Str("joy"), "recorded_at" := Str(t), "timestamp" := Str(u)]);
      AddEmotion(pathId, body, now).Success? && AddEmotion(pathId, body, now).value.recordedAt == Supplied(Str(t))
  {
    var body := Obj(map["emotion" := Str("joy"), "recorded_at" := Str(t), "timestamp" := Str(u)]);
    assert Prop(body, CategoryAliases[2]) == Str("joy");
    assert Prop(body, TimeAliases[0]) == Str(t);
    var r := AddEmotion(pathId, body, now);
    assert r.Success?;
    assert IsFirstTruthy(body, TimeAliases, FirstTruthy(body, TimeAliases));
  }

  /** listEmotions: all of the patient's rows, newest recorded_at first, without a limit. */
  function ListEmotions(rows: seq<Row>, pathId: string): (r: seq<Row>)
    ensures IsNewestFirstAnswer(rows, ParseInt(Str(pathId)), r, None)
    ensures NewestFirstSorted(r)
    ensures multiset(r) == multiset(OwnedBy(rows, ParseInt(Str(pathId))))
  {
    var r := NewestFirst(rows, ParseInt(Str(pathId)), None);
    AnswerSorted(rows, ParseInt(Str(pathId)), r, None);
    AnswerComplete(rows, ParseInt(Str(pathId)), r);
    r
  }
}

/**
 * Health metrics (controllers/metricsController.js): the payload that one
 * POST creates, the patient's last 200 readings and the latest reading.
 */
module Metrics {
  import opened Wrappers
  import opened JsValue
  import opened StoredRows

  const ListLimit: nat := 200

  /**
   * `{ ...item, patient_id }`: every property the spread copies, with
   * patient_id set to the path's id whatever the item said.
   */
  function WithPatient(item: Value, patientId: Value): (r: map<string, Value>)
    ensures "patient_id" in r && r["patient_id"] == patientId
    ensures r.Keys == Spread(item).Keys + {"patient_id"}
    ensures forall k :: k in Spread(item) && k != "patient_id" ==> r[k] == Spread(item)[k]
  {
    Spread(item)["patient_id" := patientId]
  }

  /** addMetrics: the one record created from the body and the `:id` path segment. */
  function AddMetrics(pathId: string, body: Value): (r: map<string, Value>)
    ensures "patient_id" in r && r["patient_id"] == ParseInt(Str(pathId))
    ensures body.Obj? ==> r.Keys == body.fields.Keys + {"patient_id"}
    ensures body.Obj? ==> forall k :: k in body.fields && k != "patient_id" ==> r[k] == body.fields[k]
    ensures !(body.Obj? || body.Arr? || body.Str?) ==> r == map["patient_id" := ParseInt(Str(pathId))]
  {
    WithPatient(body, ParseInt(Str(pathId)))
  }

  /** The body's own patient_id never reaches the record. */
  lemma BodyPatientIgnored(pathId: string, fields: map<string, Value>, v: Value)
    ensures AddMetrics(pathId, Obj(fields["patient_id" := v])) == AddMetrics(pathId, Obj(fields))
  {
  }

  /** listMetrics: the patient's rows, newest recorded_at first, at most 200 of them. */
  function ListMetrics(rows: seq<Row>, pathId: string): (r: seq<Row>)
    ensures IsNewestFirstAnswer(rows, ParseInt(Str(pathId)), r, Some(ListLimit))
    ensures |r| <= ListLimit
    ensures NewestFirstSorted(r)
    ensures forall x :: x in r ==> x in rows && Matches(x, ParseInt(Str(pathId)))
  {
    var p := ParseInt(Str(pathId));
    var r := NewestFirst(rows, p, Some(ListLimit));
    AnswerSorted(rows, p, r, Some(ListLimit));
    forall x | x in r ensures x in rows && Matches(x, p) {
      AnswerRowsOwned(rows, p, r, Some(ListLimit), x);
    }
    r
  }

  /** A list shorter than the limit holds every row of the patient. */
  lemma ShortListIsComplete(rows: seq<Row>, pathId: string)
    requires |OwnedBy(rows, ParseInt(Str(pathId)))| <= ListLimit
    ensures multiset(ListMetrics(rows, pathId)) == multiset(OwnedBy(rows, ParseInt(Str(pathId))))
  {
    var p := ParseInt(Str(pathId));
    var r := ListMetrics(rows, pathId);
    var s :| IsNewestFirstOrder(rows, p, s) && |r| <= |s| && r == s[..|r|];
    assert |s| == |OwnedBy(rows, p)| by {
      assert |multiset(s)| == |multiset(OwnedBy(rows, p))|;
    }
    assert r == s;
  }

  /**
   * The answers `findOne` ordered by recorded_at DESC may give: a row of the
   * patient that is at least as new as every other, or null when there is none.
   */
  ghost predicate IsLatestAnswer(rows: seq<Row>, patient: Value, o: Option<Row>) {
    match o
    case None => forall x :: x in rows ==> !Matches(x, patient)
    case Some(y) =>
      y in rows && Matches(y, patient)
      && forall x :: x in rows && Matches(x, patient) ==> AtLeastAsNew(y.recordedAt, x.recordedAt)
  }

  /** latestMetrics: the newest reading of the patient, or null. */
  function LatestMetrics(rows: seq<Row>, pathId: string): (r: Option<Row>)
    ensures IsLatestAnswer(rows, ParseInt(Str(pathId)), r)
  {
    var p := ParseInt(Str(pathId));
    var s := NewestFirst(rows, p, Some(1));
    AnswerEmptyIff(rows, p, s, Some(1));
    OwnedByEmpty(rows, p);
    if s == [] then None
    else
      assert s[0] in s;
      AnswerRowsOwned(rows, p, s, Some(1), s[0]);
      forall x | x in rows && Matches(x, p) ensures AtLeastAsNew(s[0].recordedAt, x.recordedAt) {
        AnswerHeadIsNewest(rows, p, s, Some(1), x);
      }
      Some(s[0])
  }

  /** Whenever listMetrics has rows, its first row is an answer latestMetrics may give; otherwise null is. */
  lemma ListHeadIsLatest(rows: seq<Row>, pathId: string, r: seq<Row>)
    requires IsNewestFirstAnswer(rows, ParseInt(Str(pathId)), r, Some(ListLimit))
    ensures r != [] ==> IsLatestAnswer(rows, ParseInt(Str(pathId)), Some(r[0]))
    ensures r == [] ==> IsLatestAnswer(rows, ParseInt(Str(pathId)), None)
  {
    var p := ParseInt(Str(pathId));
    AnswerEmptyIff(rows, p, r, Some(ListLimit));
    OwnedByEmpty(rows, p);
    if r != [] {
      assert r[0] in r;
      AnswerRowsOwned(rows, p, r, Some(ListLimit), r[0]);
      forall x | x in rows && Matches(x, p) ensures AtLeastAsNew(r[0].recordedAt, x.recordedAt) {
        AnswerHeadIsNewest(rows, p, r, Some(ListLimit), x);
      }
    }
  }
}

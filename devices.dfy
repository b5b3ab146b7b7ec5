/**
 * Wearable devices (controllers/deviceController.js). There is no device
 * table: registering writes an audit-log entry, looking a device up is a
 * stub, and syncing writes a batch of health-metric rows.
 */
module Devices {
  import opened Wrappers
  import opened JsValue
  import opened StoredRows
  import opened Metrics

  const RegisterAction := "device_register"

  /**
   * The audit-log entry registerDevice creates. `details` holds the object
   * that JSON.stringify serialises (the serialisation itself is not modelled).
   */
  datatype AuditEntry = AuditEntry(userId: Value, action: string, details: map<string, Value>, createdAt: int)

  /** Destructuring `req.body` throws when there is no body; the handler answers 500. */
  const NoBody := HttpError(500, "Cannot destructure property 'user_id' of 'req.body' as it is undefined.")

  /** `{ device_type, details }` as JSON.stringify sees it: a property whose value is undefined is dropped. */
  function DeviceDetails(body: Value): (m: map<string, Value>)
    ensures m.Keys <= {"device_type", "details"}
    ensures forall k :: k in {"device_type", "details"} ==>
      (k in m <==> body.Obj? && k in body.fields) && (k in m ==> m[k] == body.fields[k])
  {
    var withType: map<string, Value> :=
      if body.Obj? && "device_type" in body.fields then map["device_type" := body.fields["device_type"]] else map[];
    if body.Obj? && "details" in body.fields then withType["details" := body.fields["details"]] else withType
  }

  /** registerDevice: the audit entry written for a body, at server time `now`. */
  function RegisterDevice(body: Value, now: int): (r: Result<AuditEntry, HttpError>)
    ensures r.Failure? <==> body.Null?
    ensures r.Failure? ==> r.error.status == 500
    ensures r.Success? ==>
      r.value.action == RegisterAction && r.value.userId == Prop(body, "user_id")
      && r.value.createdAt == now && r.value.details == DeviceDetails(body)
  {
    if body.Null? then Failure(NoBody)
    else Success(AuditEntry(Prop(body, "user_id"), RegisterAction, DeviceDetails(body), now))
  }

  /** Every body but a missing one is logged, whatever else it carries. */
  lemma RegisterAlwaysLogsUser(fields: map<string, Value>, now: int)
    ensures RegisterDevice(Obj(fields), now).Success?
    ensures RegisterDevice(Obj(fields), now).value.action == "device_register"
    ensures "user_id" in fields ==> RegisterDevice(Obj(fields), now).value.userId == fields["user_id"]
  {
  }

  /** getDevice: the same placeholder answer for every id. */
  function GetDevice(id: string): (r: map<string, Value>)
    ensures r.Keys == {"message"} && r["message"] == Str("not_implemented")
  {
    map["message" := Str("not_implemented")]
  }

  /** `Array.isArray(body) ? body : [body]`. */
  function Batch(body: Value): (items: seq<Value>)
    ensures body.Arr? ==> items == body.items
    ensures !body.Arr? ==> items == [body]
  {
    if body.Arr? then body.items else [body]
  }

  /** What syncDevice writes and answers: the rows of the bulk insert and `{ inserted }`. */
  datatype SyncAnswer = SyncAnswer(rows: seq<map<string, Value>>, inserted: nat)

  /** syncDevice: one row per batch item, in order, each stamped with the path's patient id. */
  function SyncDevice(pathId: string, body: Value): (r: SyncAnswer)
    ensures |r.rows| == |Batch(body)| && r.inserted == |r.rows|
    ensures forall i :: 0 <= i < |r.rows| ==>
      "patient_id" in r.rows[i] && r.rows[i]["patient_id"] == ParseInt(Str(pathId))
      && r.rows[i].Keys == Spread(Batch(body)[i]).Keys + {"patient_id"}
  {
    var items := Batch(body);
    var p := ParseInt(Str(pathId));
    var rows := seq(|items|, i requires 0 <= i < |items| => WithPatient(items[i], p));
    SyncAnswer(rows, |rows|)
  }

  /** Every other field of every item is copied unchanged. */
  lemma SyncCopiesFields(pathId: string, body: Value, i: nat, k: string)
    requires i < |Batch(body)|
    requires k in Spread(Batch(body)[i]) && k != "patient_id"
    ensures SyncDevice(pathId, body).rows[i][k] == Spread(Batch(body)[i])[k]
  {
    var items := Batch(body);
    assert SyncDevice(pathId, body).rows[i] == WithPatient(items[i], ParseInt(Str(pathId)));
  }

  /** A single object is synced as the one record addMetrics would create from it. */
  lemma SingleBodyIsAddMetrics(pathId: string, body: Value)
    requires !body.Arr?
    ensures SyncDevice(pathId, body).rows == [AddMetrics(pathId, body)]
    ensures SyncDevice(pathId, body).inserted == 1
  {
  }

  /** An array body is synced item by item as addMetrics would create each item. */
  lemma ArrayBodyIsAddMetricsEach(pathId: string, items: seq<Value>)
    ensures |SyncDevice(pathId, Arr(items)).rows| == |items|
    ensures forall i :: 0 <= i < |items| ==> SyncDevice(pathId, Arr(items)).rows[i] == AddMetrics(pathId, items[i])
  {
  }

  /** deviceMetrics: the same query as listMetrics, the patient's newest 200 readings. */
  function DeviceMetrics(rows: seq<Row>, pathId: string): (r: seq<Row>)
    ensures IsNewestFirstAnswer(rows, ParseInt(Str(pathId)), r, Some(200))
    ensures |r| <= 200
    ensures forall x :: x in r ==> x in rows && Matches(x, ParseInt(Str(pathId)))
  {
    ListMetrics(rows, pathId)
  }
}

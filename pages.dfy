/**
 * The server-rendered admin and caregiver pages (web/pages.js): the query
 * filters of the user, patient and report lists, the patient-name filter,
 * adding a patient, saving alert settings, sending messages and the report
 * CSV export. Sequelize's operator symbols `Op.or`, `Op.iLike`, `Op.gte`
 * and `Op.lte` are written as the keys "$or", "$iLike", "$gte" and "$lte".
 */
module Pages {
  import opened Wrappers
  import opened JsText
  import opened JsValue
  import opened Csv

  /** Destructuring `req.body` throws when there is no body; the handler answers 500. */
  const NoBody := HttpError(500, "Cannot destructure property of 'req.body' as it is undefined.")

  // ---------------------------------------------------------------------------
  // GET /admin/users

  const RoleNames: map<string, int> := map["patient" := 3, "caregiver" := 4, "doctor" := 2, "admin" := 1]

  /** `roleMap[role] || parseInt(role, 10)`: the property key is String(role); every mapped id is truthy. */
  function RoleId(role: Value): (r: Value)
    ensures r.Num? || r.NaN?
    ensures ToText(role) in RoleNames ==> r == Num(RoleNames[ToText(role)])
    ensures ToText(role) !in RoleNames ==> r == ParseInt(role)
  {
    if ToText(role) in RoleNames then Num(RoleNames[ToText(role)]) else ParseInt(role)
  }

  /** The role_id the list is filtered by, if any: a truthy role whose id is neither 0 nor NaN. */
  function RoleFilter(role: Value): (r: Option<int>)
    ensures r.Some? <==> Truthy(role) && Truthy(RoleId(role))
    ensures r.Some? ==> r.value != 0 && RoleId(role) == Num(r.value)
  {
    if Truthy(role) && Truthy(RoleId(role)) then Some(RoleId(role).n) else None
  }

  /** The `%q%` match on name or email. */
  function NameOrEmailLike(q: string): Value {
    var pattern := Str("%" + q + "%");
    Arr([Obj(map["name" := Obj(map["$iLike" := pattern])]), Obj(map["email" := Obj(map["$iLike" := pattern])])])
  }

  /** The `where` object of the user list, built step by step from the query string. */
  method UsersWhere(query: Value) returns (where: map<string, Value>)
    ensures where.Keys <= {"$or", "role_id", "status"}
    ensures "$or" in where <==> Truthy(Prop(query, "q"))
    ensures "$or" in where ==> where["$or"] == NameOrEmailLike(ToText(Prop(query, "q")))
    ensures "role_id" in where <==> RoleFilter(Prop(query, "role")).Some?
    ensures "role_id" in where ==> where["role_id"] == Num(RoleFilter(Prop(query, "role")).value)
    ensures "status" in where <==> Truthy(Prop(query, "status"))
    ensures "status" in where ==> where["status"] == Prop(query, "status")
  {
    var q := Prop(query, "q");
    var role := Prop(query, "role");
    var status := Prop(query, "status");
    where := map[];
    if Truthy(q) {
      where := where["$or" := NameOrEmailLike(ToText(q))];
    }
    if Truthy(role) {
      var roleId := RoleId(role);
      if Truthy(roleId) {
        where := where["role_id" := roleId];
      }
    }
    if Truthy(status) {
      where := where["status" := status];
    }
  }

  /** The four role names select their ids. */
  lemma NamedRoles()
    ensures RoleFilter(Str("patient")) == Some(3) && RoleFilter(Str("caregiver")) == Some(4)
    ensures RoleFilter(Str("doctor")) == Some(2) && RoleFilter(Str("admin")) == Some(1)
  {
  }

  /** Any other text is parsed as a number: a non-zero integer is used as the id, 0 means no filter. */
  lemma NumericRole(n: int)
    ensures RoleFilter(Str(IntToText(n))) == (if n == 0 then None else Some(n))
  {
    IntToTextSign(n);
    var t := IntToText(n);
    assert t !in RoleNames by {
      assert t[0] == '-' || IsDigit(t[0]);
    }
    ParseIntOfText(n, []);
    assert t + [] == t;
  }

  /** Role names are case-sensitive: "Admin" is neither a name nor a number, so there is no filter. */
  lemma CapitalisedRoleIgnored()
    ensures RoleFilter(Str("Admin")) == None
  {
    assert "Admin" !in RoleNames;
    ParseIntTextNoDigit("Admin");
  }

  /** A one-element array prints as its element, so `?role[]=admin` filters like `?role=admin`. */
  lemma ArrayRoleReadsAsText()
    ensures RoleFilter(Arr([Str("admin")])) == Some(1)
  {
    assert ToText(Arr([Str("admin")])) == "admin";
  }

  // ---------------------------------------------------------------------------
  // GET /admin/patients

  /** The `where` object of the patient list: the id and health status when given. */
  method PatientsWhere(query: Value) returns (where: map<string, Value>)
    ensures where.Keys <= {"id", "health_status"}
    ensures "id" in where <==> Truthy(Prop(query, "pid"))
    ensures "id" in where ==> where["id"] == Prop(query, "pid")
    ensures "health_status" in where <==> Truthy(Prop(query, "status"))
    ensures "health_status" in where ==> where["health_status"] == Prop(query, "status")
  {
    var pid := Prop(query, "pid");
    var status := Prop(query, "status");
    where := map[];
    if Truthy(pid) {
      where := where["id" := pid];
    }
    if Truthy(status) {
      where := where["health_status" := status];
    }
  }

  /** A patient with the name of its user, when it has a user with a name. */
  datatype PatientRow = PatientRow(id: int, userName: Option<string>)

  /** `p.User?.name || ''`. */
  function DisplayName(p: PatientRow): string {
    if p.userName.Some? then p.userName.value else ""
  }

  predicate NameMatches(p: PatientRow, needle: string) {
    Contains(Lower(DisplayName(p)), needle)
  }

  /** The test `.filter` applies for one lowered needle. */
  function Matcher(needle: string): PatientRow -> bool {
    p => NameMatches(p, needle)
  }

  /** `patients.filter(keep)`: the list without the patients keep refuses, in order. */
  function KeepMatching(patients: seq<PatientRow>, keep: PatientRow -> bool): (r: seq<PatientRow>)
    ensures |r| <= |patients|
  {
    if patients == [] then []
    else (if keep(patients[0]) then [patients[0]] else []) + KeepMatching(patients[1..], keep)
  }

  /** The kept patients are exactly the listed ones the test accepts. */
  lemma {:induction false} KeepMatchingMembers(patients: seq<PatientRow>, keep: PatientRow -> bool)
    ensures forall p :: p in KeepMatching(patients, keep) <==> p in patients && keep(p)
  {
    if patients != [] {
      KeepMatchingMembers(patients[1..], keep);
      assert forall p :: p in patients <==> p == patients[0] || p in patients[1..];
    }
  }

  /** The `q` filter of the patient list: without a truthy q the list is unchanged. */
  function FilterByName(patients: seq<PatientRow>, q: Value): (r: seq<PatientRow>)
    ensures !Truthy(q) ==> r == patients
    ensures Truthy(q) ==> forall p :: p in r <==> p in patients && NameMatches(p, Lower(ToText(q)))
  {
    KeepMatchingMembers(patients, Matcher(Lower(ToText(q))));
    if Truthy(q) then KeepMatching(patients, Matcher(Lower(ToText(q)))) else patients
  }

  /** Filtering keeps the list's order: it distributes over concatenation. */
  lemma {:induction false} KeepMatchingAppend(a: seq<PatientRow>, b: seq<PatientRow>, keep: PatientRow -> bool)
    ensures KeepMatching(a + b, keep) == KeepMatching(a, keep) + KeepMatching(b, keep)
  {
    if a != [] {
      var c := a + b;
      assert c != [] && c[0] == a[0] && c[1..] == a[1..] + b;
      KeepMatchingAppend(a[1..], b, keep);
      var h := if keep(a[0]) then [a[0]] else [];
      calc {
        KeepMatching(c, keep);
        h + KeepMatching(a[1..] + b, keep);
        h + (KeepMatching(a[1..], keep) + KeepMatching(b, keep));
        (h + KeepMatching(a[1..], keep)) + KeepMatching(b, keep);
        KeepMatching(a, keep) + KeepMatching(b, keep);
      }
    } else {
      assert a + b == b;
    }
  }

  /** Filtering twice with the same test is filtering once. */
  lemma {:induction false} KeepMatchingIdempotent(patients: seq<PatientRow>, keep: PatientRow -> bool)
    ensures KeepMatching(KeepMatching(patients, keep), keep) == KeepMatching(patients, keep)
  {
    if patients != [] {
      KeepMatchingIdempotent(patients[1..], keep);
      var head := if keep(patients[0]) then [patients[0]] else [];
      KeepMatchingAppend(head, KeepMatching(patients[1..], keep), keep);
      if keep(patients[0]) {
        assert KeepMatching(head, keep) == head by {
          assert head[1..] == [];
        }
      }
    }
  }

  /** The query's case does not matter. */
  lemma FilterIgnoresQueryCase(patients: seq<PatientRow>, s: string)
    ensures FilterByName(patients, Str(s)) == FilterByName(patients, Str(Lower(s)))
  {
    LowerIdempotent(s);
  }

  /** Nor does the stored name's case. */
  lemma MatchIgnoresNameCase(id: int, name: string, needle: string)
    ensures NameMatches(PatientRow(id, Some(name)), needle) == NameMatches(PatientRow(id, Some(Lower(name))), needle)
  {
    LowerIdempotent(name);
  }

  /** A patient without a user name is kept only by a query that prints as the empty text. */
  lemma NamelessPatient(id: int, needle: string)
    ensures NameMatches(PatientRow(id, None), needle) <==> needle == ""
  {
    if needle == "" {
      assert OccursAt(Lower(""), needle, 0);
    }
  }

  // ---------------------------------------------------------------------------
  // GET /admin/reports

  /** `new Date(v)` is kept as the text it is parsed from. */
  function DateOf(v: Value): Value {
    Str(ToText(v))
  }

  /** The `where` object of the report list: the patient and the created_at bounds that are given. */
  method ReportsWhere(query: Value) returns (where: map<string, Value>)
    ensures where.Keys <= {"patient_id", "created_at"}
    ensures "patient_id" in where <==> Truthy(Prop(query, "pid"))
    ensures "patient_id" in where ==> where["patient_id"] == Prop(query, "pid")
    ensures "created_at" in where <==> Truthy(Prop(query, "start")) || Truthy(Prop(query, "end"))
    ensures "created_at" in where ==>
      where["created_at"].Obj? && where["created_at"].fields.Keys <= {"$gte", "$lte"}
      && ("$gte" in where["created_at"].fields <==> Truthy(Prop(query, "start")))
      && ("$lte" in where["created_at"].fields <==> Truthy(Prop(query, "end")))
      && ("$gte" in where["created_at"].fields ==> where["created_at"].fields["$gte"] == DateOf(Prop(query, "start")))
      && ("$lte" in where["created_at"].fields ==> where["created_at"].fields["$lte"] == DateOf(Prop(query, "end")))
  {
    var pid := Prop(query, "pid");
    var start := Prop(query, "start");
    var end := Prop(query, "end");
    where := map[];
    if Truthy(pid) {
      where := where["patient_id" := pid];
    }
    if Truthy(start) || Truthy(end) {
      where := where["created_at" := Obj(map[])];
    }
    if Truthy(start) {
      where := where["created_at" := Obj(where["created_at"].fields["$gte" := DateOf(start)])];
    }
    if Truthy(end) {
      where := where["created_at" := Obj(where["created_at"].fields["$lte" := DateOf(end)])];
    }
  }

  // ---------------------------------------------------------------------------
  // POST /caregiver/patients

  const PatientRoleId := 3
  const MissingName := HttpError(400, "patientName is required")

  /** The user row a new patient gets. */
  datatype NewUser = NewUser(name: string, email: string, roleId: int, status: string)

  /** `String(patientName || '').trim()`. */
  function SubmittedName(body: Value): string {
    Trim(ToText(OrElse(Prop(body, "patientName"), Str(""))))
  }

  /** Adding a patient: a trimmed, non-empty name is required before anything is created. */
  function AddPatient(body: Value, now: int): (r: Result<NewUser, HttpError>)
    ensures body.Null? ==> r == Failure(NoBody)
    ensures !body.Null? ==> (r.Failure? <==> SubmittedName(body) == "")
    ensures !body.Null? && r.Failure? ==> r.error == MissingName
    ensures r.Success? ==>
      r.value.name != "" && !IsSpace(r.value.name[0]) && !IsSpace(r.value.name[|r.value.name| - 1])
      && r.value.name == SubmittedName(body)
      && r.value.email == "patient_" + IntToText(now) + "@example.com"
      && r.value.roleId == PatientRoleId && r.value.status == "active"
  {
    if body.Null? then Failure(NoBody)
    else
      var name := SubmittedName(body);
      if name == "" then Failure(MissingName)
      else Success(NewUser(name, "patient_" + IntToText(now) + "@example.com", PatientRoleId, "active"))
  }

  /** A name of white space only is rejected like a missing one. */
  lemma BlankNameRejected(ws: string, now: int)
    requires forall i :: 0 <= i < |ws| ==> IsSpace(ws[i])
    ensures AddPatient(Obj(map["patientName" := Str(ws)]), now) == Failure(MissingName)
  {
    var body := Obj(map["patientName" := Str(ws)]);
    assert SubmittedName(body) == "" by {
      assert Prop(body, "patientName") == Str(ws);
      var text := ToText(OrElse(Str(ws), Str("")));
      assert text == ws;
      TrimStartDrops(ws, []);
      assert ws + [] == ws;
      assert Trim(ws) == TrimEnd(TrimStart(ws));
    }
  }

  /** Surrounding white space is dropped and the rest of the name is kept as typed. */
  lemma NameIsTrimmed(pre: string, name: string, post: string, now: int)
    requires forall i :: 0 <= i < |pre| ==> IsSpace(pre[i])
    requires forall i :: 0 <= i < |post| ==> IsSpace(post[i])
    requires name != [] && !IsSpace(name[0]) && !IsSpace(name[|name| - 1])
    ensures AddPatient(Obj(map["patientName" := Str(pre + name + post)]), now).Success?
    ensures AddPatient(Obj(map["patientName" := Str(pre + name + post)]), now).value.name == name
  {
    var s := pre + name + post;
    var body := Obj(map["patientName" := Str(s)]);
    assert SubmittedName(body) == name by {
      assert Prop(body, "patientName") == Str(s);
      assert s != "";
      assert ToText(OrElse(Str(s), Str(""))) == s;
      TrimDropsSpaces(pre, name, post);
    }
  }

  lemma {:induction false} TrimStartDrops(pre: string, rest: string)
    requires forall i :: 0 <= i < |pre| ==> IsSpace(pre[i])
    requires rest == [] || !IsSpace(rest[0])
    ensures TrimStart(pre + rest) == rest
  {
    if pre == [] {
      assert pre + rest == rest;
    } else {
      assert (pre + rest)[1..] == pre[1..] + rest;
      TrimStartDrops(pre[1..], rest);
    }
  }

  lemma {:induction false} TrimEndDrops(rest: string, post: string)
    requires forall i :: 0 <= i < |post| ==> IsSpace(post[i])
    requires rest == [] || !IsSpace(rest[|rest| - 1])
    ensures TrimEnd(rest + post) == rest
  {
    if post == [] {
      assert rest + post == rest;
    } else {
      var n := |post| - 1;
      assert (rest + post)[..|rest + post| - 1] == rest + post[..n];
      TrimEndDrops(rest, post[..n]);
    }
  }

  lemma TrimDropsSpaces(pre: string, name: string, post: string)
    requires forall i :: 0 <= i < |pre| ==> IsSpace(pre[i])
    requires forall i :: 0 <= i < |post| ==> IsSpace(post[i])
    requires name != [] && !IsSpace(name[0]) && !IsSpace(name[|name| - 1])
    ensures Trim(pre + name + post) == name
  {
    assert pre + name + post == pre + (name + post);
    assert (name + post)[0] == name[0];
    TrimStartDrops(pre, name + post);
    TrimEndDrops(name, post);
  }

  // ---------------------------------------------------------------------------
  // Who is acting: `req.user?.id || 1`

  /** The acting user's id, with the demo user 1 standing in when there is none. */
  function ActingUserId(user: Value): (id: Value)
    ensures Truthy(id)
    ensures Truthy(Prop(user, "id")) ==> id == Prop(user, "id")
    ensures !Truthy(Prop(user, "id")) ==> id == Num(1)
  {
    OrElse(Prop(user, "id"), Num(1))
  }

  /** POST /admin/alert-settings: `parseInt(user_id, 10) || 1`, the user whose settings are written. */
  function AlertSettingsTarget(body: Value): (r: Result<int, HttpError>)
    ensures body.Null? <==> r.Failure?
    ensures r.Success? ==> r.value != 0
    ensures r.Success? && ParseInt(Prop(body, "user_id")).Num? && ParseInt(Prop(body, "user_id")).n != 0 ==>
      r.value == ParseInt(Prop(body, "user_id")).n
    ensures r.Success? && !(ParseInt(Prop(body, "user_id")).Num? && ParseInt(Prop(body, "user_id")).n != 0) ==>
      r.value == 1
  {
    if body.Null? then Failure(NoBody)
    else
      var parsed := ParseInt(Prop(body, "user_id"));
      if parsed.Num? && parsed.n != 0 then Success(parsed.n) else Success(1)
  }

  /** A missing user_id writes the settings of user 1. */
  lemma AlertSettingsMissingTarget()
    ensures AlertSettingsTarget(Obj(map[])) == Success(1)
  {
    assert Prop(Obj(map[]), "user_id") == Null;
    ParseIntOfNonNumeric(Null);
  }

  /** So does user_id 0. */
  lemma AlertSettingsZeroTarget()
    ensures AlertSettingsTarget(Obj(map["user_id" := Num(0)])) == Success(1)
  {
    assert Prop(Obj(map["user_id" := Num(0)]), "user_id") == Num(0);
    ParseIntOfNum(0);
  }

  // ---------------------------------------------------------------------------
  // POST /caregiver/settings

  /** The alert_settings columns the page writes. */
  datatype AlertSettings = AlertSettings(
    heartRateThreshold: Value,
    sleepThreshold: Value,
    activityThreshold: Value,
    language: Value,
    notificationPreference: Value)

  /** The row findOrCreate creates when the user has none. */
  function CreatedSettings(body: Value): (r: AlertSettings)
    ensures r.sleepThreshold == Null && r.activityThreshold == Null
    ensures Truthy(Prop(body, "alertThreshold")) ==> r.heartRateThreshold == Prop(body, "alertThreshold")
    ensures !Truthy(Prop(body, "alertThreshold")) ==> r.heartRateThreshold == Null
    ensures Truthy(Prop(body, "language")) ==> r.language == Prop(body, "language")
    ensures !Truthy(Prop(body, "language")) ==> r.language == Str("en")
    ensures Truthy(Prop(body, "notificationPreference")) ==> r.notificationPreference == Prop(body, "notificationPreference")
    ensures !Truthy(Prop(body, "notificationPreference")) ==> r.notificationPreference == Str("email")
  {
    AlertSettings(
      OrElse(Prop(body, "alertThreshold"), Null), Null, Null,
      OrElse(Prop(body, "language"), Str("en")),
      OrElse(Prop(body, "notificationPreference"), Str("email")))
  }

  /**
   * The update of an existing row: an empty language or notification
   * preference keeps the stored one, an empty threshold clears the stored
   * one, and the sleep and activity thresholds are not touched.
   */
  function UpdatedSettings(row: AlertSettings, body: Value): (r: AlertSettings)
    ensures r.sleepThreshold == row.sleepThreshold && r.activityThreshold == row.activityThreshold
    ensures Truthy(Prop(body, "alertThreshold")) ==> r.heartRateThreshold == Prop(body, "alertThreshold")
    ensures !Truthy(Prop(body, "alertThreshold")) ==> r.heartRateThreshold == Null
    ensures Truthy(Prop(body, "language")) ==> r.language == Prop(body, "language")
    ensures !Truthy(Prop(body, "language")) ==> r.language == row.language
    ensures Truthy(Prop(body, "notificationPreference")) ==> r.notificationPreference == Prop(body, "notificationPreference")
    ensures !Truthy(Prop(body, "notificationPreference")) ==> r.notificationPreference == row.notificationPreference
  {
    AlertSettings(
      OrElse(Prop(body, "alertThreshold"), Null),
      row.sleepThreshold, row.activityThreshold,
      OrElse(Prop(body, "language"), row.language),
      OrElse(Prop(body, "notificationPreference"), row.notificationPreference))
  }

  /** Saving: create the row when there is none, else update it. */
  function SaveSettings(stored: Option<AlertSettings>, body: Value): (r: Result<AlertSettings, HttpError>)
    ensures body.Null? <==> r.Failure?
    ensures r.Success? && stored.None? ==> r.value == CreatedSettings(body)
    ensures r.Success? && stored.Some? ==> r.value == UpdatedSettings(stored.value, body)
  {
    if body.Null? then Failure(NoBody)
    else if stored.None? then Success(CreatedSettings(body))
    else Success(UpdatedSettings(stored.value, body))
  }

  /** Submitting the same form twice stores what submitting it once does. */
  lemma SaveIdempotent(stored: Option<AlertSettings>, body: Value)
    requires !body.Null?
    ensures SaveSettings(Some(SaveSettings(stored, body).value), body) == SaveSettings(stored, body)
  {
  }

  /** The asymmetry: after an update with every field empty, language and preference are kept, the threshold is gone. */
  lemma EmptyUpdate(row: AlertSettings)
    ensures var body := Obj(map["alertThreshold" := Str(""), "language" := Str(""), "notificationPreference" := Str("")]);
      UpdatedSettings(row, body) == AlertSettings(Null, row.sleepThreshold, row.activityThreshold, row.language, row.notificationPreference)
  {
    var body := Obj(map["alertThreshold" := Str(""), "language" := Str(""), "notificationPreference" := Str("")]);
    assert Prop(body, "alertThreshold") == Str("");
    assert Prop(body, "language") == Str("");
    assert Prop(body, "notificationPreference") == Str("");
  }

  /** Creating and then updating with the same form gives the created row. */
  lemma UpdateAfterCreate(body: Value)
    ensures UpdatedSettings(CreatedSettings(body), body) == CreatedSettings(body)
  {
  }

  // ---------------------------------------------------------------------------
  // Messages

  datatype Message = Message(senderId: Value, receiverId: Value, content: Value, messageType: string, createdAt: int)

  /** POST /admin/messages/send: the recipient is used only for type "individual". */
  function AdminMessage(body: Value, user: Value, now: int): (r: Result<Message, HttpError>)
    ensures body.Null? <==> r.Failure?
    ensures r.Success? ==>
      r.value.senderId == ActingUserId(user) && r.value.content == Prop(body, "content")
      && r.value.messageType == "text" && r.value.createdAt == now
      && (Prop(body, "recipientType") == Str("individual") ==> r.value.receiverId == Prop(body, "recipient"))
      && (Prop(body, "recipientType") != Str("individual") ==> r.value.receiverId == Null)
  {
    if body.Null? then Failure(NoBody)
    else
      var receiver := if Prop(body, "recipientType") == Str("individual") then Prop(body, "recipient") else Null;
      Success(Message(ActingUserId(user), receiver, Prop(body, "content"), "text", now))
  }

  /** A group message names no receiver, whatever the form says; groupRecipient is never stored. */
  lemma GroupMessageHasNoReceiver(body: map<string, Value>, user: Value, now: int)
    requires "recipientType" !in body || body["recipientType"] != Str("individual")
    ensures AdminMessage(Obj(body), user, now).value.receiverId == Null
  {
    assert Prop(Obj(body), "recipientType") != Str("individual");
  }

  /** POST /caregiver/messages/send: `recipient || null`. */
  function CaregiverMessage(body: Value, user: Value, now: int): (r: Result<Message, HttpError>)
    ensures body.Null? <==> r.Failure?
    ensures r.Success? ==>
      r.value.senderId == ActingUserId(user) && r.value.content == Prop(body, "content")
      && r.value.messageType == "text" && r.value.createdAt == now
      && (r.value.receiverId == Null <==> !Truthy(Prop(body, "recipient")))
      && (Truthy(Prop(body, "recipient")) ==> r.value.receiverId == Prop(body, "recipient"))
  {
    if body.Null? then Failure(NoBody)
    else Success(Message(ActingUserId(user), OrElse(Prop(body, "recipient"), Null), Prop(body, "content"), "text", now))
  }

  /** Without a signed-in user both pages send as user 1. */
  lemma DemoSender(body: Value, now: int)
    requires !body.Null?
    ensures AdminMessage(body, Null, now).value.senderId == Num(1)
    ensures CaregiverMessage(body, Null, now).value.senderId == Num(1)
  {
  }

  // ---------------------------------------------------------------------------
  // GET /caregiver/reports/export

  const ExportLimit: nat := 200
  const ExportHeader: seq<string> := ["patient_id", "created_at", "summary", "details"]

  /** A report row as the export reads it; createdAt is the ISO text of the stored date, if any. */
  datatype Report = Report(patientId: Value, createdAt: Option<string>, summary: Value, details: Value)

  /** `[r.patient_id, r.created_at?.toISOString?.() || r.created_at, r.summary || '', r.details || '']`, printed. */
  function ReportRecord(r: Report): (cells: seq<string>)
    ensures |cells| == 4
    ensures cells[0] == ToText(r.patientId)
    ensures cells[1] == (if r.createdAt.Some? then r.createdAt.value else "null")
    ensures cells[2] == (if Truthy(r.summary) then ToText(r.summary) else "")
    ensures cells[3] == (if Truthy(r.details) then ToText(r.details) else "")
  {
    var created := if r.createdAt.Some? then Str(r.createdAt.value) else Null;
    [ToText(r.patientId), ToText(created), ToText(OrElse(r.summary, Str(""))), ToText(OrElse(r.details, Str("")))]
  }

  function Take(reports: seq<Report>, n: nat): (r: seq<Report>)
    ensures |r| <= n && |r| <= |reports| && r == reports[..|r|]
    ensures |reports| <= n ==> r == reports
  {
    if |reports| <= n then reports else reports[..n]
  }

  /**
   * The table the export writes for the reports in the store's order (newest
   * created_at first): the header, then one record per report, at most 200.
   */
  function ExportTable(reports: seq<Report>): (t: seq<seq<string>>)
    ensures |t| == |Take(reports, ExportLimit)| + 1 && |t| <= ExportLimit + 1
    ensures t[0] == ExportHeader
    ensures forall i :: 0 < i < |t| ==> t[i] == ReportRecord(reports[i - 1])
    ensures forall i :: 0 <= i < |t| ==> |t[i]| == 4
  {
    var kept := Take(reports, ExportLimit);
    [ExportHeader] + seq(|kept|, i requires 0 <= i < |kept| => ReportRecord(kept[i]))
  }

  /** The CSV text of the export. */
  function ExportCsv(reports: seq<Report>): string {
    Encode(ExportTable(reports))
  }

  /** A reader following section 2 of RFC 4180 recovers the header and every field of every report. */
  lemma ExportReadsBack(reports: seq<Report>)
    ensures ReadDocument(ExportCsv(reports)) == Some(ExportTable(reports))
    ensures ReadDocument(ExportCsv(reports)).value[0] == ExportHeader
  {
    ReadEncoded(ExportTable(reports));
  }

  /** With no reports the export is the header line alone. */
  lemma EmptyExport()
    ensures ExportCsv([]) == EncodeRecord(ExportHeader)
  {
    assert ExportTable([]) == [ExportHeader];
    assert EncodeRecords([ExportHeader]) == [EncodeRecord(ExportHeader)];
  }

  /** A report without a date prints "null" there; missing summary and details print as empty fields. */
  lemma BareReport(pid: int)
    ensures ReportRecord(Report(Num(pid), None, Null, Null)) == [IntToText(pid), "null", "", ""]
  {
  }
}

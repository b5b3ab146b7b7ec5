/**
 * Stored observation rows and the one query shape the controllers use on them:
 * `findAll({ where: { patient_id }, order: [['recorded_at', 'DESC']], limit })`
 * and its `findOne` variant.
 *
 * The store is PostgreSQL, which puts NULL first in a descending order; a row
 * without recorded_at therefore ranks as newest. Rows with equal recorded_at
 * may come back in any order; the model fixes one (insertion order) and its
 * contracts promise only what holds for every order the store may choose.
 */
module StoredRows {
  import opened Wrappers
  import opened JsValue

  datatype Row = Row(id: nat, patientId: int, recordedAt: Option<int>, fields: map<string, Value>)

  /** `where: { patient_id }` with a parsed path id; a NaN id is modelled as matching no row. */
  predicate Matches(row: Row, patient: Value) {
    patient.Num? && row.patientId == patient.n
  }

  /** The order of `recorded_at DESC` (NULLS FIRST): a comes no later than b. */
  predicate AtLeastAsNew(a: Option<int>, b: Option<int>) {
    a.None? || (b.Some? && a.value >= b.value)
  }

  predicate NewestFirstSorted(s: seq<Row>) {
    forall i, j :: 0 <= i < j < |s| ==> AtLeastAsNew(s[i].recordedAt, s[j].recordedAt)
  }

  /** The patient's rows, in store order. */
  function OwnedBy(rows: seq<Row>, patient: Value): (r: seq<Row>)
    ensures forall x :: x in r <==> x in rows && Matches(x, patient)
    ensures |r| <= |rows|
  {
    if rows == [] then []
    else (if Matches(rows[0], patient) then [rows[0]] else []) + OwnedBy(rows[1..], patient)
  }

  function Insert(x: Row, s: seq<Row>): (r: seq<Row>)
    ensures multiset(r) == multiset(s) + multiset{x}
  {
    if s == [] then [x]
    else if AtLeastAsNew(x.recordedAt, s[0].recordedAt) then [x] + s
    else
      assert s == [s[0]] + s[1..];
      [s[0]] + Insert(x, s[1..])
  }

  lemma {:induction false} InsertSorted(x: Row, s: seq<Row>)
    requires NewestFirstSorted(s)
    ensures NewestFirstSorted(Insert(x, s))
  {
    if s != [] && !AtLeastAsNew(x.recordedAt, s[0].recordedAt) {
      var t := Insert(x, s[1..]);
      InsertSorted(x, s[1..]);
      var r := [s[0]] + t;
      forall k | 0 <= k < |t| ensures AtLeastAsNew(s[0].recordedAt, t[k].recordedAt) {
        assert t[k] in multiset(s[1..]) + multiset{x};
        if t[k] != x {
          assert t[k] in s[1..];
          var m :| 0 <= m < |s[1..]| && s[1..][m] == t[k];
          assert s[m + 1] == t[k];
        }
      }
      forall i, j | 0 <= i < j < |r| ensures AtLeastAsNew(r[i].recordedAt, r[j].recordedAt) {
        if i == 0 {
          assert r[j] == t[j - 1];
        } else {
          assert r[i] == t[i - 1] && r[j] == t[j - 1];
        }
      }
    }
  }

  function Sort(s: seq<Row>): (r: seq<Row>)
    ensures multiset(r) == multiset(s)
    ensures NewestFirstSorted(r)
  {
    if s == [] then []
    else
      assert s == [s[0]] + s[1..];
      InsertSorted(s[0], Sort(s[1..]));
      Insert(s[0], Sort(s[1..]))
  }

  /** `s` is the patient's rows in a newest-first order the store may return. */
  ghost predicate IsNewestFirstOrder(rows: seq<Row>, patient: Value, s: seq<Row>) {
    NewestFirstSorted(s) && multiset(s) == multiset(OwnedBy(rows, patient))
  }

  function Min(a: nat, b: nat): nat {
    if a <= b then a else b
  }

  function Count(rows: seq<Row>, patient: Value, limit: Option<nat>): nat {
    match limit
    case None => |OwnedBy(rows, patient)|
    case Some(l) => Min(l, |OwnedBy(rows, patient)|)
  }

  /**
   * The answers the query may give: the first `limit` rows (all of them
   * without a limit) of some newest-first order of the patient's rows.
   */
  ghost predicate IsNewestFirstAnswer(rows: seq<Row>, patient: Value, r: seq<Row>, limit: Option<nat>) {
    |r| == Count(rows, patient, limit)
    && exists s :: IsNewestFirstOrder(rows, patient, s) && |r| <= |s| && r == s[..|r|]
  }

  /** findAll with where patient_id, order recorded_at DESC and an optional limit. */
  function NewestFirst(rows: seq<Row>, patient: Value, limit: Option<nat>): (r: seq<Row>)
    ensures IsNewestFirstAnswer(rows, patient, r, limit)
  {
    var s := Sort(OwnedBy(rows, patient));
    assert |s| == |OwnedBy(rows, patient)| by {
      assert |multiset(s)| == |multiset(OwnedBy(rows, patient))|;
    }
    var n := Count(rows, patient, limit);
    assert IsNewestFirstOrder(rows, patient, s);
    s[..n]
  }

  /** Every row of a newest-first answer belongs to the patient and comes from the table. */
  lemma AnswerRowsOwned(rows: seq<Row>, patient: Value, r: seq<Row>, limit: Option<nat>, x: Row)
    requires IsNewestFirstAnswer(rows, patient, r, limit)
    requires x in r
    ensures x in rows && Matches(x, patient)
  {
    var s :| IsNewestFirstOrder(rows, patient, s) && |r| <= |s| && r == s[..|r|];
    assert x in s;
    assert x in multiset(OwnedBy(rows, patient));
  }

  /** A newest-first answer is itself in newest-first order. */
  lemma AnswerSorted(rows: seq<Row>, patient: Value, r: seq<Row>, limit: Option<nat>)
    requires IsNewestFirstAnswer(rows, patient, r, limit)
    ensures NewestFirstSorted(r)
  {
    var s :| IsNewestFirstOrder(rows, patient, s) && |r| <= |s| && r == s[..|r|];
    forall i, j | 0 <= i < j < |r| ensures AtLeastAsNew(r[i].recordedAt, r[j].recordedAt) {
      assert r[i] == s[i] && r[j] == s[j];
    }
  }

  /** Without a limit the answer holds every row of the patient, each as often as stored. */
  lemma AnswerComplete(rows: seq<Row>, patient: Value, r: seq<Row>)
    requires IsNewestFirstAnswer(rows, patient, r, None)
    ensures multiset(r) == multiset(OwnedBy(rows, patient))
  {
    var s :| IsNewestFirstOrder(rows, patient, s) && |r| <= |s| && r == s[..|r|];
    assert |s| == |OwnedBy(rows, patient)| by {
      assert |multiset(s)| == |multiset(OwnedBy(rows, patient))|;
    }
    assert r == s;
  }

  /** The first row of an answer is at least as new as every row of the patient. */
  lemma AnswerHeadIsNewest(rows: seq<Row>, patient: Value, r: seq<Row>, limit: Option<nat>, x: Row)
    requires IsNewestFirstAnswer(rows, patient, r, limit)
    requires r != []
    requires x in rows && Matches(x, patient)
    ensures AtLeastAsNew(r[0].recordedAt, x.recordedAt)
  {
    var s :| IsNewestFirstOrder(rows, patient, s) && |r| <= |s| && r == s[..|r|];
    assert x in OwnedBy(rows, patient);
    assert x in multiset(s);
    var j :| 0 <= j < |s| && s[j] == x;
    assert r[0] == s[0];
  }

  /** A limit can only shorten the answer: there are rows exactly when the patient has some and the limit is positive. */
  lemma AnswerEmptyIff(rows: seq<Row>, patient: Value, r: seq<Row>, limit: Option<nat>)
    requires IsNewestFirstAnswer(rows, patient, r, limit)
    ensures r == [] <==> (OwnedBy(rows, patient) == [] || limit == Some(0))
  {
  }

  /** No row of the patient is in the table exactly when the filter keeps nothing. */
  lemma OwnedByEmpty(rows: seq<Row>, patient: Value)
    ensures OwnedBy(rows, patient) == [] <==> forall x :: x in rows ==> !Matches(x, patient)
  {
    if OwnedBy(rows, patient) != [] {
      assert OwnedBy(rows, patient)[0] in OwnedBy(rows, patient);
    }
  }
}

/**
 * What the symptom and emotion handlers share: the notes and time alias
 * tables, the `x != null ? parseInt(x, 10) : null` and `x || new Date()`
 * readings, and the equivalence of their `||` chains with the alias-table
 * reading.
 */
module Observations {
  import opened Wrappers
  import opened JsValue

  /** When the observation was made: a value the client supplied, or the server clock. */
  datatype RecordedAt = Supplied(v: Value) | Clock(millis: int)

  const NotesAliases: seq<string> := ["notes", "note"]
  const TimeAliases: seq<string> := ["recorded_at", "timestamp"]

  /** `v != null ? parseInt(v, 10) : null` over the first present alias. */
  function ParsedOrNull(v: Option<Value>): Value {
    match v
    case None => Null
    case Some(x) => ParseInt(x)
  }

  function ValueOrNull(v: Option<Value>): Value {
    match v
    case None => Null
    case Some(x) => x
  }

  /** `v || new Date()`. */
  function StampOrClock(v: Value, now: int): RecordedAt {
    if Truthy(v) then Supplied(v) else Clock(now)
  }

  /** The `||` chains of the handler are the alias-table readings. */
  lemma ChainOfThree(b: Value, k1: string, k2: string, k3: string)
    ensures OrElse(OrElse(Prop(b, k1), Prop(b, k2)), Prop(b, k3)) == FirstTruthy(b, [k1, k2, k3])
  {
    assert [k1, k2, k3][1..] == [k2, k3];
    assert [k2, k3][1..] == [k3];
  }

  lemma ChainOfTwo(b: Value, k1: string, k2: string)
    ensures OrElse(Prop(b, k1), Prop(b, k2)) == FirstTruthy(b, [k1, k2])
  {
    assert [k1, k2][1..] == [k2];
  }
}

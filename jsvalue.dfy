/**
 * JSON-like request values as the handlers see them, with the JavaScript
 * operators the core is written in: truthiness (for `||` and `!x`), the
 * `x != null` test, property reads, String(x), parseInt(x, 10) and object
 * spread `{ ...x }`.
 *
 * A property that is absent reads as `Null`: JavaScript's undefined and null
 * behave the same under every operator used here. Where the difference
 * matters (object spread, JSON serialisation) the model asks whether the key
 * is in the object.
 */
module JsValue {
  import opened Wrappers
  import opened JsText

  datatype Value =
    | Null
    | Bool(b: bool)
    | Num(n: int)
    | NaN
    | Str(s: string)
    | Arr(items: seq<Value>)
    | Obj(fields: map<string, Value>)

  /** JavaScript truthiness: null, false, 0, NaN and "" are falsy, everything else truthy. */
  predicate Truthy(v: Value) {
    match v
    case Null => false
    case Bool(b) => b
    case Num(n) => n != 0
    case NaN => false
    case Str(s) => s != ""
    case Arr(_) => true
    case Obj(_) => true
  }

  /** `v != null`: true for everything except null and undefined. */
  predicate IsPresent(v: Value) {
    !v.Null?
  }

  /** The property read `v.key`; a missing key, or a value that is not an object, reads as undefined. */
  function Prop(v: Value, key: string): Value {
    if v.Obj? && key in v.fields then v.fields[key] else Null
  }

  /** `a || b`. */
  function OrElse(a: Value, b: Value): Value {
    if Truthy(a) then a else b
  }

  /** `a != null ? a : b`. */
  function IfPresent(a: Value, b: Value): Value {
    if IsPresent(a) then a else b
  }

  /**
   * Reference reading of an ordered alias list: v is the value of the first
   * alias whose property is truthy.
   */
  ghost predicate IsFirstTruthy(body: Value, aliases: seq<string>, v: Value) {
    exists i :: 0 <= i < |aliases| && v == Prop(body, aliases[i]) && Truthy(v)
      && forall j :: 0 <= j < i ==> !Truthy(Prop(body, aliases[j]))
  }

  ghost predicate SomeTruthy(body: Value, aliases: seq<string>) {
    exists i :: 0 <= i < |aliases| && Truthy(Prop(body, aliases[i]))
  }

  /**
   * Reference reading of an ordered alias list under the `!= null` test: v is
   * the value of the first alias whose property is present (0 and "" count).
   */
  ghost predicate IsFirstPresent(body: Value, aliases: seq<string>, v: Value) {
    exists i :: 0 <= i < |aliases| && v == Prop(body, aliases[i]) && IsPresent(v)
      && forall j :: 0 <= j < i ==> !IsPresent(Prop(body, aliases[j]))
  }

  ghost predicate NonePresent(body: Value, aliases: seq<string>) {
    forall i :: 0 <= i < |aliases| ==> !IsPresent(Prop(body, aliases[i]))
  }

  /**
   * The alias table read with `||`: `body.k1 || body.k2 || ... || body.kn`,
   * which is the last alias' value when none is truthy.
   */
  function FirstTruthy(body: Value, aliases: seq<string>): (r: Value)
    requires |aliases| > 0
    ensures Truthy(r) <==> SomeTruthy(body, aliases)
    ensures Truthy(r) ==> IsFirstTruthy(body, aliases, r)
    ensures !Truthy(r) ==> r == Prop(body, aliases[|aliases| - 1])
  {
    if |aliases| == 1 then Prop(body, aliases[0])
    else
      var rest := FirstTruthy(body, aliases[1..]);
      assert SomeTruthy(body, aliases[1..]) ==> SomeTruthy(body, aliases) by {
        if SomeTruthy(body, aliases[1..]) {
          var i :| 0 <= i < |aliases[1..]| && Truthy(Prop(body, aliases[1..][i]));
          assert aliases[1..][i] == aliases[i + 1];
        }
      }
      assert SomeTruthy(body, aliases) && !Truthy(Prop(body, aliases[0])) ==> SomeTruthy(body, aliases[1..]) by {
        if SomeTruthy(body, aliases) && !Truthy(Prop(body, aliases[0])) {
          var i :| 0 <= i < |aliases| && Truthy(Prop(body, aliases[i]));
          assert aliases[1..][i - 1] == aliases[i];
        }
      }
      assert !Truthy(Prop(body, aliases[0])) && Truthy(rest) ==> IsFirstTruthy(body, aliases, rest) by {
        if !Truthy(Prop(body, aliases[0])) && Truthy(rest) {
          var i :| 0 <= i < |aliases[1..]| && rest == Prop(body, aliases[1..][i]) && Truthy(rest)
            && forall j :: 0 <= j < i ==> !Truthy(Prop(body, aliases[1..][j]));
          assert rest == Prop(body, aliases[i + 1]);
          assert forall j :: 0 <= j < i + 1 ==> !Truthy(Prop(body, aliases[j])) by {
            forall j | 0 <= j < i + 1 ensures !Truthy(Prop(body, aliases[j])) {
              if j > 0 { assert aliases[j] == aliases[1..][j - 1]; }
            }
          }
        }
      }
      OrElse(Prop(body, aliases[0]), rest)
  }

  /**
   * The alias table read with `!= null`: the value of the first alias that is
   * present, or None when none is.
   */
  function FirstPresent(body: Value, aliases: seq<string>): (r: Option<Value>)
    ensures r.None? <==> NonePresent(body, aliases)
    ensures r.Some? ==> IsFirstPresent(body, aliases, r.value)
  {
    if aliases == [] then None
    else if IsPresent(Prop(body, aliases[0])) then
      assert IsFirstPresent(body, aliases, Prop(body, aliases[0])) by {
        assert Prop(body, aliases[0]) == Prop(body, aliases[0]);
      }
      Some(Prop(body, aliases[0]))
    else
      var rest := FirstPresent(body, aliases[1..]);
      assert NonePresent(body, aliases[1..]) ==> NonePresent(body, aliases) by {
        if NonePresent(body, aliases[1..]) {
          forall i | 0 <= i < |aliases| ensures !IsPresent(Prop(body, aliases[i])) {
            if i > 0 { assert aliases[i] == aliases[1..][i - 1]; }
          }
        }
      }
      assert NonePresent(body, aliases) ==> NonePresent(body, aliases[1..]) by {
        if NonePresent(body, aliases) {
          forall i | 0 <= i < |aliases[1..]| ensures !IsPresent(Prop(body, aliases[1..][i])) {
            assert aliases[1..][i] == aliases[i + 1];
          }
        }
      }
      assert rest.Some? ==> IsFirstPresent(body, aliases, rest.value) by {
        if rest.Some? {
          var v := rest.value;
          var i :| 0 <= i < |aliases[1..]| && v == Prop(body, aliases[1..][i]) && IsPresent(v)
            && forall j :: 0 <= j < i ==> !IsPresent(Prop(body, aliases[1..][j]));
          assert v == Prop(body, aliases[i + 1]);
          assert forall j :: 0 <= j < i + 1 ==> !IsPresent(Prop(body, aliases[j])) by {
            forall j | 0 <= j < i + 1 ensures !IsPresent(Prop(body, aliases[j])) {
              if j > 0 { assert aliases[j] == aliases[1..][j - 1]; }
            }
          }
        }
      }
      rest
  }

  /** Both readings of an alias table look at nothing but the table's keys. */
  lemma {:induction false} SameOnAliases(b1: Value, b2: Value, aliases: seq<string>)
    requires |aliases| > 0
    requires forall k :: k in aliases ==> Prop(b1, k) == Prop(b2, k)
    ensures FirstTruthy(b1, aliases) == FirstTruthy(b2, aliases)
    ensures FirstPresent(b1, aliases) == FirstPresent(b2, aliases)
  {
    assert aliases[0] in aliases;
    if |aliases| > 1 {
      SameOnAliases(b1, b2, aliases[1..]);
    }
  }

  // ---------------------------------------------------------------------------
  // String(v)

  /**
   * JavaScript String(v). Arrays are joined with "," and their null elements
   * print as the empty string; every plain object prints as "[object Object]".
   */
  function ToText(v: Value): string
    decreases v
  {
    match v
    case Null => "null"
    case Bool(b) => if b then "true" else "false"
    case Num(n) => IntToText(n)
    case NaN => "NaN"
    case Str(s) => s
    case Arr(items) =>
      Join(seq(|items|, i requires 0 <= i < |items| =>
        if items[i].Null? then "" else ToText(items[i])), ',')
    case Obj(_) => "[object Object]"
  }

  /** parseInt(v, 10): a number, or NaN when String(v) has no leading digits. */
  function ParseInt(v: Value): (r: Value)
    ensures r.Num? || r.NaN?
  {
    match ParseIntText(ToText(v))
    case None => NaN
    case Some(n) => Num(n)
  }

  /** parseInt gives back every integer unchanged: it neither clamps nor rounds. */
  lemma ParseIntOfNum(n: int)
    ensures ParseInt(Num(n)) == Num(n)
  {
    ParseIntTextOfInt(n, []);
    assert IntToText(n) + [] == IntToText(n);
  }

  /** A string that starts with the decimal text of n parses to n ("7", "7 of 10"). */
  lemma ParseIntOfText(n: int, rest: string)
    requires rest == [] || !IsDigit(rest[0])
    ensures ParseInt(Str(IntToText(n) + rest)) == Num(n)
  {
    ParseIntTextOfInt(n, rest);
  }

  /** null, booleans and objects are never numbers to parseInt. */
  lemma ParseIntOfNonNumeric(v: Value)
    requires v.Null? || v.Bool? || v.Obj? || v.NaN?
    ensures ParseInt(v) == NaN
  {
    match v
    case Null => ParseIntTextNoDigit("null");
    case Bool(b) => if b { ParseIntTextNoDigit("true"); } else { ParseIntTextNoDigit("false"); }
    case Obj(_) => ParseIntTextNoDigit("[object Object]");
    case NaN => ParseIntTextNoDigit("NaN");
  }

  // ---------------------------------------------------------------------------
  // Object spread

  /** The properties of an array-like value: element i under the key String(i). */
  function IndexEntries(items: seq<Value>): map<string, Value>
    decreases |items|
  {
    if items == [] then map[]
    else IndexEntries(items[..|items| - 1])[IntToText(|items| - 1) := items[|items| - 1]]
  }

  /**
   * The own enumerable properties that `{ ...v }` copies: an object's fields,
   * an array's elements and a string's characters under their decimal index,
   * and nothing for null, booleans and numbers.
   */
  function Spread(v: Value): (m: map<string, Value>)
    ensures v.Obj? ==> m == v.fields
    ensures !(v.Obj? || v.Arr? || v.Str?) ==> m == map[]
  {
    match v
    case Obj(fields) => fields
    case Arr(items) => IndexEntries(items)
    case Str(s) => IndexEntries(seq(|s|, i requires 0 <= i < |s| => Str([s[i]])))
    case _ => map[]
  }

  /** Spreading an array copies element i under the key String(i). */
  lemma {:induction false} IndexEntriesAt(items: seq<Value>, i: nat)
    requires i < |items|
    ensures IntToText(i) in IndexEntries(items) && IndexEntries(items)[IntToText(i)] == items[i]
    decreases |items|
  {
    var n := |items| - 1;
    if i < n {
      IndexEntriesAt(items[..n], i);
      if IntToText(i) == IntToText(n) {
        IntToTextInjective(i, n);
      }
    }
  }
}

/** JSON values as Python holds them, and Python's equality between them. */
module JsonValues {

  datatype Json =
    | JNull
    | JBool(b: bool)
    | JInt(i: int)
    | JFloat(r: real)
    | JString(s: string)
    | JArray(items: seq<Json>)
    | JObject(entries: map<string, Json>)

  predicate IsNumber(v: Json) {
    v.JBool? || v.JInt? || v.JFloat?
  }

  function NumberOf(v: Json): real
    requires IsNumber(v)
  {
    match v
    case JBool(b) => if b then 1.0 else 0.0
    case JInt(i) => i as real
    case JFloat(r) => r
  }

  /** Python's == between JSON values. */
  predicate Equal(a: Json, b: Json) {
    if IsNumber(a) || IsNumber(b) then IsNumber(a) && IsNumber(b) && NumberOf(a) == NumberOf(b)
    else
      match a
      case JArray(x) =>
        && b.JArray? && |x| == |b.items|
        && forall i :: 0 <= i < |x| ==> Equal(x[i], b.items[i])
      case JObject(x) =>
        && b.JObject? && x.Keys == b.entries.Keys
        && forall k :: k in x ==> Equal(x[k], b.entries[k])
      case _ => a == b
  }

  lemma {:induction false} EqualToItself(a: Json)
    ensures Equal(a, a)
  {
    match a
    case JArray(x) =>
      forall i | 0 <= i < |x| ensures Equal(x[i], x[i]) { EqualToItself(x[i]); }
    case JObject(x) =>
      forall k | k in x ensures Equal(x[k], x[k]) { EqualToItself(x[k]); }
    case _ =>
  }

  /** A number equals another by its value, whatever its kind, with False as 0 and True as 1; it equals nothing
      else. */
  lemma NumbersEqual(v: Json, i: int, r: real)
    ensures Equal(v, JInt(i)) <==> v == JInt(i) || v == JFloat(i as real) || ((i == 0 || i == 1) && v == JBool(i == 1))
    ensures Equal(v, JFloat(r)) <==>
            || v == JFloat(r) || (v.JInt? && v.i as real == r)
            || (v == JBool(false) && r == 0.0) || (v == JBool(true) && r == 1.0)
    ensures Equal(v, JBool(true)) <==> Equal(v, JInt(1))
    ensures Equal(v, JBool(false)) <==> Equal(v, JInt(0))
  {
  }

  /** An entry of an object; a missing one and a null one read the same. */
  function At(m: map<string, Json>, key: string): Json {
    if key in m then m[key] else JNull
  }

  /** A value without numbers, for which Python's equality is equality. */
  predicate Plain(v: Json) {
    match v
    case JArray(items) => forall i :: 0 <= i < |items| ==> Plain(items[i])
    case JObject(entries) => forall k :: k in entries ==> Plain(entries[k])
    case _ => !IsNumber(v)
  }

  lemma {:induction false} PlainEqual(a: Json, b: Json)
    requires Plain(b) && Equal(a, b)
    ensures a == b
  {
    match b
    case JArray(items) =>
      forall i | 0 <= i < |items| ensures a.items[i] == items[i] { PlainEqual(a.items[i], items[i]); }
    case JObject(entries) =>
      forall k | k in entries ensures a.entries[k] == entries[k] { PlainEqual(a.entries[k], entries[k]); }
    case _ =>
  }
}

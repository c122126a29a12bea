/** Parsed JSON values, as `json.load` and `JSON.parse` produce them. Object fields are
    kept in document order, which is also JavaScript's enumeration order for the
    non-numeric keys this system uses. Numbers are integers here. */
module Json {
  import opened Wrappers
  import opened Text

  datatype Json =
    | JNull
    | JBool(b: bool)
    | JNum(n: int)
    | JStr(s: string)
    | JArr(items: seq<Json>)
    | JObj(fields: seq<(string, Json)>)

  /** Property lookup on an object's fields. A duplicated key yields its last value,
      which is what both parsers keep. */
  function Field(fields: seq<(string, Json)>, k: string): (r: Option<Json>)
    ensures r.None? <==> forall i :: 0 <= i < |fields| ==> fields[i].0 != k
    ensures r.Some? ==> exists i :: 0 <= i < |fields| && fields[i] == (k, r.value) &&
                                    forall j :: i < j < |fields| ==> fields[j].0 != k
    decreases |fields|
  {
    if |fields| == 0 then None
    else if fields[|fields| - 1].0 == k then Some(fields[|fields| - 1].1)
    else Field(fields[..|fields| - 1], k)
  }

  /** JavaScript truthiness of a property read; an absent property reads `undefined`. */
  function Truthy(v: Option<Json>): bool {
    match v
    case None => false
    case Some(JNull) => false
    case Some(JBool(b)) => b
    case Some(JNum(n)) => n != 0
    case Some(JStr(s)) => s != ""
    case Some(JArr(_)) => true
    case Some(JObj(_)) => true
  }

  /** JavaScript's `typeof` on a parsed value (`null` and arrays are 'object'). */
  function TypeOf(v: Json): string {
    match v
    case JNull => "object"
    case JBool(_) => "boolean"
    case JNum(_) => "number"
    case JStr(_) => "string"
    case JArr(_) => "object"
    case JObj(_) => "object"
  }

  predicate IsStringArray(v: Json) {
    v.JArr? && forall i :: 0 <= i < |v.items| ==> v.items[i].JStr?
  }

  function Strings(v: Json): (r: seq<string>)
    requires IsStringArray(v)
    ensures |r| == |v.items| && forall i :: 0 <= i < |r| ==> v.items[i] == JStr(r[i])
  {
    seq(|v.items|, i requires 0 <= i < |v.items| => v.items[i].s)
  }

  /** Reading a key of joined field lists: the later list wins. */
  lemma {:induction false} FieldConcat(a: seq<(string, Json)>, b: seq<(string, Json)>, k: string)
    ensures Field(a + b, k) == if Field(b, k).Some? then Field(b, k) else Field(a, k)
    decreases |b|
  {
    if |b| == 0 {
      assert a + b == a;
    } else if b[|b| - 1].0 != k {
      var ab := a + b;
      assert ab[..|ab| - 1] == a + b[..|b| - 1];
      FieldConcat(a, b[..|b| - 1], k);
    }
  }

  /** `{...obj, [key]: v}`: a present key keeps its position, a new one goes last. */
  function Assign(fields: seq<(string, Json)>, key: string, v: Json): (r: seq<(string, Json)>)
    ensures Field(r, key) == Some(v)
    ensures forall k :: k != key ==> Field(r, k) == Field(fields, k)
    decreases |fields|
  {
    if |fields| == 0 then [(key, v)]
    else if fields[|fields| - 1].0 == key then fields[..|fields| - 1] + [(key, v)]
    else
      var r := Assign(fields[..|fields| - 1], key, v) + [fields[|fields| - 1]];
      assert r[..|r| - 1] == Assign(fields[..|fields| - 1], key, v);
      r
  }

  /** `String(value)` of a parsed value. */
  function JsString(v: Json): string
    decreases v, 1
  {
    match v
    case JNull => "null"
    case JBool(b) => if b then "true" else "false"
    case JNum(n) => IntToString(n)
    case JStr(s) => s
    case JArr(items) => JoinItems(v, 0)
    case JObj(_) => "[object Object]"
  }

  /** `Array.prototype.join(",")`, where null items print as nothing. */
  function JoinItems(v: Json, i: nat): string
    requires v.JArr? && i <= |v.items|
    decreases v, 0, |v.items| - i
  {
    if i == |v.items| then ""
    else
      var item := v.items[i];
      assert item < v;
      (if i > 0 then "," else "") + (if item.JNull? then "" else JsString(item)) + JoinItems(v, i + 1)
  }
}

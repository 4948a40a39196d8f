/** The dynamically typed values a handler receives in `req.body` or
    `req.query`, with the JavaScript truthiness and `typeof` tests the
    handlers apply to them. A field that is absent is `None`
    (JavaScript's `undefined`). Numbers are integers. */
module Json {
  import opened Wrappers
  import Text

  datatype Value =
    | Null
    | Bool(b: bool)
    | Num(n: int)
    | Str(s: string)
    | Arr(items: seq<Value>)
    | Obj(fields: map<string, Value>)

  /** `obj[key]` on a parsed body: `None` when the key is absent. */
  function Field(fields: map<string, Value>, key: string): (f: Option<Value>)
    ensures f.Some? <==> key in fields
    ensures f.Some? ==> f.value == fields[key]
  {
    if key in fields then Some(fields[key]) else None
  }

  /** `!!v`: `undefined`, `null`, `false`, `0` and `""` are falsy;
      everything else, including `[]` and `{}`, is truthy. */
  predicate Truthy(f: Option<Value>)
  {
    match f
    case None => false
    case Some(Null) => false
    case Some(Bool(b)) => b
    case Some(Num(n)) => n != 0
    case Some(Str(s)) => s != ""
    case Some(Arr(_)) => true
    case Some(Obj(_)) => true
  }

  /** `typeof v === 'string'`. */
  predicate IsString(f: Option<Value>) { f.Some? && f.value.Str? }

  /** `typeof v === 'number'`. */
  predicate IsNumber(f: Option<Value>) { f.Some? && f.value.Num? }

  /** `typeof v === 'boolean'`. */
  predicate IsBoolean(f: Option<Value>) { f.Some? && f.value.Bool? }

  /** The outcome of reading a property of a value: reading any property of
      `null` throws a `TypeError`; reading a property a value does not have
      yields `undefined`. */
  datatype Property = ThrowsTypeError | Read(field: Option<Value>)

  function PropertyOf(v: Value, key: string): (p: Property)
    ensures p.ThrowsTypeError? <==> v.Null?
    ensures p.Read? && p.field.Some? ==> v.Obj? && key in v.fields
  {
    match v
    case Null => ThrowsTypeError
    case Obj(fields) => Read(Field(fields, key))
    case _ => Read(None)
  }

  /** The text the document store stores for a scalar written to a string
      field (`String(v)`); arrays, objects and `null` do not cast. */
  function AsText(v: Value): (t: Option<string>)
    ensures v.Str? ==> t == Some(v.s)
    ensures t.None? <==> v.Null? || v.Arr? || v.Obj?
    ensures Truthy(Some(v)) && t.Some? ==> t.value != ""
  {
    match v
    case Str(s) => Some(s)
    case Num(n) => Some(Text.IntToDecimal(n))
    case Bool(b) => Some(if b then "true" else "false")
    case _ => None
  }

  /** The texts a query on a string field matches for value `v`. A scalar
      matches its own text. An array is read as `$in` over its elements:
      each scalar element adds its text, and a `null` element matches only
      documents that lack the field, so it adds none here. `null` itself
      likewise matches no document that has the field. An object, or an
      array holding an array or an object, does not cast and fails the
      query. */
  function QueryTexts(v: Value): (r: Option<seq<string>>)
    ensures !v.Arr? && !v.Null? ==> r == (if v.Obj? then None else Some([AsText(v).value]))
    ensures v.Null? ==> r == Some([])
    ensures v.Arr? ==> (r.Some? <==> forall i :: 0 <= i < |v.items| ==> !v.items[i].Arr? && !v.items[i].Obj?)
    ensures r.Some? ==> forall t :: t in r.value <==> exists e :: e in ElementsOf(v) && AsText(e) == Some(t)
  {
    match v
    case Null => Some([])
    case Obj(_) => None
    case Arr(items) =>
      if forall i :: 0 <= i < |items| ==> !items[i].Arr? && !items[i].Obj? then Some(ScalarTexts(items))
      else None
    case _ => Some([AsText(v).value])
  }

  /** The values a query value stands for: the elements of an array, the
      value itself otherwise. */
  function ElementsOf(v: Value): seq<Value>
  {
    if v.Arr? then v.items else [v]
  }

  /** The texts of the elements that cast, in order. */
  function ScalarTexts(items: seq<Value>): (r: seq<string>)
    ensures forall t :: t in r <==> exists e :: e in items && AsText(e) == Some(t)
  {
    if |items| == 0 then []
    else
      var rest := ScalarTexts(items[1..]);
      assert forall e :: e in items <==> e == items[0] || e in items[1..];
      match AsText(items[0])
      case None => rest
      case Some(t) => [t] + rest
  }

  /** `String(v)`, as a template literal `${v}` prints it: an array prints
      its elements' texts joined by commas, a `null` element as nothing. */
  function TemplateText(v: Value): (t: string)
    ensures AsText(v).Some? ==> t == AsText(v).value
  {
    match v
    case Null => "null"
    case Obj(_) => "[object Object]"
    case Arr(items) =>
      JoinCommas(seq(|items|, i requires 0 <= i < |items| =>
        if items[i].Null? then "" else TemplateText(items[i])))
    case _ => AsText(v).value
  }

  /** `parts.join(',')`. */
  function JoinCommas(parts: seq<string>): (s: string)
    ensures |parts| == 1 ==> s == parts[0]
    ensures |parts| > 1 ==> s == parts[0] + "," + JoinCommas(parts[1..])
  {
    if |parts| == 0 then ""
    else if |parts| == 1 then parts[0]
    else parts[0] + "," + JoinCommas(parts[1..])
  }
}

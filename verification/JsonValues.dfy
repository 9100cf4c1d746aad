/** JSON values as the strict reader delivers them: integers and floats stay apart. */
module JsonValues {
  import opened Options

  datatype Json =
    | Null
    | Bool(flag: bool)
    | Int(number: int)
    | Float(decimal: real)
    | Text(text: string)
    | Array(items: seq<Json>)
    | Object(fields: map<string, Json>)

  /** The number Python compares: a flag counts as zero or one. */
  function NumberOf(value: Json): Option<real> {
    match value
    case Int(n) => Some(n as real)
    case Float(x) => Some(x)
    case Bool(flag) => Some(if flag then 1.0 else 0.0)
    case _ => None
  }

  /** `left == right` in Python: numbers by value, so 1, 1.0 and true are equal, at any depth. */
  predicate PythonEqual(left: Json, right: Json) {
    match left
    case Object(fields) =>
      && right.Object? && fields.Keys == right.fields.Keys
      && forall name | name in fields :: PythonEqual(fields[name], right.fields[name])
    case Array(items) =>
      && right.Array? && |items| == |right.items|
      && forall i | 0 <= i < |items| :: PythonEqual(items[i], right.items[i])
    case _ => left == right || (NumberOf(left).Some? && NumberOf(left) == NumberOf(right))
  }

  lemma {:induction false} PythonEqualToItself(value: Json)
    ensures PythonEqual(value, value)
  {
    match value
    case Object(fields) =>
      forall name | name in fields ensures PythonEqual(fields[name], fields[name]) {
        PythonEqualToItself(fields[name]);
      }
    case Array(items) =>
      forall i | 0 <= i < |items| ensures PythonEqual(items[i], items[i]) {
        PythonEqualToItself(items[i]);
      }
    case _ =>
  }

  predicate EqualsInt(value: Json, n: int) {
    NumberOf(value) == Some(n as real)
  }

  /** No float at any depth. */
  predicate FloatFree(value: Json) {
    match value
    case Float(_) => false
    case Object(fields) => forall name | name in fields :: FloatFree(fields[name])
    case Array(items) => forall i | 0 <= i < |items| :: FloatFree(items[i])
    case _ => true
  }
}

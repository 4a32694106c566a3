/** The loosely typed values the solver passes around: what `json.loads` produces and what
    Python code builds as dicts, lists and scalars. A float is kept as the text it was
    written with; its numeric value is not modelled. */
module Json {
  import opened Wrappers

  datatype Value =
    | Null
    | Bool(b: bool)
    | Int(i: int)
    | Float(text: string)
    | Str(s: string)
    | Arr(items: seq<Value>)
    | Obj(fields: seq<(string, Value)>)

  /** The part of a float literal before its exponent. */
  function Mantissa(t: string): (m: string)
    ensures |m| <= |t| && m == t[..|m|]
  {
    if |t| == 0 || t[0] == 'e' || t[0] == 'E' then [] else [t[0]] + Mantissa(t[1..])
  }

  /** A float literal denotes zero when its mantissa has no digit other than 0. */
  predicate FloatTextIsZero(t: string) {
    var m := Mantissa(t);
    forall i :: 0 <= i < |m| ==> m[i] in "+-._0"
  }

  /** Python's truth value of `v` (`if v:`). */
  predicate Truthy(v: Value) {
    match v
    case Null => false
    case Bool(b) => b
    case Int(i) => i != 0
    case Float(t) => !FloatTextIsZero(t)
    case Str(s) => s != []
    case Arr(a) => |a| > 0
    case Obj(f) => |f| > 0
  }

  /** Python's `a or b`: the first operand when it is truthy, otherwise the second. */
  function Or(a: Value, b: Value): (r: Value)
    ensures Truthy(r) <==> Truthy(a) || Truthy(b)
    ensures Truthy(a) ==> r == a
    ensures !Truthy(a) ==> r == b
  {
    if Truthy(a) then a else b
  }

  /** The binding of `key` in a dict's items; the last binding wins, as when `json.loads`
      meets a repeated key. */
  function Lookup(fields: seq<(string, Value)>, key: string): (r: Option<Value>)
    ensures r.Some? <==> exists i :: 0 <= i < |fields| && fields[i].0 == key
    ensures r.Some? ==> exists i :: 0 <= i < |fields| && fields[i] == (key, r.value)
  {
    if |fields| == 0 then None
    else if fields[|fields| - 1].0 == key then Some(fields[|fields| - 1].1)
    else Lookup(fields[..|fields| - 1], key)
  }

  /** A binding no later binding overrides is the one found. */
  lemma {:induction false} LookupLast(fields: seq<(string, Value)>, i: nat)
    requires i < |fields|
    requires forall j :: i < j < |fields| ==> fields[j].0 != fields[i].0
    ensures Lookup(fields, fields[i].0) == Some(fields[i].1)
  {
    if i < |fields| - 1 {
      var front := fields[..|fields| - 1];
      assert front[i] == fields[i];
      forall j | i < j < |front|
        ensures front[j].0 != front[i].0
      {
        assert front[j] == fields[j];
      }
      LookupLast(front, i);
    }
  }

  /** `key in d` for a dict. */
  predicate HasKey(v: Value, key: string) {
    v.Obj? && Lookup(v.fields, key).Some?
  }

  /** `d.get(key)` for a dict: the binding when the key is present, `None` when it is
      absent. */
  function Get(v: Value, key: string): (r: Value)
    requires v.Obj?
    ensures HasKey(v, key) ==> Lookup(v.fields, key) == Some(r)
    ensures !HasKey(v, key) ==> r == Null
  {
    match Lookup(v.fields, key)
    case Some(x) => x
    case None => Null
  }

  /** Python's `type(v).__name__`, used in the messages of the errors the model raises. */
  function TypeName(v: Value): string {
    match v
    case Null => "NoneType"
    case Bool(_) => "bool"
    case Int(_) => "int"
    case Float(_) => "float"
    case Str(_) => "str"
    case Arr(_) => "list"
    case Obj(_) => "dict"
  }
}

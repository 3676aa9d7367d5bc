/** Persisted state as the migrations see it: an untyped JSON-like value.
    A key that is absent from an object stands for a property that is
    `undefined`; assigning `undefined` removes the key. */
module JsonValues {
  import opened Wrappers

  datatype Json =
    | Null
    | Bool(b: bool)
    | Num(n: real)
    | Str(s: string)
    | Arr(items: seq<Json>)
    | Obj(fields: map<string, Json>)

  /** JavaScript truthiness; `None` is `undefined`. */
  predicate Truthy(v: Option<Json>) {
    match v
    case None => false
    case Some(j) =>
      match j
      case Null => false
      case Bool(b) => b
      case Num(n) => n != 0.0
      case Str(s) => s != ""
      case Arr(_) => true
      case Obj(_) => true
  }

  /** `obj[key]` on an object. */
  function Get(fields: map<string, Json>, key: string): (r: Option<Json>)
    ensures r.Some? <==> key in fields
    ensures r.Some? ==> r.value == fields[key]
  {
    if key in fields then Some(fields[key]) else None
  }

  /** `obj[key] = v`, where assigning `undefined` leaves the key absent. */
  function Put(fields: map<string, Json>, key: string, v: Option<Json>): (r: map<string, Json>)
    ensures Get(r, key) == v
    ensures forall k | k != key :: Get(r, k) == Get(fields, k)
  {
    match v
    case Some(j) => fields[key := j]
    case None => fields - {key}
  }

  /** The own properties `{...v}` copies: those of an object, none of
      `null`, `undefined`, booleans and numbers. */
  function Spread(v: Option<Json>): map<string, Json> {
    if v.Some? && v.value.Obj? then v.value.fields else map[]
  }

  /** Writing back what was read changes nothing. */
  lemma PutGet(fields: map<string, Json>, key: string)
    ensures Put(fields, key, Get(fields, key)) == fields
  {
    if key in fields {
      assert fields[key := fields[key]] == fields;
    }
  }

  /** Two objects that agree on every property are the same object. */
  lemma SameGets(a: map<string, Json>, b: map<string, Json>)
    requires forall k :: Get(a, k) == Get(b, k)
    ensures a == b
  {
    assert a.Keys == b.Keys by {
      forall k ensures k in a <==> k in b {
        assert Get(a, k).Some? <==> Get(b, k).Some?;
      }
    }
    forall k | k in a ensures a[k] == b[k] {
      assert Get(a, k) == Get(b, k);
    }
  }
}

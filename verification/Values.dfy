/**
 The Python values that cross the control plane: what `json` can encode, plus
 tuples and byte strings, which the redactor and the fingerprints meet first.
 */
module Values {
  import opened Wrappers

  datatype Value =
    | Null
    | Bool(b: bool)
    | Int(n: int)
    | Str(s: string)
    | Bytes(data: seq<bv8>)
    | List(items: seq<Value>)
    | Tuple(items: seq<Value>)
    | Dict(fields: map<string, Value>)

  /** `m.get(k)`: the Python default is `None`. */
  function Get(m: map<string, Value>, k: string): Value
  {
    if k in m then m[k] else Null
  }

  /** The mapping holds this value under this key. */
  predicate Has(m: map<string, Value>, k: string, v: Value)
  {
    k in m && m[k] == v
  }

  /** A list of texts. */
  function Texts(s: seq<string>): Value
  {
    List(seq(|s|, i requires 0 <= i < |s| => Str(s[i])))
  }

  /** A text that must be there and not empty. */
  function RequiredStr(p: map<string, Value>, key: string): Result<string>
  {
    var v := Get(p, key);
    if v.Str? && v.s != "" then Ok(v.s) else Err(key + " is required")
  }

  /** No byte string anywhere: `json.dumps` accepts the value. */
  predicate NoBytes(v: Value)
  {
    match v
    case Bytes(_) => false
    case List(items) => forall i :: 0 <= i < |items| ==> NoBytes(items[i])
    case Tuple(items) => forall i :: 0 <= i < |items| ==> NoBytes(items[i])
    case Dict(fields) => forall k :: k in fields ==> NoBytes(fields[k])
    case _ => true
  }

  /** What `json.loads` can return: no byte strings and no tuples. */
  predicate Plain(v: Value)
  {
    match v
    case Bytes(_) => false
    case Tuple(_) => false
    case List(items) => forall i :: 0 <= i < |items| ==> Plain(items[i])
    case Dict(fields) => forall k :: k in fields ==> Plain(fields[k])
    case _ => true
  }

  /** `json.loads(json.dumps(v))`: tuples come back as lists. */
  function Reload(v: Value): Value
  {
    match v
    case List(items) => List(seq(|items|, i requires 0 <= i < |items| => Reload(items[i])))
    case Tuple(items) => List(seq(|items|, i requires 0 <= i < |items| => Reload(items[i])))
    case Dict(fields) => Dict(map k | k in fields :: Reload(fields[k]))
    case _ => v
  }

  lemma {:induction false} ReloadPlain(v: Value)
    requires NoBytes(v)
    ensures Plain(Reload(v))
  {
    match v
    case List(items) =>
      forall i | 0 <= i < |items| ensures Plain(Reload(items[i])) { ReloadPlain(items[i]); }
    case Tuple(items) =>
      forall i | 0 <= i < |items| ensures Plain(Reload(items[i])) { ReloadPlain(items[i]); }
    case Dict(fields) =>
      forall k | k in fields ensures Plain(Reload(fields[k])) { ReloadPlain(fields[k]); }
    case _ =>
  }

  lemma {:induction false} ReloadFixed(v: Value)
    requires Plain(v)
    ensures Reload(v) == v && NoBytes(v)
  {
    match v
    case List(items) =>
      forall i | 0 <= i < |items| ensures Reload(items[i]) == items[i] && NoBytes(items[i]) { ReloadFixed(items[i]); }
    case Dict(fields) =>
      forall k | k in fields ensures Reload(fields[k]) == fields[k] && NoBytes(fields[k]) { ReloadFixed(fields[k]); }
    case _ =>
  }

  lemma ReloadFields(u: map<string, Value>)
    ensures Reload(Dict(u)).Dict? && Reload(Dict(u)).fields.Keys == u.Keys
    ensures forall k :: k in u ==> Reload(Dict(u)).fields[k] == Reload(u[k])
  {
  }

  lemma TextsPlain(s: seq<string>)
    ensures Plain(Texts(s)) && Reload(Texts(s)) == Texts(s)
  {
    assert Reload(Texts(s)).items == Texts(s).items;
  }
}

/**
 * JSON values as `json.loads` hands them to Python, the Python operations the
 * adapters apply to them (`x[k]`, `x[0]`, `x.get(k, d)`, `k in x`, iteration,
 * truth value, `== 0`, `str(x)`), the exceptions those operations raise, and the
 * reply a Flask view produces.
 */
module PyJson {
  import opened Wrappers
  import opened Text

  /**
   * A JSON value. An object keeps its members in document order, as the Python
   * dict built from it does. Numbers are integers (a JSON `true`/`false` is the
   * Python bool, itself an int).
   */
  datatype Json =
    | JNull
    | JBool(b: bool)
    | JInt(i: int)
    | JStr(s: string)
    | JList(items: seq<Json>)
    | JObj(fields: seq<(string, Json)>)

  /** A Python exception, with the text `str(e)` gives. */
  datatype PyError =
    | KeyError(keyRepr: string)
    | IndexError(message: string)
    | TypeError(message: string)
    | AttributeError(message: string)
    | ValueError(message: string)
    | DecimalError(message: string)
    | EnvironmentError(message: string)
    | NameError(message: string)
    /** Raised inside a library this model does not look into (requests, boto3, cryptography, apexpro). */
    | Foreign(message: string)

  /** `str(e)`. */
  function Str(e: PyError): string {
    match e
    case KeyError(k) => k
    case IndexError(m) => m
    case TypeError(m) => m
    case AttributeError(m) => m
    case ValueError(m) => m
    case DecimalError(m) => m
    case EnvironmentError(m) => m
    case NameError(m) => m
    case Foreign(m) => m
  }

  /** What a Flask view produces: a status and a JSON body, or an exception that escaped it (Flask then answers 500). */
  datatype HttpReply = Reply(status: int, body: Json) | Crash(error: PyError)

  /** The name of the Python type of a decoded value. */
  function TypeName(j: Json): string {
    match j
    case JNull => "NoneType"
    case JBool(_) => "bool"
    case JInt(_) => "int"
    case JStr(_) => "str"
    case JList(_) => "list"
    case JObj(_) => "dict"
  }

  /** The value of `key` in a decoded object: its last binding, as `json.loads` keeps it. */
  function Lookup(fields: seq<(string, Json)>, key: string): Option<Json>
    decreases |fields|
  {
    if fields == [] then None
    else if fields[|fields| - 1].0 == key then Some(fields[|fields| - 1].1)
    else Lookup(fields[..|fields| - 1], key)
  }

  /** A key is found iff some member has it, and what is found is the value of the last member that has it. */
  lemma {:induction false} LookupSpec(fields: seq<(string, Json)>, key: string)
    ensures Lookup(fields, key).None? <==> forall i :: 0 <= i < |fields| ==> fields[i].0 != key
    ensures Lookup(fields, key).Some? ==>
              exists i :: 0 <= i < |fields| && fields[i] == (key, Lookup(fields, key).value) &&
                          forall k :: i < k < |fields| ==> fields[k].0 != key
    decreases |fields|
  {
    if fields != [] {
      var last := |fields| - 1;
      if fields[last].0 == key {
        assert fields[last] == (key, Lookup(fields, key).value);
      } else {
        var init := fields[..last];
        LookupSpec(init, key);
        assert forall i :: 0 <= i < |init| ==> init[i] == fields[i];
      }
    }
  }

  /** A key bound by a single member is looked up as that member's value. */
  lemma LookupUnique(fields: seq<(string, Json)>, i: nat)
    requires i < |fields|
    requires forall j :: 0 <= j < |fields| && j != i ==> fields[j].0 != fields[i].0
    ensures Lookup(fields, fields[i].0) == Some(fields[i].1)
  {
    LookupSpec(fields, fields[i].0);
  }

  /** The keys of a decoded object in the order iterating the dict yields them (first occurrence). */
  function Keys(fields: seq<(string, Json)>): seq<string>
    decreases |fields|
  {
    if fields == [] then []
    else
      var rest := Keys(fields[..|fields| - 1]);
      var k := fields[|fields| - 1].0;
      if k in rest then rest else rest + [k]
  }

  /** Key `a` occurs in `fields` before any occurrence of key `b`. */
  predicate OccursBefore(fields: seq<(string, Json)>, a: string, b: string) {
    exists i :: 0 <= i < |fields| && fields[i].0 == a && forall j :: 0 <= j <= i ==> fields[j].0 != b
  }

  /**
   * Iterating a dict visits exactly the keys that can be looked up, each once,
   * in the order of their first occurrence: a key visited earlier occurs before
   * any occurrence of a key visited later.
   */
  lemma KeysSpec(fields: seq<(string, Json)>)
    ensures forall k :: k in Keys(fields) <==> Lookup(fields, k).Some?
    ensures forall p, q :: 0 <= p < q < |Keys(fields)| ==> Keys(fields)[p] != Keys(fields)[q]
    ensures forall p, q :: 0 <= p < q < |Keys(fields)| ==> OccursBefore(fields, Keys(fields)[p], Keys(fields)[q])
  {
    KeysMembers(fields);
    KeysOrder(fields);
  }

  lemma {:induction false} KeysMembers(fields: seq<(string, Json)>)
    ensures forall k :: k in Keys(fields) <==> Lookup(fields, k).Some?
    decreases |fields|
  {
    if fields != [] {
      KeysMembers(fields[..|fields| - 1]);
    }
  }

  lemma {:induction false} KeysOrder(fields: seq<(string, Json)>)
    ensures forall p, q :: 0 <= p < q < |Keys(fields)| ==> OccursBefore(fields, Keys(fields)[p], Keys(fields)[q])
    decreases |fields|
  {
    if fields != [] {
      var init := fields[..|fields| - 1];
      var k := fields[|fields| - 1].0;
      KeysOrder(init);
      KeysMembers(init);
      var K := Keys(fields);
      var KI := Keys(init);
      assert K == KI || (k !in KI && K == KI + [k]);
      forall p, q | 0 <= p < q < |K|
        ensures OccursBefore(fields, K[p], K[q])
      {
        assert K[p] == KI[p];
        if q == |KI| {
          LookupSpec(init, KI[p]);
          LookupSpec(init, k);
        } else {
          assert K[q] == KI[q] && OccursBefore(init, KI[p], KI[q]);
        }
        OccursBeforeExtends(init, fields, K[p], K[q]);
      }
    }
  }

  /** Occurring first in a prefix is occurring first in the whole. */
  lemma OccursBeforeExtends(init: seq<(string, Json)>, fields: seq<(string, Json)>, a: string, b: string)
    requires init <= fields && OccursBefore(init, a, b)
    ensures OccursBefore(fields, a, b)
  {
    var i :| 0 <= i < |init| && init[i].0 == a && forall j :: 0 <= j <= i ==> init[j].0 != b;
    assert fields[i] == init[i];
    assert forall j :: 0 <= j <= i ==> fields[j] == init[j];
  }

  /** `bool(j)`. */
  predicate Truthy(j: Json) {
    match j
    case JNull => false
    case JBool(b) => b
    case JInt(i) => i != 0
    case JStr(s) => s != ""
    case JList(items) => items != []
    case JObj(fields) => fields != []
  }

  /** `j[key]` for a string key. */
  function Subscript(j: Json, key: string): (r: Result<Json, PyError>)
    ensures r.Ok? <==> j.JObj? && Lookup(j.fields, key).Some?
    ensures r.Ok? ==> r.value == Lookup(j.fields, key).value
  {
    match j
    case JObj(fields) =>
      var v := Lookup(fields, key);
      if v.Some? then Ok(v.value) else Err(KeyError("'" + key + "'"))
    case JList(_) => Err(TypeError("list indices must be integers or slices, not str"))
    case JStr(_) => Err(TypeError("string indices must be integers, not 'str'"))
    case _ => Err(TypeError("'" + TypeName(j) + "' object is not subscriptable"))
  }

  /** `j[0]`. */
  function Index0(j: Json): (r: Result<Json, PyError>)
    ensures j.JList? ==> (r.Ok? <==> j.items != []) && (r.Ok? ==> r.value == j.items[0])
  {
    match j
    case JList(items) => if items == [] then Err(IndexError("list index out of range")) else Ok(items[0])
    case JStr(s) => if s == "" then Err(IndexError("string index out of range")) else Ok(JStr([s[0]]))
    case JObj(_) => Err(KeyError("0"))
    case _ => Err(TypeError("'" + TypeName(j) + "' object is not subscriptable"))
  }

  /** `j.get(key, default)`. */
  function Get(j: Json, key: string, default: Json): (r: Result<Json, PyError>)
    ensures r.Ok? <==> j.JObj?
    ensures j.JObj? ==> r.value == match Lookup(j.fields, key) case Some(v) => v case None => default
  {
    match j
    case JObj(fields) => Ok(match Lookup(fields, key) case Some(v) => v case None => default)
    case _ => Err(AttributeError("'" + TypeName(j) + "' object has no attribute 'get'"))
  }

  /** `key in j` for a string `key`. */
  function In(key: string, j: Json): (r: Result<bool, PyError>)
    ensures j.JObj? ==> r == Ok(Lookup(j.fields, key).Some?)
    ensures j.JList? ==> r == Ok(JStr(key) in j.items)
  {
    match j
    case JObj(fields) => Ok(Lookup(fields, key).Some?)
    case JList(items) => Ok(JStr(key) in items)
    case JStr(s) => Ok(ContainsSubstring(s, key))
    case _ => Err(TypeError("argument of type '" + TypeName(j) + "' is not iterable"))
  }

  /** The elements `for x in j` visits: list items, dict keys, or the characters of a string. */
  function Iter(j: Json): (r: Result<seq<Json>, PyError>)
    ensures j.JList? ==> r == Ok(j.items)
  {
    match j
    case JList(items) => Ok(items)
    case JObj(fields) => var ks := Keys(fields); Ok(seq(|ks|, i requires 0 <= i < |ks| => JStr(ks[i])))
    case JStr(s) => Ok(seq(|s|, i requires 0 <= i < |s| => JStr([s[i]])))
    case _ => Err(TypeError("'" + TypeName(j) + "' object is not iterable"))
  }

  /** `j == 0` in Python: only the integer 0 and `False` compare equal to 0. */
  predicate EqualsZero(j: Json) {
    j == JInt(0) || j == JBool(false)
  }

  /**
   * `str(j)`. Python's `repr` of a list or dict is not modelled: `containerStr`
   * stands for it.
   */
  function PyStr(j: Json, containerStr: Json -> string): string {
    match j
    case JNull => "None"
    case JBool(b) => if b then "True" else "False"
    case JInt(i) => IntToString(i)
    case JStr(s) => s
    case _ => containerStr(j)
  }

  /** `a + b` where `b` is a str: a str result when `a` is a str, a TypeError otherwise. */
  function ConcatStr(a: Json, b: string): (r: Result<string, PyError>)
    ensures r.Ok? <==> a.JStr?
    ensures a.JStr? ==> r.value == a.s + b
  {
    match a
    case JStr(s) => Ok(s + b)
    case JList(_) => Err(TypeError("can only concatenate list (not \"str\") to list"))
    case _ => Err(TypeError("unsupported operand type(s) for +: '" + TypeName(a) + "' and 'str'"))
  }

  /** A string of the source that is used as a string method receiver (`s.replace`, `s.upper`). */
  function AsStr(j: Json, attr: string): (r: Result<string, PyError>)
    ensures r.Ok? <==> j.JStr?
    ensures j.JStr? ==> r.value == j.s
    ensures !j.JStr? ==> r.error.AttributeError?
  {
    match j
    case JStr(s) => Ok(s)
    case _ => Err(AttributeError("'" + TypeName(j) + "' object has no attribute '" + attr + "'"))
  }
}

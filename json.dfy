/** Decoded JSON documents, as Python's `json` module hands them to the
    programs (`response.json()`), and the handful of Python operations the
    programs apply to them: `d.get(k, default)`, `x[k]`, `x[0]`, iteration,
    truthiness and hashability. Each Python exception these operations can
    raise is an `Err` value. */
module PyJson {

  /** The exceptions raised while walking a document. */
  datatype Error =
    | AttributeError(typeName: string, attr: string)  // `x.get(...)` on a value that is not a dict
    | KeyError(key: string)                           // `d[k]` with `k` not in `d`
    | IndexError                                      // `[][0]`
    | TypeError(reason: string)                       // wrong kind of value subscripted, iterated, hashed or converted
    | ValueError(literal: string)                     // `int(s)` of a string that is not a decimal literal
    | RequestError(message: string)                   // raised by the HTTP request or by decoding its body

  datatype Result<+T> = Ok(value: T) | Err(error: Error) {
    predicate IsFailure() { Err? }
    function PropagateFailure<U>(): Result<U> requires Err? { Err(error) }
    function Extract(): T requires Ok? { value }
  }

  datatype Option<+T> = None | Some(value: T)

  /** A decoded JSON value. A dict keeps its entries in the order the decoder
      met them; a key written twice in the text appears twice here. */
  datatype Json =
    | JNull
    | JBool(b: bool)
    | JNum(n: int)
    | JStr(s: string)
    | JArr(items: seq<Json>)
    | JObj(entries: seq<(string, Json)>)

  /** Python's name for the type of a value, as it appears in messages. */
  function TypeName(j: Json): string {
    match j
    case JNull => "NoneType"
    case JBool(_) => "bool"
    case JNum(_) => "int"
    case JStr(_) => "str"
    case JArr(_) => "list"
    case JObj(_) => "dict"
  }

  /** The value a dict holds for `key`: the decoder stores every entry in
      turn, so the last entry with that key is the one that stays. */
  function Lookup(entries: seq<(string, Json)>, key: string): (r: Option<Json>)
    ensures r.None? <==> forall i :: 0 <= i < |entries| ==> entries[i].0 != key
    ensures r.Some? ==> exists i :: 0 <= i < |entries| && entries[i] == (key, r.value) &&
                                    forall k :: i < k < |entries| ==> entries[k].0 != key
  {
    if entries == [] then None
    else if entries[|entries| - 1].0 == key then Some(entries[|entries| - 1].1)
    else Lookup(entries[..|entries| - 1], key)
  }

  /** The distinct keys of a dict, in the order a dict iterates them (the
      position of a key's first entry). */
  function Keys(entries: seq<(string, Json)>): (r: seq<string>)
    ensures forall k :: k in r <==> exists i :: 0 <= i < |entries| && entries[i].0 == k
    ensures forall i, j :: 0 <= i < j < |r| ==> r[i] != r[j]
  {
    if entries == [] then []
    else
      var init := Keys(entries[..|entries| - 1]);
      if entries[|entries| - 1].0 in init then init else init + [entries[|entries| - 1].0]
  }

  /** `j.get(key, default)`: only a dict has `get`; the default stands in for
      an absent key only, not for a key present with value null. */
  function Get(j: Json, key: string, default: Json): (r: Result<Json>)
    ensures r.Err? <==> !j.JObj?
    ensures j.JObj? && Lookup(j.entries, key).Some? ==> r == Ok(Lookup(j.entries, key).value)
    ensures j.JObj? && (forall i :: 0 <= i < |j.entries| ==> j.entries[i].0 != key) ==> r == Ok(default)
  {
    match j
    case JObj(entries) =>
      (match Lookup(entries, key)
       case Some(v) => Ok(v)
       case None => Ok(default))
    case _ => Err(AttributeError(TypeName(j), "get"))
  }

  /** `j[key]` with a string key. */
  function Subscript(j: Json, key: string): (r: Result<Json>)
    ensures r.Ok? <==> j.JObj? && Lookup(j.entries, key).Some?
    ensures r.Ok? ==> r.value == Lookup(j.entries, key).value
    ensures j.JObj? && Lookup(j.entries, key).None? ==> r == Err(KeyError(key))
  {
    match j
    case JObj(entries) =>
      (match Lookup(entries, key)
       case Some(v) => Ok(v)
       case None => Err(KeyError(key)))
    case JStr(_) => Err(TypeError("string indices must be integers"))
    case _ => Err(TypeError("'" + TypeName(j) + "' object is not subscriptable"))
  }

  /** The one-character strings a `for` loop over a string yields. */
  function Chars(s: string): (r: seq<Json>)
    ensures |r| == |s| && forall i :: 0 <= i < |s| ==> r[i] == JStr([s[i]])
  {
    seq(|s|, i requires 0 <= i < |s| => JStr([s[i]]))
  }

  /** The keys of a dict as the string values a `for` loop yields. */
  function KeyStrings(entries: seq<(string, Json)>): seq<Json> {
    var ks := Keys(entries);
    seq(|ks|, i requires 0 <= i < |ks| => JStr(ks[i]))
  }

  /** Each key that has an entry is yielded, once. */
  lemma KeyStringsMembers(entries: seq<(string, Json)>)
    ensures forall x :: x in KeyStrings(entries) <==> exists i :: 0 <= i < |entries| && x == JStr(entries[i].0)
    ensures forall a, b :: 0 <= a < b < |KeyStrings(entries)| ==> KeyStrings(entries)[a] != KeyStrings(entries)[b]
  {
    var ks := Keys(entries);
    var r := KeyStrings(entries);
    assert forall m :: 0 <= m < |ks| ==> r[m] == JStr(ks[m]) && ks[m] in ks;
    assert forall i :: 0 <= i < |entries| ==> entries[i].0 in ks;
  }

  /** The elements a `for` loop over `j` visits: a list's items, a string's
      characters, a dict's keys; anything else is not iterable. */
  function Iter(j: Json): (r: Result<seq<Json>>)
    ensures r.Ok? <==> (j.JArr? || j.JStr? || j.JObj?)
    ensures j.JArr? ==> r == Ok(j.items)
  {
    match j
    case JArr(items) => Ok(items)
    case JStr(s) => Ok(Chars(s))
    case JObj(entries) => Ok(KeyStrings(entries))
    case _ => Err(TypeError("'" + TypeName(j) + "' object is not iterable"))
  }

  /** A loop over a string visits its characters, one at a time and in
      order; a loop over a dict visits each key that has an entry, once. */
  lemma IterElements(j: Json)
    ensures j.JStr? ==> Iter(j).Ok? && |Iter(j).value| == |j.s| &&
                        forall i :: 0 <= i < |j.s| ==> Iter(j).value[i] == JStr([j.s[i]])
    ensures j.JObj? ==> Iter(j).Ok? &&
                        (forall x :: x in Iter(j).value <==> exists i :: 0 <= i < |j.entries| && x == JStr(j.entries[i].0)) &&
                        forall a, b :: 0 <= a < b < |Iter(j).value| ==> Iter(j).value[a] != Iter(j).value[b]
  {
    if j.JObj? {
      KeyStringsMembers(j.entries);
    }
  }

  /** Python truthiness of a decoded value (`if competitions:`). */
  predicate Truthy(j: Json) {
    match j
    case JNull => false
    case JBool(b) => b
    case JNum(n) => n != 0
    case JStr(s) => s != ""
    case JArr(items) => items != []
    case JObj(entries) => entries != []
  }

  /** `j[0]`. A dict is never keyed by the integer 0 after decoding. */
  function First(j: Json): (r: Result<Json>)
    ensures j.JArr? && j.items != [] ==> r == Ok(j.items[0])
    ensures r.Ok? ==> j.JArr? || j.JStr?
  {
    match j
    case JArr(items) => if items == [] then Err(IndexError) else Ok(items[0])
    case JStr(s) => if s == "" then Err(IndexError) else Ok(JStr([s[0]]))
    case JObj(_) => Err(KeyError("0"))
    case _ => Err(TypeError("'" + TypeName(j) + "' object is not subscriptable"))
  }

  /** Lists and dicts cannot be dict keys or set members. */
  predicate Hashable(j: Json) {
    !j.JArr? && !j.JObj?
  }

  /** `str(e)` for a caught exception, the text after the error prefix. */
  function Describe(e: Error): string {
    match e
    case AttributeError(t, a) => "'" + t + "' object has no attribute '" + a + "'"
    case KeyError(k) => "'" + k + "'"
    case IndexError => "list index out of range"
    case TypeError(reason) => reason
    case ValueError(lit) => "invalid literal for int() with base 10: '" + lit + "'"
    case RequestError(message) => message
  }
}

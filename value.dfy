/** The `json` value (`JSON_Parser/JSON_Parser.cpp`, class `json`): a tag `type` and one
    payload per tag. Only the payload the tag selects is observable, so the value is a sum
    type. Objects are `std::map<std::string, json>`, kept as an association list in ascending
    key order. */
module Value {
  import opened Text
  import opened Floats
  import opened OrderedMap

  /** `json_type`. */
  datatype JsonType = JsonString | JsonFloat | JsonInt | JsonBool | JsonList | JsonObject | JsonNull

  datatype Json =
    | JString(s: string)
    | JFloat(f: Float)
    | JInt(i: Int32)
    | JBool(b: bool)
    | JList(items: seq<Json>)
    | JObject(fields: seq<Entry<Json>>)
    | JNull

  /** `json()`: the default constructor makes an object, not a null. */
  const EmptyObject: Json := JObject([])

  function Tag(v: Json): JsonType {
    match v
    case JString(_) => JsonString
    case JFloat(_) => JsonFloat
    case JInt(_) => JsonInt
    case JBool(_) => JsonBool
    case JList(_) => JsonList
    case JObject(_) => JsonObject
    case JNull => JsonNull
  }

  /** Every object inside `v` has its keys strictly ascending, as a `std::map` does. */
  predicate WellFormed(v: Json) {
    match v
    case JList(items) => forall k :: 0 <= k < |items| ==> WellFormed(items[k])
    case JObject(fields) =>
      Sorted(fields) && forall k :: 0 <= k < |fields| ==> WellFormed(fields[k].value)
    case _ => true
  }

  /** `v` holds no float anywhere. */
  predicate FloatFree(v: Json) {
    match v
    case JFloat(_) => false
    case JList(items) => forall k :: 0 <= k < |items| ==> FloatFree(items[k])
    case JObject(fields) => forall k :: 0 <= k < |fields| ==> FloatFree(fields[k].value)
    case _ => true
  }

  // ---------------------------------------------------------------------------
  // operator==

  /** `lhs == rhs`: the tags must agree; scalars compare by payload (floats with IEEE `==`),
      lists element by element and objects entry by entry, key and value, in key order. */
  function Equal(a: Json, b: Json): (r: bool)
    ensures r ==> Tag(a) == Tag(b)
    ensures a.JNull? && b.JNull? ==> r
  {
    match a
    case JString(x) => b.JString? && x == b.s
    case JFloat(x) => b.JFloat? && FloatEq(x, b.f)
    case JInt(x) => b.JInt? && x == b.i
    case JBool(x) => b.JBool? && x == b.b
    case JList(xs) =>
      b.JList? && |xs| == |b.items| &&
      forall k :: 0 <= k < |xs| ==> Equal(xs[k], b.items[k])
    case JObject(xs) =>
      b.JObject? && |xs| == |b.fields| &&
      forall k :: 0 <= k < |xs| ==> xs[k].key == b.fields[k].key && Equal(xs[k].value, b.fields[k].value)
    case JNull => b.JNull?
  }

  lemma {:induction false} EqualSymmetric(a: Json, b: Json)
    ensures Equal(a, b) == Equal(b, a)
    decreases a
  {
    match a
    case JFloat(x) =>
      if b.JFloat? {
        FloatEqSymmetric(x, b.f);
      }
    case JList(xs) =>
      if b.JList? && |xs| == |b.items| {
        forall k | 0 <= k < |xs| ensures Equal(xs[k], b.items[k]) == Equal(b.items[k], xs[k]) {
          EqualSymmetric(xs[k], b.items[k]);
        }
      }
    case JObject(xs) =>
      if b.JObject? && |xs| == |b.fields| {
        forall k | 0 <= k < |xs|
          ensures Equal(xs[k].value, b.fields[k].value) == Equal(b.fields[k].value, xs[k].value)
        {
          EqualSymmetric(xs[k].value, b.fields[k].value);
        }
      }
    case _ =>
  }

  /** Without floats (whose NaN is unequal to itself and whose two zeros are equal)
      `operator==` is exactly identity of values. */
  lemma {:induction false} EqualIsIdentity(a: Json, b: Json)
    requires FloatFree(a)
    ensures Equal(a, b) <==> a == b
    decreases a
  {
    match a
    case JList(xs) =>
      if b.JList? && |xs| == |b.items| {
        forall k | 0 <= k < |xs| ensures Equal(xs[k], b.items[k]) <==> xs[k] == b.items[k] {
          EqualIsIdentity(xs[k], b.items[k]);
        }
        if Equal(a, b) {
          assert xs == b.items;
        }
      }
    case JObject(xs) =>
      if b.JObject? && |xs| == |b.fields| {
        forall k | 0 <= k < |xs|
          ensures Equal(xs[k].value, b.fields[k].value) <==> xs[k].value == b.fields[k].value
        {
          EqualIsIdentity(xs[k].value, b.fields[k].value);
        }
        if Equal(a, b) {
          assert forall k :: 0 <= k < |xs| ==> xs[k] == b.fields[k];
          assert xs == b.fields;
        }
      }
    case _ =>
  }

  // ---------------------------------------------------------------------------
  // operator+=

  /** `a += b`. The receiver's tag never changes: a string absorbs a string, a list takes
      `b` as one more element (a list too), an int or a float absorbs an int or a float
      (through the float library where a float takes part), and nothing else changes `a`.
      `int + int` that leaves the `int` range is undefined behaviour in the C++; it is
      excluded by the precondition. */
  function Plus(fl: FloatLib, a: Json, b: Json): (r: Json)
    requires a.JInt? && b.JInt? ==> InInt32(a.i + b.i)
    ensures Tag(r) == Tag(a)
    ensures a.JString? && b.JString? ==> r == JString(a.s + b.s)
    ensures a.JList? ==> r == JList(a.items + [b])
    ensures a.JInt? && b.JInt? ==> r == JInt(a.i + b.i)
    ensures r != a ==>
      (a.JString? && b.JString?) || a.JList? ||
      ((a.JInt? || a.JFloat?) && (b.JInt? || b.JFloat?))
    ensures WellFormed(a) && WellFormed(b) ==> WellFormed(r)
  {
    match a
    case JString(x) => if b.JString? then JString(x + b.s) else a
    case JFloat(x) =>
      if b.JFloat? then JFloat(fl.add(x, b.f))
      else if b.JInt? then JFloat(fl.add(x, fl.ofInt(b.i)))
      else a
    case JInt(x) =>
      if b.JInt? then JInt(x + b.i)
      else if b.JFloat? then JInt(fl.toInt(fl.add(fl.ofInt(x), b.f)))
      else a
    case JList(xs) =>
      var ys := xs + [b];
      assert forall k :: 0 <= k < |xs| ==> ys[k] == xs[k];
      JList(ys)
    case _ => a
  }

  /** `a += x` for each `x` of `xs` in turn, on a list receiver. */
  function PushEach(fl: FloatLib, a: Json, xs: seq<Json>): (r: Json)
    requires a.JList?
    ensures r.JList?
    decreases |xs|
  {
    if |xs| == 0 then a else PushEach(fl, Plus(fl, a, xs[0]), xs[1..])
  }

  /** `a.addAll(b)`: appends the elements of `b` when both are lists, else does nothing. */
  function AddAll(a: Json, b: Json): (r: Json)
    ensures Tag(r) == Tag(a)
    ensures !(a.JList? && b.JList?) ==> r == a
    ensures a.JList? && b.JList? ==> |r.items| == |a.items| + |b.items|
  {
    if a.JList? && b.JList? then JList(a.items + b.items) else a
  }

  lemma {:induction false} PushEachAppends(fl: FloatLib, xs: seq<Json>, ys: seq<Json>)
    ensures PushEach(fl, JList(xs), ys) == JList(xs + ys)
    decreases |ys|
  {
    if |ys| == 0 {
      assert xs + ys == xs;
    } else {
      PushEachAppends(fl, xs + [ys[0]], ys[1..]);
      assert (xs + [ys[0]]) + ys[1..] == xs + ys;
    }
  }

  /** `addAll` on two lists is `+=` of every element of the argument, in order; the
      argument's own elements are never flattened further. */
  lemma AddAllIsRepeatedPlus(fl: FloatLib, a: Json, b: Json)
    requires a.JList? && b.JList?
    ensures AddAll(a, b) == PushEach(fl, a, b.items)
  {
    PushEachAppends(fl, a.items, b.items);
  }

  // ---------------------------------------------------------------------------
  // erase, eraseKey

  /** The index of the first element `operator==` to `item`, or `|xs|` when there is none. */
  function FirstEqual(xs: seq<Json>, item: Json): (r: nat)
    ensures r <= |xs|
    ensures r < |xs| ==> Equal(xs[r], item)
    ensures forall k :: 0 <= k < r ==> !Equal(xs[k], item)
    decreases |xs|
  {
    if |xs| == 0 then 0
    else if Equal(xs[0], item) then 0
    else 1 + FirstEqual(xs[1..], item)
  }

  /** `v.erase(item)`: on a list, removes the first element equal to `item` and reports
      whether it did; on anything else, leaves `v` alone and reports false. */
  function Erase(v: Json, item: Json): (r: (Json, bool))
    ensures r.1 <==> v.JList? && exists k :: 0 <= k < |v.items| && Equal(v.items[k], item)
    ensures !r.1 ==> r.0 == v
    ensures r.1 ==>
      exists n :: 0 <= n < |v.items| && Equal(v.items[n], item) &&
        (forall k :: 0 <= k < n ==> !Equal(v.items[k], item)) &&
        r.0 == JList(v.items[..n] + v.items[n + 1..])
    ensures WellFormed(v) ==> WellFormed(r.0)
  {
    if v.JList? then
      var n := FirstEqual(v.items, item);
      if n < |v.items| then
        var ys := v.items[..n] + v.items[n + 1..];
        assert forall k :: 0 <= k < |ys| ==> ys[k] == v.items[if k < n then k else k + 1];
        (JList(ys), true)
      else (v, false)
    else (v, false)
  }

  /** `v.eraseKey(key)`: on an object, drops `key` and reports whether it was there; on
      anything else, leaves `v` alone and reports false. */
  function EraseKey(v: Json, key: string): (r: (Json, bool))
    requires v.JObject? ==> Sorted(v.fields)
    ensures r.1 <==> v.JObject? && key in Keys(v.fields)
    ensures !r.1 ==> r.0 == v
    ensures v.JObject? ==>
      r.0.JObject? && Sorted(r.0.fields) &&
      Keys(r.0.fields) == Keys(v.fields) - {key} &&
      forall k :: k != key ==> Find(r.0.fields, k) == Find(v.fields, k)
    ensures WellFormed(v) ==> WellFormed(r.0)
  {
    if v.JObject? then
      forall k | k != key ensures Find(Remove(v.fields, key), k) == Find(v.fields, k) {
        FindRemove(v.fields, key, k);
      }
      RemoveFrom(v.fields, key);
      var es := Remove(v.fields, key);
      assert forall k :: 0 <= k < |es| ==> es[k] in v.fields;
      (JObject(es), key in Keys(v.fields))
    else (v, false)
  }

  // ---------------------------------------------------------------------------
  // length, getType, operator[](key)

  /** `length()`: the element count of a list as an `unsigned int`; any other value answers
      `-1`, which the conversion to `unsigned int` turns into 2^32 - 1. */
  function Length(v: Json): (r: nat)
    ensures r < 0x1_0000_0000
    ensures v.JList? && |v.items| < 0x1_0000_0000 ==> r == |v.items|
    ensures !v.JList? ==> r == 0xFFFF_FFFF
  {
    if v.JList? then |v.items| % 0x1_0000_0000 else 0xFFFF_FFFF
  }

  /** `getType()`. */
  function TypeName(v: Json): (r: string)
    ensures r in {"string", "float", "int", "bool", "list", "json object", "null"}
    ensures v.JString? <==> r == "string"
    ensures v.JFloat? <==> r == "float"
    ensures v.JInt? <==> r == "int"
    ensures v.JBool? <==> r == "bool"
    ensures v.JList? <==> r == "list"
    ensures v.JObject? <==> r == "json object"
    ensures v.JNull? <==> r == "null"
  {
    match Tag(v)
    case JsonString => "string"
    case JsonFloat => "float"
    case JsonInt => "int"
    case JsonBool => "bool"
    case JsonList => "list"
    case JsonObject => "json object"
    case JsonNull => "null"
  }

  /** `getType` tells every tag apart. */
  lemma TypeNameInjective(a: Json, b: Json)
    ensures TypeName(a) == TypeName(b) <==> Tag(a) == Tag(b)
  {
    if Tag(a) != Tag(b) {
      assert TypeName(a) != TypeName(b) by {
        match Tag(a)
        case JsonString =>
        case JsonFloat =>
        case JsonInt =>
        case JsonBool =>
        case JsonList =>
        case JsonObject =>
        case JsonNull =>
      }
    }
  }

  /** `o[key]` on an object's entries: the entries afterwards and the value referred to. A
      missing key is first inserted with a default `json()`, an empty object. */
  function Subscript(fields: seq<Entry<Json>>, key: string): (r: (seq<Entry<Json>>, Json))
    requires Sorted(fields)
    ensures Sorted(r.0) && Keys(r.0) == Keys(fields) + {key}
    ensures Find(r.0, key) == Some(r.1)
    ensures forall k :: k != key ==> Find(r.0, k) == Find(fields, k)
    ensures Find(fields, key).Some? ==> r == (fields, Find(fields, key).value)
    ensures Find(fields, key).None? ==> r.1 == EmptyObject
    ensures WellFormed(JObject(fields)) ==> WellFormed(JObject(r.0))
  {
    match Find(fields, key)
    case Some(x) => (fields, x)
    case None =>
      var es := Insert(fields, key, EmptyObject);
      InsertKeys(fields, key, EmptyObject);
      forall k ensures Find(es, k) == if k == key then Some(EmptyObject) else Find(fields, k) {
        FindInsert(fields, key, EmptyObject, k);
      }
      assert WellFormed(JObject(fields)) ==> WellFormed(JObject(es)) by {
        if WellFormed(JObject(fields)) {
          InsertWellFormed(fields, key, EmptyObject);
        }
      }
      (es, EmptyObject)
  }

  /** `m[k] = v` on a well-formed object with a well-formed `v` keeps it well-formed. */
  lemma InsertWellFormed(fields: seq<Entry<Json>>, key: string, v: Json)
    requires WellFormed(JObject(fields)) && WellFormed(v)
    ensures WellFormed(JObject(Insert(fields, key, v)))
  {
    InsertFrom(fields, key, v);
    var es := Insert(fields, key, v);
    forall k | 0 <= k < |es| ensures WellFormed(es[k].value) {
      assert es[k] in es;
    }
  }

  // ---------------------------------------------------------------------------
  // operator=(std::initializer_list<json>)

  /** A two-element list whose first element is a string: one `{"key", value}` pair. */
  predicate IsPair(j: Json) {
    j.JList? && |j.items| == 2 && j.items[0].JString?
  }

  function PairEntry(j: Json): Entry<Json>
    requires IsPair(j)
  {
    Entry(j.items[0].s, j.items[1])
  }

  /** The entries named by a run of pairs, in the order written. */
  function Pairs(items: seq<Json>): (r: seq<Entry<Json>>)
    requires forall k :: 0 <= k < |items| ==> IsPair(items[k])
    ensures |r| == |items|
    ensures forall k :: 0 <= k < |items| ==> r[k] == PairEntry(items[k])
  {
    seq(|items|, k requires 0 <= k < |items| => PairEntry(items[k]))
  }

  /** `v = { ... }`: a brace list made only of `{string, value}` pairs becomes an object (a
      later pair for the same key overwrites an earlier one); any other brace list becomes
      a list of its items. */
  function Build(items: seq<Json>): (r: Json)
    ensures (forall k :: 0 <= k < |items| ==> IsPair(items[k])) ==>
      r.JObject? && Sorted(r.fields) &&
      forall key :: Find(r.fields, key) == LastWith(Pairs(items), key)
    ensures (exists k :: 0 <= k < |items| && !IsPair(items[k])) ==> r == JList(items)
  {
    if forall k :: 0 <= k < |items| ==> IsPair(items[k]) then
      var es := InsertAll([], Pairs(items));
      forall key ensures Find(es, key) == LastWith(Pairs(items), key) {
        FindInsertAll([], Pairs(items), key);
      }
      JObject(es)
    else JList(items)
  }

  /** Collecting one more pair is one more `m[key] = value`. */
  lemma PairsStep(items: seq<Json>, k: nat)
    requires k < |items| && forall j :: 0 <= j <= k ==> IsPair(items[j])
    ensures InsertAll([], Pairs(items[..k + 1])) ==
      Insert(InsertAll([], Pairs(items[..k])), items[k].items[0].s, items[k].items[1])
  {
    var pairs := Pairs(items[..k]);
    assert Pairs(items[..k + 1]) == pairs + [PairEntry(items[k])];
    InsertAllSnoc([], pairs, PairEntry(items[k]));
  }

  /** The brace list builds a well-formed value from well-formed items. */
  lemma BuildWellFormed(items: seq<Json>)
    requires forall k :: 0 <= k < |items| ==> WellFormed(items[k])
    ensures WellFormed(Build(items))
  {
    var r := Build(items);
    if forall k :: 0 <= k < |items| ==> IsPair(items[k]) {
      var pairs := Pairs(items);
      forall k | 0 <= k < |r.fields| ensures WellFormed(r.fields[k].value) {
        var key := r.fields[k].key;
        FindSorted(r.fields, k);
        var w := LastWithIn(pairs, key);
        assert pairs[w] == PairEntry(items[w]);
        assert WellFormed(items[w]);
        assert items[w].items[1] in items[w].items;
      }
    }
  }

  /** The value `LastWith` picks is the value of one of the pairs. */
  lemma {:induction false} LastWithIn(pairs: seq<Entry<Json>>, key: string) returns (w: nat)
    requires LastWith(pairs, key).Some?
    ensures w < |pairs| && pairs[w] == Entry(key, LastWith(pairs, key).value)
    decreases |pairs|
  {
    if pairs[|pairs| - 1].key == key {
      w := |pairs| - 1;
    } else {
      w := LastWithIn(pairs[..|pairs| - 1], key);
    }
  }
}

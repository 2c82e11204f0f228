/** A `json` object as a C++ variable: its mutating members change the value in place. */
module Variable {
  import opened Text
  import opened Floats
  import opened OrderedMap
  import opened Value

  class JsonVar {
    var value: Json

    /** Every object inside the value keeps its keys in order. */
    predicate Valid()
      reads this
    {
      WellFormed(value)
    }

    /** The converting constructors `json(std::string)`, `json(int)`, ... */
    constructor (v: Json)
      requires WellFormed(v)
      ensures Valid() && value == v
    {
      value := v;
    }

    /** `json()`, whose default tag is `json_object`. */
    constructor Default()
      ensures Valid() && value == EmptyObject
    {
      value := EmptyObject;
    }

    /** The converting constructor from a brace list (`json{...}`), which defers to the
        brace-list assignment. */
    constructor FromBraces(items: seq<Json>)
      requires forall k :: 0 <= k < |items| ==> WellFormed(items[k])
      ensures Valid() && value == Build(items)
    {
      BuildWellFormed(items);
      value := Build(items);
    }

    /** `operator=` from a string, number, bool, vector or map: tag and payload replaced. */
    method Assign(v: Json)
      requires WellFormed(v)
      modifies this
      ensures Valid() && value == v
    {
      value := v;
    }

    /** `operator=(std::initializer_list<json>)`: scans the items, collecting pairs into a
        map until the first item that is not a `{string, value}` pair. */
    method AssignBraces(items: seq<Json>)
      requires forall k :: 0 <= k < |items| ==> WellFormed(items[k])
      modifies this
      ensures Valid() && value == Build(items)
    {
      var isList := false;
      var m: seq<Entry<Json>> := [];
      var k := 0;
      while k < |items|
        invariant 0 <= k <= |items|
        invariant forall j :: 0 <= j < k ==> IsPair(items[j])
        invariant Sorted(m) && m == InsertAll([], Pairs(items[..k]))
        invariant !isList
      {
        if !IsPair(items[k]) {
          isList := true;
          break;
        }
        PairsStep(items, k);
        m := Insert(m, items[k].items[0].s, items[k].items[1]);
        k := k + 1;
      }
      BuildWellFormed(items);
      if isList {
        value := JList(items);
      } else {
        assert items[..k] == items;
        value := JObject(m);
      }
    }

    /** `*this += val`. */
    method AddAssign(fl: FloatLib, val: Json)
      requires Valid() && WellFormed(val)
      requires value.JInt? && val.JInt? ==> InInt32(value.i + val.i)
      modifies this
      ensures Valid() && value == Plus(fl, old(value), val)
    {
      value := Plus(fl, value, val);
    }

    /** `val1 + val2`: adds `val2` into this variable and returns a copy of the result. */
    method Add(fl: FloatLib, val2: Json) returns (r: Json)
      requires Valid() && WellFormed(val2)
      requires value.JInt? && val2.JInt? ==> InInt32(value.i + val2.i)
      modifies this
      ensures Valid() && value == Plus(fl, old(value), val2) && r == value
    {
      AddAssign(fl, val2);
      r := value;
    }

    /** `addAll(list)`: pushes the elements of `list` one by one. */
    method AddAll(list: Json)
      requires Valid() && WellFormed(list)
      modifies this
      ensures Valid() && value == Value.AddAll(old(value), list)
    {
      if value.JList? && list.JList? {
        var k := 0;
        while k < |list.items|
          invariant 0 <= k <= |list.items|
          invariant value == JList(old(value).items + list.items[..k])
          invariant Valid()
        {
          assert list.items[..k + 1] == list.items[..k] + [list.items[k]];
          value := JList(value.items + [list.items[k]]);
          k := k + 1;
        }
        assert list.items[..k] == list.items;
      }
    }

    /** `erase(item)`: walks the list and removes the first element equal to `item`. */
    method Erase(item: Json) returns (removed: bool)
      requires Valid()
      modifies this
      ensures Valid() && (value, removed) == Value.Erase(old(value), item)
    {
      if value.JList? {
        var xs := value.items;
        var i := 0;
        while i < |xs|
          invariant 0 <= i <= |xs|
          invariant forall k :: 0 <= k < i ==> !Equal(xs[k], item)
          invariant value == old(value)
        {
          if Equal(xs[i], item) {
            assert FirstEqual(xs, item) == i;
            assert Value.Erase(value, item) == (JList(xs[..i] + xs[i + 1..]), true);
            value := JList(xs[..i] + xs[i + 1..]);
            return true;
          }
          i := i + 1;
        }
      }
      return false;
    }

    /** `eraseKey(key)`. */
    method EraseKey(key: string) returns (removed: bool)
      requires Valid()
      modifies this
      ensures Valid() && (value, removed) == Value.EraseKey(old(value), key)
    {
      if value.JObject? {
        removed := key in Keys(value.fields);
        value := JObject(Remove(value.fields, key));
        assert value == Value.EraseKey(old(value), key).0;
      } else {
        removed := false;
      }
    }

    /** `operator[](int)` read through the reference it returns. The index must be in range:
        the C++ does not check it. */
    method At(idx: int) returns (r: Json)
      requires value.JList? && 0 <= idx < |value.items|
      ensures r == value.items[idx]
    {
      r := value.items[idx];
    }

    /** `(*this)[idx] = x`. */
    method SetAt(idx: int, x: Json)
      requires Valid() && WellFormed(x)
      requires value.JList? && 0 <= idx < |value.items|
      modifies this
      ensures Valid() && value == JList(old(value).items[idx := x])
    {
      value := JList(value.items[idx := x]);
    }

    /** `operator[](key)` on an object: a missing key gets a default `json()` first. */
    method Key(key: string) returns (r: Json)
      requires Valid() && value.JObject?
      modifies this
      ensures Valid() && value.JObject? && (value.fields, r) == Subscript(old(value).fields, key)
    {
      var sub := Subscript(value.fields, key);
      value := JObject(sub.0);
      r := sub.1;
    }

    /** `(*this)[key] = x` on an object. */
    method SetKey(key: string, x: Json)
      requires Valid() && value.JObject? && WellFormed(x)
      modifies this
      ensures Valid() && value == JObject(Insert(old(value).fields, key, x))
    {
      InsertWellFormed(value.fields, key, x);
      value := JObject(Insert(value.fields, key, x));
    }
  }
}

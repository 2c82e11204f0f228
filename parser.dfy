/** `parse` and `json::getObj` as the loops the C++ runs, each proved to compute what the
    functions of module `ParseSpec` describe. */
module Parser {
  import opened Text
  import opened Floats
  import opened OrderedMap
  import opened Value
  import opened ParseSpec

  /** `json::getObj(str, i, ...)`: scans `str` from cursor `i0` and returns the elements
      found together with the final cursor, which the C++ hands back by reference. */
  method GetObj(fl: FloatLib, str: string, i0: nat, mode: Mode) returns (r: Outcome<seq<Json>>, i: nat)
    requires 1 <= i0 <= |str|
    ensures Scanned(r, i) == Scan(fl, str, i0, mode, "", Start, [])
    decreases |str|, 0
  {
    var ret: seq<Json> := [];
    var val := "";
    var openCount := 0;
    var quoteOpen := false;
    i := i0;
    while i < ScanEnd(str, mode)
      invariant i0 <= i <= |str| && |val| < i
      invariant Scan(fl, str, i0, mode, "", Start, []) ==
        Scan(fl, str, i, mode, val, Tally(openCount, quoteOpen), ret)
      decreases |str| - i
    {
      var c := str[i];
      if IsEmpty(c) {
        if quoteOpen {
          val := val + [c];
        }
        i := i + 1;
        continue;
      }
      if str[i - 1] != '\\' {
        if c == '"' {
          openCount := openCount + (if quoteOpen then -1 else 1);
          quoteOpen := !quoteOpen;
        }
        if StrContains("[{", c) {
          openCount := openCount + 1;
        } else if StrContains("]}", c) {
          openCount := openCount - 1;
        }
      }
      if openCount <= 0 && val != "" && (c == ',' || (mode == OneValue && c == '}')) {
        if mode == OneValue && openCount == 0 && c == '}' {
          val := val + "}";
          i := i + 1;
        }
        var v := ParseText(fl, val);
        if v.Undefined? {
          return Undefined(v.cause), i;
        }
        ret := ret + [v.value];
        if mode == OneValue {
          return Ok(ret), i;
        }
        val := "";
      } else {
        val := val + [c];
      }
      i := i + 1;
    }
    var v := ParseText(fl, val);
    r := if v.Ok? then Ok(ret + [v.value]) else Undefined(v.cause);
  }

  /** `parse(val)`. */
  method ParseText(fl: FloatLib, val: string) returns (r: Outcome<Json>)
    ensures r == Parse(fl, val)
    decreases |val|, 2
  {
    var c := At(val, 0);
    if FirstAndLastMatch(val, '"', '"') {
      return Ok(JString(if |val| >= 2 then val[1..|val| - 1] else ""));
    } else if IsNum(c) {
      if StrContains(val, '.') {
        return Ok(JFloat(fl.atof(val)));
      }
      var n := Atoi(val);
      if !InInt32(n) {
        return Undefined(IntOutOfRange);
      }
      return Ok(JInt(n));
    } else if c == 't' {
      if val == "true" {
        return Ok(JBool(true));
      }
    } else if c == 'f' {
      if val == "false" {
        return Ok(JBool(false));
      }
    } else if c == 'n' {
      if val == "null" {
        return Ok(JNull);
      }
    } else if FirstAndLastMatch(val, '[', ']') {
      var items, _ := GetObj(fl, val, 1, Elements);
      return if items.Ok? then Ok(JList(items.value)) else Undefined(items.cause);
    } else if FirstAndLastMatch(val, '{', '}') {
      var fields := ParseObject(fl, val);
      return if fields.Ok? then Ok(JObject(fields.value)) else Undefined(fields.cause);
    }
    return Ok(EmptyObject);
  }

  /** The object branch of `parse`, on a text that starts with `{` and ends with `}`: the
      `while (i < val.length())` loop over the members. Each iteration finds the key and
      the start of its value (`MemberStart`), collects one value with the scanner, stores
      it under the key and moves one past where the scanner stopped. */
  method ParseObject(fl: FloatLib, val: string) returns (r: Outcome<seq<Entry<Json>>>)
    requires |val| >= 1
    ensures r == Members(fl, val, 1, [])
    decreases |val|, 1
  {
    var ret: seq<Entry<Json>> := [];
    var i := 1;
    while i < |val|
      invariant 1 <= i <= |val| + 1 && Sorted(ret)
      invariant Members(fl, val, 1, []) == Members(fl, val, i, ret)
      decreases |val| + 1 - i
    {
      var head := MemberStart(val, i);
      match head
      case Stop =>
        MembersStop(fl, val, i, ret);
        break;
      case Broken(u) =>
        MembersBroken(fl, val, i, ret);
        return Undefined(u);
      case Member(key, p) =>
        var retv, next := GetObj(fl, val, p, OneValue);
        if retv.Undefined? {
          MembersValueUndefined(fl, val, i, ret, Scanned(retv, next));
          return Undefined(retv.cause);
        }
        var ret' := Insert(ret, key, retv.value[0]);
        MembersNext(fl, val, i, ret, Scanned(retv, next), ret');
        i := next + 1;
        ret := ret';
    }
    return Ok(ret);
  }

  /** The first part of an iteration of the object branch's loop, from cursor `i`: skip
      blanks; break unless a quote follows; read the key up to a quote or past a
      backslash; step over that character; skip blanks and colons. */
  method MemberStart(val: string, i0: nat) returns (h: Head)
    requires 1 <= i0 < |val|
    ensures h == MemberHead(val, i0)
  {
    var i := i0;
    var c := val[i];
    while IsEmpty(c) && i < |val|
      invariant i0 <= i <= |val| && c == At(val, i)
      invariant SkipBlanks(val, i0) == SkipBlanks(val, i)
      decreases |val| - i
    {
      i := i + 1;
      c := At(val, i);
    }
    if c != '"' {
      return Stop;
    }
    ghost var quote := i;
    var key := "";
    i := i + 1;
    c := At(val, i);
    while c != '"' && val[i - 1] != '\\'
      invariant quote < i <= |val| && c == At(val, i)
      invariant ReadKey(val, quote + 1, "") == ReadKey(val, i, key)
      decreases |val| - i
    {
      key := key + [c];
      if i == |val| {
        return Broken(ReadPastEnd);
      }
      i := i + 1;
      c := At(val, i);
    }
    if i == |val| {
      return Broken(ReadPastEnd);
    }
    i := i + 1;
    c := At(val, i);
    ghost var colons := i;
    while IsEmpty(c) || c == ':'
      invariant colons <= i <= |val| && c == At(val, i)
      invariant SkipColons(val, colons) == SkipColons(val, i)
      decreases |val| - i
    {
      i := i + 1;
      c := At(val, i);
    }
    return Member(key, i);
  }
}

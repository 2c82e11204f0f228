/** What `parse` (`JSON_Parser/JSON_Parser.cpp`) and the scanner `json::getObj` compute,
    written as recursive functions that take the same steps as the C++ loops: one call per
    loop iteration, the loop variables as parameters. The methods of module `Parser` run
    the loops themselves and are proved to agree with these functions. */
module ParseSpec {
  import opened Text
  import opened Floats
  import opened OrderedMap
  import opened Value

  /** The ways the C++ has undefined behaviour on malformed text. */
  datatype Ub =
    | IntOutOfRange   // `atoi` on a number that does not fit an `int`
    | ReadPastEnd     // the key loop reading beyond the terminating NUL

  /** The outcome of parsing: a value, or the undefined behaviour the text triggers. */
  datatype Outcome<T> = Ok(value: T) | Undefined(cause: Ub)

  /** The two argument combinations `getObj` is called with: `(false, 1, false)` from the
      list branch, collecting every element up to the last character; and
      `(true, 0, true)` from the object branch, collecting one value and stopping. */
  datatype Mode = Elements | OneValue

  /** The scanner's `openCount` and `quoteOpen`. */
  datatype Tally = Tally(open: int, quoted: bool)

  const Start: Tally := Tally(0, false)

  /** The scanner's update of its tally on an unescaped character: a quote opens or closes
      a string and moves the depth by one either way; a bracket moves the depth whether or
      not a string is open. */
  function Count(c: char, t: Tally): (r: Tally)
    ensures c == '"' ==> r.quoted == !t.quoted
    ensures c != '"' ==> r.quoted == t.quoted
    ensures c != '"' && c != '[' && c != ']' && c != '{' && c != '}' ==> r == t
    ensures c == '[' || c == '{' ==> r.open == t.open + 1
    ensures c == ']' || c == '}' ==> r.open == t.open - 1
    ensures c == '"' ==> r.open == t.open + (if t.quoted then -1 else 1)
  {
    var t1 := if c == '"' then Tally(t.open + (if t.quoted then -1 else 1), !t.quoted) else t;
    if c == '[' || c == '{' then Tally(t1.open + 1, t1.quoted)
    else if c == ']' || c == '}' then Tally(t1.open - 1, t1.quoted)
    else t1
  }

  /** The index at which the scanner stops: `str.length() - last_i_offset`. */
  function ScanEnd(s: string, mode: Mode): nat
    requires |s| >= 1
  {
    if mode == Elements then |s| - 1 else |s|
  }

  /** The scanner's test for the end of one element. */
  predicate Boundary(c: char, t: Tally, val: string, mode: Mode) {
    t.open <= 0 && val != "" && (c == ',' || (mode == OneValue && c == '}'))
  }

  /** The scanner's result: the elements collected and where the cursor `i` is left. */
  datatype Scanned = Scanned(items: Outcome<seq<Json>>, cursor: nat)

  predicate AllWellFormed(xs: seq<Json>) {
    forall k :: 0 <= k < |xs| ==> WellFormed(xs[k])
  }

  /** Adds the last element, parsed from `val`, to `acc`. */
  function Flush(r: Outcome<Json>, acc: seq<Json>): Outcome<seq<Json>> {
    match r
    case Ok(v) => Ok(acc + [v])
    case Undefined(u) => Undefined(u)
  }

  /** `getObj` from cursor `i` with accumulator `val`, tally `t` and elements `acc` so far.
      Elements end at a comma outside any bracket (and, collecting one value, at a closing
      brace), and are parsed with `parse`. Collecting one value returns straight after
      it, with the cursor on the closing comma or brace, or one past the brace that
      closes an object value. At the end of the text what is left in `val` is always
      parsed and added, even when it is empty. */
  function Scan(fl: FloatLib, s: string, i: nat, mode: Mode, val: string, t: Tally, acc: seq<Json>):
    (r: Scanned)
    requires 1 <= i <= |s| && |val| < i
    ensures i <= r.cursor <= |s|
    ensures r.items.Ok? ==> |r.items.value| > |acc| && r.items.value[..|acc|] == acc
    ensures r.items.Ok? && mode == OneValue ==>
      |r.items.value| == |acc| + 1 &&
      (r.cursor == |s| || s[r.cursor] == ',' || s[r.cursor] == '}' || s[r.cursor - 1] == '}')
    decreases |s|, 0, |s| - i, 1
  {
    if i >= ScanEnd(s, mode) then Scanned(Flush(Parse(fl, val), acc), i)
    else Continue(fl, s, i, mode, val, t, acc)
  }

  /** What one iteration of the scanner's loop does with the character `c` after `prev`. */
  datatype Move =
    | Go(val: string, t: Tally)          // keep scanning with this accumulator and tally
    | Split(t: Tally)                    // an element ends here; the next one starts empty
    | Finish(text: string, past: bool)   // the value is `text`, the cursor stays or moves past

  function Decide(c: char, prev: char, val: string, t: Tally, mode: Mode): (m: Move)
    ensures m.Go? ==> |m.val| <= |val| + 1
  {
    if IsEmpty(c) then Go(if t.quoted then val + [c] else val, t)
    else
      var t' := if prev != '\\' then Count(c, t) else t;
      if Boundary(c, t', val, mode) then
        if mode == OneValue then
          if t'.open == 0 && c == '}' then Finish(val + "}", true) else Finish(val, false)
        else Split(t')
      else Go(val + [c], t')
  }

  /** One iteration at cursor `i`, and the scan after it. */
  function Continue(fl: FloatLib, s: string, i: nat, mode: Mode, val: string, t: Tally, acc: seq<Json>):
    (r: Scanned)
    requires 1 <= i < |s| && |val| < i
    ensures i <= r.cursor <= |s|
    ensures r.items.Ok? ==> |r.items.value| > |acc| && r.items.value[..|acc|] == acc
    ensures r.items.Ok? && mode == OneValue ==>
      |r.items.value| == |acc| + 1 &&
      (r.cursor == |s| || s[r.cursor] == ',' || s[r.cursor] == '}' || s[r.cursor - 1] == '}')
    decreases |s|, 0, |s| - i, 0
  {
    match Decide(s[i], s[i - 1], val, t, mode)
    case Go(val', t') => Scan(fl, s, i + 1, mode, val', t', acc)
    case Split(t') =>
      (match Parse(fl, val)
       case Undefined(u) => Scanned(Undefined(u), i)
       case Ok(v) => Scan(fl, s, i + 1, mode, "", t', acc + [v]))
    case Finish(text, past) => Scanned(Flush(Parse(fl, text), acc), if past then i + 1 else i)
  }

  /** The branches of `parse`, chosen by the first character and, for brackets, the last. */
  datatype Shape = Quoted | Number | Literal | Bracketed | Braced | Other

  /** The branch `parse` takes: a quoted text, a number token, a `t`/`f`/`n` literal, a
      text in brackets or in braces, or anything else. */
  function Classify(s: string): (k: Shape)
    ensures k == Bracketed || k == Braced ==> |s| >= 1
  {
    if FirstAndLastMatch(s, '"', '"') then Quoted
    else if IsNum(At(s, 0)) then Number
    else if At(s, 0) == 't' || At(s, 0) == 'f' || At(s, 0) == 'n' then Literal
    else if FirstAndLastMatch(s, '[', ']') then Bracketed
    else if FirstAndLastMatch(s, '{', '}') then Braced
    else Other
  }

  /** `parse(val)`. A quoted text is a string; a number token is a float when it holds a
      `.` and an `int` otherwise; `true`, `false`, `null` are literals; brackets hold a
      list and braces an object. Everything else, including a failed `t`/`f`/`n` literal
      and the empty text, is the default `json()`, an empty object. */
  function Parse(fl: FloatLib, s: string): Outcome<Json>
    decreases |s|, 2, 1
  {
    ParseAs(fl, s, Classify(s))
  }

  /** The branch `k` of `parse` on `s`. */
  function ParseAs(fl: FloatLib, s: string, k: Shape): Outcome<Json>
    requires k == Bracketed || k == Braced ==> |s| >= 1
    decreases |s|, 2, 0
  {
    match k
    case Quoted => Ok(JString(if |s| >= 2 then s[1..|s| - 1] else ""))
    case Number =>
      if StrContains(s, '.') then Ok(JFloat(fl.atof(s)))
      else if InInt32(Atoi(s)) then Ok(JInt(Atoi(s)))
      else Undefined(IntOutOfRange)
    case Literal =>
      Ok(if s == "true" then JBool(true) else if s == "false" then JBool(false)
         else if s == "null" then JNull else EmptyObject)
    case Bracketed =>
      (match Scan(fl, s, 1, Elements, "", Start, []).items
       case Ok(xs) => Ok(JList(xs))
       case Undefined(u) => Undefined(u))
    case Braced =>
      (match Members(fl, s, 1, [])
       case Ok(es) => Ok(JObject(es))
       case Undefined(u) => Undefined(u))
    case Other => Ok(EmptyObject)
  }

  /** `while (isEmpty(c) && i < val.length())`: skips blank characters. */
  function SkipBlanks(s: string, i: nat): (j: nat)
    requires i <= |s|
    ensures i <= j <= |s| && (j < |s| ==> !IsEmpty(s[j]))
    ensures forall m {:trigger IsEmpty(s[m])} :: i <= m < j ==> IsEmpty(s[m])
    decreases |s| - i
  {
    if i < |s| && IsEmpty(s[i]) then SkipBlanks(s, i + 1) else i
  }

  /** `while (isEmpty(c) || c == ':')`: skips blanks and colons. The NUL at the end stops
      it, so it never reads past the text. */
  function SkipColons(s: string, i: nat): (j: nat)
    requires i <= |s|
    ensures i <= j <= |s| && (j < |s| ==> !IsEmpty(s[j]) && s[j] != ':')
    ensures forall m {:trigger IsEmpty(s[m])} :: i <= m < j ==> IsEmpty(s[m]) || s[m] == ':'
    decreases |s| - i
  {
    if IsEmpty(At(s, i)) || At(s, i) == ':' then SkipColons(s, i + 1) else i
  }

  /** The key loop's exit test at `i`: a quote, or any character after a backslash. */
  predicate KeyStop(s: string, i: nat)
    requires 1 <= i <= |s|
  {
    At(s, i) == '"' || s[i - 1] == '\\'
  }

  /** The key loop from cursor `k` with `key` read so far. It stops on a quote, or on any
      character that follows a backslash (which it then skips). Running into the NUL at
      the end of the text without stopping reads past the text. The result is the key and
      the index of the character that stopped the loop. */
  function ReadKey(s: string, k: nat, key: string): (r: Outcome<(string, nat)>)
    requires 1 <= k <= |s|
    ensures r.Ok? ==> k <= r.value.1 <= |s|
    ensures r.Ok? ==> KeyStop(s, r.value.1)
    ensures r.Ok? ==> forall m :: k <= m < r.value.1 ==> !KeyStop(s, m)
    ensures r.Undefined? ==> forall m :: k <= m <= |s| ==> !KeyStop(s, m)
    ensures r.Undefined? ==> r.cause == ReadPastEnd
    decreases |s| - k
  {
    if KeyStop(s, k) then Ok((key, k))
    else if k == |s| then Undefined(ReadPastEnd)
    else ReadKey(s, k + 1, key + [s[k]])
  }

  /** The key loop reads past the text exactly when no character from the cursor on stops
      it: the converse of the last clause of `ReadKey` follows from its stop being within
      the text. */
  lemma ReadKeyPastEnd(s: string, k: nat, key: string)
    requires 1 <= k <= |s|
    ensures ReadKey(s, k, key).Undefined? <==> forall m :: k <= m <= |s| ==> !KeyStop(s, m)
  {
  }

  /** The key read is the text from the cursor up to the character that stopped it. */
  lemma {:induction false} ReadKeyText(s: string, k: nat, key: string)
    requires 1 <= k <= |s| && ReadKey(s, k, key).Ok?
    ensures ReadKey(s, k, key).value.0 == key + s[k..ReadKey(s, k, key).value.1]
    decreases |s| - k
  {
    if !(At(s, k) == '"' || s[k - 1] == '\\') {
      ReadKeyText(s, k + 1, key + [s[k]]);
      var e := ReadKey(s, k, key).value.1;
      assert (key + [s[k]]) + s[k + 1..e] == key + s[k..e];
    }
  }

  /** What one iteration of the object branch's loop finds before it collects a value. */
  datatype Head =
    | Stop                              // no quote after the blanks: the loop breaks
    | Broken(cause: Ub)                 // the key loop reads past the text
    | Member(key: string, value: nat)   // the key, and the cursor of its value

  /** One iteration from cursor `i` up to the value: skip blanks; stop unless a quote
      follows; read the key; step over the character that stopped the key loop; skip
      blanks and colons. */
  function MemberHead(s: string, i: nat): (h: Head)
    requires 1 <= i < |s|
    ensures h.Member? ==> i + 2 <= h.value <= |s|
    ensures h.Member? ==> SkipBlanks(s, i) + 2 <= h.value
    ensures h.Broken? ==> h.cause == ReadPastEnd
  {
    var j := SkipBlanks(s, i);
    if At(s, j) != '"' then Stop
    else
      match ReadKey(s, j + 1, "")
      case Undefined(u) => Broken(u)
      case Ok(ke) =>
        if ke.1 == |s| then Broken(ReadPastEnd) else Member(ke.0, SkipColons(s, ke.1 + 1))
  }

  /** The object branch's `while (i < val.length())` from cursor `i` with the entries
      `ret` so far: find the next key and the start of its value; collect one value with
      the scanner; store it under the key, overwriting an earlier entry for the same key;
      go on one past where the scanner stopped. */
  function Members(fl: FloatLib, s: string, i: nat, ret: seq<Entry<Json>>):
    (r: Outcome<seq<Entry<Json>>>)
    requires 1 <= i <= |s| + 1 && Sorted(ret)
    decreases |s|, 1, |s| + 1 - i, 1
  {
    if i >= |s| then Ok(ret) else MembersAt(fl, s, i, MemberHead(s, i), ret)
  }

  /** One iteration with head `h`, and the loop after it. */
  function MembersAt(fl: FloatLib, s: string, i: nat, h: Head, ret: seq<Entry<Json>>):
    (r: Outcome<seq<Entry<Json>>>)
    requires 1 <= i < |s| && Sorted(ret) && (h.Member? ==> i + 2 <= h.value <= |s|)
    decreases |s|, 1, |s| + 1 - i, 0
  {
    match h
    case Stop => Ok(ret)
    case Broken(u) => Undefined(u)
    case Member(key, p) =>
      var sc := Scan(fl, s, p, OneValue, "", Start, []);
      match sc.items
      case Undefined(u) => Undefined(u)
      case Ok(vs) => Members(fl, s, sc.cursor + 1, Insert(ret, key, vs[0]))
  }

  /** The loop ends with the entries it has once a key is missing. */
  lemma MembersStop(fl: FloatLib, s: string, i: nat, ret: seq<Entry<Json>>)
    requires 1 <= i < |s| && Sorted(ret) && MemberHead(s, i) == Stop
    ensures Members(fl, s, i, ret) == Ok(ret)
  {
  }

  /** A key that runs past the text makes the whole parse undefined. */
  lemma MembersBroken(fl: FloatLib, s: string, i: nat, ret: seq<Entry<Json>>)
    requires 1 <= i < |s| && Sorted(ret) && MemberHead(s, i).Broken?
    ensures Members(fl, s, i, ret) == Undefined(ReadPastEnd)
  {
  }

  /** So does a value whose parse is undefined. */
  lemma MembersValueUndefined(fl: FloatLib, s: string, i: nat, ret: seq<Entry<Json>>, sc: Scanned)
    requires 1 <= i < |s| && Sorted(ret) && MemberHead(s, i).Member?
    requires sc == Scan(fl, s, MemberHead(s, i).value, OneValue, "", Start, [])
    requires sc.items.Undefined?
    ensures Members(fl, s, i, ret) == Undefined(sc.items.cause)
  {
  }

  /** A collected value is stored under its key in `ret'`, and the loop goes on one past
      the cursor the scanner leaves. */
  lemma MembersNext(fl: FloatLib, s: string, i: nat, ret: seq<Entry<Json>>, sc: Scanned,
                    ret': seq<Entry<Json>>)
    requires 1 <= i < |s| && Sorted(ret) && MemberHead(s, i).Member?
    requires sc == Scan(fl, s, MemberHead(s, i).value, OneValue, "", Start, [])
    requires sc.items.Ok? && ret' == Insert(ret, MemberHead(s, i).key, sc.items.value[0])
    ensures Members(fl, s, i, ret) == Members(fl, s, sc.cursor + 1, ret')
  {
  }

  // ---------------------------------------------------------------------------
  // Parsed values are well-formed

  predicate FieldsWellFormed(es: seq<Entry<Json>>) {
    Sorted(es) && forall k :: 0 <= k < |es| ==> WellFormed(es[k].value)
  }

  /** Every object `parse` builds has its keys in order, at every depth. */
  lemma {:induction false} ParseWellFormed(fl: FloatLib, s: string)
    ensures Parse(fl, s).Ok? ==> WellFormed(Parse(fl, s).value)
    decreases |s|, 2, 0
  {
    match Classify(s)
    case Bracketed => ScanWellFormed(fl, s, 1, Elements, "", Start, []);
    case Braced => MembersWellFormed(fl, s, 1, []);
    case _ =>
  }

  lemma {:induction false} ScanWellFormed(fl: FloatLib, s: string, i: nat, mode: Mode, val: string,
                                          t: Tally, acc: seq<Json>)
    requires 1 <= i <= |s| && |val| < i && AllWellFormed(acc)
    ensures var r := Scan(fl, s, i, mode, val, t, acc);
      r.items.Ok? ==> AllWellFormed(r.items.value)
    decreases |s|, 0, |s| - i, 1
  {
    if i >= ScanEnd(s, mode) {
      ParseWellFormed(fl, val);
    } else {
      match Decide(s[i], s[i - 1], val, t, mode)
      case Go(val', t') =>
        ScanWellFormed(fl, s, i + 1, mode, val', t', acc);
      case Split(t') =>
        ParseWellFormed(fl, val);
        if Parse(fl, val).Ok? {
          var acc' := acc + [Parse(fl, val).value];
          assert forall k :: 0 <= k < |acc| ==> acc'[k] == acc[k];
          ScanWellFormed(fl, s, i + 1, mode, "", t', acc');
        }
      case Finish(text, past) =>
        ParseWellFormed(fl, text);
    }
  }

  lemma {:induction false} MembersWellFormed(fl: FloatLib, s: string, i: nat, ret: seq<Entry<Json>>)
    requires 1 <= i <= |s| + 1 && FieldsWellFormed(ret)
    ensures Members(fl, s, i, ret).Ok? ==> FieldsWellFormed(Members(fl, s, i, ret).value)
    decreases |s|, 1, |s| + 1 - i
  {
    if i < |s| && MemberHead(s, i).Member? {
      var h := MemberHead(s, i);
      var sc := Scan(fl, s, h.value, OneValue, "", Start, []);
      if sc.items.Ok? {
        ScanWellFormed(fl, s, h.value, OneValue, "", Start, []);
        InsertWellFormed(ret, h.key, sc.items.value[0]);
        MembersWellFormed(fl, s, sc.cursor + 1, Insert(ret, h.key, sc.items.value[0]));
      }
    }
  }
}

/** `json::stringify` and `json::dump(int)` (`JSON_Parser/JSON_Parser.cpp`): the text of a
    value, compact or indented. The functions say what the text is; the method `Stringify`
    builds it as the C++ does, with string streams, indentation loops and the trim of the
    trailing separator, and is proved to produce the same text. */
module Serializer {
  import opened Text
  import opened Floats
  import opened OrderedMap
  import opened Value

  /** The compact text: scalars as themselves, containers with their parts separated by
      `,`, object members as `"key":value` in ascending key order. */
  function Compact(fl: FloatLib, v: Json): string
    decreases v, 1
  {
    match v
    case JString(s) => "\"" + s + "\""
    case JFloat(f) => fl.show(f)
    case JInt(i) => IntToString(i)
    case JBool(b) => if b then "true" else "false"
    case JList(xs) => "[" + Join(CompactItems(fl, xs), ",") + "]"
    case JObject(es) => "{" + Join(CompactMembers(fl, es), ",") + "}"
    case JNull => "null"
  }

  function CompactItems(fl: FloatLib, xs: seq<Json>): (r: seq<string>)
    ensures |r| == |xs| && forall k :: 0 <= k < |xs| ==> r[k] == Compact(fl, xs[k])
    decreases xs, 0
  {
    seq(|xs|, k requires 0 <= k < |xs| => Compact(fl, xs[k]))
  }

  function CompactMember(fl: FloatLib, e: Entry<Json>): string
    decreases e, 0
  {
    "\"" + e.key + "\":" + Compact(fl, e.value)
  }

  function CompactMembers(fl: FloatLib, es: seq<Entry<Json>>): (r: seq<string>)
    ensures |r| == |es| && forall k :: 0 <= k < |es| ==> r[k] == CompactMember(fl, es[k])
    decreases es, 0
  {
    seq(|es|, k requires 0 <= k < |es| => CompactMember(fl, es[k]))
  }

  /** The indentation unit: `tabSpace` spaces, none when `tabSpace` is not positive. */
  function Tab(w: int): string {
    Spaces(if w > 0 then w else 0)
  }

  /** The indented text of `v` at depth `d`: unless it is the value of an object member, it
      starts with `d` tabs; a container puts each part on its own line at depth `d + 1`
      (a member's value right after its `"key": `), separates the lines with `,`, and
      closes on a line of its own at depth `d`. */
  function Pretty(fl: FloatLib, v: Json, w: int, d: nat, isDictVal: bool): string
    decreases v, 1
  {
    (if isDictVal then "" else Repeat(Tab(w), d)) +
    match v
    case JList(xs) =>
      "[\n" + Join(PrettyItems(fl, xs, w, d + 1), ",\n") + "\n" + Repeat(Tab(w), d) + "]"
    case JObject(es) =>
      "{\n" + Join(PrettyMembers(fl, es, w, d + 1), ",\n") + "\n" + Repeat(Tab(w), d) + "}"
    case _ => Compact(fl, v)
  }

  function PrettyItems(fl: FloatLib, xs: seq<Json>, w: int, d: nat): (r: seq<string>)
    ensures |r| == |xs| && forall k :: 0 <= k < |xs| ==> r[k] == Pretty(fl, xs[k], w, d, false)
    decreases xs, 0
  {
    seq(|xs|, k requires 0 <= k < |xs| => Pretty(fl, xs[k], w, d, false))
  }

  function PrettyMember(fl: FloatLib, e: Entry<Json>, w: int, d: nat): string
    decreases e, 0
  {
    Repeat(Tab(w), d) + "\"" + e.key + "\": " + Pretty(fl, e.value, w, d, true)
  }

  function PrettyMembers(fl: FloatLib, es: seq<Entry<Json>>, w: int, d: nat): (r: seq<string>)
    ensures |r| == |es| && forall k :: 0 <= k < |es| ==> r[k] == PrettyMember(fl, es[k], w, d)
    decreases es, 0
  {
    seq(|es|, k requires 0 <= k < |es| => PrettyMember(fl, es[k], w, d))
  }

  /** `dump(tabSpace)`: compact for 0, indented from depth 0 otherwise. */
  function Serialize(fl: FloatLib, v: Json, tabSpace: int): string {
    if tabSpace == 0 then Compact(fl, v) else Pretty(fl, v, tabSpace, 0, false)
  }

  // ---------------------------------------------------------------------------
  // The C++ procedure

  /** `for (int i = 0; i < n; i++) { stream << tab; }` */
  method Indent(tab: string, n: nat) returns (r: string)
    ensures r == Repeat(tab, n)
  {
    r := "";
    var i := 0;
    while i < n
      invariant 0 <= i <= n && r == Repeat(tab, i)
    {
      r := r + tab;
      i := i + 1;
    }
  }

  /** `for (int i = 0; i < tabSpace; i++) { tab += ' '; }` */
  method MakeTab(tabSpace: int) returns (tab: string)
    ensures tab == Tab(tabSpace)
  {
    tab := "";
    var i := 0;
    while i < tabSpace
      invariant 0 <= i && (tabSpace > 0 ==> i <= tabSpace) && (tabSpace <= 0 ==> i == 0)
      invariant tab == Spaces(i)
    {
      tab := tab + " ";
      i := i + 1;
    }
  }

  /** `v.stringify(prettify, tabSpace, initTabPos, isDictVal)`. */
  method Stringify(fl: FloatLib, v: Json, prettify: bool, tabSpace: int, initTabPos: nat, isDictVal: bool)
    returns (out: string)
    ensures out == if prettify then Pretty(fl, v, tabSpace, initTabPos, isDictVal) else Compact(fl, v)
    decreases v, 1
  {
    var tab := MakeTab(tabSpace);
    var ret := "";
    if !isDictVal && prettify {
      ret := Indent(tab, initTabPos);
    }
    var text;
    match v {
      case JString(s) =>
        text := "\"" + s + "\"";
      case JFloat(f) =>
        text := fl.show(f);
      case JInt(n) =>
        text := IntToString(n);
      case JBool(b) =>
        text := if b then "true" else "false";
      case JList(xs) =>
        text := StringifyList(fl, xs, prettify, tabSpace, initTabPos, tab);
      case JObject(es) =>
        text := StringifyObject(fl, es, prettify, tabSpace, initTabPos, tab);
      case JNull =>
        text := "null";
    }
    out := ret + text;
  }

  /** The list case: the brackets around the elements, each on its own line when
      prettifying, the closing bracket indented to the list's own depth. */
  method StringifyList(fl: FloatLib, xs: seq<Json>, prettify: bool, tabSpace: int, initTabPos: nat,
                       tab: string)
    returns (text: string)
    requires tab == Tab(tabSpace)
    ensures prettify ==>
              text == "[\n" + Join(PrettyItems(fl, xs, tabSpace, initTabPos + 1), ",\n") + "\n" +
                      Repeat(Tab(tabSpace), initTabPos) + "]"
    ensures !prettify ==> text == Compact(fl, JList(xs))
    decreases xs, 1
  {
    var sec := StringifyItems(fl, xs, prettify, tabSpace, initTabPos, tab);
    if prettify {
      var closing := Indent(tab, initTabPos);
      text := "[\n" + sec + "\n" + closing + "]";
    } else {
      text := "[" + sec + "]";
    }
  }

  /** The object case: the braces around the members, as for a list. */
  method StringifyObject(fl: FloatLib, es: seq<Entry<Json>>, prettify: bool, tabSpace: int, initTabPos: nat,
                         tab: string)
    returns (text: string)
    requires tab == Tab(tabSpace)
    ensures prettify ==>
              text == "{\n" + Join(PrettyMembers(fl, es, tabSpace, initTabPos + 1), ",\n") + "\n" +
                      Repeat(Tab(tabSpace), initTabPos) + "}"
    ensures !prettify ==> text == Compact(fl, JObject(es))
    decreases es, 1
  {
    var sec := StringifyMembers(fl, es, prettify, tabSpace, initTabPos, tab);
    if prettify {
      var closing := Indent(tab, initTabPos);
      text := "{\n" + sec + "\n" + closing + "}";
    } else {
      text := "{" + sec + "}";
    }
  }

  /** The list case's `sec_stream`: each element's text followed by the separator, then
      the last separator trimmed off with `substr`. */
  method StringifyItems(fl: FloatLib, xs: seq<Json>, prettify: bool, tabSpace: int, initTabPos: nat,
                        tab: string)
    returns (sec: string)
    requires tab == Tab(tabSpace)
    ensures prettify ==> sec == Join(PrettyItems(fl, xs, tabSpace, initTabPos + 1), ",\n")
    ensures !prettify ==> sec == Join(CompactItems(fl, xs), ",")
    decreases xs, 0
  {
    var sep := if prettify then ",\n" else ",";
    ghost var parts := if prettify then PrettyItems(fl, xs, tabSpace, initTabPos + 1) else CompactItems(fl, xs);
    sec := "";
    var k := 0;
    while k < |xs|
      invariant 0 <= k <= |xs| && sec == Terminated(parts[..k], sep)
    {
      var data;
      if prettify {
        data := Stringify(fl, xs[k], true, tabSpace, initTabPos + 1, false);
      } else {
        data := Stringify(fl, xs[k], false, 0, 0, false);
      }
      TerminatedStep(parts, k, sep);
      sec := sec + data + sep;
      k := k + 1;
    }
    assert parts[..k] == parts;
    TrimTerminated(parts, sep);
    sec := TrimEnd(sec, |sep|);
  }

  /** The object case's `sec_stream`: each member as `"key":value` (indented, and with a
      space after the colon, when prettifying) followed by the separator, then the last
      separator trimmed off. */
  method StringifyMembers(fl: FloatLib, es: seq<Entry<Json>>, prettify: bool, tabSpace: int,
                          initTabPos: nat, tab: string)
    returns (sec: string)
    requires tab == Tab(tabSpace)
    ensures prettify ==> sec == Join(PrettyMembers(fl, es, tabSpace, initTabPos + 1), ",\n")
    ensures !prettify ==> sec == Join(CompactMembers(fl, es), ",")
    decreases es, 0
  {
    var sep := if prettify then ",\n" else ",";
    ghost var parts := if prettify then PrettyMembers(fl, es, tabSpace, initTabPos + 1) else CompactMembers(fl, es);
    sec := "";
    var k := 0;
    while k < |es|
      invariant 0 <= k <= |es| && sec == Terminated(parts[..k], sep)
    {
      var member;
      if prettify {
        var indent := Indent(tab, initTabPos + 1);
        var value := Stringify(fl, es[k].value, true, tabSpace, initTabPos + 1, true);
        member := indent + "\"" + es[k].key + "\": " + value;
      } else {
        var value := Stringify(fl, es[k].value, false, 0, 0, false);
        member := "\"" + es[k].key + "\":" + value;
      }
      TerminatedStep(parts, k, sep);
      sec := sec + member + sep;
      k := k + 1;
    }
    assert parts[..k] == parts;
    TrimTerminated(parts, sep);
    sec := TrimEnd(sec, |sep|);
  }

  /** `dump(tabSpace)`. */
  method Dump(fl: FloatLib, v: Json, tabSpace: int) returns (out: string)
    ensures out == Serialize(fl, v, tabSpace)
  {
    if tabSpace == 0 {
      out := Stringify(fl, v, false, 0, 0, false);
    } else {
      out := Stringify(fl, v, true, tabSpace, 0, false);
    }
  }
}

/** The compact text of a value parses back to the value, for values that hold no float,
    whose strings and keys hold no quote, backslash or bracket, and whose lists are not
    empty. The proof follows the scanner over the rendered text: `ScanOver` lets it cross
    a whole rendered piece in one step, given what the piece does to the scanner's tally. */
module RoundTrip {
  import opened Text
  import opened Floats
  import opened OrderedMap
  import opened Value
  import opened ParseSpec
  import opened Serializer

  // ---------------------------------------------------------------------------
  // The scanner's effect on a piece of text

  /** The tally after one character, blank characters leaving it alone. */
  function Step(c: char, t: Tally): Tally {
    if IsEmpty(c) then t else Count(c, t)
  }

  /** The character `c`, once counted into `t`, would end an element outside any bracket. */
  predicate Closes(c: char, t: Tally, mode: Mode) {
    t.open <= 0 && (c == ',' || (mode == OneValue && c == '}'))
  }

  /** Read in `mode` from tally `t`, the piece takes the scanner to tally `u`: none of its
      characters is a backslash, each is kept (a blank only inside a string) and none ends
      an element. */
  predicate Carries(p: string, t: Tally, u: Tally, mode: Mode)
    decreases |p|
  {
    if |p| == 0 then t == u
    else
      p[0] != '\\' && (IsEmpty(p[0]) ==> t.quoted) &&
      (IsEmpty(p[0]) || !Closes(p[0], Count(p[0], t), mode)) &&
      Carries(p[1..], Step(p[0], t), u, mode)
  }

  // ---------------------------------------------------------------------------
  // Crossing a piece

  /** One step of the scanner over a character that ends no element. */
  lemma ScanStep(fl: FloatLib, s: string, i: nat, mode: Mode, val: string, t: Tally, acc: seq<Json>)
    requires |s| >= 1 && 1 <= i < ScanEnd(s, mode) && |val| < i && s[i - 1] != '\\'
    requires IsEmpty(s[i]) || !Closes(s[i], Count(s[i], t), mode)
    ensures Scan(fl, s, i, mode, val, t, acc) ==
      Scan(fl, s, i + 1, mode, if IsEmpty(s[i]) && !t.quoted then val else val + [s[i]], Step(s[i], t), acc)
  {
    assert Scan(fl, s, i, mode, val, t, acc) == Continue(fl, s, i, mode, val, t, acc);
  }

  /** The piece `c` sits in `s` from position `p` on. */
  predicate Sits(s: string, p: nat, c: string)
    decreases |c|
  {
    |c| == 0 || (p < |s| && s[p] == c[0] && Sits(s, p + 1, c[1..]))
  }

  /** The scanner crosses a piece that takes it from `t` to `u`, keeping all of it; the
      last character it crosses is no backslash. */
  lemma {:induction false} ScanOver(fl: FloatLib, s: string, i: nat, w: string, mode: Mode, val: string,
                                    t: Tally, u: Tally, acc: seq<Json>)
    requires |s| >= 1 && 1 <= i && i + |w| <= ScanEnd(s, mode) && |val| < i && s[i - 1] != '\\'
    requires Sits(s, i, w) && Carries(w, t, u, mode)
    ensures |val + w| < i + |w| && s[i + |w| - 1] != '\\'
    ensures Scan(fl, s, i, mode, val, t, acc) == Scan(fl, s, i + |w|, mode, val + w, u, acc)
    decreases |w|
  {
    if |w| == 0 {
      assert val + w == val;
    } else {
      ScanStep(fl, s, i, mode, val, t, acc);
      ScanOver(fl, s, i + 1, w[1..], mode, val + [w[0]], Step(w[0], t), u, acc);
      assert (val + [w[0]]) + w[1..] == val + w;
    }
  }

  // ---------------------------------------------------------------------------
  // Values whose text the scanner reads back

  /** Text that can sit inside a string literal without confusing the scanner. */
  predicate PlainText(s: string) {
    forall k :: 0 <= k < |s| ==> !Special(s[k])
  }

  /** A quote, a backslash or a bracket. */
  predicate Special(c: char) {
    c == '"' || c == '\\' || c == '[' || c == ']' || c == '{' || c == '}'
  }

  /** A value the round trip holds for: no floats, no empty lists, objects with their keys
      in order, and strings and keys that are `PlainText`, at every depth. */
  predicate Plain(v: Json) {
    match v
    case JString(s) => PlainText(s)
    case JFloat(_) => false
    case JList(xs) => |xs| > 0 && forall k :: 0 <= k < |xs| ==> Plain(xs[k])
    case JObject(es) =>
      Sorted(es) && forall k :: 0 <= k < |es| ==> PlainText(es[k].key) && Plain(es[k].value)
    case _ => true
  }

  /** Inside `d` open brackets, outside any string. */
  function Depth(d: nat): Tally {
    Tally(d, false)
  }

  /** The same, in both modes. */
  predicate Moves(p: string, t: Tally, u: Tally) {
    Carries(p, t, u, Elements) && Carries(p, t, u, OneValue)
  }

  /** A piece that, read from depth `d`, comes back to depth `d`. */
  predicate Balanced(p: string, d: nat) {
    Moves(p, Depth(d), Depth(d))
  }

  /** What the scanner needs of the text of a whole element or member value: it starts
      with neither a blank nor a colon, it is balanced as a list element, and as a member
      value it is either balanced or an object whose inside is balanced. */
  predicate Shown(c: string) {
    |c| >= 1 && !IsEmpty(c[0]) && c[0] != ':' && Carries(c, Start, Start, Elements) &&
    (Carries(c, Start, Start, OneValue) ||
     (|c| >= 2 && c[0] == '{' && c[|c| - 1] == '}' && Balanced(c[1..|c| - 1], 1)))
  }

  lemma {:induction false} CarriesConcat(a: string, b: string, t: Tally, u: Tally, w: Tally, mode: Mode)
    requires Carries(a, t, u, mode) && Carries(b, u, w, mode)
    ensures Carries(a + b, t, w, mode)
    decreases |a|
  {
    if |a| == 0 {
      assert a + b == b;
    } else {
      assert (a + b)[0] == a[0] && (a + b)[1..] == a[1..] + b;
      CarriesConcat(a[1..], b, Step(a[0], t), u, w, mode);
    }
  }

  lemma MovesConcat(a: string, b: string, t: Tally, u: Tally, w: Tally)
    requires Moves(a, t, u) && Moves(b, u, w)
    ensures Moves(a + b, t, w)
  {
    CarriesConcat(a, b, t, u, w, Elements);
    CarriesConcat(a, b, t, u, w, OneValue);
  }

  /** A single non-blank character that is no backslash and ends nothing is counted. */
  lemma OneChar(c: char, t: Tally, mode: Mode)
    requires c != '\\' && !IsEmpty(c) && !Closes(c, Count(c, t), mode)
    ensures Carries([c], t, Count(c, t), mode)
  {
    assert [c][1..] == "";
  }

  /** The same, in both modes. */
  lemma OneMove(c: char, t: Tally)
    requires c != '\\' && !IsEmpty(c)
    requires !Closes(c, Count(c, t), Elements) && !Closes(c, Count(c, t), OneValue)
    ensures Moves([c], t, Count(c, t))
  {
    OneChar(c, t, Elements);
    OneChar(c, t, OneValue);
  }

  /** Characters that no count, blank rule or boundary touches. */
  lemma {:induction false} FlatPiece(p: string, d: nat)
    requires forall k :: 0 <= k < |p| ==> !Special(p[k]) && p[k] != ',' && !IsEmpty(p[k])
    ensures Balanced(p, d)
    decreases |p|
  {
    if |p| > 0 {
      assert Count(p[0], Depth(d)) == Depth(d);
      OneMove(p[0], Depth(d));
      FlatPiece(p[1..], d);
      MovesConcat([p[0]], p[1..], Depth(d), Depth(d), Depth(d));
      assert p == [p[0]] + p[1..];
    }
  }

  /** A comma inside a bracket. */
  lemma CommaPiece(d: nat)
    requires d >= 1
    ensures Balanced(",", d)
  {
    assert Count(',', Depth(d)) == Depth(d);
    OneMove(',', Depth(d));
  }

  /** The inside of a string literal, read with the string open. */
  lemma {:induction false} InsideQuotes(s: string, d: nat)
    requires PlainText(s)
    ensures Moves(s, Tally(d + 1, true), Tally(d + 1, true))
    decreases |s|
  {
    var t := Tally(d + 1, true);
    if |s| > 0 {
      assert !Special(s[0]);
      assert Count(s[0], t) == t;
      assert PlainText(s[1..]) by {
        forall k | 0 <= k < |s[1..]| ensures !Special(s[1..][k]) {
          assert s[1..][k] == s[k + 1];
        }
      }
      InsideQuotes(s[1..], d);
      if IsEmpty(s[0]) {
        assert [s[0]][1..] == "";
        assert Moves([s[0]], t, t);
      } else {
        OneMove(s[0], t);
      }
      MovesConcat([s[0]], s[1..], t, t, t);
      assert s == [s[0]] + s[1..];
    }
  }

  /** A string literal opens and closes a string and returns to its depth. */
  lemma QuotedPiece(s: string, d: nat)
    requires PlainText(s)
    ensures Balanced("\"" + s + "\"", d)
  {
    var t := Tally(d + 1, true);
    InsideQuotes(s, d);
    OneMove('"', Depth(d));
    OneMove('"', t);
    MovesConcat("\"", s, Depth(d), t, t);
    MovesConcat("\"" + s, "\"", Depth(d), t, Depth(d));
  }

  /** A bracket pair around a piece balanced one level deeper. */
  lemma BracketedPiece(open: char, inner: string, close: char, d: nat)
    requires (open == '[' && close == ']') || (open == '{' && close == '}' && d >= 1)
    requires Balanced(inner, d + 1)
    ensures Balanced([open] + inner + [close], d)
  {
    OneMove(open, Depth(d));
    OneMove(close, Depth(d + 1));
    MovesConcat([open], inner, Depth(d), Depth(d + 1), Depth(d + 1));
    MovesConcat([open] + inner, [close], Depth(d), Depth(d + 1), Depth(d));
  }

  /** Parts balanced inside a bracket, joined by commas. */
  lemma {:induction false} JoinBalanced(parts: seq<string>, d: nat)
    requires d >= 1 && forall k :: 0 <= k < |parts| ==> Balanced(parts[k], d)
    ensures Balanced(Join(parts, ","), d)
    decreases |parts|
  {
    if |parts| == 0 {
      assert Join(parts, ",") == "";
    } else if |parts| > 1 {
      var init := Join(parts[..|parts| - 1], ",");
      JoinBalanced(parts[..|parts| - 1], d);
      CommaPiece(d);
      MovesConcat(init, ",", Depth(d), Depth(d), Depth(d));
      MovesConcat(init + ",", parts[|parts| - 1], Depth(d), Depth(d), Depth(d));
    }
  }

  // ---------------------------------------------------------------------------
  // The compact text of a plain value is balanced

  lemma IntPiece(n: int, d: nat)
    ensures Balanced(IntToString(n), d)
  {
    IntToStringShape(n);
    FlatPiece(IntToString(n), d);
  }

  lemma {:induction false} Nested(fl: FloatLib, v: Json, d: nat)
    requires Plain(v) && d >= 1
    ensures Balanced(Compact(fl, v), d)
    decreases v, 2
  {
    match v {
      case JString(s) => QuotedPiece(s, d);
      case JInt(n) => IntPiece(n, d);
      case JBool(b) => FlatPiece(if b then "true" else "false", d);
      case JNull => FlatPiece("null", d);
      case JList(xs) =>
        NestedItems(fl, xs, d + 1);
        BracketedPiece('[', Join(CompactItems(fl, xs), ","), ']', d);
      case JObject(es) =>
        NestedMembers(fl, es, d + 1);
        BracketedPiece('{', Join(CompactMembers(fl, es), ","), '}', d);
    }
  }

  lemma {:induction false} NestedItems(fl: FloatLib, xs: seq<Json>, d: nat)
    requires d >= 1 && forall k :: 0 <= k < |xs| ==> Plain(xs[k])
    ensures Balanced(Join(CompactItems(fl, xs), ","), d)
    decreases xs, 1
  {
    forall k | 0 <= k < |xs| ensures Balanced(CompactItems(fl, xs)[k], d) {
      Nested(fl, xs[k], d);
    }
    JoinBalanced(CompactItems(fl, xs), d);
  }

  lemma {:induction false} NestedMembers(fl: FloatLib, es: seq<Entry<Json>>, d: nat)
    requires d >= 1 && forall k :: 0 <= k < |es| ==> PlainText(es[k].key) && Plain(es[k].value)
    ensures Balanced(Join(CompactMembers(fl, es), ","), d)
    decreases es, 1
  {
    forall k | 0 <= k < |es| ensures Balanced(CompactMembers(fl, es)[k], d) {
      NestedMember(fl, es[k], d);
    }
    JoinBalanced(CompactMembers(fl, es), d);
  }

  lemma {:induction false} NestedMember(fl: FloatLib, e: Entry<Json>, d: nat)
    requires d >= 1 && PlainText(e.key) && Plain(e.value)
    ensures Balanced(CompactMember(fl, e), d)
    decreases e, 0
  {
    var q := "\"" + e.key + "\"";
    var c := Compact(fl, e.value);
    QuotedPiece(e.key, d);
    FlatPiece(":", d);
    Nested(fl, e.value, d);
    MovesConcat(q, ":", Depth(d), Depth(d), Depth(d));
    MovesConcat(q + ":", c, Depth(d), Depth(d), Depth(d));
    assert CompactMember(fl, e) == q + ":" + c;
  }

  /** The compact text of a plain value is what the scanner needs of an element. */
  lemma {:induction false} Shows(fl: FloatLib, v: Json)
    requires Plain(v)
    ensures Shown(Compact(fl, v))
  {
    match v {
      case JString(s) =>
        QuotedPiece(s, 0);
        BalancedShown(Compact(fl, v));
      case JInt(n) =>
        IntPiece(n, 0);
        IntToStringShape(n);
        BalancedShown(Compact(fl, v));
      case JBool(b) =>
        FlatPiece(if b then "true" else "false", 0);
        BalancedShown(Compact(fl, v));
      case JNull =>
        FlatPiece("null", 0);
        BalancedShown(Compact(fl, v));
      case JList(xs) =>
        NestedItems(fl, xs, 1);
        BracketedPiece('[', Join(CompactItems(fl, xs), ","), ']', 0);
        BalancedShown(Compact(fl, v));
      case JObject(es) =>
        NestedMembers(fl, es, 1);
        BraceShown(Join(CompactMembers(fl, es), ","));
    }
  }

  lemma BalancedShown(c: string)
    requires Balanced(c, 0) && |c| >= 1 && !IsEmpty(c[0]) && c[0] != ':'
    ensures Shown(c)
  {
  }

  /** An object at depth zero: balanced as a list element; as a member value, its
      closing brace ends the value. */
  lemma BraceShown(inner: string)
    requires Balanced(inner, 1)
    ensures Shown("{" + inner + "}")
  {
    var c := "{" + inner + "}";
    OneChar('{', Start, Elements);
    OneChar('}', Depth(1), Elements);
    CarriesConcat("{", inner, Start, Depth(1), Depth(1), Elements);
    CarriesConcat("{" + inner, "}", Start, Depth(1), Start, Elements);
    assert c[1..|c| - 1] == inner;
  }

  // ---------------------------------------------------------------------------
  // Where the pieces sit in the text

  lemma {:induction false} SitsConcat(s: string, p: nat, a: string, b: string)
    ensures Sits(s, p, a + b) <==> Sits(s, p, a) && Sits(s, p + |a|, b)
    decreases |a|
  {
    if |a| == 0 {
      assert a + b == b;
    } else {
      assert (a + b)[0] == a[0] && (a + b)[1..] == a[1..] + b;
      SitsConcat(s, p + 1, a[1..], b);
    }
  }

  /** A piece that sits in the text fits in it. */
  lemma {:induction false} SitsFits(s: string, p: nat, c: string)
    requires Sits(s, p, c) && |c| > 0
    ensures p + |c| <= |s|
    decreases |c|
  {
    if |c| > 1 {
      SitsFits(s, p + 1, c[1..]);
    }
  }

  /** The characters of a piece that sits in the text are the text's. */
  lemma {:induction false} SitsAt(s: string, p: nat, c: string, k: nat)
    requires Sits(s, p, c) && k < |c|
    ensures p + k < |s| && s[p + k] == c[k]
    decreases k
  {
    if k > 0 {
      SitsAt(s, p + 1, c[1..], k - 1);
    }
  }

  /** Every suffix of the text sits where it starts. */
  lemma {:induction false} SitsSuffix(s: string, p: nat)
    requires p <= |s|
    ensures Sits(s, p, s[p..])
    decreases |s| - p
  {
    if p < |s| {
      assert s[p..][1..] == s[p + 1..];
      SitsSuffix(s, p + 1);
    }
  }

  /** The text `open + inner + close` from its start: the inside sits at 1 and the last
      character is `close`. */
  lemma Enclosed(s: string, open: char, inner: string, close: char)
    requires s == [open] + inner + [close]
    ensures Sits(s, 1, inner) && |s| == |inner| + 2 && s[0] == open && s[|s| - 1] == close
  {
    SitsSuffix(s, 0);
    assert s[0..] == s;
    SitsConcat(s, 0, [open] + inner, [close]);
    SitsConcat(s, 0, [open], inner);
  }

  /** The first of the parts joined by commas, and where the rest starts. */
  lemma PartsLayout(s: string, i: nat, parts: seq<string>)
    requires |parts| >= 1 && Sits(s, i, Join(parts, ","))
    ensures Sits(s, i, parts[0])
    ensures |parts| == 1 ==> |Join(parts, ",")| == |parts[0]|
    ensures |parts| > 1 ==>
      i + |parts[0]| < |s| && s[i + |parts[0]|] == ',' && Sits(s, i + |parts[0]| + 1, Join(parts[1..], ",")) &&
      |Join(parts, ",")| == |parts[0]| + 1 + |Join(parts[1..], ",")|
  {
    if |parts| > 1 {
      JoinFront(parts, ",");
      SitsConcat(s, i, parts[0] + ",", Join(parts[1..], ","));
      SitsConcat(s, i, parts[0], ",");
      SitsAt(s, i + |parts[0]|, ",", 0);
    }
  }

  /** The characters of the member `"key":c` at `i`. */
  lemma MemberLayout(s: string, i: nat, key: string, c: string)
    requires Sits(s, i, "\"" + key + "\":" + c)
    ensures i + |key| + 3 + |c| <= |s|
    ensures s[i] == '"' && s[i + |key| + 1] == '"' && s[i + |key| + 2] == ':'
    ensures Sits(s, i + 1, key) && Sits(s, i + |key| + 3, c)
  {
    SitsFits(s, i, "\"" + key + "\":" + c);
    SitsConcat(s, i, "\"" + key + "\":", c);
    SitsConcat(s, i, "\"" + key, "\":");
    SitsConcat(s, i, "\"", key);
    SitsAt(s, i, "\"", 0);
    SitsAt(s, i + |key| + 1, "\":", 0);
    SitsAt(s, i + |key| + 1, "\":", 1);
  }

  /** The characters of an object's text `{inner}` at `p`. */
  lemma ObjectLayout(s: string, p: nat, c: string)
    requires Sits(s, p, c) && |c| >= 2 && c[0] == '{' && c[|c| - 1] == '}'
    ensures p + |c| <= |s| && s[p] == '{' && s[p + |c| - 1] == '}' && Sits(s, p + 1, c[1..|c| - 1])
  {
    assert c == [c[0]] + c[1..|c| - 1] + [c[|c| - 1]];
    SitsFits(s, p, c);
    SitsConcat(s, p, [c[0]] + c[1..|c| - 1], [c[|c| - 1]]);
    SitsConcat(s, p, [c[0]], c[1..|c| - 1]);
    SitsAt(s, p, c, 0);
    SitsAt(s, p, c, |c| - 1);
  }

  /** A key text the key loop reads through: no quote and no backslash. Brackets and
      braces are ordinary characters to it. */
  predicate KeyText(w: string) {
    forall q :: 0 <= q < |w| ==> w[q] != '"' && w[q] != '\\'
  }

  /** The key loop over a piece without quotes or backslashes, up to a quote. */
  lemma {:induction false} ReadPlainKey(s: string, k: nat, w: string, key: string)
    requires 1 <= k && k + |w| < |s| && s[k - 1] != '\\' && s[k + |w|] == '"'
    requires Sits(s, k, w) && KeyText(w)
    ensures ReadKey(s, k, key) == Ok((key + w, k + |w|))
    decreases |w|
  {
    if |w| == 0 {
      assert key + w == key;
    } else {
      assert w[0] != '"' && w[0] != '\\';
      assert KeyText(w[1..]) by {
        forall q | 0 <= q < |w[1..]| ensures w[1..][q] != '"' && w[1..][q] != '\\' {
          assert w[1..][q] == w[q + 1];
        }
      }
      ReadPlainKey(s, k + 1, w[1..], key + [w[0]]);
      assert (key + [w[0]]) + w[1..] == key + w;
    }
  }

  /** Brackets inside a key are read like any other character: `{"a[b":1}` has the key
      `a[b`. */
  lemma ReadBracketKey(s: string)
    requires s == "{\"a[b\":1}"
    ensures ReadKey(s, 2, "") == Ok(("a[b", 5))
  {
    assert Sits(s, 2, "a[b") by {
      assert s[2] == 'a' && s[3] == '[' && s[4] == 'b';
      assert "a[b"[1..] == "[b" && "[b"[1..] == "b" && "b"[1..] == "";
    }
    assert KeyText("a[b");
    ReadPlainKey(s, 2, "a[b", "");
    assert "" + "a[b" == "a[b";
  }

  /** The head of a member whose quoted key sits at `i` and whose value starts right
      after the colon at `p - 1`: the key, and the value's cursor `p`. */
  lemma MemberHeadAt(s: string, i: nat, key: string, p: nat)
    requires 1 <= i && p == i + |key| + 3 && p < |s|
    requires s[i] == '"' && s[p - 2] == '"' && s[p - 1] == ':'
    requires Sits(s, i + 1, key) && PlainText(key)
    requires !IsEmpty(s[p]) && s[p] != ':'
    ensures MemberHead(s, i) == Member(key, p)
  {
    assert SkipBlanks(s, i) == i;
    assert KeyText(key) by {
      forall q | 0 <= q < |key| ensures key[q] != '"' && key[q] != '\\' {
        assert !Special(key[q]);
      }
    }
    ReadPlainKey(s, i + 1, key, "");
    assert "" + key == key;
    assert SkipColons(s, p) == p;
    assert SkipColons(s, p - 1) == p;
  }

  // ---------------------------------------------------------------------------
  // The scanner over rendered text

  /** A comma outside any bracket ends a list element. */
  lemma ScanComma(fl: FloatLib, s: string, j: nat, c: string, acc: seq<Json>, x: Json)
    requires 1 <= j < |s| - 1 && |c| < j && c != "" && s[j] == ',' && s[j - 1] != '\\'
    requires Parse(fl, c) == Ok(x)
    ensures Scan(fl, s, j, Elements, c, Start, acc) == Scan(fl, s, j + 1, Elements, "", Start, acc + [x])
  {
    assert Decide(s[j], s[j - 1], c, Start, Elements) == Split(Start);
    assert Scan(fl, s, j, Elements, c, Start, acc) == Continue(fl, s, j, Elements, c, Start, acc);
  }

  /** A comma or brace outside any bracket ends a member value. */
  lemma ScanStop(fl: FloatLib, s: string, j: nat, c: string)
    requires 1 <= j < |s| && |c| < j && c != "" && (s[j] == ',' || s[j] == '}') && s[j - 1] != '\\'
    ensures Scan(fl, s, j, OneValue, c, Start, []) == Scanned(Flush(Parse(fl, c), []), j)
  {
    assert Decide(s[j], s[j - 1], c, Start, OneValue) == Finish(c, false);
    assert Scan(fl, s, j, OneValue, c, Start, []) == Continue(fl, s, j, OneValue, c, Start, []);
  }

  /** The brace that opens an object value. */
  lemma ScanOpenObject(fl: FloatLib, s: string, p: nat)
    requires 1 <= p < |s| && s[p] == '{' && s[p - 1] != '\\'
    ensures Scan(fl, s, p, OneValue, "", Start, []) == Scan(fl, s, p + 1, OneValue, "{", Depth(1), [])
  {
    ScanStep(fl, s, p, OneValue, "", Start, []);
    assert Step('{', Start) == Depth(1) && "" + [s[p]] == "{";
  }

  /** The brace that closes an object value ends the member value, and the scanner steps
      past it. */
  lemma ScanCloseObject(fl: FloatLib, s: string, j: nat, val: string)
    requires 1 <= j < |s| && |val| < j && val != "" && s[j] == '}' && s[j - 1] != '\\'
    ensures Scan(fl, s, j, OneValue, val, Depth(1), []) == Scanned(Flush(Parse(fl, val + "}"), []), j + 1)
  {
    assert Decide(s[j], s[j - 1], val, Depth(1), OneValue) == Finish(val + "}", true);
    assert Scan(fl, s, j, OneValue, val, Depth(1), []) == Continue(fl, s, j, OneValue, val, Depth(1), []);
  }

  /** Each part is the text of an element and parses back to it. */
  predicate Rendered(fl: FloatLib, parts: seq<string>, xs: seq<Json>)
    decreases |parts|
  {
    |parts| == |xs| &&
    (|parts| > 0 ==> Shown(parts[0]) && Parse(fl, parts[0]) == Ok(xs[0]) && Rendered(fl, parts[1..], xs[1..]))
  }

  /** A list element's text, up to the character after it. */
  lemma ScanElementText(fl: FloatLib, s: string, i: nat, c: string, acc: seq<Json>)
    requires 1 <= i && i + |c| <= |s| - 1 && s[i - 1] != '\\' && Sits(s, i, c) && Shown(c)
    ensures s[i + |c| - 1] != '\\'
    ensures Scan(fl, s, i, Elements, "", Start, acc) == Scan(fl, s, i + |c|, Elements, c, Start, acc)
  {
    ScanOver(fl, s, i, c, Elements, "", Start, Start, acc);
    assert "" + c == c;
  }

  /** One list element's text, and the comma after it or the end of the list. */
  lemma ElementStep(fl: FloatLib, s: string, i: nat, c: string, x: Json, acc: seq<Json>)
    requires 1 <= i && i + |c| <= |s| - 1 && s[i - 1] != '\\' && Sits(s, i, c)
    requires Shown(c) && Parse(fl, c) == Ok(x)
    requires i + |c| < |s| - 1 ==> s[i + |c|] == ','
    ensures i + |c| == |s| - 1 ==>
      Scan(fl, s, i, Elements, "", Start, acc) == Scanned(Ok(acc + [x]), |s| - 1)
    ensures i + |c| < |s| - 1 ==>
      Scan(fl, s, i, Elements, "", Start, acc) == Scan(fl, s, i + |c| + 1, Elements, "", Start, acc + [x])
  {
    ScanElementText(fl, s, i, c, acc);
    if i + |c| < |s| - 1 {
      ScanComma(fl, s, i + |c|, c, acc, x);
    }
  }

  /** The first of the elements joined by commas, and the comma after it. */
  lemma FirstElement(fl: FloatLib, s: string, i: nat, parts: seq<string>, xs: seq<Json>, acc: seq<Json>)
    requires 1 <= i && i + |Join(parts, ",")| == |s| - 1 && s[i - 1] != '\\' && Sits(s, i, Join(parts, ","))
    requires |parts| >= 1 && Rendered(fl, parts, xs)
    ensures |parts| == 1 ==> Scan(fl, s, i, Elements, "", Start, acc) == Scanned(Ok(acc + xs), |s| - 1)
    ensures |parts| > 1 ==>
      var j := i + |parts[0]| + 1;
      j + |Join(parts[1..], ",")| == |s| - 1 && s[j - 1] != '\\' && Sits(s, j, Join(parts[1..], ",")) &&
      Rendered(fl, parts[1..], xs[1..]) &&
      Scan(fl, s, i, Elements, "", Start, acc) == Scan(fl, s, j, Elements, "", Start, acc + [xs[0]])
  {
    PartsLayout(s, i, parts);
    ElementStep(fl, s, i, parts[0], xs[0], acc);
    if |parts| == 1 {
      assert acc + [xs[0]] == acc + xs;
    }
  }

  /** The elements joined by commas at `i`, up to the closing bracket at the end. */
  lemma {:induction false} ScanElements(fl: FloatLib, s: string, i: nat, parts: seq<string>, xs: seq<Json>,
                                        acc: seq<Json>)
    requires 1 <= i && i + |Join(parts, ",")| == |s| - 1 && s[i - 1] != '\\' && Sits(s, i, Join(parts, ","))
    requires |parts| >= 1 && Rendered(fl, parts, xs)
    ensures Scan(fl, s, i, Elements, "", Start, acc) == Scanned(Ok(acc + xs), |s| - 1)
    decreases |parts|
  {
    FirstElement(fl, s, i, parts, xs, acc);
    if |parts| > 1 {
      ScanElements(fl, s, i + |parts[0]| + 1, parts[1..], xs[1..], acc + [xs[0]]);
      assert (acc + [xs[0]]) + xs[1..] == acc + xs;
    }
  }

  /** A member value that does not end in a brace of its own, up to the comma or brace
      after it. */
  lemma ScanQuietValue(fl: FloatLib, s: string, p: nat, c: string)
    requires 1 <= p && p + |c| < |s| && s[p - 1] != '\\' && Sits(s, p, c)
    requires s[p + |c|] == ',' || s[p + |c|] == '}'
    requires |c| >= 1 && Carries(c, Start, Start, OneValue)
    ensures Scan(fl, s, p, OneValue, "", Start, []) == Scanned(Flush(Parse(fl, c), []), p + |c|)
  {
    ScanOver(fl, s, p, c, OneValue, "", Start, Start, []);
    assert "" + c == c;
    ScanStop(fl, s, p + |c|, c);
  }

  /** An object member value up to its closing brace: the scanner keeps all of it at
      depth 1. */
  lemma ScanObjectBody(fl: FloatLib, s: string, p: nat, c: string)
    requires 1 <= p && p + |c| < |s| && s[p - 1] != '\\' && Sits(s, p, c)
    requires |c| >= 2 && c[0] == '{' && c[|c| - 1] == '}' && Balanced(c[1..|c| - 1], 1)
    ensures s[p + |c| - 1] == '}' && s[p + |c| - 2] != '\\'
    ensures Scan(fl, s, p, OneValue, "", Start, []) ==
            Scan(fl, s, p + |c| - 1, OneValue, c[..|c| - 1], Depth(1), [])
  {
    var inner := c[1..|c| - 1];
    ObjectLayout(s, p, c);
    assert Carries(inner, Depth(1), Depth(1), OneValue);
    assert s[p] != '\\' && p + 1 + |inner| <= ScanEnd(s, OneValue);
    ScanOpenObject(fl, s, p);
    ScanOver(fl, s, p + 1, inner, OneValue, "{", Depth(1), Depth(1), []);
    assert p + 1 + |inner| == p + |c| - 1;
    assert "{" + inner == c[..|c| - 1];
  }

  /** An object member value, up to its own closing brace. */
  lemma ScanObjectValue(fl: FloatLib, s: string, p: nat, c: string)
    requires 1 <= p && p + |c| < |s| && s[p - 1] != '\\' && Sits(s, p, c)
    requires |c| >= 2 && c[0] == '{' && c[|c| - 1] == '}' && Balanced(c[1..|c| - 1], 1)
    ensures Scan(fl, s, p, OneValue, "", Start, []) == Scanned(Flush(Parse(fl, c), []), p + |c|)
  {
    ScanObjectBody(fl, s, p, c);
    ScanCloseObject(fl, s, p + |c| - 1, c[..|c| - 1]);
    assert c[..|c| - 1] + "}" == c;
  }

  /** A member value, up to the comma or brace that ends it. */
  lemma ScanValue(fl: FloatLib, s: string, p: nat, c: string)
    requires 1 <= p && p + |c| < |s| && s[p - 1] != '\\' && Sits(s, p, c)
    requires s[p + |c|] == ',' || s[p + |c|] == '}'
    requires Shown(c)
    ensures Scan(fl, s, p, OneValue, "", Start, []) == Scanned(Flush(Parse(fl, c), []), p + |c|)
  {
    if Carries(c, Start, Start, OneValue) {
      ScanQuietValue(fl, s, p, c);
    } else {
      ScanObjectValue(fl, s, p, c);
    }
  }

  /** One member of an object: the key and value found, stored, and the loop one past the
      end of the value. */
  lemma MemberNext(fl: FloatLib, s: string, i: nat, key: string, p: nat, q: nat, next: nat, v: Json,
                   ret: seq<Entry<Json>>)
    requires 1 <= i < |s| && Sorted(ret) && MemberHead(s, i) == Member(key, p)
    requires Scan(fl, s, p, OneValue, "", Start, []) == Scanned(Ok([v]), q) && next == q + 1
    ensures Members(fl, s, i, ret) == Members(fl, s, next, Insert(ret, key, v))
  {
    MembersNext(fl, s, i, ret, Scan(fl, s, p, OneValue, "", Start, []), Insert(ret, key, v));
  }

  /** One member `"key":c` of an object, followed by a comma or the closing brace: the loop
      finds the key and the value's cursor, and the scanner reads the value up to that
      comma or brace. */
  lemma MemberFound(fl: FloatLib, s: string, i: nat, key: string, c: string, v: Json, p: nat)
    requires 1 <= i && p == i + |key| + 3 && p + |c| < |s|
    requires s[i] == '"' && s[p - 2] == '"' && s[p - 1] == ':'
    requires Sits(s, i + 1, key) && Sits(s, p, c)
    requires s[p + |c|] == ',' || s[p + |c|] == '}'
    requires PlainText(key) && Shown(c) && Parse(fl, c) == Ok(v)
    ensures MemberHead(s, i) == Member(key, p)
    ensures Scan(fl, s, p, OneValue, "", Start, []) == Scanned(Ok([v]), p + |c|)
  {
    SitsAt(s, p, c, 0);
    MemberHeadAt(s, i, key, p);
    ScanValue(fl, s, p, c);
    assert [] + [v] == [v];
  }

  /** One member `"key":c` of an object, followed by a comma or the closing brace, is
      stored, and the loop goes on one past that comma or brace. */
  lemma MemberStep(fl: FloatLib, s: string, i: nat, key: string, c: string, v: Json, ret: seq<Entry<Json>>,
                    next: nat)
    requires 1 <= i && Sits(s, i, "\"" + key + "\":" + c) && i + |key| + 3 + |c| < |s|
    requires s[i + |key| + 3 + |c|] == ',' || s[i + |key| + 3 + |c|] == '}'
    requires PlainText(key) && Shown(c) && Parse(fl, c) == Ok(v) && Sorted(ret)
    requires next == i + |key| + 4 + |c|
    ensures Members(fl, s, i, ret) == Members(fl, s, next, Insert(ret, key, v))
  {
    MemberLayout(s, i, key, c);
    MemberFound(fl, s, i, key, c, v, i + |key| + 3);
    MemberNext(fl, s, i, key, i + |key| + 3, i + |key| + 3 + |c|, next, v, ret);
  }

  /** The text of each member, from the texts `cs` of the values. */
  function MemberTexts(es: seq<Entry<Json>>, cs: seq<string>): (r: seq<string>)
    requires |cs| == |es|
    ensures |r| == |es|
    decreases |es|
  {
    if |es| == 0 then [] else ["\"" + es[0].key + "\":" + cs[0]] + MemberTexts(es[1..], cs[1..])
  }

  /** With the compact texts of the values, these are the compact texts of the members. */
  lemma {:induction false} MemberTextsCompact(fl: FloatLib, es: seq<Entry<Json>>, cs: seq<string>)
    requires |cs| == |es| && forall k :: 0 <= k < |es| ==> cs[k] == Compact(fl, es[k].value)
    ensures MemberTexts(es, cs) == CompactMembers(fl, es)
    decreases |es|
  {
    if |es| > 0 {
      MemberTextsCompact(fl, es[1..], cs[1..]);
      assert CompactMembers(fl, es) == [CompactMember(fl, es[0])] + CompactMembers(fl, es[1..]);
    }
  }

  /** Each key is plain, and each value text is what the scanner needs and parses back to
      the value. */
  predicate MembersRendered(fl: FloatLib, es: seq<Entry<Json>>, cs: seq<string>)
    decreases |es|
  {
    |cs| == |es| &&
    (|es| > 0 ==>
      PlainText(es[0].key) && Shown(cs[0]) && Parse(fl, cs[0]) == Ok(es[0].value) &&
      MembersRendered(fl, es[1..], cs[1..]))
  }

  /** The first of the member texts joined by commas, `"key":c`, stored in the entries
      before it; the loop goes on one past the comma or the closing brace after it. */
  lemma FirstMember(fl: FloatLib, s: string, i: nat, texts: seq<string>, key: string, c: string, v: Json,
                    ret: seq<Entry<Json>>)
    requires 1 <= i && |texts| >= 1 && texts[0] == "\"" + key + "\":" + c
    requires Sits(s, i, Join(texts, ",")) && i + |Join(texts, ",")| == |s| - 1 && s[|s| - 1] == '}'
    requires PlainText(key) && Shown(c) && Parse(fl, c) == Ok(v) && Sorted(ret) && i + |texts[0]| < |s|
    ensures Members(fl, s, i, ret) == Members(fl, s, i + |texts[0]| + 1, Insert(ret, key, v))
  {
    var e := i + |key| + 3 + |c|;
    assert Sits(s, i, "\"" + key + "\":" + c) && e == i + |texts[0]| && (s[e] == ',' || s[e] == '}') by {
      PartsLayout(s, i, texts);
      assert |texts[0]| == |key| + 3 + |c|;
    }
    MemberStep(fl, s, i, key, c, v, ret, i + |texts[0]| + 1);
  }

  /** Where the parts after the first start, in parts joined by commas that end just before
      the last character. */
  lemma RestLayout(s: string, i: nat, parts: seq<string>)
    requires |parts| >= 1 && Sits(s, i, Join(parts, ",")) && i + |Join(parts, ",")| == |s| - 1
    ensures i + |parts[0]| < |s|
    ensures |parts| == 1 ==> i + |parts[0]| + 1 == |s|
    ensures |parts| > 1 ==>
      var j := i + |parts[0]| + 1;
      Sits(s, j, Join(parts[1..], ",")) && j + |Join(parts[1..], ",")| == |s| - 1
  {
    PartsLayout(s, i, parts);
  }

  /** The members joined by commas at `i`, up to the closing brace at the end: each is
      stored in turn. */
  lemma {:induction false} ScanMembers(fl: FloatLib, s: string, i: nat, es: seq<Entry<Json>>, cs: seq<string>,
                                       ret: seq<Entry<Json>>)
    requires 1 <= i && |es| >= 1 && MembersRendered(fl, es, cs)
    requires Sits(s, i, Join(MemberTexts(es, cs), ",")) && i + |Join(MemberTexts(es, cs), ",")| == |s| - 1
    requires s[|s| - 1] == '}' && Sorted(ret)
    ensures Members(fl, s, i, ret) == Ok(InsertAll(ret, es))
    decreases |es|
  {
    var texts := MemberTexts(es, cs);
    var ret' := Insert(ret, es[0].key, es[0].value);
    RestLayout(s, i, texts);
    FirstMember(fl, s, i, texts, es[0].key, cs[0], es[0].value, ret);
    if |es| == 1 {
      assert Members(fl, s, |s|, ret') == Ok(ret');
    } else {
      assert texts[1..] == MemberTexts(es[1..], cs[1..]);
      ScanMembers(fl, s, i + |texts[0]| + 1, es[1..], cs[1..], ret');
    }
  }

  // ---------------------------------------------------------------------------
  // The round trip

  /** A plain value's compact text parses back to the value. */
  lemma {:induction false} RoundTrip(fl: FloatLib, v: Json)
    requires Plain(v)
    ensures Parse(fl, Compact(fl, v)) == Ok(v)
    decreases v, 2
  {
    match v {
      case JString(s) =>
        assert Classify(Compact(fl, v)) == Quoted;
        assert Compact(fl, v)[1..|Compact(fl, v)| - 1] == s;
      case JInt(n) =>
        IntToStringShape(n);
        AtoiIntToString(n);
        NoPoint(IntToString(n));
        assert Classify(Compact(fl, v)) == Number;
      case JBool(b) =>
        assert Classify(Compact(fl, v)) == Literal;
      case JNull =>
        assert Classify(Compact(fl, v)) == Literal;
      case JList(xs) =>
        ItemsRendered(fl, xs);
        ParseListText(fl, xs);
      case JObject(es) =>
        var cs := seq(|es|, k requires 0 <= k < |es| => Compact(fl, es[k].value));
        FieldsRendered(fl, es, cs);
        MemberTextsCompact(fl, es, cs);
        ParseObjectText(fl, es, cs);
    }
  }

  /** The decimal text of an integer holds no decimal point. */
  lemma NoPoint(r: string)
    requires forall k :: 0 <= k < |r| ==> IsDigit(r[k]) || r[k] == '-'
    ensures !StrContains(r, '.')
  {
  }

  lemma {:induction false} ItemsRendered(fl: FloatLib, xs: seq<Json>)
    requires forall k :: 0 <= k < |xs| ==> Plain(xs[k])
    ensures Rendered(fl, CompactItems(fl, xs), xs)
    decreases xs, 1
  {
    if |xs| > 0 {
      Shows(fl, xs[0]);
      RoundTrip(fl, xs[0]);
      ItemsRendered(fl, xs[1..]);
      assert CompactItems(fl, xs)[1..] == CompactItems(fl, xs[1..]);
    }
  }

  lemma {:induction false} FieldsRendered(fl: FloatLib, es: seq<Entry<Json>>, cs: seq<string>)
    requires forall k :: 0 <= k < |es| ==> PlainText(es[k].key) && Plain(es[k].value)
    requires |cs| == |es| && forall k :: 0 <= k < |es| ==> cs[k] == Compact(fl, es[k].value)
    ensures MembersRendered(fl, es, cs)
    decreases es, 1
  {
    if |es| > 0 {
      Shows(fl, es[0].value);
      RoundTrip(fl, es[0].value);
      FieldsRendered(fl, es[1..], cs[1..]);
    }
  }

  /** Text in brackets holding element texts joined by commas parses to the list of
      those elements. */
  lemma ParseBracketed(fl: FloatLib, c: string, parts: seq<string>, xs: seq<Json>)
    requires |parts| >= 1 && Rendered(fl, parts, xs) && c == ['['] + Join(parts, ",") + [']']
    ensures Parse(fl, c) == Ok(JList(xs))
  {
    Enclosed(c, '[', Join(parts, ","), ']');
    assert Classify(c) == Bracketed;
    ScanElements(fl, c, 1, parts, xs, []);
    assert [] + xs == xs;
  }

  /** Text in braces holding member texts joined by commas, in any key order and with keys
      possibly repeated, stores each member in turn: every key ends up with the value of
      its last member, a later duplicate overwriting an earlier one. */
  lemma ParseMembersText(fl: FloatLib, c: string, es: seq<Entry<Json>>, cs: seq<string>)
    requires |es| >= 1 && MembersRendered(fl, es, cs) && c == ['{'] + Join(MemberTexts(es, cs), ",") + ['}']
    ensures Parse(fl, c) == Ok(JObject(InsertAll([], es)))
    ensures forall k :: Find(InsertAll([], es), k) == LastWith(es, k)
  {
    Enclosed(c, '{', Join(MemberTexts(es, cs), ","), '}');
    assert Classify(c) == Braced;
    ScanMembers(fl, c, 1, es, cs, []);
    forall k ensures Find(InsertAll([], es), k) == LastWith(es, k) {
      FindInsertAll([], es, k);
    }
  }

  /** Text in braces holding member texts joined by commas, in ascending key order, parses
      to the object of those members. */
  lemma ParseBraced(fl: FloatLib, c: string, es: seq<Entry<Json>>, cs: seq<string>)
    requires Sorted(es) && MembersRendered(fl, es, cs) && c == ['{'] + Join(MemberTexts(es, cs), ",") + ['}']
    ensures Parse(fl, c) == Ok(JObject(es))
  {
    if |es| == 0 {
      Enclosed(c, '{', Join(MemberTexts(es, cs), ","), '}');
      assert Classify(c) == Braced;
      assert c == "{}";
      assert MemberHead(c, 1) == Stop;
      assert Members(fl, c, 1, []) == Ok(es);
    } else {
      ParseMembersText(fl, c, es, cs);
      InsertAllSorted([], es);
      assert [] + es == es;
    }
  }

  /** A non-empty list's text goes to the scanner, which reads back each element. */
  lemma ParseListText(fl: FloatLib, xs: seq<Json>)
    requires |xs| > 0 && Rendered(fl, CompactItems(fl, xs), xs)
    ensures Parse(fl, Compact(fl, JList(xs))) == Ok(JList(xs))
  {
    ParseBracketed(fl, Compact(fl, JList(xs)), CompactItems(fl, xs), xs);
  }

  /** An object's text goes to the member loop, which reads back each member. */
  lemma ParseObjectText(fl: FloatLib, es: seq<Entry<Json>>, cs: seq<string>)
    requires Sorted(es) && MembersRendered(fl, es, cs) && MemberTexts(es, cs) == CompactMembers(fl, es)
    ensures Parse(fl, Compact(fl, JObject(es))) == Ok(JObject(es))
  {
    ParseBraced(fl, Compact(fl, JObject(es)), es, cs);
  }
}

/** What the text `stringify` and `dump(int)` (`JSON_Parser/JSON_Parser.cpp`) produce looks
    like: the empty containers, the absence of a trailing comma, the indentation of the
    indented form, and the text of a small list. */
module RenderFacts {
  import opened Text
  import opened Floats
  import opened OrderedMap
  import opened Value
  import opened Serializer

  /** Empty containers render as `[]` and `{}`. */
  lemma CompactEmpty(fl: FloatLib)
    ensures Compact(fl, JList([])) == "[]"
    ensures Compact(fl, EmptyObject) == "{}"
  {
    assert CompactItems(fl, []) == [];
    assert CompactMembers(fl, []) == [];
  }

  /** Indented, an empty container opens, leaves one empty line, and closes at its own
      depth. */
  lemma PrettyEmpty(fl: FloatLib, w: int, d: nat)
    ensures Pretty(fl, JList([]), w, d, false) == Repeat(Tab(w), d) + "[\n\n" + Repeat(Tab(w), d) + "]"
    ensures Pretty(fl, EmptyObject, w, d, false) == Repeat(Tab(w), d) + "{\n\n" + Repeat(Tab(w), d) + "}"
  {
    assert PrettyItems(fl, [], w, d + 1) == [];
    assert PrettyMembers(fl, [], w, d + 1) == [];
  }

  /** Joined parts end with the last character of the last part. */
  lemma JoinLast(parts: seq<string>, sep: string)
    requires |parts| > 0 && |parts[|parts| - 1]| > 0
    ensures var j := Join(parts, sep); var p := parts[|parts| - 1];
            |j| > 0 && j[|j| - 1] == p[|p| - 1]
  {
  }

  /** What `stream << f_val` writes for a `float` (digits, a sign, a point, an exponent,
      `inf` or `nan`) is never empty and never ends with a comma. */
  ghost predicate ShowsNoComma(fl: FloatLib) {
    forall f :: |fl.show(f)| > 0 && fl.show(f)[|fl.show(f)| - 1] != ','
  }

  /** The compact text of a value is never empty and never ends with a comma. */
  lemma CompactLast(fl: FloatLib, v: Json)
    requires ShowsNoComma(fl)
    ensures var c := Compact(fl, v); |c| > 0 && c[|c| - 1] != ','
  {
    if v.JInt? {
      IntToStringShape(v.i);
    }
  }

  /** A container's compact text has no comma before its closing bracket: the separators
      sit only between parts. */
  lemma NoTrailingComma(fl: FloatLib, v: Json)
    requires ShowsNoComma(fl) && (v.JList? || v.JObject?)
    ensures var c := Compact(fl, v); |c| >= 2 && c[|c| - 2] != ','
  {
    if v.JList? {
      ListNoTrailingComma(fl, v.items);
    } else {
      ObjectNoTrailingComma(fl, v.fields);
    }
  }

  lemma ListNoTrailingComma(fl: FloatLib, xs: seq<Json>)
    requires ShowsNoComma(fl)
    ensures var c := Compact(fl, JList(xs)); |c| >= 2 && c[|c| - 2] != ','
  {
    var parts := CompactItems(fl, xs);
    var j := Join(parts, ",");
    assert Compact(fl, JList(xs)) == "[" + j + "]";
    if |xs| > 0 {
      CompactLast(fl, xs[|xs| - 1]);
      JoinLast(parts, ",");
    }
  }

  lemma ObjectNoTrailingComma(fl: FloatLib, es: seq<Entry<Json>>)
    requires ShowsNoComma(fl)
    ensures var c := Compact(fl, JObject(es)); |c| >= 2 && c[|c| - 2] != ','
  {
    var parts := CompactMembers(fl, es);
    var j := Join(parts, ",");
    assert Compact(fl, JObject(es)) == "{" + j + "}";
    if |es| > 0 {
      var e := es[|es| - 1];
      CompactLast(fl, e.value);
      var p := CompactMember(fl, e);
      assert p[|p| - 1] == Compact(fl, e.value)[|Compact(fl, e.value)| - 1];
      JoinLast(parts, ",");
    }
  }

  /** The indentation width: `tabSpace` spaces per level, none when it is not positive. */
  function Width(w: int): nat {
    if w > 0 then w else 0
  }

  /** Indented at depth `d`, a value starts with `d * w` spaces unless it is an object
      member's value, which follows its key on the same line without them. */
  lemma PrettyIndent(fl: FloatLib, v: Json, w: int, d: nat)
    ensures Pretty(fl, v, w, d, false) == Spaces(d * Width(w)) + Pretty(fl, v, w, d, true)
  {
    RepeatSpaces(Width(w), d);
  }

  /** Indented at depth `d`, a list puts each element on its own line, starting with
      `(d + 1) * w` spaces, separates the lines with `,\n`, and closes with `]` after
      `d * w` spaces on a line of its own. */
  lemma PrettyList(fl: FloatLib, xs: seq<Json>, w: int, d: nat)
    ensures Pretty(fl, JList(xs), w, d, true) ==
      "[\n" + Join(PrettyItems(fl, xs, w, d + 1), ",\n") + "\n" + Spaces(d * Width(w)) + "]"
    ensures forall k :: 0 <= k < |xs| ==>
      PrettyItems(fl, xs, w, d + 1)[k] == Spaces((d + 1) * Width(w)) + Pretty(fl, xs[k], w, d + 1, true)
  {
    RepeatSpaces(Width(w), d);
    forall k | 0 <= k < |xs|
      ensures PrettyItems(fl, xs, w, d + 1)[k] == Spaces((d + 1) * Width(w)) + Pretty(fl, xs[k], w, d + 1, true)
    {
      PrettyIndent(fl, xs[k], w, d + 1);
    }
  }

  /** Indented at depth `d`, an object puts each member on its own line, starting with
      `(d + 1) * w` spaces, then `"key": ` and the value, not indented again; the lines
      are separated with `,\n` and the closing `}` follows `d * w` spaces. */
  lemma PrettyObject(fl: FloatLib, es: seq<Entry<Json>>, w: int, d: nat)
    ensures Pretty(fl, JObject(es), w, d, true) ==
      "{\n" + Join(PrettyMembers(fl, es, w, d + 1), ",\n") + "\n" + Spaces(d * Width(w)) + "}"
    ensures forall k :: 0 <= k < |es| ==>
      PrettyMembers(fl, es, w, d + 1)[k] ==
        Spaces((d + 1) * Width(w)) + "\"" + es[k].key + "\": " + Pretty(fl, es[k].value, w, d + 1, true)
  {
    RepeatSpaces(Width(w), d);
    RepeatSpaces(Width(w), d + 1);
  }

  lemma SmallInts()
    ensures IntToString(1) == "1" && IntToString(2) == "2" && IntToString(3) == "3"
  {
    assert DigitChar(1) == '1' && DigitChar(2) == '2' && DigitChar(3) == '3';
  }

  /** One level of a two-space indentation. */
  lemma TwoSpaces()
    ensures Tab(2) == "  " && Repeat(Tab(2), 0) == "" && Repeat(Tab(2), 1) == "  "
  {
    assert Spaces(2) == "  ";
  }

  /** An `int` element of a list indented by two spaces at depth 0. */
  lemma PrettyIntLine(fl: FloatLib, n: Int32)
    ensures Pretty(fl, JInt(n), 2, 1, false) == "  " + IntToString(n)
  {
    TwoSpaces();
  }

  /** The element lines of `[1,2,3]` indented by two spaces at depth 0. */
  lemma SmallListLines(fl: FloatLib)
    ensures PrettyItems(fl, [JInt(1), JInt(2), JInt(3)], 2, 1) == ["  1", "  2", "  3"]
  {
    var parts := PrettyItems(fl, [JInt(1), JInt(2), JInt(3)], 2, 1);
    SmallInts();
    PrettyIntLine(fl, 1);
    PrettyIntLine(fl, 2);
    PrettyIntLine(fl, 3);
    assert "  " + IntToString(1) == "  1" && "  " + IntToString(2) == "  2" && "  " + IntToString(3) == "  3";
    assert parts[0] == "  1" && parts[1] == "  2" && parts[2] == "  3";
  }

  /** Three parts joined. */
  lemma JoinThree(a: string, b: string, c: string, sep: string)
    ensures Join([a, b, c], sep) == a + sep + b + sep + c
  {
    assert [a, b][..1] == [a];
    assert Join([a, b], sep) == a + sep + b;
    assert [a, b, c][..2] == [a, b];
    assert Join([a, b, c], sep) == (a + sep + b) + sep + c;
  }

  /** A list indented from depth 0. */
  lemma PrettyTopList(fl: FloatLib, xs: seq<Json>, w: int)
    ensures Pretty(fl, JList(xs), w, 0, false) == "[\n" + Join(PrettyItems(fl, xs, w, 1), ",\n") + "\n]"
  {
  }

  /** `dump(2)` of `[1,2,3]`. */
  lemma DumpSmallList(fl: FloatLib)
    ensures Serialize(fl, JList([JInt(1), JInt(2), JInt(3)]), 2) == "[\n  1,\n  2,\n  3\n]"
  {
    PrettyTopList(fl, [JInt(1), JInt(2), JInt(3)], 2);
    SmallListLines(fl);
    JoinThree("  1", "  2", "  3", ",\n");
  }

  /** `dump(0)` of `[1,2,3]`: the compact text. */
  lemma DumpSmallListCompact(fl: FloatLib)
    ensures Serialize(fl, JList([JInt(1), JInt(2), JInt(3)]), 0) == "[1,2,3]"
  {
    var parts := CompactItems(fl, [JInt(1), JInt(2), JInt(3)]);
    SmallInts();
    assert parts == ["1", "2", "3"];
    assert parts[..2][..1] == ["1"];
    assert Join(parts[..2], ",") == "1,2";
  }
}

/** What `parse` (`JSON_Parser/JSON_Parser.cpp`) gives for each kind of text: quoted
    strings, the three literals, number tokens, the empty containers, and the texts that
    fall through to the default `json()`, an empty object. */
module ParseFacts {
  import opened Text
  import opened Floats
  import opened Value
  import opened ParseSpec

  /** Any text between two quotes is that string, whatever characters it holds. */
  lemma ParseQuoted(fl: FloatLib, s: string)
    ensures Parse(fl, "\"" + s + "\"") == Ok(JString(s))
  {
    var q := "\"" + s + "\"";
    assert q[1..|q| - 1] == s;
  }

  lemma ParseLiterals(fl: FloatLib)
    ensures Parse(fl, "true") == Ok(JBool(true))
    ensures Parse(fl, "false") == Ok(JBool(false))
    ensures Parse(fl, "null") == Ok(JNull)
  {
    assert Classify("true") == Literal;
    assert Classify("false") == Literal;
    assert Classify("null") == Literal;
  }

  /** A text that starts like a literal but is none of the three is an empty object. */
  lemma ParseLiteralFallback(fl: FloatLib, s: string)
    requires |s| > 0 && (s[0] == 't' || s[0] == 'f' || s[0] == 'n')
    requires s != "true" && s != "false" && s != "null"
    ensures Parse(fl, s) == Ok(EmptyObject)
  {
    assert Classify(s) == Literal;
  }

  /** The empty text is read through its terminating NUL and is an empty object. */
  lemma ParseEmpty(fl: FloatLib)
    ensures Parse(fl, "") == Ok(EmptyObject)
  {
    assert Classify("") == Other;
  }

  /** Leading whitespace is not skipped: the text is an empty object. */
  lemma ParseLeadingBlank(fl: FloatLib, s: string)
    requires |s| > 0 && IsEmpty(s[0])
    ensures Parse(fl, s) == Ok(EmptyObject)
  {
    assert Classify(s) == Other;
  }

  /** A text opened by a bracket, brace or quote whose last character does not close it is
      an empty object. */
  lemma ParseUnclosed(fl: FloatLib, s: string)
    requires |s| > 0
    requires (s[0] == '[' && s[|s| - 1] != ']') || (s[0] == '{' && s[|s| - 1] != '}') ||
             (s[0] == '"' && s[|s| - 1] != '"')
    ensures Parse(fl, s) == Ok(EmptyObject)
  {
    assert Classify(s) == Other;
  }

  /** A token starting with a digit, `.` or `-` and holding a `.` has the float tag. */
  lemma ParseFloatToken(fl: FloatLib, s: string)
    requires |s| > 0 && IsNum(s[0]) && StrContains(s, '.')
    ensures Parse(fl, s) == Ok(JFloat(fl.atof(s)))
  {
    assert Classify(s) == Number;
  }

  /** A token made of an optional `-` and at least one digit is the `int` of its decimal
      value when that fits, and undefined behaviour of `atoi` otherwise. */
  lemma ParseIntToken(fl: FloatLib, negative: bool, digits: string)
    requires |digits| > 0 && AllDigits(digits)
    ensures var s := (if negative then "-" else "") + digits;
            var n := if negative then -(DecimalValue(digits) as int) else DecimalValue(digits);
            Parse(fl, s) == (if InInt32(n) then Ok(JInt(n)) else Undefined(IntOutOfRange))
  {
    var s := (if negative then "-" else "") + digits;
    assert !StrContains(s, '.') by {
      if negative {
        assert forall k :: 0 <= k < |s| ==> s[k] == '-' || IsDigit(s[k]) by {
          forall k | 0 <= k < |s| ensures s[k] == '-' || IsDigit(s[k]) {
            if k > 0 { assert s[k] == digits[k - 1]; }
          }
        }
      }
    }
    if negative {
      assert s[1..] == digits;
    } else {
      assert s == digits;
      assert IsDigit(s[0]);
    }
    LeadingDigitsOfDigits(digits);
    assert Classify(s) == Number;
  }

  /** `[]` scans one empty element, which is an empty object. */
  lemma ParseEmptyBrackets(fl: FloatLib)
    ensures Parse(fl, "[]") == Ok(JList([EmptyObject]))
  {
    assert Classify("[]") == Bracketed;
    assert Scan(fl, "[]", 1, Elements, "", Start, []) == Scanned(Flush(Parse(fl, ""), []), 1);
    ParseEmpty(fl);
  }

  /** `{}` holds no member: an empty object. */
  lemma ParseEmptyBraces(fl: FloatLib)
    ensures Parse(fl, "{}") == Ok(EmptyObject)
  {
    assert Classify("{}") == Braced;
    assert SkipBlanks("{}", 1) == 1;
    assert MemberHead("{}", 1) == Stop;
  }

  /** The scanner drops a blank outside a string and keeps one inside. */
  lemma ScanBlank(fl: FloatLib, s: string, i: nat, mode: Mode, val: string, t: Tally, acc: seq<Json>)
    requires 1 <= i && |s| >= 1 && i < ScanEnd(s, mode) && |val| < i && IsEmpty(s[i])
    ensures !t.quoted ==> Scan(fl, s, i, mode, val, t, acc) == Scan(fl, s, i + 1, mode, val, t, acc)
    ensures t.quoted ==> Scan(fl, s, i, mode, val, t, acc) == Scan(fl, s, i + 1, mode, val + [s[i]], t, acc)
  {
  }

  /** A one-digit token. */
  lemma ParseDigit(fl: FloatLib, c: char)
    requires IsDigit(c)
    ensures Parse(fl, [c]) == Ok(JInt(DigitValue(c)))
  {
    ParseIntToken(fl, false, [c]);
    assert [c][..0] == "";
  }

  /** The tokens `1` and `2`. */
  lemma OneAndTwo(fl: FloatLib)
    ensures Parse(fl, "1") == Ok(JInt(1)) && Parse(fl, "2") == Ok(JInt(2))
  {
    ParseDigit(fl, '1');
    ParseDigit(fl, '2');
    assert DigitValue('1') == 1 && DigitValue('2') == 2;
    assert "1" == ['1'] && "2" == ['2'];
  }

  /** The scan of `[1, 2]` from its blank on. */
  lemma SpacedListTail(fl: FloatLib, s: string)
    requires s == "[1, 2]"
    ensures Scan(fl, s, 3, Elements, "", Start, [JInt(1)]) == Scanned(Ok([JInt(1), JInt(2)]), 5)
  {
    OneAndTwo(fl);
    assert ScanEnd(s, Elements) == 5;
    assert [JInt(1)] + [JInt(2)] == [JInt(1), JInt(2)];
    assert Scan(fl, s, 5, Elements, "2", Start, [JInt(1)]) == Scanned(Ok([JInt(1), JInt(2)]), 5);
    assert Decide(s[4], s[3], "", Start, Elements) == Go("2", Start);
    assert Scan(fl, s, 4, Elements, "", Start, [JInt(1)]) == Scanned(Ok([JInt(1), JInt(2)]), 5);
    ScanBlank(fl, s, 3, Elements, "", Start, [JInt(1)]);
  }

  /** The scan of `[1, 2]` up to its blank: `1` and the comma after it. */
  lemma SpacedListHead(fl: FloatLib, s: string)
    requires s == "[1, 2]"
    ensures Scan(fl, s, 1, Elements, "", Start, []) == Scan(fl, s, 3, Elements, "", Start, [JInt(1)])
  {
    OneAndTwo(fl);
    assert ScanEnd(s, Elements) == 5;
    assert [] + [JInt(1)] == [JInt(1)];
    assert Decide(s[2], s[1], "1", Start, Elements) == Split(Start);
    assert Scan(fl, s, 2, Elements, "1", Start, []) == Scan(fl, s, 3, Elements, "", Start, [JInt(1)]);
    assert Decide(s[1], s[0], "", Start, Elements) == Go("1", Start);
  }

  /** `[1, 2]`: the blank after the comma is dropped. */
  lemma ParseSpacedList(fl: FloatLib)
    ensures Parse(fl, "[1, 2]") == Ok(JList([JInt(1), JInt(2)]))
  {
    var s := "[1, 2]";
    SpacedListHead(fl, s);
    SpacedListTail(fl, s);
    assert Classify(s) == Bracketed;
  }

  /** The scan of `[" a"]` from the letter on. */
  lemma QuotedBlankTail(fl: FloatLib, s: string)
    requires s == "[\" a\"]"
    ensures Scan(fl, s, 3, Elements, "\" ", Tally(1, true), []) == Scanned(Ok([JString(" a")]), 5)
  {
    var t := Tally(1, true);
    ParseQuoted(fl, " a");
    assert "\"" + " a" + "\"" == "\" a\"";
    assert ScanEnd(s, Elements) == 5;
    assert [] + [JString(" a")] == [JString(" a")];
    assert Scan(fl, s, 5, Elements, "\" a\"", Start, []) == Scanned(Ok([JString(" a")]), 5);
    assert Decide(s[4], s[3], "\" a", t, Elements) == Go("\" a\"", Start);
    assert Scan(fl, s, 4, Elements, "\" a", t, []) == Scanned(Ok([JString(" a")]), 5);
    assert Decide(s[3], s[2], "\" ", t, Elements) == Go("\" a", t);
  }

  /** `[" a"]`: the blank inside the quotes is kept. */
  lemma ParseQuotedBlank(fl: FloatLib)
    ensures Parse(fl, "[\" a\"]") == Ok(JList([JString(" a")]))
  {
    var s := "[\" a\"]";
    var t := Tally(1, true);
    QuotedBlankTail(fl, s);
    assert Classify(s) == Bracketed;
    ScanBlank(fl, s, 2, Elements, "\"", t, []);
    assert "\"" + [s[2]] == "\" ";
    assert Decide(s[1], s[0], "", Start, Elements) == Go("\"", t);
    assert Scan(fl, s, 1, Elements, "", Start, []) == Scan(fl, s, 2, Elements, "\"", t, []);
  }
}

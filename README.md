# A verified model of a small C++ JSON library

The library is a single header, `JSON_Parser/JSON_Parser.cpp`, in namespace `JSONcpp`, around the class `json`. It has
three parts, and the model follows them.

- **The `json` value.** A tag `json_type` selects one of seven payloads: string, float,
  int, bool, list, object or null. Its operations:
  - structural `operator==`;
  - the in-place combine `+=` and `+`;
  - `addAll`, `erase`, `eraseKey` and `length`;
  - indexing by position and by key;
  - `getType`;
  - the brace-list assignment, which turns a list of `{"key", value}` pairs into an object.

  Objects are `std::map<std::string, json>`, kept here as an association list in strictly
  ascending key order (module `OrderedMap`).
- **The parser.** `parse` dispatches on the first and last characters of its input. A list
  goes to the scanner `json::getObj`, which walks a cursor with an accumulator, a depth
  counter and a "quote open" flag. An object goes to a key/value loop that calls the
  scanner in its collect-one-value mode.
- **The serializer.** `stringify` and `dump(int)` produce a compact or an indented text.

How the model is organised:

- The value is the datatype `Value.Json`. The operations on it are functions with their
  properties, and the mutating members are methods of the class `Variable.JsonVar`, whose
  field is the value.
- The parser is described twice. `ParseSpec` holds recursive functions that take the same
  steps as the C++ loops: one call per iteration, with the loop variables as parameters.
  `Parser` holds methods that run the loops and are proved to compute those functions.
- The serializer works the same way. `Serializer.Compact` and `Serializer.Pretty` say
  what the text is. The method `Serializer.Stringify` builds it with the C++'s streams,
  indentation loops and trailing-separator trim, and is proved to produce the same text.

Behaviour the C++ leaves undefined is modelled as an outcome
`Undefined(IntOutOfRange | ReadPastEnd)` or excluded by a precondition. What the library
takes from the C library and the FPU (`atof`, float formatting, float arithmetic) is a
parameter `fl: FloatLib`. Floats are binary32 bit patterns compared with IEEE `==`.

Things the code does that the model keeps:

- The default `json()` is an empty object, not null. So the parse fallbacks and `o[key]`
  on a missing key produce an empty object.
- The C++ reads the NUL terminator at `s[s.length()]`. `Text.At` yields `'\0'` there.
- Brackets inside quotes move the scanner's depth, and the escape test looks at the raw
  previous character.
- The scanner always flushes its accumulator, so `[]` parses to a one-element list holding
  an empty object.
- Leading whitespace is not skipped, so `" 1"` is an empty object.
- A later duplicate key overwrites an earlier one, in both the parser and the brace list.
- `length()` answers 2^32 − 1 for a non-list.
- After `stringify`'s `substr`, an empty container's indented form keeps an empty line,
  because the length subtraction wraps around.

Main results:

- `RoundTrip.RoundTrip`: the compact text of every `Plain` value parses back to the same
  value. `Plain` means no floats and no empty lists, strings and keys free of quotes,
  backslashes and brackets, and sorted objects.
- `RoundTrip.ParseMembersText`: object text in any key order gives each key the value of
  its last member.
- `ParseFacts` and `RenderFacts` state the dispatch of `parse` and the shape of the text.

## Model

| member | source | states |
|---|---|---|
| Text.StrContains | JSON_Parser/JSON_Parser.cpp:443-445 | true exactly when some position of the text holds the character |
| Text.FirstAndLastMatch | JSON_Parser/JSON_Parser.cpp:439-441 | true exactly when the text is non-empty and starts with `first` and ends with `last`; on the empty text the NUL at index 0 fails the first test, so the last-character read, which would be out of range, never happens (a NUL `first` on the empty text is excluded) |
| Text.IsNum | JSON_Parser/JSON_Parser.cpp:447-449 | `strContains("0123456789.-", c)` holds exactly for a digit, `.` or `-` |
| Text.IsEmpty | JSON_Parser/JSON_Parser.cpp:451-453 | true exactly for space, newline and tab |
| Text.NatToStringDigits | JSON_Parser/JSON_Parser.cpp:347 | the decimal text of a natural number is non-empty, all digits, and has that number as its decimal value |
| Text.IntToStringShape | JSON_Parser/JSON_Parser.cpp:347 | the text `stream << i_val` writes is non-empty, starts with a digit or `-`, and holds only digits and `-` |
| Text.AtoiIntToString | JSON_Parser/JSON_Parser.cpp:493 | `atoi` of the decimal text of any `int` gives that `int` back |
| Text.RepeatSpaces | JSON_Parser/JSON_Parser.cpp:330-333 | `d` copies of a `w`-space tab are exactly `d * w` spaces |
| Text.TrimTerminated | JSON_Parser/JSON_Parser.cpp:369-370 | cutting one separator off the parts, each followed by the separator, leaves the parts joined by it (no trailing separator); with no parts the wrapped-around length keeps the empty text |
| Floats.FloatEq | JSON_Parser/JSON_Parser.cpp:123-124 | float `==`: a NaN equals nothing, `+0` equals `-0`, any other value equals itself, and two floats that are equal are the same bit pattern or both zeros |
| Floats.FloatEqSymmetric | JSON_Parser/JSON_Parser.cpp:123-124 | float `==` is symmetric |
| OrderedMap.LessTotal | JSON_Parser/JSON_Parser.cpp:261 | the key order of `std::map<std::string, ...>` (lexicographic) relates any two distinct keys one way |
| OrderedMap.LessTransitive | JSON_Parser/JSON_Parser.cpp:261 | the key order is transitive |
| OrderedMap.Find | JSON_Parser/JSON_Parser.cpp:219 | a lookup finds nothing exactly when the key is absent, and otherwise finds a stored entry's value |
| OrderedMap.FindSorted | JSON_Parser/JSON_Parser.cpp:261 | in a sorted map, looking up the key of any entry finds that entry's value |
| OrderedMap.Insert | JSON_Parser/JSON_Parser.cpp:552 | `m[key] = v` keeps the keys strictly ascending |
| OrderedMap.InsertKeys | JSON_Parser/JSON_Parser.cpp:552 | `m[key] = v` adds exactly `key` to the key set |
| OrderedMap.FindInsert | JSON_Parser/JSON_Parser.cpp:552 | after `m[key] = v` the key maps to `v` and every other key maps to what it did before |
| OrderedMap.InsertFrom | JSON_Parser/JSON_Parser.cpp:552 | every entry after `m[key] = v` is the new entry or an old one |
| OrderedMap.Remove | JSON_Parser/JSON_Parser.cpp:185 | `o_val.erase(key)` keeps the order, drops exactly `key` from the key set, shrinks the map by one when the key was there, and otherwise changes nothing |
| OrderedMap.FindRemove | JSON_Parser/JSON_Parser.cpp:185 | after the erase the key is absent and every other key maps to what it did before |
| OrderedMap.RemoveFrom | JSON_Parser/JSON_Parser.cpp:185 | every entry after the erase was there before |
| OrderedMap.InsertAll | JSON_Parser/JSON_Parser.cpp:92-97 | storing entries one after another keeps the map sorted |
| OrderedMap.FindInsertAll | JSON_Parser/JSON_Parser.cpp:552 | after storing a run of entries, each key maps to the value of its last entry in the run, or to its old value when the run has none |
| OrderedMap.InsertAllSorted | JSON_Parser/JSON_Parser.cpp:391 | storing entries that are already in ascending order after the map's keys appends them, so iterating a map gives back what was stored in key order |
| Value.Equal | JSON_Parser/JSON_Parser.cpp:115-136 | `operator==`: equal values have equal tags, and any two nulls are equal (lists and objects compare element-wise and entry-wise) |
| Value.EqualSymmetric | JSON_Parser/JSON_Parser.cpp:115-136 | `operator==` is symmetric |
| Value.EqualIsIdentity | JSON_Parser/JSON_Parser.cpp:115-136 | on values without floats, `operator==` holds exactly when the values are identical; so int and float, or values of different tags, are never equal |
| Value.Plus | JSON_Parser/JSON_Parser.cpp:139-169 | `+=` never changes the receiver's tag: string + string concatenates, a list gets the argument as one new last element (a list too), int + int adds; any other combination leaves the receiver unchanged unless it mixes int and float; well-formedness is kept |
| Value.AddAll | JSON_Parser/JSON_Parser.cpp:175-181 | `addAll` keeps the tag, changes nothing unless both are lists, and otherwise gives a list as long as both together |
| Value.AddAllIsRepeatedPlus | JSON_Parser/JSON_Parser.cpp:175-181 | on two lists `addAll` is `+=` of each element of the argument in order, i.e. the list `old ++ other` |
| Value.PushEachAppends | JSON_Parser/JSON_Parser.cpp:177-179 | pushing elements one by one onto a list appends them in order |
| Value.FirstEqual | JSON_Parser/JSON_Parser.cpp:194-200 | the index the erase loop stops at: equal to the item there, unequal before, or the length when there is none |
| Value.Erase | JSON_Parser/JSON_Parser.cpp:192-206 | `erase` reports true exactly when the value is a list holding an equal element; then it removes the first such element and keeps the rest in order; otherwise the value is unchanged |
| Value.EraseKey | JSON_Parser/JSON_Parser.cpp:183-190 | `eraseKey` reports true exactly when the value is an object with that key; on an object only that key goes and every other key keeps its value; on anything else nothing changes |
| Value.Length | JSON_Parser/JSON_Parser.cpp:208-215 | `length` is the element count of a list (in `unsigned int`), and 2^32 − 1 for any other value |
| Value.TypeName | JSON_Parser/JSON_Parser.cpp:235-252 | `getType` answers `"string"`, `"float"`, `"int"`, `"bool"`, `"list"`, `"json object"` or `"null"`, each exactly for its own tag |
| Value.TypeNameInjective | JSON_Parser/JSON_Parser.cpp:235-252 | two values have the same type name exactly when they have the same tag |
| Value.Subscript | JSON_Parser/JSON_Parser.cpp:218-219 | `o[key]` returns the stored value of a present key and changes nothing; for a missing key it inserts an empty object (the default `json()`) and returns it; other keys are unchanged |
| Value.InsertWellFormed | JSON_Parser/JSON_Parser.cpp:552 | storing a well-formed value in a well-formed object keeps it well-formed |
| Value.Build | JSON_Parser/JSON_Parser.cpp:87-112 | a brace list made only of `{string, value}` pairs becomes a sorted object in which each key has the value of its last pair; a brace list holding any other item becomes the list of its items |
| Value.PairsStep | JSON_Parser/JSON_Parser.cpp:92-97 | each further pair of the brace list is one more `m_val[key] = value` |
| Value.BuildWellFormed | JSON_Parser/JSON_Parser.cpp:87-112 | the brace list builds a well-formed value from well-formed items |
| Variable.JsonVar.constructor | JSON_Parser/JSON_Parser.cpp:50-69 | the converting constructors hold the given value |
| Variable.JsonVar.Default | JSON_Parser/JSON_Parser.cpp:48-49 | `json()` is an empty object |
| Variable.JsonVar.FromBraces | JSON_Parser/JSON_Parser.cpp:64-67 | `json{...}` holds what the brace-list assignment builds |
| Variable.JsonVar.Assign | JSON_Parser/JSON_Parser.cpp:76-83 | assignment from a payload replaces tag and payload |
| Variable.JsonVar.AssignBraces | JSON_Parser/JSON_Parser.cpp:87-112 | the pair-collecting loop, stopping at the first non-pair, leaves the value `Build` describes |
| Variable.JsonVar.AddAssign | JSON_Parser/JSON_Parser.cpp:139-169 | `*this += val` leaves `Plus` of the old value and `val` |
| Variable.JsonVar.Add | JSON_Parser/JSON_Parser.cpp:170-173 | `val1 + val2` changes `val1` as `+=` does and returns a copy of the result |
| Variable.JsonVar.AddAll | JSON_Parser/JSON_Parser.cpp:175-181 | the push loop leaves what `Value.AddAll` describes |
| Variable.JsonVar.Erase | JSON_Parser/JSON_Parser.cpp:192-206 | the search loop removes and reports as `Value.Erase` describes |
| Variable.JsonVar.EraseKey | JSON_Parser/JSON_Parser.cpp:183-190 | removes and reports as `Value.EraseKey` describes |
| Variable.JsonVar.At | JSON_Parser/JSON_Parser.cpp:218 | `operator[](int)` reads the element at an index in range |
| Variable.JsonVar.SetAt | JSON_Parser/JSON_Parser.cpp:218 | assigning through `operator[](int)` replaces exactly that element |
| Variable.JsonVar.Key | JSON_Parser/JSON_Parser.cpp:219 | `operator[](key)` updates the object and returns the value as `Value.Subscript` describes |
| Variable.JsonVar.SetKey | JSON_Parser/JSON_Parser.cpp:219 | assigning through `operator[](key)` stores the value under the key |
| ParseSpec.Count | JSON_Parser/JSON_Parser.cpp:286-299 | a quote flips the quote flag and moves the depth by one, down when it closes a string and up when it opens one; an opening bracket or brace adds one, a closing one subtracts one, whether or not a string is open; other characters change nothing |
| ParseSpec.Scan | JSON_Parser/JSON_Parser.cpp:265-323 | `getObj` leaves the cursor between its start and the end, keeps the elements collected before and always adds at least one more; collecting one value it adds exactly one and leaves the cursor on a `,` or `}`, at the end, or one past a `}` |
| ParseSpec.SkipBlanks | JSON_Parser/JSON_Parser.cpp:528-530 | the blank-skipping loop passes only blanks and stops at the first non-blank or at the end |
| ParseSpec.SkipColons | JSON_Parser/JSON_Parser.cpp:544-546 | the colon-skipping loop passes only blanks and colons, stops at the first character that is neither, and the NUL stops it at the end |
| ParseSpec.ReadKey | JSON_Parser/JSON_Parser.cpp:536-540 | the key loop stops at the first quote or character after a backslash, within the text; it reads past the end only when no such stop exists |
| ParseSpec.ReadKeyPastEnd | JSON_Parser/JSON_Parser.cpp:536-540 | the key loop reads past the end exactly when no character from the cursor to the NUL stops it |
| ParseSpec.ReadKeyText | JSON_Parser/JSON_Parser.cpp:536-540 | the key read is exactly the text from the cursor to where the loop stopped |
| ParseSpec.MemberHead | JSON_Parser/JSON_Parser.cpp:524-546 | one iteration up to a member's value puts the value's cursor at least two past the key's opening quote, found after the blanks; the only failure is reading past the end |
| ParseSpec.MembersStop | JSON_Parser/JSON_Parser.cpp:532-534 | when no quote follows the blanks the object loop ends with the entries it has |
| ParseSpec.MembersBroken | JSON_Parser/JSON_Parser.cpp:538 | a key running past the text makes the parse undefined |
| ParseSpec.MembersValueUndefined | JSON_Parser/JSON_Parser.cpp:548 | a value whose parse is undefined makes the object's parse undefined |
| ParseSpec.MembersNext | JSON_Parser/JSON_Parser.cpp:548-554 | a collected value is stored under its key, and the loop goes on one past where the scanner stopped |
| ParseSpec.ParseWellFormed | JSON_Parser/JSON_Parser.cpp:482-561 | every object `parse` builds, at every depth, has strictly ascending keys |
| ParseSpec.ScanWellFormed | JSON_Parser/JSON_Parser.cpp:265-323 | every element the scanner collects is well-formed |
| ParseSpec.MembersWellFormed | JSON_Parser/JSON_Parser.cpp:516-557 | the object loop's entries stay sorted with well-formed values |
| Parser.GetObj | JSON_Parser/JSON_Parser.cpp:265-323 | the scanner loop over the by-reference cursor returns the elements and the cursor `ParseSpec.Scan` describes |
| Parser.ParseText | JSON_Parser/JSON_Parser.cpp:482-561 | `parse` returns what `ParseSpec.Parse` describes |
| Parser.ParseObject | JSON_Parser/JSON_Parser.cpp:516-557 | the object branch's `while` loop returns the entries `ParseSpec.Members` describes |
| Parser.MemberStart | JSON_Parser/JSON_Parser.cpp:524-546 | the loop head (blanks, quote, key, colons) finds what `ParseSpec.MemberHead` describes |
| ParseFacts.ParseQuoted | JSON_Parser/JSON_Parser.cpp:485-486 | for every text s, `'"' + s + '"'` parses to the string s |
| ParseFacts.ParseLiterals | JSON_Parser/JSON_Parser.cpp:496-510 | `true`, `false` and `null` parse to the bool true, the bool false and null |
| ParseFacts.ParseLiteralFallback | JSON_Parser/JSON_Parser.cpp:496-510 | any other text starting with `t`, `f` or `n` parses to an empty object |
| ParseFacts.ParseEmpty | JSON_Parser/JSON_Parser.cpp:483-560 | the empty text parses to an empty object |
| ParseFacts.ParseLeadingBlank | JSON_Parser/JSON_Parser.cpp:483-560 | a text starting with whitespace parses to an empty object |
| ParseFacts.ParseUnclosed | JSON_Parser/JSON_Parser.cpp:485-560 | a text opened by `[`, `{` or `"` and not closed by the matching last character parses to an empty object |
| ParseFacts.ParseFloatToken | JSON_Parser/JSON_Parser.cpp:488-490 | a token starting with a digit, `.` or `-` and holding a `.` gets the float tag, with the payload `atof` gives |
| ParseFacts.ParseIntToken | JSON_Parser/JSON_Parser.cpp:491-494 | an optional `-` followed by digits parses to the `int` of its decimal value when that is in range, and is undefined behaviour otherwise |
| ParseFacts.ParseDigit | JSON_Parser/JSON_Parser.cpp:491-494 | a one-digit token parses to that digit's value |
| ParseFacts.ParseEmptyBrackets | JSON_Parser/JSON_Parser.cpp:511-514 | `[]` parses to a list of one empty object, because the scanner always flushes its accumulator |
| ParseFacts.ParseEmptyBraces | JSON_Parser/JSON_Parser.cpp:516-557 | `{}` parses to an empty object |
| ParseFacts.ScanBlank | JSON_Parser/JSON_Parser.cpp:279-284 | the scanner drops a blank outside a string and keeps one inside |
| ParseFacts.ParseSpacedList | JSON_Parser/JSON_Parser.cpp:276-320 | `[1, 2]` parses to the list of 1 and 2: the blank is dropped |
| ParseFacts.ParseQuotedBlank | JSON_Parser/JSON_Parser.cpp:279-284 | `[" a"]` parses to the list of the string `" a"`: the blank inside the quotes is kept |
| Serializer.Indent | JSON_Parser/JSON_Parser.cpp:333 | the indentation loop writes `n` tabs |
| Serializer.MakeTab | JSON_Parser/JSON_Parser.cpp:330 | the tab is `tabSpace` spaces, none when `tabSpace` is not positive |
| Serializer.Stringify | JSON_Parser/JSON_Parser.cpp:326-420 | `stringify` writes the compact text when not prettifying and the indented text otherwise |
| Serializer.StringifyList | JSON_Parser/JSON_Parser.cpp:352-381 | a list is `[` + elements joined by `,` + `]`, or, indented, `[`, newline, the element lines joined by `,\n`, newline, the closing bracket at the list's own depth |
| Serializer.StringifyObject | JSON_Parser/JSON_Parser.cpp:382-413 | an object is `{` + `"key":value` members joined by `,` in ascending key order + `}`, or its indented form |
| Serializer.StringifyItems | JSON_Parser/JSON_Parser.cpp:360-370 | the element loop and the trim leave the element texts joined by the separator |
| Serializer.StringifyMembers | JSON_Parser/JSON_Parser.cpp:391-402 | the member loop and the trim leave the member texts joined by the separator |
| Serializer.Dump | JSON_Parser/JSON_Parser.cpp:423-431 | `dump(0)` is the compact text and any other width the indented text from depth 0 |
| RenderFacts.CompactEmpty | JSON_Parser/JSON_Parser.cpp:352-413 | empty containers render as `[]` and `{}` |
| RenderFacts.PrettyEmpty | JSON_Parser/JSON_Parser.cpp:352-413 | indented, an empty container keeps one empty line between its brackets, the closing one at its own depth |
| RenderFacts.CompactLast | JSON_Parser/JSON_Parser.cpp:339-417 | given that the text of a `float` is never empty and never ends with a comma, the compact text of any value is non-empty and does not end with a comma |
| RenderFacts.NoTrailingComma | JSON_Parser/JSON_Parser.cpp:369-402 | given the same of `float` text, a container's compact text has no comma before its closing bracket, whatever it holds |
| RenderFacts.PrettyIndent | JSON_Parser/JSON_Parser.cpp:332-334 | indented at depth d, a value starts with d·w spaces, except as an object member's value, which gets none |
| RenderFacts.PrettyList | JSON_Parser/JSON_Parser.cpp:352-381 | indented at depth d, each element is on its own line after (d+1)·w spaces, the lines are separated by `,\n`, and `]` follows d·w spaces |
| RenderFacts.PrettyObject | JSON_Parser/JSON_Parser.cpp:382-413 | indented at depth d, each member is on its own line as (d+1)·w spaces then `"key": ` then the value, not indented again; `}` follows d·w spaces |
| RenderFacts.DumpSmallList | JSON_Parser/JSON_Parser.cpp:423-431 | `dump(2)` of `[1,2,3]` is `"[\n  1,\n  2,\n  3\n]"` |
| RenderFacts.DumpSmallListCompact | JSON_Parser/JSON_Parser.cpp:423-427 | `dump(0)` of `[1,2,3]` is `"[1,2,3]"` |
| RoundTrip.ScanStep | JSON_Parser/JSON_Parser.cpp:276-317 | one scanner step over a character that ends no element keeps it (a blank only inside a string) and updates the tally |
| RoundTrip.ScanOver | JSON_Parser/JSON_Parser.cpp:276-317 | the scanner crosses a whole piece of text that ends no element, keeping all of it |
| RoundTrip.Shows | JSON_Parser/JSON_Parser.cpp:339-417 | the compact text of a plain value is balanced for the scanner in both modes |
| RoundTrip.ReadPlainKey | JSON_Parser/JSON_Parser.cpp:536-540 | for a key with no quote or backslash (brackets and braces allowed), the key loop reads exactly the text up to the closing quote |
| RoundTrip.ReadBracketKey | JSON_Parser/JSON_Parser.cpp:536-540 | on `{"a[b":1}` the key loop reads the key `a[b`: brackets are ordinary key characters |
| RoundTrip.ScanElements | JSON_Parser/JSON_Parser.cpp:276-320 | the scanner reads back every element of a list's compact text |
| RoundTrip.ScanMembers | JSON_Parser/JSON_Parser.cpp:524-555 | the object loop stores every member of an object's compact text, in order |
| RoundTrip.ParseBracketed | JSON_Parser/JSON_Parser.cpp:511-514 | brackets around element texts joined by commas parse to the list of those elements |
| RoundTrip.ParseMembersText | JSON_Parser/JSON_Parser.cpp:516-557 | braces around member texts joined by commas, in any order, parse to an object in which each key has the value of its last member: a later duplicate key overwrites an earlier one |
| RoundTrip.ParseBraced | JSON_Parser/JSON_Parser.cpp:516-557 | member texts in ascending key order parse to the object of exactly those members |
| RoundTrip.ParseListText | JSON_Parser/JSON_Parser.cpp:511-514 | a non-empty list's compact text parses back to the list |
| RoundTrip.ParseObjectText | JSON_Parser/JSON_Parser.cpp:516-557 | an object's compact text parses back to the object |
| RoundTrip.RoundTrip | JSON_Parser/JSON_Parser.cpp:482-561 | parsing `dump(0)` of a plain value (no floats, no empty lists, sorted objects, strings and keys without quotes, backslashes or brackets) gives the value back; in particular every non-empty list of ints survives |

## Left out

- File I/O: `writeFile`, `readFile`, `read`, `write` and `dump(const char*)` only move text
  between streams and files.
- Floating point: `std::atof`, float formatting, float addition and the int/float
  conversions of `+=` are the parameters `FloatLib.atof`, `show`, `add`, `ofInt` and
  `toInt`. No numeric property of them is proved; only tags and IEEE `==` are modelled.
- The template `val<T>()` and its specialisations: `val<int>()` converts the float payload
  of a non-int, `val<double>()` and `val<float>()` convert the int payload of a non-float,
  the others read a payload whatever the tag (a stale one on another tag), and the
  unspecialised template returns `NULL`. These are float conversions and reads of stale
  payloads, which the model does not represent.
- `operator=(json_type)`: it changes the tag alone and leaves a stale payload, which a sum
  type cannot represent.
- `atoi` out of `int` range is undefined behaviour. It is the outcome
  `Undefined(IntOutOfRange)`, and `atoi` is modelled on the token's leading optional `-`
  and digits.
- Value.Plus: int + int that leaves the `int` range is undefined behaviour and is excluded
  by a precondition.
- The key loop reading past the end (for example on `{"abc}`) is undefined behaviour. It
  is the outcome `Undefined(ReadPastEnd)`.
- Variable.JsonVar.At: an index out of range is undefined behaviour and is excluded by a
  precondition; so is indexing a non-list by position.
- Variable.JsonVar.Key: only an object receiver is modelled, as the C++ reads `o_val`
  whatever the tag.
- Serializer.Stringify: `initTabPos` is a `nat`; the C++ never passes a negative depth.
- Value.Length: a list of 2^32 elements or more is counted modulo 2^32, as the
  `unsigned int` return does.
- RoundTrip.RoundTrip: holds only for plain values. Floats are opaque. An empty list
  renders as `[]`, which parses to a one-element list. Quotes, backslashes and brackets
  inside strings mislead the scanner's depth count.
- RenderFacts.NoTrailingComma: float text is a parameter, so the lemma assumes of it
  what `stream << f_val` gives: never empty and never ending in a comma.
- ParseSpec.Classify: the three `t`/`f`/`n` branches of `parse` are one `Literal` case,
  each case comparing the whole text with its literal.

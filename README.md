# config-rs in Dafny

config-rs reads typed configuration values from line-oriented text. The
Rust library has four parts, and this project models each of them:

- **`ConfigProvider`** is a cursor over numbered lines. It skips blank
  lines and lines that start with `#`, skips leading whitespace, and hands
  the parsers the rest of the current line.
- **The literal lexers** read a Rust-style character literal (`char_lit`,
  `parse_char`) or string literal (`str_lit`) and unescape it.
- **`ParseTmp`** holds the state of one named field while a struct is
  being read. The field can be empty, have a default, be found (with
  repeated keys merged) or have failed.
- **`ConfigAble`** is the trait every configurable type implements:
  `parse_from`, `get_default`, `merge` and `get_format`. The model covers
  the built-in implementations (`String`, `char`, `i32`/`u32`/`u8`,
  `Ipv4Addr`, `LogLevel`, `Option<T>`, `Vec<T>`, `[T;4]`, `[T;6]`). It
  also covers the code that `#[derive(ConfigAble)]` generates for structs
  and enums, including the `default` and `merge` attributes.

A type is described by a `Desc` value, and a parsed value is a `Value`.
`HasType` ties the two together.

Every parser is modelled twice:

- as a pure specification function over a cursor snapshot
  (`Cursor(line, text, column, pos)`), which returns the result and the
  next cursor, or `Panics` where the Rust code would panic;
- as an imperative method on the `ConfigProvider` class, which is proved to
  do exactly what the function says:
  `Step(r, p.Cur()) == XSpec(p.source, old(p.Cur()), ...)`.

The specification functions carry the type guarantee: on success the
value has the requested type. Progress is also proved: a call that
succeeds consumes input, and no call moves the cursor back. An error may
leave the cursor where it was (the String, char, integer and LogLevel
parses do so with Recoverable). The mutual recursion of the derived
parsers terminates because it is measured by the unread input (`Unread`).

Modules, one file each:

| module | file | models |
|---|---|---|
| `Common` | common.dfy | `Option`, `Result`, `ParseError`; character classes; decimal and hex digits |
| `Scanner` | scanner.dfy | `ConfigProvider`: cursor functions and the class |
| `ScannerTests` | scanner_tests.dfy | the provider's unit-test scenarios |
| `LineScans` | line_scans.dfy | helper facts about cursors moving along one line |
| `Literals` | literals.dfy | `char_lit`, `parse_char`, `str_lit` |
| `Schema` | schema.dfy | type descriptors, values, `get_default`, `merge`, `get_format` |
| `FieldStates` | field_state.dfy | `ParseTmpI` and the `ParseTmp` class |
| `Scalars` | scalars.dfy | `parse_from` of String, char, the integers, Ipv4Addr, LogLevel |
| `FormatTests` | format_tests.dfy | the `get_format_str` unit-test scenarios |
| `ScalarTests` | scalar_tests.dfy | the scalar, default and merge unit-test scenarios |
| `Parser` | parser.dfy | specifications of Option, Vec, arrays and the derived parsers |
| `ParseFrom` | parse_from.dfy | the imperative parsers, proved against `Parser` |
| `ParseFacts` | parse_facts.dfy | facts about the derived parsers |
| `ParseTests` | parse_tests.dfy | the enum, Option, Vec and struct unit-test scenarios |
| `DeriveTests` | derive_tests.dfy | the TupleStruct, TupleEnum and StructEnum parse unit-test scenarios |

## Model

| member | source | states |
|---|---|---|
| Common.HexU32 | src/literals.rs:35-41 | a `\u{...}` payload is accepted only if it is non-empty and fits in a u32 |
| Common.HexStringFits | src/literals.rs:35-41 | the hex text of any char code reads back as that code |
| Common.CanonicalIsNatToString | src/provider.rs:41-44 | decimal digits without a leading zero are exactly the text `to_string` gives for their value, so the numbers in an error message are determined |
| Scanner.SkipWs | src/provider.rs:74-88 | the index reached is the first non-whitespace index, and everything skipped is whitespace |
| Scanner.NextLine | src/provider.rs:91-102 | fetching the next line skips exactly the lines that are blank or start with `#`, lands on the first non-whitespace column, or parks at the end of the last line |
| Scanner.FirstMeaningful | src/provider.rs:91-102 | the index found is the first line at or after k that has content |
| Scanner.NextLineFindsContent | src/provider.rs:91-102 | the next line is the first meaningful line after the cursor, at its first non-blank column; with no such line, the cursor sits at the end of the last line |
| Scanner.Settle | src/provider.rs:74-88 | skipping whitespace leaves a clean cursor, never moves backwards, and never increases the unread input |
| Scanner.Advance | src/provider.rs:143-160 | consuming count characters fails exactly when the current line is shorter than count; on success the unread input shrinks by at least count |
| Scanner.AdvanceChar | src/provider.rs:124-134 | consuming a character succeeds exactly when it is the next character, and then strictly shrinks the unread input |
| Scanner.Start | src/provider.rs:109-118 | a new provider starts at a consistent, settled position |
| Scanner.AtEndMeansExhausted | src/provider.rs:47-49 | the provider has no next text exactly when no input is left unread |
| Scanner.HashAfterContentIsKept | src/provider.rs:97-100 | a `#` after content on a line is not a comment: it stays as text to parse |
| Scanner.ConsumeWithinLine | src/provider.rs:143-160 | consuming within a line moves to the next non-whitespace column of the same line |
| Scanner.ConfigProvider.constructor | src/provider.rs:109-118 | a provider over the given lines is valid and at the starting cursor |
| Scanner.ConfigProvider.FromLine | src/provider.rs:54-61 | a provider over one in-memory line named "memory" |
| Scanner.ConfigProvider.GetNext | src/provider.rs:19-28 | the rest of the current line, None exactly at end of input, never starting with whitespace |
| Scanner.ConfigProvider.PeekChar | src/provider.rs:31-33 | the first character of the next text, present exactly when there is next text |
| Scanner.ConfigProvider.IsAtEnd | src/provider.rs:47-49 | at end exactly when there is no next text, and exactly when nothing is left unread |
| Scanner.ConfigProvider.ErrorMessage | src/provider.rs:41-44 | the message names the file, then the line number and the 1-based column plus the index, each in canonical decimal (no leading zero) |
| Scanner.ConfigProvider.SkipCurrent | src/provider.rs:68-71 | drops the rest of the line and moves to the next meaningful line |
| Scanner.ConfigProvider.SkipWhitespace | src/provider.rs:74-88 | the new position is the settled old position |
| Scanner.ConfigProvider.GetNextLine | src/provider.rs:91-102 | the new position is the next meaningful line |
| Scanner.ConfigProvider.Consume | src/provider.rs:143-160 | Err(Final) with the position unchanged when the line is too short; otherwise Ok and the advanced position |
| Scanner.ConfigProvider.ConsumeChar | src/provider.rs:124-134 | Err(Final) with the position unchanged unless the next character is ch; otherwise Ok and the advanced position |
| ScannerTests.TwoLinesSteps | src/provider.rs:182-193 | "Line1" then "Line2" across two lines; the second line's leading blanks are skipped |
| ScannerTests.Message | src/provider.rs:196-214 | the error text for line and column positions |
| ScannerTests.BlankLinesSteps | src/provider.rs:217-225 | whitespace-only lines before and after "line" are skipped |
| ScannerTests.CommentLinesStart | src/provider.rs:228-232 | the two comment lines are skipped and the start is "line#3   #another" |
| ScannerTests.CommentLinesSteps | src/provider.rs:233-238 | the `#` after content is kept as text, and the trailing comment line is skipped |
| ScannerTests.SingleLine | src/main.rs:772-783 | an in-memory line reads "This is a line", then "is a line" after consuming 4, then nothing after 9 more; one more character cannot be consumed |
| ScannerTests.NextLine | src/main.rs:785-797 | two lines read "Line1   \n", then "Line2", then nothing |
| ScannerTests.ErrorPositions | src/main.rs:799-818 | the error texts are "Testfile:1,3" at the start and "Testfile:2,4" on the second line |
| ScannerTests.SkipsBlankLines | src/main.rs:820-829 | only "line" is read from the blank-padded input |
| ScannerTests.SkipsCommentLines | src/main.rs:831-843 | "line#3   #another" is read first, then "#another", then nothing |
| Literals.Find | src/literals.rs:35-41 | the index of the first occurrence of c, and None exactly when c does not occur |
| Literals.CharLit | src/literals.rs:10-44 | an unescaped char reads one character; a backslash escape reads more |
| Literals.ParseChar | src/literals.rs:46-58 | success covers both quotes (at least 3 characters); failure is never "empty literal" |
| Literals.SkipBlank | src/literals.rs:71-80 | the first index that is not a space, tab, CR or LF, with every skipped character blank |
| Literals.Eat | src/literals.rs:71-80 | the loop stops where SkipBlank says |
| Literals.NextTurn | src/literals.rs:90-136 | each turn of the body loop reads at least one character and stays inside the text |
| Literals.EscapeTurn | src/literals.rs:92-117 | a backslash turn reads at least one character and stays inside the text |
| Literals.ScanBody | src/literals.rs:90-136 | a closed scan ends on a quote character |
| Literals.StrLiteral | src/literals.rs:62-146 | success spans an opening and a closing quote; the empty-literal error happens exactly on empty input |
| Literals.PlainCharCopied | src/literals.rs:134 | any character other than a quote, CR or backslash is copied to the result |
| Literals.CrLfReadsAsNewline | src/literals.rs:118-128 | an unescaped CR LF becomes one line feed; a CR without LF aborts |
| Literals.LineContinuation | src/literals.rs:97-108 | backslash-LF and backslash-CR-LF drop the break and all blanks after it, adding nothing to the result |
| Literals.BodyStep | src/literals.rs:118-134 | one imperative turn produces what NextTurn says |
| Literals.EscapeStep | src/literals.rs:92-117 | one imperative backslash turn produces what EscapeTurn says |
| Literals.StrLit | src/literals.rs:62-146 | the imperative lexer returns exactly StrLiteral |
| Literals.TurnOnEscaped | src/literals.rs:110-116 | the escaped form of any character is read back as that character in one turn |
| Literals.ScanEscaped | src/literals.rs:90-136 | the escaped text of any string, followed by a quote, scans back to that string |
| Literals.StrLitRoundTrip | src/literals.rs:62-146 | lexing the quoted, escaped form of any string gives the string back and consumes exactly the literal, whatever follows |
| Literals.CharRoundTrip | src/literals.rs:46-58 | lexing the quoted, escaped form of any char gives the char back and consumes exactly the literal |
| Literals.HexEscapeRoundTrip | src/literals.rs:30-34 | `\xHH` reads back as the char with code HH, using four characters |
| Literals.FindClosingBrace | src/literals.rs:35-41 | in `\u{h}` the closing brace is found right after the hex digits |
| Literals.UnicodeCharLit | src/literals.rs:35-41 | a `\u{...}` escape with a valid code reads that char, up to and including the brace |
| Literals.UnicodeEscapeRoundTrip | src/literals.rs:35-41 | `\u{hex}` of any char reads back as that char |
| Schema.FindVariant | rs-config-derive/src/lib.rs:523-589 | the index of the first variant with the name, None exactly when no variant has it |
| Schema.Default | rs-config-derive/src/lib.rs:261-330 | a default has the type; Option, Vec and LogLevel always have one; String, char, the integers and Ipv4Addr never do |
| Schema.DefaultFields | rs-config-derive/src/lib.rs:288-324 | a struct has defaults exactly when every field type has one, and they are well-typed |
| Schema.MergeFields | rs-config-derive/src/lib.rs:472-498 | merging fields gives one value per field |
| Schema.MergeKeepsType | rs-config-derive/src/lib.rs:332-503 | merging two values of a type gives a value of that type |
| Schema.MergeFieldsKeepsType | rs-config-derive/src/lib.rs:472-498 | merging fields keeps each field well-typed |
| Schema.MergeFieldsStopsAtFirstFailure | rs-config-derive/src/lib.rs:472-498 | fields merge left to right up to and including the first failing field; later fields keep the left value; success exactly when all fields merge |
| Schema.MergeNeutral | src/implementations/option.rs:56-69 | None, the empty Vec and the empty String are neutral on both sides of a merge |
| Schema.MergeAssociative | src/implementations/vec.rs:57-60 | Vec and String merges are associative |
| Schema.MergeKeepsTypeVec | src/implementations/vec.rs:57-60 | appending two vectors of T gives a vector of T |
| Schema.ScalarMerge | src/implementations/char.rs:38 | char, integer and Ipv4Addr merges keep the left value and succeed exactly on equal values |
| Schema.ArrayHeaderAsWrittenMislabels | src/implementations/array.rs:41-44 | the `[T;6]` format header, as written and as `Header` gives it, does not start with its own type name |
| Schema.ArrayHeaderNamesItsType | src/implementations/array.rs:9-12 | the corrected array header names its type and lists n T's |
| Schema.FieldTypes | rs-config-derive/src/lib.rs:241-256 | the field types to describe further, without duplicates, each smaller than the struct |
| Schema.OtherTypes | rs-config-derive/src/lib.rs:241-256 | every type that a struct or enum format describes further is smaller than the struct or enum itself |
| Schema.Format | rs-config-derive/src/lib.rs:173-259 | the format text starts with the type's header, and the set of described names only grows |
| Schema.Nested | src/implementations/option.rs:8-20 | an element type that is already described is not described again; any other element type is recorded as described, and its format follows the line after a newline |
| Schema.FormatOthers | rs-config-derive/src/lib.rs:241-256 | every other type ends up recorded as described; a first type not yet described is printed first, after a newline; a first type already described adds nothing |
| Schema.FormatOthersAllSeen | rs-config-derive/src/lib.rs:241-256 | when every other type is already described, nothing is printed and nothing is recorded |
| FieldStates.Push | src/lib.rs:70-107 | push_found: Final is passed through and leaves the state alone; any other outcome returns Ok; the state stays well-typed |
| FieldStates.MergeTyped | src/lib.rs:182 | the merge used by push_found keeps the type |
| FieldStates.Resolve | src/lib.rs:118-137 | get_value never returns Final; it fails exactly on a failed field, or an empty field whose type has no default |
| FieldStates.PushAll | src/lib.rs:70-107 | repeated pushes keep the field state well-typed |
| FieldStates.FailedAbsorbs | src/parsetmp.rs:60-62 | once a field has failed, no later value changes that |
| FieldStates.RepeatedFieldMerges | src/lib.rs:70-107 | a key given several times holds the left-to-right merge of all its values; an attribute default is discarded by the first value |
| FieldStates.FoundMerges | src/main.rs:56-65 | a found field merges each further value into what it holds, and fails on the first failed merge |
| FieldStates.ResolvePriority | src/parsetmp.rs:99-118 | a found value beats the attribute default, which beats the type default |
| FieldStates.ParseTmp.constructor | src/lib.rs:51-53 | a new holder is empty |
| FieldStates.ParseTmp.SetDefault | src/lib.rs:58-60 | the holder now holds the attribute default |
| FieldStates.ParseTmp.PushFound | src/lib.rs:70-107 | the holder's new state and result are those of Push |
| FieldStates.ParseTmp.GetValue | src/lib.rs:118-137 | the result is Resolve of the holder's state, and is well-typed |
| FieldStates.ParseTmpTests | src/parsetmp.rs:127-142 | an unset String field is Recoverable, an unset Option<String> field is None, and a field with only the default "TestStr" gives "TestStr" |
| Scalars.Take | src/provider.rs:143-160 | consuming count characters and returning a value succeeds exactly when the line is long enough |
| Scalars.StringSpec | src/implementations/string.rs:16-35 | a successful String parse returns a string and has consumed input; on error the cursor is unchanged |
| Scalars.StringSpecReadsQuoted | src/implementations/string.rs:16-35 | on the quoted form of any string, the parse returns that string and consumes exactly the literal |
| Scalars.CharSpec | src/implementations/char.rs:16-34 | a successful char parse returns a char and has consumed input; on error the cursor is unchanged |
| Scalars.CharSpecReadsQuoted | src/implementations/char.rs:16-34 | on the quoted form of any char, the parse returns that char and consumes exactly the literal |
| Scalars.TokenEnd | src/implementations/ints.rs:19-20 | an integer token runs up to the first whitespace character |
| Scalars.ParseInt | src/implementations/ints.rs:14-108 | an accepted number is non-empty and in the range of i32, u32 or u8 |
| Scalars.IntRoundTrip | src/implementations/ints.rs:14-108 | the decimal text of any in-range number parses back to it |
| Scalars.IntSpec | src/implementations/ints.rs:14-35 | an integer parse never panics, returns a value of its kind and leaves the cursor unchanged on error; what it reads is stated by IntSpecReadsToken |
| Scalars.TokenEndAfter | src/implementations/ints.rs:19-20 | a token free of whitespace, followed by whitespace or the end of the line, is cut exactly at its end |
| Scalars.IntSpecReadsToken | src/implementations/ints.rs:14-35 | the parse looks at the token up to the next whitespace: a number of the type is consumed and returned; anything else is Recoverable with nothing consumed |
| Scalars.IntSpecReadsDecimal | src/implementations/ints.rs:14-35 | any in-range number written in decimal at the cursor is read back and its text consumed |
| Scalars.IpEnd | src/implementations/ip.rs:21 | the address token is the longest run of digits and dots |
| Scalars.SplitDots | src/implementations/ip.rs:24-27 | splitting at dots gives at least one part, and no part contains a dot |
| Scalars.ParseIp | src/implementations/ip.rs:24-27 | an accepted address has four octets below 256 |
| Scalars.IpRoundTrip | src/implementations/ip.rs:17-32 | the dotted text of any four octets below 256 parses back to them |
| Scalars.IpSpec | src/implementations/ip.rs:17-32 | an Ipv4Addr parse never panics and returns an address; what it reads is stated by IpSpecReadsRun |
| Scalars.IpEndAfter | src/implementations/ip.rs:21 | a run of digits and dots followed by any other character, or the end of the line, is cut exactly at its end |
| Scalars.IpSpecReadsRun | src/implementations/ip.rs:17-32 | the whole run of digits and dots is consumed before it is checked: an address is returned, anything else is Recoverable after the run |
| Scalars.JoinDotsIpChars | src/implementations/ip.rs:21 | the dotted text of digit strings is a run of digits and dots |
| Scalars.IpSpecReadsDotted | src/implementations/ip.rs:17-32 | any dotted quad of octets below 256 at the cursor is read back as that address and its text consumed |
| Scalars.AlphaEnd | src/implementations/log.rs:25 | the level word is the longest alphabetic prefix |
| Scalars.ParseLevelAsWritten | src/implementations/log.rs:27-33 | the parse as written accepts exactly "Warn", "Info", "Debug" and "Trace", each as its level, and never Error |
| Scalars.ErrorLevelRefused | src/implementations/log.rs:14-33 | "Error" is listed in the format but is refused by the parse as written |
| Scalars.ParseLevel | src/implementations/log.rs:27-33 | corrected: a level is accepted only for its exact name, Error included |
| Scalars.LevelRoundTrip | src/implementations/log.rs:27-33 | the name of every level, Error included, parses back to it |
| Scalars.LevelSpec | src/implementations/log.rs:21-44 | a LogLevel parse, with the words as written, never panics, returns a level and leaves the cursor unchanged on error; what it reads is stated by LevelSpecReadsWord |
| Scalars.AlphaEndAfter | src/implementations/log.rs:25 | a word of letters followed by a non-letter, or the end of the line, is cut exactly at its end |
| Scalars.LevelSpecReadsWord | src/implementations/log.rs:21-44 | the parse looks at the word of letters at the cursor: a level word is consumed and returned; anything else is Recoverable with nothing consumed |
| Scalars.LevelSpecReadsName | src/implementations/log.rs:21-44 | the name of every level but Error at the cursor is read back as that level and consumed |
| Scalars.ErrorWordRefused | src/implementations/log.rs:27-33 | "Error" in the configuration is Recoverable and nothing is consumed |
| Scalars.ParseString | src/implementations/string.rs:16-35 | the imperative parse does exactly what StringSpec says |
| Scalars.ParseCharValue | src/implementations/char.rs:16-34 | the imperative parse does exactly what CharSpec says |
| Scalars.ParseIntValue | src/implementations/ints.rs:14-35 | the imperative parse does exactly what IntSpec says |
| Scalars.ParseIpValue | src/implementations/ip.rs:17-32 | the imperative parse does exactly what IpSpec says |
| Scalars.ParseLevelValue | src/implementations/log.rs:21-44 | the imperative parse does exactly what LevelSpec says |
| FormatTests.StringFormat | src/implementations/string.rs:51-53 | the String format is `String: "Rust String"` |
| FormatTests.OptionFormat | src/implementations/option.rs:78-80 | the Option<String> format starts with "Option<String>: Some(String) \| None" and a newline |
| FormatTests.VecFormat | src/implementations/vec.rs:70-72 | the Vec<char> format starts with "Vec<char>: [ char, char, ... ]" and a newline |
| FormatTests.EnumHeaderTwo | rs-config-derive/src/lib.rs:184-218 | a two-variant enum header is its name, then the variants with their shapes, separated by " \| " |
| FormatTests.ListedOnce | rs-config-derive/src/lib.rs:60-78 | a field type that occurs twice is listed once for further description |
| FormatTests.SimpleEnumFormat | src/lib.rs:211-215 | SimpleEnum's format is exactly "SimpleEnum: SimpleCon1 \| SimpleCon2", and its name is "SimpleEnum" |
| FormatTests.TupleEnumOthers | src/lib.rs:237-240 | the only type TupleEnum describes further is String |
| FormatTests.TupleEnumFormat | src/lib.rs:242-246 | TupleEnum's format is its variant line followed by the String format once, and its name is "TupleEnum" |
| FormatTests.StructEnumFormat | src/lib.rs:286-289 | StructEnum's format starts with "StructEnum: Var1{s: String, c: char} \| Var2{c: String, s: char}" |
| FormatTests.TupleStructFormat | src/lib.rs:304-307 | TupleStruct's format starts with "TupleStruct: (String, char)" |
| FormatTests.StructStructFormat | src/lib.rs:324-327 | StructStruct's format starts with "StructStruct: {s: String, c: char}" |
| ScalarTests.CharSteps | src/implementations/char.rs:46-57 | `'\\'var` reads a backslash and leaves "var" |
| ScalarTests.CharParse | src/main.rs:858-869 | the provider-driven char parse of `'\\'var` gives a backslash and leaves "var" |
| ScalarTests.LoopbackText | src/implementations/ip.rs:45-56 | "127.0.0.1" reads as the octets 127, 0, 0, 1 |
| ScalarTests.IpSteps | src/implementations/ip.rs:45-56 | "127.0.0.1var" reads 127.0.0.1 and leaves "var" |
| ScalarTests.IpParse | src/implementations/ip.rs:45-56 | the provider-driven Ipv4Addr parse of "127.0.0.1var" gives 127.0.0.1 and leaves "var" |
| ScalarTests.BuiltinMerges | src/main.rs:172-311 | String merges concatenate, an Option merge keeps the side that is set and merges two set sides, and unequal chars do not merge |
| ScalarTests.OptionDefaults | src/implementations/option.rs:96-99 | Option<String> defaults to None, Option<Option<String>> to Some(None), and the enum attribute default is used |
| ScalarTests.OptionFieldDefaults | tests/default.rs:15-19 | the field defaults of a struct of Option<String> fields are all None |
| ScalarTests.TupleDefaults | tests/default.rs:15-19 | DefaultTest1 defaults to (None, None); DefaultTest2 has no default because String has none |
| ScalarTests.MergeTestFun | tests/custom_merge.rs:14-22 | the user merge takes the right side into an all-None left side, ignores an all-None right side, and refuses anything else |
| ScalarTests.CustomMergeScenarios | tests/custom_merge.rs:25-40 | the merge attribute is used: the first merge fails and keeps the left value; the second takes the right value |
| Parser.MatchField | rs-config-derive/src/lib.rs:133-143 | the first field whose name is a prefix of the text; None exactly when no field name is |
| Parser.MatchVariant | rs-config-derive/src/lib.rs:528-534 | the first variant whose name is a prefix of the text; None exactly when no variant name is |
| Parser.InitStates | rs-config-derive/src/lib.rs:85-108 | every field holder starts empty, or with its attribute default |
| Parser.ResolveFrom | rs-config-derive/src/lib.rs:628-631 | the struct is built exactly when every field resolves, with each field's resolved value in its place, and never fails with Final |
| Parser.ResolvedTyped | rs-config-derive/src/lib.rs:628-631 | the resolved fields have the field types |
| Parser.AsStruct | rs-config-derive/src/lib.rs:596-637 | the field values become the struct value; errors and the cursor pass through |
| Parser.AsVariant | rs-config-derive/src/lib.rs:536-589 | the field values become the named variant; errors and the cursor pass through |
| Parser.Separator | rs-config-derive/src/lib.rs:160-162 | no separator before the first element; a required `,` before every later one |
| Parser.ParseSpec | src/lib.rs:172-174 | a successful parse_from of any type returns a value of that type and has consumed input; no call moves the cursor back, and an error (Recoverable or Final) may leave the cursor where it was |
| Parser.OptionSpec | src/implementations/option.rs:26-47 | `None` or `Some(...)` gives a well-typed Option; what it reads is stated by ParseFacts.OptionReadsNone, OptionReadsSome and OptionNeedsKeyword |
| Parser.SomeSpec | src/implementations/option.rs:35-41 | after `Some`, the parenthesised inner value gives a well-typed Option |
| Parser.CloseSome | src/implementations/option.rs:38-41 | the inner value closed by `)` gives a well-typed Option |
| Parser.VecSpec | src/implementations/vec.rs:26-53 | a bracketed list gives a well-typed Vec; what it reads is stated by ParseFacts.VecReadsElements, VecElementFails, VecNeedsOpen and VecNeedsComma |
| Parser.VecLoop | src/implementations/vec.rs:33-52 | the elements read so far are kept as a prefix of the result |
| Parser.VecElement | src/implementations/vec.rs:51 | each new element is appended after the ones before it |
| Parser.CheckLength | src/implementations/array.rs:20-23 | a vector of the wrong length is refused; otherwise it becomes an array of the type |
| Parser.ArraySpec | src/implementations/array.rs:16-29 | an array parse gives a well-typed array of the declared size |
| Parser.StructSpec | rs-config-derive/src/lib.rs:591-639 | a derived struct parse gives a value of the struct type |
| Parser.EnumSpec | rs-config-derive/src/lib.rs:523-589 | a derived enum parse gives a value of the enum type |
| Parser.VariantSpec | rs-config-derive/src/lib.rs:528-589 | runs after EnumSpec has consumed the variant's name; a success is a value of the enum type, and the cursor never moves back; ParseFacts.VariantReadsFields says what each variant shape reads |
| Parser.OrderedSpec | rs-config-derive/src/lib.rs:156-171 | a parenthesised, comma-separated field list gives values of the field types; what it reads is stated by ParseFacts.OrderedReadsFields and OrderedFieldFails |
| Parser.OrderedFields | rs-config-derive/src/lib.rs:158-168 | the fields read so far are kept as a prefix, and all values are well-typed |
| Parser.OrderedField | rs-config-derive/src/lib.rs:159-167 | reading one more field keeps the earlier ones as a prefix |
| Parser.NamedSpec | rs-config-derive/src/lib.rs:81-154 | a braced list of named fields gives values of the field types; ParseFacts.NamedReadsFields, NamedNeedsOpen, NamedKeyFails and NamedValueFinal say what it reads |
| Parser.KeySpec | rs-config-derive/src/lib.rs:117-150 | a key either names a field whose name prefixes the text, or fails with Final |
| Parser.NamedLoop | rs-config-derive/src/lib.rs:110-152 | the field holders stay well-typed through the loop; ParseFacts.NamedPairTurn and NamedCloses say what one turn does |
| Parser.AfterComma | rs-config-derive/src/lib.rs:139-141 | after a value, one `,` is consumed if it is there, and otherwise nothing |
| Parser.NamedValue | rs-config-derive/src/lib.rs:134-143 | reading a key's value keeps the holders well-typed |
| ParseFrom.ParseValue | src/lib.rs:172-174 | the imperative dispatch does exactly what ParseSpec says |
| ParseFrom.ParseOption | src/implementations/option.rs:26-47 | does exactly what OptionSpec says |
| ParseFrom.ParseSome | src/implementations/option.rs:35-41 | does exactly what SomeSpec says |
| ParseFrom.ParseVec | src/implementations/vec.rs:26-53 | does exactly what VecSpec says |
| ParseFrom.VecTurn | src/implementations/vec.rs:33-52 | one loop turn either finishes as VecLoop does, or continues with strictly less unread input |
| ParseFrom.VecSeparated | src/implementations/vec.rs:45-51 | a separator and element turn agrees with VecLoop |
| ParseFrom.VecElem | src/implementations/vec.rs:51 | an element turn agrees with VecElement |
| ParseFrom.ParseArray | src/implementations/array.rs:16-29 | does exactly what ArraySpec says |
| ParseFrom.ParseStruct | rs-config-derive/src/lib.rs:591-639 | does exactly what StructSpec says |
| ParseFrom.ParseEnum | rs-config-derive/src/lib.rs:523-589 | does exactly what EnumSpec says |
| ParseFrom.ParseVariant | rs-config-derive/src/lib.rs:528-589 | does exactly what VariantSpec says |
| ParseFrom.ParseOrdered | rs-config-derive/src/lib.rs:156-171 | does exactly what OrderedSpec says |
| ParseFrom.OrderedLoop | rs-config-derive/src/lib.rs:158-168 | does exactly what OrderedFields says |
| ParseFrom.OrderedStep | rs-config-derive/src/lib.rs:159-167 | one field step agrees with OrderedFields |
| ParseFrom.OrderedValue | rs-config-derive/src/lib.rs:165-167 | one field value agrees with OrderedField |
| ParseFrom.ParseNamed | rs-config-derive/src/lib.rs:81-154 | does exactly what NamedSpec says |
| ParseFrom.NewHolders | rs-config-derive/src/lib.rs:85-108 | fresh holders in the states InitStates gives |
| ParseFrom.NamedFieldLoop | rs-config-derive/src/lib.rs:110-152 | the loop over the holders ends as NamedLoop says |
| ParseFrom.NamedTurn | rs-config-derive/src/lib.rs:111-150 | one loop turn finishes as NamedLoop does, or continues with strictly less unread input |
| ParseFrom.ParseKey | rs-config-derive/src/lib.rs:117-150 | does exactly what KeySpec says |
| ParseFrom.NamedField | rs-config-derive/src/lib.rs:134-143 | reading a key's value and pushing it agrees with NamedValue |
| ParseFrom.SkipComma | rs-config-derive/src/lib.rs:139-141 | one optional `,` after a value is consumed |
| ParseFrom.PushInto | src/lib.rs:70-107 | only field j's holder changes, and as Push says |
| ParseFrom.ResolveAll | rs-config-derive/src/lib.rs:628-631 | the struct fields are ResolveFrom of the holders' states |
| ParseFacts.EnumTakesFirstMatch | rs-config-derive/src/lib.rs:528-534 | at end of input or with no matching variant the parse fails with Final and consumes nothing; a success is the first variant whose name prefixes the text |
| ParseFacts.UnknownKeyIsFinal | rs-config-derive/src/lib.rs:147-151 | a key that matches no field fails with Final at the key |
| ParseFacts.VariantReadsFields | rs-config-derive/src/lib.rs:527-586 | after the name, a unit variant is that variant with no fields and consumes nothing more; a tuple or struct variant is the ordered or named field parse, with its values given as that variant and its errors passed through |
| ParseFacts.ArrayIsCheckedVector | src/implementations/array.rs:16-29 | an array parse is the Vec parse followed by a length check: a wrong length is Recoverable after consuming the list |
| ParseFacts.AtEndEveryParseIsFinal | src/lib.rs:172-174 | at the end of the input the parse of any type is Final and consumes nothing |
| ParseFacts.OptionReadsNone | src/implementations/option.rs:29-33 | "None" at the cursor is read as the absent option and its four characters consumed, whatever follows |
| ParseFacts.OptionReadsSome | src/implementations/option.rs:35-41 | after "Some(" and the inner parse, a `)` gives Some of the inner value or the inner error after the `)`; without `)` the parse is Final where the inner parse stopped |
| ParseFacts.OptionNeedsKeyword | src/implementations/option.rs:26-47 | a text starting with neither "None" nor "Some" is Final where it starts; "Some" without `(` is Final after "Some" |
| ParseFacts.OptionReadsQuotedString | src/implementations/option.rs:26-47 | `Some("...")` holding the quoted form of any string is read as Some of that string, consuming exactly that text |
| ParseFacts.VecReadsElements | src/implementations/vec.rs:26-53 | `[`, elements each read as a value of the element type and separated by `,`, then `]` are read as the vector of those values in order, consuming the `]` |
| ParseFacts.VecElementFails | src/implementations/vec.rs:51 | an element whose parse fails after the elements read so far ends the vector parse with that element's error, where it stopped |
| ParseFacts.VecNeedsOpen | src/implementations/vec.rs:32 | a text that does not open with `[` is Final and consumes nothing |
| ParseFacts.VecNeedsComma | src/implementations/vec.rs:33-49 | after an element, neither `]` nor `,` (or the end of the input) makes the vector parse Final where that element ended |
| ParseFacts.FieldsReadExtend | rs-config-derive/src/lib.rs:158-168 | fields read one after the other, with a `,` between them, can be extended by one more field read at the next start |
| ParseFacts.OrderedReadsFields | rs-config-derive/src/lib.rs:156-171 | `(`, one value of each field type in order, separated by `,`, then `)` are read as exactly those values, consuming the `)` |
| ParseFacts.OrderedFieldFails | rs-config-derive/src/lib.rs:159-167 | a field whose parse fails after the fields read so far ends the tuple parse with that field's error, where it stopped |
| ParseFacts.PushPairs | src/lib.rs:70-107 | pushing key/value outcomes one after the other into their fields keeps every field's state well-typed |
| ParseFacts.FieldOutcomes | rs-config-derive/src/lib.rs:126-143 | the outcomes given for one field have that field's type; with no Final among them there is none among the field's; a field that no pair names has none |
| ParseFacts.PairsPushedPerField | src/lib.rs:70-107 | after the pairs, each field's state is push_found of the outcomes named for it, in order, whatever the other pairs are; a field no pair names keeps its initial state |
| ParseFacts.NamedPairTurn | rs-config-derive/src/lib.rs:126-143 | one pair whose key names field j: its outcome is pushed into field j and the loop goes on after the optional `,` |
| ParseFacts.NamedCloses | rs-config-derive/src/lib.rs:112-115 | `}` ends the field loop with the states unchanged, consuming the `}` |
| ParseFacts.NamedReadsFields | rs-config-derive/src/lib.rs:81-154 | `{`, then `name: value` pairs in any order (a name may repeat; a `,` may follow each value), then `}` give ResolveFrom of the states after pushing every outcome into its field, starting from the attribute defaults; the `}` is consumed |
| ParseFacts.NamedNeedsOpen | rs-config-derive/src/lib.rs:84 | a text that does not open with `{` is Final and consumes nothing |
| ParseFacts.NamedKeyFails | rs-config-derive/src/lib.rs:117-150 | after the pairs, a refused key ends the parse with Final where KeySpec stopped; input that runs out before `}` is Final where it ran out |
| ParseFacts.NamedValueFinal | rs-config-derive/src/lib.rs:137 | after the pairs, a value whose parse is Final ends the named parse with Final where that value stopped |
| ParseTests.SimpleCon1Steps | src/lib.rs:220-222 | "SimpleCon1" reads SimpleCon1 and consumes the line |
| ParseTests.SimpleCon2Steps | src/lib.rs:225-227 | "SimpleCon2asdf" reads SimpleCon2 and leaves "asdf" |
| ParseTests.SimpleCon3Steps | src/lib.rs:229-233 | "SimpleCon3" is refused with Final |
| ParseTests.SomeSteps | src/implementations/option.rs:86-88 | `Some("TestStr")` reads Some("TestStr") and consumes the line |
| ParseTests.NoneSteps | src/implementations/option.rs:90-92 | "None" reads None and consumes the line |
| ParseTests.VecSteps | src/implementations/vec.rs:82-84 | `[ '1', '2', '3' ]` reads the three chars and consumes the line |
| ParseTests.EmptyVecSteps | src/implementations/vec.rs:78-80 | "[]" reads the empty Vec |
| ParseTests.UnknownKeySteps | src/lib.rs:338-344 | an unknown key `k` makes the StructStruct parse fail with Final |
| ParseTests.StructSteps | src/lib.rs:329-336 | keys in the other order still fill s and c, and the line is consumed |
| ParseTests.StructResolved | src/lib.rs:329-336 | the two found fields resolve to the struct's values in declaration order |
| ParseTests.SimpleEnumParse | src/main.rs:644-662 | the provider-driven enum parse reads SimpleCon1 with nothing left, SimpleCon2 with "asdf" left, and refuses "SimpleCon3" |
| ParseTests.OptionParse | src/main.rs:582-593 | the provider-driven Option<String> parse reads Some("TestStr") and None, each leaving nothing |
| ParseTests.VecParse | src/main.rs:620-631 | the provider-driven Vec<char> parse reads [] and ['1', '2', '3'], each leaving nothing |
| ParseTests.StructParse | src/main.rs:755-762 | the provider-driven StructStruct parse of `{ c: 'C', s: "TestStr" }` gives s = "TestStr", c = 'C' and leaves nothing |
| ParseTests.UnknownKeyParse | src/main.rs:764-770 | the provider-driven StructStruct parse with key `k` fails with Final |
| DeriveTests.TupleStructSteps | src/lib.rs:309-316 | `( "TestStr1", 'C' )` reads TupleStruct("TestStr1", 'C') and consumes the line |
| DeriveTests.TupleStructParse | src/lib.rs:309-316 | the provider-driven TupleStruct parse gives ("TestStr1", 'C') and leaves nothing |
| DeriveTests.PlainUnclosed | src/literals.rs:90-136 | a string body without a quote, backslash or CR never closes the literal |
| DeriveTests.Con1Steps | src/lib.rs:252-254 | `TupleCon1 ( "TestStr")` reads TupleCon1("TestStr") and consumes the line |
| DeriveTests.Con2Steps | src/lib.rs:256-258 | `TupleCon2("TestStr") asdf` reads TupleCon2("TestStr") and leaves "asdf" |
| DeriveTests.NoVariantRefused | rs-config-derive/src/lib.rs:528-534 | a line that starts with no variant name is Final where it starts |
| DeriveTests.Con3Refused | src/lib.rs:260-264 | `TupleCon3("TestStr")` is refused by TupleEnum with Final, nothing consumed |
| DeriveTests.OpenlessRefused | src/lib.rs:266-270 | `TupleCon2"TestStr")` is refused by TupleEnum with Final just after the name |
| DeriveTests.UnclosedRefused | src/lib.rs:272-276 | `TupleCon2("TestStr)` is refused by TupleEnum with the String parse's Recoverable error at the open quote |
| DeriveTests.TupleEnumParse | src/lib.rs:248-277 | the provider-driven TupleEnum parse reads the first two lines, leaving nothing and "asdf", and refuses the other three |
| DeriveTests.SimpleEnumRefuses | src/lib.rs:260-275 | any line starting with `T` is refused by SimpleEnum with Final, nothing consumed |
| DeriveTests.RefusedBySimpleEnum | src/lib.rs:260-275 | the three refused lines, handed to SimpleEnum as the test does, each give Final |
| DeriveTests.VarSteps | src/lib.rs:291-298 | `Var2 { s: 'C', c: "TestStr" }` reads Var2 with c = "TestStr" and s = 'C', keys out of order, and consumes the line |
| DeriveTests.StructEnumParse | src/lib.rs:291-298 | the provider-driven StructEnum parse gives Var2{c: "TestStr", s: 'C'} and leaves nothing |

## Left out

- The diagnostics callback `fun`. The model keeps only the message text
  of `print_error` (`ErrorMessage`) and drops every other message.
- Input is treated as characters. The Rust code counts bytes in `consume`
  and in `str::len`. For ASCII input the two agree.
- `is_whitespace` is modelled as the full Unicode White_Space class.
  `is_alphabetic` is modelled for ASCII letters only; other Unicode
  letters are not.
- Panics (`unwrap`, out-of-range indexing, `panic!` in `char_lit` and
  `str_lit`) are modelled as the `Panics` outcome. The imperative methods
  require that their specification does not panic.
- `str::parse` for the integer types is modelled as an optional `+` (or
  `-` for i32), then decimal digits, then a range check. Other error
  details of the standard library are not modelled.
- The `HashSet` of names already described in `get_format` is a `set`.
  Its iteration order is modelled as field declaration order.
- `stringify!` spacing in derived format strings is not modelled.
- Type descriptors are finite trees. Recursive types through `Box` or
  similar are not modelled.
- `merge(&mut self, rhs)` is modelled on values. `Merge` returns the
  updated left value and whether the merge succeeded.
- `get_name` of `Option` and `Vec` is modelled as "Option<>" and "Vec<>"
  rather than with the element type.
- LogLevel has no `merge` in the source, so `Merge` requires
  `MergeDefined`, which excludes it.
- The `default` and `merge` attribute expressions are Rust code. They are
  modelled as given values and given functions.
- Scalars.TokenEnd: an integer token ends only at whitespace, as written.
  So "5," is refused, which the source itself marks as wrong.
- Schema.ArrayHeaderNamesItsType: stated for the sizes 4 and 6 only,
  because those are the only array impls.
- The `String` unit test (src/implementations/string.rs:55-66) has no
  worked instance. `Scalars.StringSpecReadsQuoted` covers every string.
- The TupleEnum parse test (src/lib.rs:260-275) hands its three
  refused lines to `SimpleEnum::parse_from`, not to `TupleEnum`. Both are
  modelled: `DeriveTests.RefusedBySimpleEnum` as written, and
  `DeriveTests.TupleEnumParse` with TupleEnum, which refuses them for the
  reasons the lines were written to show.
- src/main.rs is an older single-file copy of the scanner, `ParseTmp`
  and the String, char, i32, Option and Vec impls (it has no u32, u8,
  Ipv4Addr, LogLevel or array impl). Apart from their signatures these
  are the same as src/provider.rs, src/lib.rs and src/implementations,
  so one set of members models both copies; the table cites main.rs where its tests and lines are used.
  Its demo `main` (reading a file and printing) is I/O and is not
  modelled. Its struct-enum format test (src/main.rs:713-716) expects
  `Var1(s: String, c: char)`, the output of an older derive; the model
  follows the derive in this repository, which prints
  `Var1{s: String, c: char}` as src/lib.rs:286-289 expects.
- src/parsetmp.rs is the same `ParseTmp` as src/lib.rs:26-138, kept in a
  file that no module declaration includes. One set of members models
  both; the table cites parsetmp.rs for its tests and some of its lines.
- The procedural-macro plumbing (attribute lookup, token building) and the
  `mod.rs` wiring are not modelled.

## Findings

| source | as written | input that shows it | evidently intended | confidence | as-written member | corrected member |
|---|---|---|---|---|---|---|
| src/implementations/array.rs:41-44 | the `[T;6]` format header is "[T;4]: [T, T, T, T, T, T]" | `<[T;6]>::get_format_str()` | "[T;6]: [T, T, T, T, T, T]" | high, not executed | Schema.ArrayHeaderAsWrittenMislabels | Schema.ArrayHeaderNamesItsType |
| src/implementations/log.rs:14,27-33 | the format lists `Error`, but the parse has no `Error` arm | the text "Error" gives Recoverable | "Error" parses to LogLevel::Error | high, not executed | Scalars.ErrorWordRefused | Scalars.LevelRoundTrip |

`Header` and `LevelSpec`, and so every format and parse built on them,
follow the code as written. The corrected definitions (`ArrayHeader`,
`ParseLevel`) stand beside them with the intended property proved.

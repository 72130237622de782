# crush runtime core in Dafny

A model of five pieces of the crush shell's language runtime, with proofs of
what each piece promises:

- **Token classification** (`src/lexer.rs`). The rule table `LEX_DATA` is an
  ordered list of token kinds, each with its own pattern. The model writes each
  pattern as a function giving the length of the prefix it matches, and the
  ignored set `IGNORED` is a constant.
  - `Lexer` is a class with a cursor `pos`. Its `LongestMatch` tries every rule
    at the cursor and keeps the first of the longest matches. `Pop` skips raw
    tokens of an ignored kind and returns EOF at the end.
  - `Tokens` is the tests' driver: it pops until EOF or Error.
  - Every test scenario of the file is a lemma about the tokens that driver
    collects.
- **Binary operator dispatch** (`src/lib/binary_op.rs`). `binary_op!` becomes one
  generic function over an ordered table of arms: exactly one argument, then a
  receiver of the declared type, then the first arm accepting the argument's
  variant, else "Expected only arguments of the same type". `example!` is the
  help-text prefix.
- **Durations** (`src/lib/types/duration.rs`). A duration is a signed number of
  nanoseconds and a time an instant. The model covers the arm tables of
  `add`/`sub`/`mul`/`div` (with the `as i32` cut of the factor), `neg`,
  `to_duration`, `new`, and the `METHODS` registry.
- **JSON codec** (`src/lib/io/json.rs`).
  - `from_json` decodes a document into a value. Arrays are unified into Empty,
    a Table, a typed List or an Any list.
  - `to_json` is the lossy encoder:
    - integers are range-checked against i64;
    - durations become whole seconds;
    - structs emit only their local fields, through a loop of map inserts.
  - A round trip is proved for every value that has a JSON form of its own.
- **String methods** (`src/lib/string/mod.rs`). The model covers the
  `STRING_METHODS` registry and `upper`, `lower`, `split` and `trim` on the
  receiver's text.
  - `split` is proved to invert `join`, to count its pieces, and to leave the
    separator out of every piece.
  - `trim` is proved maximal and idempotent.

Files: `wrappers.dfy` (Option, Result), `values.dfy` (the value union, type tags,
struct/row shapes, errors, integer widths), `lexing.dfy`, `binary_op.dfy`,
`duration.dfy`, `json.dfy`, `string_methods.dfy`.

**How the lexer picks a rule.** The lexer's matching engine lives in
`src/base_lexer.rs`, which is not part of this model. Its policy is taken from
what the tests in `src/lexer.rs` require:
- the longest match wins;
- a tie goes to the rule declared first;
- a raw token of an ignored kind is skipped.

Some rule always matches a non-empty prefix: a newline is whitespace and any
other character is at least an Error (`SomeRuleMatches`). So the "no rule
matched" case of the engine never arises.

**How the tests are stated.** Each test scenario is a lemma over a string whose
length and characters are given one by one. That string is exactly the test's
literal.

## Model

| member | source | states |
|---|---|---|
| `Lexing.Lexer.constructor` | src/lexer.rs:45-56 | A new lexer reads the given input from position 0, with the LEX_DATA rules, Error and EOF sentinels and the IGNORED set fixed as class constants |
| `Lexing.Lexer.LongestMatch` | src/lexer.rs:67-103 | The rule loop returns the kind and length of the first longest match at the cursor, which is non-empty and inside the input |
| `Lexing.Lexer.Pop` | src/lexer.rs:58-65 | Pop returns the next token that is not Whitespace or Comment, and leaves the cursor after it. At the end of the input it returns EOF and leaves the cursor put |
| `Lexing.Lexer.Advance` | src/lexer.rs:58-65 | One round of pop consumes the raw token at the cursor and moves the cursor forward. When the token's kind is not ignored, it is the token popped and the cursor ends after it. When it is ignored, the next token popped is unchanged |
| `Lexing.Tokens` | src/lexer.rs:109-119 | The test driver's loop collects exactly the kinds popped up to and including the first EOF or Error |
| `Lexing.Next` | src/lexer.rs:58-65 | A pop never yields an ignored kind. It yields EOF exactly at the end of the input, and otherwise a token whose span ends where the cursor stops |
| `Lexing.Scan` | src/lexer.rs:67-103 | The raw token at any position has a non-empty match and is never EOF |
| `Lexing.SomeRuleMatches` | src/lexer.rs:99-101 | Some rule matches a non-empty prefix at every position: a newline is whitespace, and any other character matches at least the Error rule |
| `Lexing.BestIsLongest` | src/lexer.rs:67-103 | The selected rule matches at least as long as every rule, and strictly longer than every rule declared before it |
| `Lexing.FirstLongestIsBest` | src/lexer.rs:67-103 | The first rule of maximal length is the rule the selection picks, with that length |
| `Lexing.BestCovers` | src/lexer.rs:67-103 | No rule matches longer than the selected one |
| `Lexing.BestIsARule` | src/lexer.rs:67-103 | The selected kind is one of the table's rules |
| `Lexing.Run` | src/lexer.rs:83 | A character-class run is maximal: every character in it belongs to the class, and the one after it does not |
| `Lexing.EscapedRun` | src/lexer.rs:100 | A run of unescaped characters or backslash escapes stops only at the closing character or at a dangling backslash |
| `Lexing.NextAt` | src/lexer.rs:58-65 | A raw token of an ignored kind is skipped, and a raw token of any other kind is the token popped |
| `Lexing.ScanLetters` | src/lexer.rs:96-97 | A word of letters is one String: String and Glob tie in length, and the earlier String wins |
| `Lexing.ScanPunctuation` | src/lexer.rs:69-92 | `;`, the pipe character, `}`, `[` and `]` are one-character Separator, Pipe, ModeEnd, SubscriptStart and SubscriptEnd tokens |
| `Lexing.ScanEquals` | src/lexer.rs:72-80 | `==` is Equal and `=~` is Match, beating the shorter Assign. A lone `=` is Assign |
| `Lexing.ScanLess` | src/lexer.rs:74-75 | `<=` is LessThanOrEqual, beating LessThan. A lone `<` is LessThan |
| `Lexing.ScanGreater` | src/lexer.rs:76-77 | `>=` is GreaterThanOrEqual, beating GreaterThan. A lone `>` is GreaterThan |
| `Lexing.ScanBang` | src/lexer.rs:78-81 | `!=` is NotEqual and `!~` is NotMatch. A lone `!` is an Error |
| `Lexing.ScanDigits` | src/lexer.rs:83 | A run of digits is one Integer of the run's full length |
| `Lexing.ScanSigil` | src/lexer.rs:85-86 | `$` or `%` followed by a name (dots allowed after the first character) is one Variable or Field token of the whole length |
| `Lexing.ScanBareSigil` | src/lexer.rs:85-101 | `$` or `%` not followed by a name start is a one-character Error |
| `Lexing.ScanComment` | src/lexer.rs:98 | `#` starts a Comment running to the end of the line |
| `Lexing.ScanSpace` | src/lexer.rs:99 | A run of whitespace is one Whitespace token of the run's length |
| `Lexing.ScanQuote` | src/lexer.rs:100-101 | A closed double-quoted string with backslash escapes is one QuotedString. An unclosed quote is a one-character Error |
| `Lexing.ScanBackquote` | src/lexer.rs:88 | A backquote followed by a brace is one two-character ModeStart. A backquote otherwise is an Error |
| `Lexing.ScanRegex` | src/lexer.rs:94 | A complete `r{...}` literal is one Regex token, beating the shorter ModeStart match of `r{` |
| `Lexing.ScanGlob` | src/lexer.rs:96-97 | A pattern holding a `*` or `?` is one Glob, which matches longer than String |
| `Lexing.ScanStray` | src/lexer.rs:101 | A character that only the fallback rule accepts is a one-character Error |
| `Lexing.KindsStep` | src/lexer.rs:109-119 | After a visible, non-Error token (and the whitespace after it), the driver goes on collecting from where that token and whitespace end |
| `Lexing.KindsAtEnd` | src/lexer.rs:109-119 | At the end of the input the driver collects just EOF |
| `Lexing.KindsStopsAtError` | src/lexer.rs:114-116 | The driver stops at the first Error token |
| `Lexing.KindsShape` | src/lexer.rs:109-119 | What the driver collects is never empty and holds no ignored kind. It ends in EOF or Error, and neither occurs before the end |
| `Lexing.KindsEnd` | src/lexer.rs:114-116 | The last kind collected is EOF or Error |
| `Lexing.KindsVisible` | src/lexer.rs:58-65 | No collected kind is Whitespace or Comment |
| `Lexing.KindsStopAtEnd` | src/lexer.rs:114-116 | Neither EOF nor Error occurs before the last collected kind |
| `Lexing.CollectWord` | src/lexer.rs:96 | A word is collected as a String, and collection resumes after it |
| `Lexing.CollectPunctuation` | src/lexer.rs:69-92 | A punctuation character is collected as its own kind |
| `Lexing.CollectOperator` | src/lexer.rs:72-81 | An operator is collected as the kind its longest match names |
| `Lexing.ScanOperator` | src/lexer.rs:72-81 | At `=`, `<`, `>` and `!` the rules pick the one- or two-character operator by longest match |
| `Lexing.CollectDigits` | src/lexer.rs:83 | A run of digits is collected as one Integer |
| `Lexing.CollectSigil` | src/lexer.rs:85-86 | A sigil and its name are collected as one Variable or Field |
| `Lexing.CollectGlob` | src/lexer.rs:97 | A wildcard pattern is collected as one Glob |
| `Lexing.CollectQuoted` | src/lexer.rs:100 | A quoted string is collected as one QuotedString |
| `Lexing.CollectRegex` | src/lexer.rs:94 | A regex literal is collected as one Regex |
| `Lexing.CollectModeStart` | src/lexer.rs:88 | A backquote and brace are collected as one ModeStart |
| `Lexing.SkipWhitespace` | src/lexer.rs:58-65 | Whitespace adds nothing to what is collected |
| `Lexing.SkipComment` | src/lexer.rs:58-65 | A comment adds nothing to what is collected |
| `Lexing.CollectStray` | src/lexer.rs:101 | A stray character ends collection with Error |
| `Lexing.CollectStep` | src/lexer.rs:109-119 | Each recognised lexeme contributes its kind, or nothing when ignored, and collection resumes after it |
| `Lexing.CollectAll` | src/lexer.rs:109-119 | A spelled-out decomposition of the input into lexemes gives exactly the kinds the driver collects |
| `Lexing.Blocks` | src/lexer.rs:121-128 | "echo `{foo}" gives String, ModeStart, String, ModeEnd, EOF |
| `Lexing.Globs` | src/lexer.rs:130-136 | "echo foo.* abc??def" gives String, Glob, Glob, EOF |
| `Lexing.List` | src/lexer.rs:138-144 | "[a]" gives SubscriptStart, String, SubscriptEnd, EOF |
| `Lexing.Separators` | src/lexer.rs:146-152 | "a", a pipe sign, then "b;c" gives String, Pipe, String, Separator, String, EOF |
| `Lexing.Comments` | src/lexer.rs:154-160 | "a # this is a comment" gives String, EOF |
| `Lexing.Numbers` | src/lexer.rs:162-168 | "b 2 d" gives String, Integer, String, EOF |
| `Lexing.QuotedStrings` | src/lexer.rs:170-177 | The three quoted strings with escapes give three QuotedString tokens, then EOF |
| `Lexing.Assignments` | src/lexer.rs:179-188 | "foo=bar baz = 7" gives String, Assign, String, String, Assign, Integer, EOF |
| `Lexing.ComparisonOperators` | src/lexer.rs:190-197 | "== >= > < <= !=" gives Equal, GreaterThanOrEqual, GreaterThan, LessThan, LessThanOrEqual, NotEqual, EOF |
| `Lexing.VariablesAndFields` | src/lexer.rs:199-205 | "$foo %bar $foo.bar %baz.qux" gives Variable, Field, Variable, Field, EOF |
| `Lexing.Regexes` | src/lexer.rs:207-213 | The two regex literals give Regex, Regex, EOF |
| `Lexing.StrayCharacter` | src/lexer.rs:101 | "a @ b" gives String, then Error, and the driver stops there |
| `BinaryOp.Dispatch` | src/lib/binary_op.rs:1-12 | There are four outcomes. (1) Not exactly one argument: a wrong-count error. (2) Receiver of the wrong type: a receiver error. (3) No arm accepts the argument's variant: the same-type argument error; this is an if-and-only-if. (4) Otherwise: success. When every arm's operation yields its declared output variant, a success has the output variant of the first arm that accepts the argument |
| `BinaryOp.FirstArm` | src/lib/binary_op.rs:6-8 | The arm chosen accepts the argument's variant and no earlier arm does. None means no arm does |
| `BinaryOp.DispatchUsesFirstArm` | src/lib/binary_op.rs:6-7 | When arm k is the first to accept the argument, the result is that arm's operation on the receiver and argument |
| `BinaryOp.FirstArmOfPrefix` | src/lib/binary_op.rs:6-7 | Appending arms never changes which arm a matching argument selects: earlier arms win |
| `BinaryOp.Example` | src/lib/binary_op.rs:14-18 | The example text is Some of the fixed "Example:" prefix followed by the given text |
| `Durations.ArmsWellTyped` | src/lib/types/duration.rs:55-67 | Every arm of add, sub, mul and div yields a value of the output variant it declares: Duration, or Time for a time argument |
| `Durations.Add` | src/lib/types/duration.rs:55-64 | A duration argument gives the sum, a time argument gives the time shifted by the receiver, and anything else gives the same-type argument error. Arity and receiver errors come first |
| `Durations.Sub` | src/lib/types/duration.rs:65 | Only a duration argument is accepted, and the result is receiver minus argument |
| `Durations.Mul` | src/lib/types/duration.rs:66 | Only an integer argument is accepted. It is cut to 32 bits and then multiplies the duration |
| `Durations.Div` | src/lib/types/duration.rs:67 | Only an integer argument is accepted. It is cut to 32 bits and then divides the duration, truncating toward zero |
| `Values.AsI32` | src/lib/types/duration.rs:66-67 | `as i32` yields a 32-bit signed value congruent to its input modulo 2^32, and leaves values already in range unchanged |
| `Durations.Neg` | src/lib/types/duration.rs:122-127 | With any argument it is a wrong-count error, and with a non-duration receiver a receiver error. A success is always a duration that sums with the receiver to zero |
| `Durations.NegNeg` | src/lib/types/duration.rs:122-127 | Negating twice gives back the original duration |
| `Durations.ToDuration` | src/lib/types/duration.rs:70-82 | The conversion fails exactly for an unknown unit name, with "Invalid duration" |
| `Durations.UnitNanos` | src/lib/types/duration.rs:71-79 | Every known unit is a positive number of nanoseconds |
| `Durations.PluralIsSingular` | src/lib/types/duration.rs:71-79 | The plural name of every unit is known and converts exactly as the singular does |
| `Durations.UnitRatios` | src/lib/types/duration.rs:76-79 | A minute is 60 seconds, an hour 60 minutes, a day 24 hours and a year 365 days |
| `Durations.New` | src/lib/types/duration.rs:109-120 | new yields a duration within chrono's range: the nanoseconds, plus 1000 per microsecond, 10^6 per millisecond, 10^9 per second, 60 s per minute, 3600 s per hour and 86400 s per day |
| `Durations.NewWithNoArguments` | src/lib/types/duration.rs:84-107 | With every component at its default of 0, new gives the zero duration |
| `Durations.NewAgreesWithToDuration` | src/lib/types/duration.rs:112-118 | new with a single non-zero component gives what to_duration gives for that component's unit |
| `Durations.NewIsSumOfConversions` | src/lib/types/duration.rs:112-118 | For every choice of components, new is the sum of what to_duration gives for each component in its own unit |
| `Durations.FullPath` | src/lib/types/duration.rs:14-16 | A method's path is global, types, duration and then its name |
| `Durations.Lookup` | src/lib/types/duration.rs:18-53 | A registry lookup finds a declared method of that name, or reports that none has it |
| `Durations.MethodNamesDistinct` | src/lib/types/duration.rs:18-53 | The registry declares six methods under distinct names |
| `Durations.MethodsDeclared` | src/lib/types/duration.rs:18-53 | Every declared method is found under its name, sits under global/types/duration, and cannot block |
| `Durations.DeclaredOutputsHold` | src/lib/types/duration.rs:28-50 | Every method declared with a known output type declares Duration, and sub, mul, div and neg indeed return a duration |
| `JsonCodec.FromJson` | src/lib/io/json.rs:19-84 | A float-form number fails exactly when it has no f64 value. An array decodes to Empty exactly when it is empty. An object decodes to a parentless struct with one field per member |
| `JsonCodec.DecodeScalars` | src/lib/io/json.rs:21-34 | Null is Empty, a bool is Bool and a string is String. An integer keeps its value as Integer. Another number is a Float, or "Not a valid number" when it has no f64 value |
| `JsonCodec.FromJsonAll` | src/lib/io/json.rs:36-39 | All elements decode, in order, or the error is that of the first element that fails |
| `JsonCodec.FromJsonMembers` | src/lib/io/json.rs:73-82 | Each member decodes to a field of the same name, in order. Otherwise the error is that of the first member that fails |
| `JsonCodec.ToRows` | src/lib/io/json.rs:55-61 | The rows are the elements' field values in order, and this succeeds exactly when every element is a struct |
| `JsonCodec.Unify` | src/lib/io/json.rs:40-71 | Unification succeeds, and gives Empty exactly for the empty list |
| `JsonCodec.DecodeArray` | src/lib/io/json.rs:35-71 | An array whose elements decode decodes to the unification of the decoded elements |
| `JsonCodec.DecodeArrayFailure` | src/lib/io/json.rs:36-39 | An array fails with the error of its first failing element |
| `JsonCodec.DecodeEmptyArray` | src/lib/io/json.rs:49-50 | The empty array decodes to Empty, not to an empty list |
| `JsonCodec.TypesEmpty` | src/lib/io/json.rs:40-50 | The set of element types is empty exactly for the empty list |
| `JsonCodec.OneType` | src/lib/io/json.rs:40-52 | Elements of one type give the one-element type set |
| `JsonCodec.OneSignature` | src/lib/io/json.rs:41-47 | Structs sharing one local signature give the one-element signature set |
| `JsonCodec.UnifyTable` | src/lib/io/json.rs:53-65 | Structs that all share one local signature become a Table: its columns are that signature, with one row per struct in order |
| `JsonCodec.UnifyList` | src/lib/io/json.rs:52-67 | Elements of one type become a List of that type in order, unless they are structs sharing one signature. In particular, structs with several signatures give a List typed Struct |
| `JsonCodec.UnifyAny` | src/lib/io/json.rs:70 | Elements of two or more types become a List typed Any, in the original order |
| `JsonCodec.ExampleTable` | src/lib/io/json.rs:53-65 | Two objects with the same single integer key decode to a one-column integer Table of two rows |
| `JsonCodec.ExampleStructList` | src/lib/io/json.rs:67 | Two objects with different keys decode to a List typed Struct |
| `JsonCodec.ExampleLists` | src/lib/io/json.rs:49-70 | Mixed integers and strings decode to an Any list, and integers alone to an Integer list |
| `JsonCodec.ToJson` | src/lib/io/json.rs:86-139 | Whatever the encoder produces is a document serde can hold: integers in the i64 or u64 range, and no key twice in an object |
| `JsonCodec.ToJsonAll` | src/lib/io/json.rs:97-102 | A list encodes element by element, in order |
| `JsonCodec.EncodeRow` | src/lib/io/json.rs:108-110 | One row, made a struct with `into_struct`, encodes to a well-formed object whose members are the struct's field encoding |
| `JsonCodec.EncodeRows` | src/lib/io/json.rs:104-113 | A table's rows encode one by one: each becomes the object of the struct `into_struct` makes of it |
| `JsonCodec.EncodeFields` | src/lib/io/json.rs:119-125 | The field-by-field inserts keep the object free of duplicate keys and its values well formed |
| `JsonCodec.EncodeStruct` | src/lib/io/json.rs:119-125 | The for-loop that inserts each local field into a map computes exactly the struct arm of the encoder |
| `JsonCodec.Insert` | src/lib/io/json.rs:122 | After a map insert, the key maps to the inserted value. A new key is appended at the end and the object grows by one. An existing key keeps its place and every other member is unchanged |
| `JsonCodec.InsertReplaces` | src/lib/io/json.rs:122 | Inserting an existing key replaces its value in place and otherwise changes nothing. Distinct keys and well-formed values are kept |
| `JsonCodec.NumSeconds` | src/lib/io/json.rs:127 | A duration's whole seconds are rounded toward zero |
| `JsonCodec.EncodeInteger` | src/lib/io/json.rs:95 | An integer encodes exactly when it fits in i64, and then as the same number |
| `JsonCodec.ExampleIntegerRange` | src/lib/io/json.rs:95 | 2^63 does not encode, and i64::MAX encodes as itself |
| `JsonCodec.EncodeList` | src/lib/io/json.rs:97-102 | A list encodes to an array of the same length whose items are the elements' encodings |
| `JsonCodec.EncodeTable` | src/lib/io/json.rs:104-113 | A table encodes to one object per row: the encoding of the struct that `into_struct` makes of the row |
| `JsonCodec.EncodeRowAsStruct` | src/lib/io/json.rs:109-110 | Each encoded row is the encoding of its `into_struct` struct |
| `JsonCodec.EncodeStructLocalOnly` | src/lib/io/json.rs:119-125 | A struct's parent makes no difference to its encoding: only local fields are emitted |
| `JsonCodec.EncodeDuration` | src/lib/io/json.rs:127 | 1.5 s encodes as 1, -1.5 s as -1 and 999999999 ns as 0 |
| `JsonCodec.EncodeUnsupported` | src/lib/io/json.rs:131-137 | Streams never reach the encoder, and Empty, Glob, Regex and Command fail with "Unsupported data type" |
| `JsonCodec.RoundTrip` | src/lib/io/json.rs:19-139 | Every plain value encodes, and decoding the encoding gives the value back. Plain means: a bool, a string, an i64 integer, a non-empty list whose elements all have its declared (non-struct) type, or a parentless struct with distinct field names |
| `JsonCodec.RoundTripList` | src/lib/io/json.rs:97-102 | The list case of the round trip |
| `JsonCodec.RoundTripStruct` | src/lib/io/json.rs:119-125 | The struct case of the round trip: fields come back in order under their names |
| `Values.LocalSignature` | src/lib/io/json.rs:44 | A struct's local signature is one column per local field, with its name and its value's type |
| `Values.ToRow` | src/lib/io/json.rs:58 | A struct's row is its local field values in order |
| `Values.IntoStruct` | src/lib/io/json.rs:109 | A row becomes a parentless struct pairing column names with cells, as far as both reach |
| `StringMethods.RegistryKeys` | src/lib/string/mod.rs:11-21 | The registry holds exactly upper, lower, split, trim and format, each naming its own method |
| `StringMethods.Text` | src/lib/string/mod.rs:25 | The receiver's text, or a receiver error when it is not a string |
| `StringMethods.UpperChar` | src/lib/string/mod.rs:23-28 | An ASCII lowercase letter becomes its uppercase letter, and every other character is unchanged |
| `StringMethods.LowerChar` | src/lib/string/mod.rs:30-35 | An ASCII uppercase letter becomes its lowercase letter, and every other character is unchanged |
| `StringMethods.ToUpper` | src/lib/string/mod.rs:23-28 | Upper-casing maps each character in place and keeps the length |
| `StringMethods.ToLower` | src/lib/string/mod.rs:30-35 | Lower-casing maps each character in place and keeps the length |
| `StringMethods.CaseMapping` | src/lib/string/mod.rs:23-35 | upper leaves no lowercase letter and lower no uppercase letter, and neither changes a character it does not map |
| `StringMethods.CaseRoundTrips` | src/lib/string/mod.rs:23-35 | Each case mapping is idempotent, and each absorbs the other when applied after it |
| `StringMethods.Upper` | src/lib/string/mod.rs:23-28 | upper fails exactly on a receiver that is not text. Otherwise it returns the text with each character upper-cased |
| `StringMethods.Lower` | src/lib/string/mod.rs:30-35 | lower fails exactly on a receiver that is not text. Otherwise it returns the text with each character lower-cased |
| `StringMethods.TrimStart` | src/lib/string/mod.rs:46-50 | The first non-whitespace position: only whitespace comes before it |
| `StringMethods.TrimEnd` | src/lib/string/mod.rs:46-50 | The end of the last non-whitespace character: only whitespace comes after it |
| `StringMethods.TrimIsMaximal` | src/lib/string/mod.rs:46-50 | The trimmed text is a contiguous slice with only whitespace cut from either side, and it neither starts nor ends with whitespace |
| `StringMethods.TrimIdempotent` | src/lib/string/mod.rs:46-50 | Trimming twice is trimming once |
| `StringMethods.TrimValue` | src/lib/string/mod.rs:46-50 | trim fails exactly on a receiver that is not text. Otherwise it returns a text no longer than the receiver |
| `StringMethods.Find` | src/lib/string/mod.rs:41 | The first occurrence of the separator, or None when it occurs nowhere |
| `StringMethods.Split` | src/lib/string/mod.rs:41 | A split always has at least one piece |
| `StringMethods.SplitChars` | src/lib/string/mod.rs:41 | Splitting on the empty separator gives an empty piece, then each character, then an empty piece |
| `StringMethods.SplitOnAt` | src/lib/string/mod.rs:41 | The first piece ends at the first occurrence of the separator, and splitting resumes after it |
| `StringMethods.SplitJoin` | src/lib/string/mod.rs:41 | Joining the pieces with the separator gives back the receiver text |
| `StringMethods.JoinOn` | src/lib/string/mod.rs:41 | With a non-empty separator, joining the pieces gives back the text |
| `StringMethods.JoinChars` | src/lib/string/mod.rs:41 | With the empty separator, joining the pieces gives back the text |
| `StringMethods.SplitPiecesAvoidSeparator` | src/lib/string/mod.rs:41 | No piece contains the separator |
| `StringMethods.SplitCount` | src/lib/string/mod.rs:41 | There is one piece more than there are non-overlapping occurrences of the separator |
| `StringMethods.StringArgument` | src/lib/string/mod.rs:39 | Argument 0 as text, or an argument error when it is missing or not a string |
| `StringMethods.SplitValue` | src/lib/string/mod.rs:37-44 | split succeeds exactly when the receiver and argument 0 are both text. It fails with the receiver error on a receiver that is not text, and with the argument error on argument 0 that is not text. On success it is a List typed String whose elements are the pieces, as strings, in order |

## Left out

- `src/base_lexer.rs` is not part of this model. The selection policy and the skipping of ignored kinds are stated as the tests require them. So is the EOF token's span at the end of the input.
- The regex engine: each LEX_DATA pattern is a hand-written prefix-length function. `\s` covers the ASCII whitespace characters only. The Comment rule's `(?m)` multi-line anchors are read as "`#` up to the end of the line".
- `Lexing.Lexer.Pop`, `Lexing.Tokens`: the pop returns the token's kind and span; the test driver reads only the kind.
- `StringMethods.Upper`: maps ASCII letters only. Rust's `to_uppercase` maps all of Unicode and can lengthen the text.
- `StringMethods.Lower`: maps ASCII letters only. Rust's `to_lowercase` maps all of Unicode.
- `StringMethods.TrimValue`: its own contract states only success and length. What the trimmed text is, is stated about `Trim` by `TrimIsMaximal` and `TrimIdempotent`. The whitespace set is Unicode's White_Space, as Rust's `trim` uses.
- `StringMethods.Split`: its own contract states only that there is at least one piece. What the pieces are is stated by `SplitChars`, `SplitOnAt`, `SplitJoin`, `SplitPiecesAvoidSeparator` and `SplitCount`.
- `format::format` (the registry's "format" entry) is not part of this model, and neither is `string::declare`, which is namespace plumbing.
- `Durations.Div`: divides the nanosecond count, rounding toward zero. chrono divides seconds and nanoseconds separately, and for a negative duration its result can differ from that by one nanosecond.
- `Durations.Add`, `Durations.Sub`, `Durations.Mul`, `Durations.Div`, `Durations.ToDuration`, `Durations.New`:
  - chrono panics on overflow and on a zero divisor;
  - the i64 multiplications of `to_duration` overflow;
  - both are preconditions here, not modelled panics.
- `Durations.New`: argument parsing by the `signature` macro (names, defaults, type errors) is not modelled. The seven components arrive as a record, with defaults 0.
- The help texts and signature strings of `METHODS` are not modelled. Neither is `lazy_static`'s one-time initialisation: registries are constants.
- Output channels: `context.output.send(v)` is the returned `Success(v)`.
- Float values are opaque bit patterns with no arithmetic. A float encodes to a JSON number, or to null when it is not finite, as serde does. `src/lib/types/float.rs` is not part of this model.
- `Time::to_rfc3339` is a function parameter of the encoder, not modelled formatting.
- JSON text parsing and printing, and the `from`, `to` and `declare` commands, are file and namespace I/O. A JSON number arrives already classified: an integer in the i64 or u64 range, or a float-form number with its f64 value if it has one.
- `JsonCodec.FromJson`, `JsonCodec.ToJson`: object members keep document and insertion order, as serde_json does with its `preserve_order` feature. With serde_json's default map, keys come out sorted, which the model does not capture. The crate's feature set is not part of this model.
- `Value::materialize` is not part of this model. The source materializes streams before encoding, so a stream encodes as its collected list or table. The model leaves `materialize` out and excludes streams by the encoder's precondition instead.
- `Durations.Add`: the DateTime range is not modelled, so the Time arm never fails. A time is an unbounded nanosecond count here, while chrono's `DateTime + Duration` panics outside its range.

/**
 * Token classification of crush scripts (src/lexer.rs).
 *
 * Every rule of the lexer's table is a regular expression anchored at the
 * current position. Here each one is a hand-written function giving the
 * length of the prefix it matches (0 when it does not match). All patterns
 * but the fallback are over ASCII, and each function returns what the regex
 * engine returns: every pattern is deterministic enough that its greedy
 * reading is also the backtracking engine's leftmost-first match.
 */
module Lexing {

  datatype TokenType =
    | Pipe | Integer | String | Glob | ModeStart | ModeEnd | SubscriptStart | SubscriptEnd
    | Comment | Whitespace | QuotedString | Assign | Equal | NotEqual | GreaterThan | LessThan
    | GreaterThanOrEqual | LessThanOrEqual | Separator | Error | Match | NotMatch
    | Variable | Field | Regex | EOF

  /** A classified lexeme: its kind and the half-open span [start, end) of the input it covers. */
  datatype Token = Token(kind: TokenType, start: nat, end: nat)

  /** IGNORED: the kinds the consumer never sees. */
  const Ignored: set<TokenType> := {Whitespace, Comment}

  /** LEX_DATA: the kinds of the rule table, in declaration order; MatchLen is each one's pattern. */
  const Rules: seq<TokenType> := [
    Separator, Pipe,
    Assign, Equal, LessThan, LessThanOrEqual, GreaterThan, GreaterThanOrEqual, NotEqual,
    Match, NotMatch,
    Integer,
    Variable, Field,
    ModeStart, ModeEnd,
    SubscriptStart, SubscriptEnd,
    Regex,
    String, Glob, Comment, Whitespace, QuotedString, Error
  ]

  // ---------------------------------------------------------------------------
  // Character classes of the patterns

  datatype CharClass =
    | Digit        // [0-9]
    | Lower        // [a-z]
    | IdentStart   // [a-zA-Z_]
    | IdentCont    // [\.a-zA-Z_0-9]
    | StringStart  // [/._a-zA-Z]
    | StringCont   // [/.:_a-z-A-Z0-9]   (the '-' is a literal member)
    | GlobStart    // [/._a-zA-Z*.?]
    | GlobCont     // [/_a-z-A-Z0-9*.?]  (the '-' is a literal member)
    | Space        // \s restricted to ASCII: tab, newline, vertical tab, form feed, return, space
    | NotNewline   // .  (any character but a newline)

  predicate IsLetter(c: char) {
    'a' <= c <= 'z' || 'A' <= c <= 'Z'
  }

  predicate IsDigit(c: char) {
    '0' <= c <= '9'
  }

  predicate IsSpace(c: char) {
    9 <= c as int <= 13 || c == ' '
  }

  predicate InClass(cls: CharClass, c: char) {
    match cls
    case Digit => IsDigit(c)
    case Lower => 'a' <= c <= 'z'
    case IdentStart => IsLetter(c) || c == '_'
    case IdentCont => c == '.' || IsLetter(c) || c == '_' || IsDigit(c)
    case StringStart => c == '/' || c == '.' || c == '_' || IsLetter(c)
    case StringCont => c == '/' || c == '.' || c == ':' || c == '_' || c == '-' || IsLetter(c) || IsDigit(c)
    case GlobStart => c == '/' || c == '.' || c == '_' || IsLetter(c) || c == '*' || c == '?'
    case GlobCont => c == '/' || c == '_' || c == '-' || IsLetter(c) || IsDigit(c) || c == '*' || c == '.' || c == '?'
    case Space => IsSpace(c)
    case NotNewline => c != '\n'
  }

  /** The longest run of characters of class `cls` starting at `i` (the greedy `cls*`). */
  function Run(s: string, i: nat, cls: CharClass): (n: nat)
    requires i <= |s|
    ensures i + n <= |s|
    ensures forall k | i <= k < i + n :: InClass(cls, s[k])
    ensures i + n < |s| ==> !InClass(cls, s[i + n])
    decreases |s| - i
  {
    if i < |s| && InClass(cls, s[i]) then 1 + Run(s, i + 1, cls) else 0
  }

  /**
   * The greedy `([^\\stop]|\\.)*` from `i`: plain characters other than a
   * backslash and `stop`, or a backslash followed by any non-newline character.
   * It stops at the end of the input, at `stop`, or at a backslash that
   * escapes nothing.
   */
  function EscapedRun(s: string, i: nat, stop: char): (n: nat)
    requires i <= |s|
    ensures i + n <= |s|
    ensures i + n < |s| ==> s[i + n] == stop || s[i + n] == '\\'
    decreases |s| - i
  {
    if i == |s| || s[i] == stop then 0
    else if s[i] == '\\' then
      if i + 1 < |s| && s[i + 1] != '\n' then 2 + EscapedRun(s, i + 2, stop) else 0
    else 1 + EscapedRun(s, i + 1, stop)
  }

  // ---------------------------------------------------------------------------
  // The patterns

  function Lit1(s: string, i: nat, c: char): nat {
    if i < |s| && s[i] == c then 1 else 0
  }

  function Lit2(s: string, i: nat, c: char, d: char): nat {
    if i + 1 < |s| && s[i] == c && s[i + 1] == d then 2 else 0
  }

  /** `^[start][cont]*` */
  function Word(s: string, i: nat, start: CharClass, cont: CharClass): nat
    requires i <= |s|
  {
    if i < |s| && InClass(start, s[i]) then 1 + Run(s, i + 1, cont) else 0
  }

  /** `^\$[a-zA-Z_][\.a-zA-Z_0-9]*` and its `%` twin. */
  function Sigil(s: string, i: nat, sigil: char): nat
    requires i <= |s|
  {
    if i + 1 < |s| && s[i] == sigil && InClass(IdentStart, s[i + 1]) then 2 + Run(s, i + 2, IdentCont) else 0
  }

  /**
   * `^([`*]?|[a-z]+)\{`. The first alternative is tried first: a backquote or
   * star must be followed by the brace; a bare brace matches alone; otherwise
   * a run of lower-case letters must end at a brace.
   */
  function ModeStartLen(s: string, i: nat): nat
    requires i <= |s|
  {
    if i < |s| && (s[i] == '`' || s[i] == '*') then
      (if i + 1 < |s| && s[i + 1] == '{' then 2 else 0)
    else if i < |s| && s[i] == '{' then 1
    else
      var n := Run(s, i, Lower);
      if n > 0 && i + n < |s| && s[i + n] == '{' then n + 1 else 0
  }

  /** `^r\{([^}\\]|\\.)+\}` */
  function RegexLen(s: string, i: nat): nat
    requires i <= |s|
  {
    if i + 1 < |s| && s[i] == 'r' && s[i + 1] == '{' then
      var n := EscapedRun(s, i + 2, '}');
      if n > 0 && i + 2 + n < |s| && s[i + 2 + n] == '}' then n + 3 else 0
    else 0
  }

  /** `^"([^\\"]|\\.)*"` */
  function QuotedLen(s: string, i: nat): nat
    requires i <= |s|
  {
    if i < |s| && s[i] == '"' then
      var n := EscapedRun(s, i + 1, '"');
      if i + 1 + n < |s| && s[i + 1 + n] == '"' then n + 2 else 0
    else 0
  }

  /** The length of the prefix of s[i..] that the rule for `kind` matches; 0 when it does not match. */
  function MatchLen(kind: TokenType, s: string, i: nat): (n: nat)
    requires i <= |s|
    ensures i + n <= |s|
  {
    match kind
    case Separator => Lit1(s, i, ';')
    case Pipe => Lit1(s, i, '|')
    case Assign => Lit1(s, i, '=')
    case Equal => Lit2(s, i, '=', '=')
    case LessThan => Lit1(s, i, '<')
    case LessThanOrEqual => Lit2(s, i, '<', '=')
    case GreaterThan => Lit1(s, i, '>')
    case GreaterThanOrEqual => Lit2(s, i, '>', '=')
    case NotEqual => Lit2(s, i, '!', '=')
    case Match => Lit2(s, i, '=', '~')
    case NotMatch => Lit2(s, i, '!', '~')
    case Integer => Run(s, i, Digit)
    case Variable => Sigil(s, i, '$')
    case Field => Sigil(s, i, '%')
    case ModeStart => ModeStartLen(s, i)
    case ModeEnd => Lit1(s, i, '}')
    case SubscriptStart => Lit1(s, i, '[')
    case SubscriptEnd => Lit1(s, i, ']')
    case Regex => RegexLen(s, i)
    case String => Word(s, i, StringStart, StringCont)
    case Glob => Word(s, i, GlobStart, GlobCont)
    case Comment => if i < |s| && s[i] == '#' then 1 + Run(s, i + 1, NotNewline) else 0
    case Whitespace => Run(s, i, Space)
    case QuotedString => QuotedLen(s, i)
    case Error => if i < |s| && s[i] != '\n' then 1 else 0
    case EOF => 0
  }

  // ---------------------------------------------------------------------------
  // Rule selection: the longest match wins, ties go to the earlier rule

  /**
   * The rule of `rules` whose match at `i` is longest, the earliest one among
   * equally long matches, with the length of its match.
   */
  function Best(rules: seq<TokenType>, s: string, i: nat): (r: (TokenType, nat))
    requires i <= |s| && 0 < |rules|
    ensures i + r.1 <= |s|
  {
    if |rules| == 1 then (rules[0], MatchLen(rules[0], s, i))
    else
      var r := Best(rules[1..], s, i);
      var n := MatchLen(rules[0], s, i);
      if n >= r.1 then (rules[0], n) else r
  }

  /**
   * Best picks the rule at some position `j`: no rule matches longer, and
   * every rule before `j` matches strictly shorter.
   */
  lemma {:induction false} BestIsLongest(rules: seq<TokenType>, s: string, i: nat) returns (j: nat)
    requires i <= |s| && 0 < |rules|
    ensures j < |rules| && rules[j] == Best(rules, s, i).0 && Best(rules, s, i).1 == MatchLen(rules[j], s, i)
    ensures forall k | 0 <= k < |rules| :: MatchLen(rules[k], s, i) <= Best(rules, s, i).1
    ensures forall k | 0 <= k < j :: MatchLen(rules[k], s, i) < Best(rules, s, i).1
  {
    if |rules| == 1 {
      j := 0;
    } else {
      var j' := BestIsLongest(rules[1..], s, i);
      forall k | 1 <= k < |rules|
        ensures rules[k] == rules[1..][k - 1]
      {
      }
      j := if MatchLen(rules[0], s, i) >= Best(rules[1..], s, i).1 then 0 else j' + 1;
    }
  }

  /** The first of the longest matches is the one Best picks. */
  lemma FirstLongestIsBest(rules: seq<TokenType>, s: string, i: nat, best: nat, n: nat)
    requires i <= |s| && best < |rules| && n == MatchLen(rules[best], s, i)
    requires forall m | 0 <= m < |rules| :: MatchLen(rules[m], s, i) <= n
    requires forall m | 0 <= m < best :: MatchLen(rules[m], s, i) < n
    ensures Best(rules, s, i) == (rules[best], n)
  {
    var j := BestIsLongest(rules, s, i);
    assert MatchLen(rules[j], s, i) <= n && n <= Best(rules, s, i).1;
    assert j == best;
  }

  /** No rule matches longer than the one Best picks. */
  lemma {:induction false} BestCovers(rules: seq<TokenType>, s: string, i: nat, k: nat)
    requires i <= |s| && k < |rules|
    ensures MatchLen(rules[k], s, i) <= Best(rules, s, i).1
    decreases |rules|
  {
    if k > 0 {
      assert rules[1..][k - 1] == rules[k];
      BestCovers(rules[1..], s, i, k - 1);
    }
  }

  /** Best picks one of the rules it is given. */
  lemma {:induction false} BestIsARule(rules: seq<TokenType>, s: string, i: nat)
    requires i <= |s| && 0 < |rules|
    ensures Best(rules, s, i).0 in rules
    decreases |rules|
  {
    if |rules| > 1 {
      BestIsARule(rules[1..], s, i);
      assert Best(rules[1..], s, i).0 in rules[1..];
    }
  }

  /** EOF has no rule of its own: it is produced only at the end of the input. */
  lemma NoRuleForEOF()
    ensures forall k | 0 <= k < |Rules| :: Rules[k] != EOF
  {
  }

  /** Some rule always matches, since a newline is Whitespace and every other character at least an Error. */
  lemma SomeRuleMatches(s: string, i: nat)
    requires i < |s|
    ensures Best(Rules, s, i).1 > 0 && Best(Rules, s, i).0 != EOF
  {
    BestIsARule(Rules, s, i);
    NoRuleForEOF();
    if s[i] == '\n' {
      assert MatchLen(Rules[22], s, i) > 0;
      BestCovers(Rules, s, i, 22);
    } else {
      assert MatchLen(Rules[24], s, i) > 0;
      BestCovers(Rules, s, i, 24);
    }
  }

  /** The raw token at `i` before ignored kinds are filtered: the selected rule's kind and match length. */
  function Scan(s: string, i: nat): (r: (TokenType, nat))
    requires i < |s|
    ensures 0 < r.1 && i + r.1 <= |s|
    ensures r.0 != EOF
  {
    SomeRuleMatches(s, i);
    Best(Rules, s, i)
  }

  /**
   * What one pop returns, with the position after it: raw tokens of an
   * ignored kind are skipped, and at the end of the input the EOF token is
   * returned without moving.
   */
  function Next(s: string, i: nat): (r: (Token, nat))
    requires i <= |s|
    ensures i <= r.1 <= |s|
    ensures r.0.kind !in Ignored
    ensures r.0.kind == EOF <==> r.1 == |s| && r.0 == Token(EOF, |s|, |s|)
    ensures r.0.kind != EOF ==> i <= r.0.start < r.0.end == r.1
    decreases |s| - i
  {
    if i == |s| then (Token(EOF, i, i), i)
    else
      var (k, n) := Scan(s, i);
      if k in Ignored then Next(s, i + n) else (Token(k, i, i + n), i + n)
  }

  /** One step of Next: the raw token at `i` is returned, or skipped when its kind is ignored. */
  lemma NextAt(s: string, i: nat, kind: TokenType, n: nat)
    requires i < |s| && Scan(s, i) == (kind, n)
    ensures kind in Ignored ==> Next(s, i) == Next(s, i + n)
    ensures kind !in Ignored ==> Next(s, i) == (Token(kind, i, i + n), i + n)
  {
  }

  /** Next from `i` is `next`. */
  ghost predicate NextIs(s: string, i: nat, next: (Token, nat)) {
    i <= |s| && Next(s, i) == next
  }

  /** At the end of the input Next gives the EOF token and stays put. */
  lemma NextAtEnd(s: string, next: (Token, nat))
    requires NextIs(s, |s|, next)
    ensures next == (Token(EOF, |s|, |s|), |s|)
  {
  }

  /** The kinds the test driver collects from position `i`: pops up to and including EOF or Error. */
  function Kinds(s: string, i: nat): seq<TokenType>
    requires i <= |s|
    decreases |s| - i
  {
    var (t, j) := Next(s, i);
    if t.kind == EOF || t.kind == Error then [t.kind] else [t.kind] + Kinds(s, j)
  }

  /** The position of each kind in the rule table (EOF, which has no rule, comes after all of them). */
  function Rank(kind: TokenType): nat {
    match kind
    case Separator => 0
    case Pipe => 1
    case Assign => 2
    case Equal => 3
    case LessThan => 4
    case LessThanOrEqual => 5
    case GreaterThan => 6
    case GreaterThanOrEqual => 7
    case NotEqual => 8
    case Match => 9
    case NotMatch => 10
    case Integer => 11
    case Variable => 12
    case Field => 13
    case ModeStart => 14
    case ModeEnd => 15
    case SubscriptStart => 16
    case SubscriptEnd => 17
    case Regex => 18
    case String => 19
    case Glob => 20
    case Comment => 21
    case Whitespace => 22
    case QuotedString => 23
    case Error => 24
    case EOF => 25
  }

  lemma RankIsPosition()
    ensures forall k | 0 <= k < |Rules| :: Rank(Rules[k]) == k
  {
  }

  /** Whether a match of the rule for `kind` can begin with `c`. */
  predicate CanStart(kind: TokenType, c: char) {
    match kind
    case Separator => c == ';'
    case Pipe => c == '|'
    case Assign => c == '='
    case Equal => c == '='
    case LessThan => c == '<'
    case LessThanOrEqual => c == '<'
    case GreaterThan => c == '>'
    case GreaterThanOrEqual => c == '>'
    case NotEqual => c == '!'
    case Match => c == '='
    case NotMatch => c == '!'
    case Integer => IsDigit(c)
    case Variable => c == '$'
    case Field => c == '%'
    case ModeStart => c == '`' || c == '*' || c == '{' || 'a' <= c <= 'z'
    case ModeEnd => c == '}'
    case SubscriptStart => c == '['
    case SubscriptEnd => c == ']'
    case Regex => c == 'r'
    case String => InClass(StringStart, c)
    case Glob => InClass(GlobStart, c)
    case Comment => c == '#'
    case Whitespace => IsSpace(c)
    case QuotedString => c == '"'
    case Error => c != '\n'
    case EOF => false
  }

  lemma CanStartIsNecessary(kind: TokenType, s: string, i: nat)
    requires i < |s|
    ensures !CanStart(kind, s[i]) ==> MatchLen(kind, s, i) == 0
  {
  }

  /** The rules whose match can begin with `c`: exactly those whose first-character set holds `c`. */
  function Rivals(c: char): set<TokenType> {
    if c == ';' then {Separator, Error}
    else if c == '|' then {Pipe, Error}
    else if c == '=' then {Assign, Equal, Match, Error}
    else if c == '<' then {LessThan, LessThanOrEqual, Error}
    else if c == '>' then {GreaterThan, GreaterThanOrEqual, Error}
    else if c == '!' then {NotEqual, NotMatch, Error}
    else if IsDigit(c) then {Integer, Error}
    else if c == '$' then {Variable, Error}
    else if c == '%' then {Field, Error}
    else if c == '`' || c == '{' then {ModeStart, Error}
    else if c == '*' then {ModeStart, Glob, Error}
    else if c == '}' then {ModeEnd, Error}
    else if c == '[' then {SubscriptStart, Error}
    else if c == ']' then {SubscriptEnd, Error}
    else if c == 'r' then {ModeStart, Regex, String, Glob, Error}
    else if 'a' <= c <= 'z' then {ModeStart, String, Glob, Error}
    else if IsLetter(c) || c == '_' || c == '/' || c == '.' then {String, Glob, Error}
    else if c == '?' then {Glob, Error}
    else if c == '#' then {Comment, Error}
    else if c == '\n' then {Whitespace}
    else if IsSpace(c) then {Whitespace, Error}
    else if c == '"' then {QuotedString, Error}
    else {Error}
  }

  lemma RivalsCover(x: TokenType, c: char)
    requires CanStart(x, c)
    ensures x in Rivals(c)
  {
  }

  /** A match of the rule for `other` does not outrank a match of length `n` by `kind`. */
  predicate Beats(other: TokenType, kind: TokenType, s: string, i: nat, n: nat)
    requires i <= |s|
  {
    MatchLen(other, s, i) < n || (MatchLen(other, s, i) == n && Rank(kind) <= Rank(other))
  }

  /**
   * The selection rule: the raw token at `i` is the rule whose match is
   * longest, and among equally long matches the earliest declared one. Only
   * the rules that can start with `s[i]` need comparing.
   */
  lemma ScanIs(s: string, i: nat, kind: TokenType, n: nat, rivals: set<TokenType>)
    requires i < |s| && kind in Rules && 0 < n
    requires MatchLen(kind, s, i) == n
    requires Rivals(s[i]) <= rivals
    requires forall x | x in rivals :: Beats(x, kind, s, i, n)
    ensures Scan(s, i) == (kind, n)
  {
    var j := BestIsLongest(Rules, s, i);
    RankIsPosition();
    assert Rules[Rank(kind)] == kind;
    CanStartIsNecessary(Rules[j], s, i);
    assert CanStart(Rules[j], s[i]);
    RivalsCover(Rules[j], s[i]);
    assert Beats(Rules[j], kind, s, i, n);
    assert Rank(Rules[j]) == j;
    assert j == Rank(kind);
  }

  /** A run of `n` characters of class `cls` that ends at a character outside it is what Run measures. */
  lemma {:induction false} RunIs(s: string, i: nat, n: nat, cls: CharClass)
    requires i + n <= |s|
    requires forall k | i <= k < i + n :: InClass(cls, s[k])
    requires i + n < |s| ==> !InClass(cls, s[i + n])
    ensures Run(s, i, cls) == n
    decreases n
  {
    if n > 0 {
      RunIs(s, i + 1, n - 1, cls);
    }
  }

  /** A character outside `cls` at `k` bounds the run from `i`. */
  lemma RunStops(s: string, i: nat, k: nat, cls: CharClass)
    requires i <= k < |s| && !InClass(cls, s[k])
    ensures i + Run(s, i, cls) <= k
  {
  }

  lemma LetterRivals(c: char)
    requires IsLetter(c)
    ensures Rivals(c) <= {ModeStart, Regex, String, Glob, Error}
  {
  }

  /** The String and Glob rules both match a word of letters whole. */
  lemma LettersMatch(s: string, i: nat, n: nat)
    requires i + n <= |s| && 0 < n
    requires forall k | i <= k < i + n :: IsLetter(s[k])
    requires i + n < |s| ==> !InClass(StringCont, s[i + n]) && !InClass(GlobCont, s[i + n])
    ensures MatchLen(String, s, i) == n && MatchLen(Glob, s, i) == n
  {
    RunIs(s, i + 1, n - 1, StringCont);
    RunIs(s, i + 1, n - 1, GlobCont);
  }

  /** Neither ModeStart nor Regex matches a word of letters that no brace follows. */
  lemma LettersNoBrace(s: string, i: nat, n: nat)
    requires i + n <= |s| && 0 < n
    requires forall k | i <= k < i + n :: IsLetter(s[k])
    requires i + n < |s| ==> !InClass(Lower, s[i + n]) && s[i + n] != '{'
    ensures MatchLen(ModeStart, s, i) == 0 && MatchLen(Regex, s, i) == 0
  {
    if i + n < |s| {
      RunStops(s, i, i + n, Lower);
    }
    var m := Run(s, i, Lower);
    assert i + m < |s| ==> s[i + m] != '{';
  }

  /**
   * A word of letters is a String: the String and Glob rules match it with
   * the same length, and String is declared first.
   */
  lemma ScanLetters(s: string, i: nat, n: nat)
    requires i + n <= |s| && 0 < n
    requires forall k | i <= k < i + n :: IsLetter(s[k])
    requires i + n < |s| ==> !InClass(StringCont, s[i + n]) && !InClass(GlobCont, s[i + n]) && s[i + n] != '{'
    ensures Scan(s, i) == (String, n)
  {
    LettersMatch(s, i, n);
    LettersNoBrace(s, i, n);
    LetterRivals(s[i]);
    ScanIs(s, i, String, n, {ModeStart, Regex, String, Glob, Error});
  }

  /** Each single-character punctuation rule takes its character alone. */
  lemma ScanPunctuation(s: string, i: nat, kind: TokenType)
    requires i < |s| && kind in {Separator, Pipe, ModeEnd, SubscriptStart, SubscriptEnd}
    requires CanStart(kind, s[i])
    ensures Scan(s, i) == (kind, 1)
  {
    assert Beats(kind, kind, s, i, 1);
    assert Beats(Error, kind, s, i, 1);
    ScanIs(s, i, kind, 1, {kind, Error});
  }

  /** `=` is Assign unless `==` (Equal) or `=~` (Match) is longer. */
  lemma ScanEquals(s: string, i: nat)
    requires i < |s| && s[i] == '='
    ensures Scan(s, i) ==
      if i + 1 < |s| && s[i + 1] == '=' then (Equal, 2)
      else if i + 1 < |s| && s[i + 1] == '~' then (Match, 2)
      else (Assign, 1)
  {
    var rivals := {Assign, Equal, Match, Error};
    assert Rivals(s[i]) == rivals;
    assert MatchLen(Assign, s, i) == 1 && MatchLen(Error, s, i) == 1;
    if i + 1 < |s| && s[i + 1] == '=' {
      assert MatchLen(Equal, s, i) == 2 && MatchLen(Match, s, i) == 0;
      ScanIs(s, i, Equal, 2, rivals);
    } else if i + 1 < |s| && s[i + 1] == '~' {
      assert MatchLen(Equal, s, i) == 0 && MatchLen(Match, s, i) == 2;
      ScanIs(s, i, Match, 2, rivals);
    } else {
      assert MatchLen(Equal, s, i) == 0 && MatchLen(Match, s, i) == 0;
      ScanIs(s, i, Assign, 1, rivals);
    }
  }

  /** `<` is LessThan unless `<=` (LessThanOrEqual) is longer. */
  lemma ScanLess(s: string, i: nat)
    requires i < |s| && s[i] == '<'
    ensures Scan(s, i) == if i + 1 < |s| && s[i + 1] == '=' then (LessThanOrEqual, 2) else (LessThan, 1)
  {
    var rivals := {LessThan, LessThanOrEqual, Error};
    assert Rivals(s[i]) == rivals;
    assert MatchLen(LessThan, s, i) == 1 && MatchLen(Error, s, i) == 1;
    if i + 1 < |s| && s[i + 1] == '=' {
      assert MatchLen(LessThanOrEqual, s, i) == 2;
      ScanIs(s, i, LessThanOrEqual, 2, rivals);
    } else {
      assert MatchLen(LessThanOrEqual, s, i) == 0;
      ScanIs(s, i, LessThan, 1, rivals);
    }
  }

  /** `>` is GreaterThan unless `>=` (GreaterThanOrEqual) is longer. */
  lemma ScanGreater(s: string, i: nat)
    requires i < |s| && s[i] == '>'
    ensures Scan(s, i) == if i + 1 < |s| && s[i + 1] == '=' then (GreaterThanOrEqual, 2) else (GreaterThan, 1)
  {
    var rivals := {GreaterThan, GreaterThanOrEqual, Error};
    assert Rivals(s[i]) == rivals;
    assert MatchLen(GreaterThan, s, i) == 1 && MatchLen(Error, s, i) == 1;
    if i + 1 < |s| && s[i + 1] == '=' {
      assert MatchLen(GreaterThanOrEqual, s, i) == 2;
      ScanIs(s, i, GreaterThanOrEqual, 2, rivals);
    } else {
      assert MatchLen(GreaterThanOrEqual, s, i) == 0;
      ScanIs(s, i, GreaterThan, 1, rivals);
    }
  }

  /** `!=` and `!~` are operators; a `!` followed by anything else is a one-character Error. */
  lemma ScanBang(s: string, i: nat)
    requires i < |s| && s[i] == '!'
    ensures Scan(s, i) ==
      if i + 1 < |s| && s[i + 1] == '=' then (NotEqual, 2)
      else if i + 1 < |s| && s[i + 1] == '~' then (NotMatch, 2)
      else (Error, 1)
  {
    var rivals := {NotEqual, NotMatch, Error};
    assert Rivals(s[i]) == rivals;
    assert MatchLen(Error, s, i) == 1;
    if i + 1 < |s| && s[i + 1] == '=' {
      assert MatchLen(NotEqual, s, i) == 2 && MatchLen(NotMatch, s, i) == 0;
      ScanIs(s, i, NotEqual, 2, rivals);
    } else if i + 1 < |s| && s[i + 1] == '~' {
      assert MatchLen(NotEqual, s, i) == 0 && MatchLen(NotMatch, s, i) == 2;
      ScanIs(s, i, NotMatch, 2, rivals);
    } else {
      assert MatchLen(NotEqual, s, i) == 0 && MatchLen(NotMatch, s, i) == 0;
      ScanIs(s, i, Error, 1, rivals);
    }
  }

  /** A digit starts an Integer spanning the whole run of digits. */
  lemma ScanDigits(s: string, i: nat)
    requires i < |s| && IsDigit(s[i])
    ensures Scan(s, i) == (Integer, Run(s, i, Digit))
  {
    ScanIs(s, i, Integer, Run(s, i, Digit), {Integer, Error});
  }

  /** `$` (Variable) or `%` (Field) followed by an identifier of `n - 1` characters is one token. */
  lemma ScanSigil(s: string, i: nat, kind: TokenType, n: nat)
    requires i + n <= |s| && 2 <= n
    requires (kind == Variable && s[i] == '$') || (kind == Field && s[i] == '%')
    requires InClass(IdentStart, s[i + 1]) && forall k | i + 2 <= k < i + n :: InClass(IdentCont, s[k])
    requires i + n < |s| ==> !InClass(IdentCont, s[i + n])
    ensures Scan(s, i) == (kind, n)
  {
    RunIs(s, i + 2, n - 2, IdentCont);
    assert Rivals(s[i]) == {kind, Error};
    assert MatchLen(Error, s, i) == 1;
    assert MatchLen(kind, s, i) == n;
    ScanIs(s, i, kind, n, {kind, Error});
  }

  /** A sigil not followed by an identifier start is a one-character Error. */
  lemma ScanBareSigil(s: string, i: nat)
    requires i < |s| && (s[i] == '$' || s[i] == '%')
    requires !(i + 1 < |s| && InClass(IdentStart, s[i + 1]))
    ensures Scan(s, i) == (Error, 1)
  {
    assert MatchLen(Error, s, i) == 1;
    ScanIs(s, i, Error, 1, {Variable, Field, Error});
  }

  /** `#` starts a Comment running to the end of the line. */
  lemma ScanComment(s: string, i: nat)
    requires i < |s| && s[i] == '#'
    ensures Scan(s, i) == (Comment, 1 + Run(s, i + 1, NotNewline))
  {
    ScanIs(s, i, Comment, 1 + Run(s, i + 1, NotNewline), {Comment, Error});
  }

  /** Whitespace spans the whole run of whitespace characters. */
  lemma ScanSpace(s: string, i: nat)
    requires i < |s| && IsSpace(s[i])
    ensures Scan(s, i) == (Whitespace, Run(s, i, Space))
  {
    ScanIs(s, i, Whitespace, Run(s, i, Space), {Whitespace, Error});
  }

  /** A double quote starts a QuotedString when a closing quote follows; otherwise it is an Error. */
  lemma ScanQuote(s: string, i: nat)
    requires i < |s| && s[i] == '"'
    ensures Scan(s, i) == if QuotedLen(s, i) > 0 then (QuotedString, QuotedLen(s, i)) else (Error, 1)
  {
    if QuotedLen(s, i) > 0 {
      ScanIs(s, i, QuotedString, QuotedLen(s, i), {QuotedString, Error});
    } else {
      ScanIs(s, i, Error, 1, {QuotedString, Error});
    }
  }

  /** A backquote followed by a brace is one ModeStart; alone it is an Error. */
  lemma ScanBackquote(s: string, i: nat)
    requires i < |s| && s[i] == '`'
    ensures Scan(s, i) == if i + 1 < |s| && s[i + 1] == '{' then (ModeStart, 2) else (Error, 1)
  {
    if i + 1 < |s| && s[i + 1] == '{' {
      ScanIs(s, i, ModeStart, 2, {ModeStart, Error});
    } else {
      ScanIs(s, i, Error, 1, {ModeStart, Error});
    }
  }

  /** A complete `r{...}` is a Regex, which outruns the two-character ModeStart `r{`. */
  lemma ScanRegex(s: string, i: nat)
    requires i < |s| && RegexLen(s, i) > 0
    ensures Scan(s, i) == (Regex, RegexLen(s, i))
  {
    RegexRivals(s, i);
    LetterRivals(s[i]);
    ScanIs(s, i, Regex, RegexLen(s, i), {ModeStart, Regex, String, Glob, Error});
  }

  /** At `r{` the rivals of Regex match at most two characters, and a regex literal has at least four. */
  lemma RegexRivals(s: string, i: nat)
    requires i < |s| && RegexLen(s, i) > 0
    ensures 4 <= RegexLen(s, i)
    ensures MatchLen(ModeStart, s, i) == 2 && MatchLen(String, s, i) == 1
    ensures MatchLen(Glob, s, i) == 1 && MatchLen(Error, s, i) == 1
  {
  }

  lemma GlobStartRivals(c: char)
    requires InClass(GlobStart, c)
    ensures Rivals(c) <= {ModeStart, Regex, String, Glob, Error}
  {
  }

  /** What the word rules match on a glob pattern holding a wildcard at `w`. */
  lemma GlobMatch(s: string, i: nat, n: nat, w: nat)
    requires i + n <= |s| && 0 < n
    requires InClass(GlobStart, s[i]) && forall k | i < k < i + n :: InClass(GlobCont, s[k])
    requires i + n < |s| ==> !InClass(GlobCont, s[i + n])
    requires i <= w < i + n && (s[w] == '*' || s[w] == '?')
    ensures MatchLen(Glob, s, i) == n && MatchLen(String, s, i) < n
  {
    RunIs(s, i + 1, n - 1, GlobCont);
    if w > i {
      RunStops(s, i + 1, w, StringCont);
    }
  }

  /** No brace in or right after a glob pattern, so neither ModeStart nor Regex matches it. */
  lemma GlobNoBrace(s: string, i: nat, n: nat)
    requires i + n <= |s| && 0 < n
    requires InClass(GlobStart, s[i]) && forall k | i < k < i + n :: InClass(GlobCont, s[k])
    requires i + n < |s| ==> !InClass(GlobCont, s[i + n]) && s[i + n] != '{'
    ensures MatchLen(ModeStart, s, i) == 0 && MatchLen(Regex, s, i) == 0 && MatchLen(Error, s, i) == 1
  {
    var m := Run(s, i, Lower);
    assert i + m < |s| ==> s[i + m] != '{';
  }

  /** A pattern holding `*` or `?` is a Glob: String stops at the wildcard, so Glob matches longer. */
  lemma ScanGlob(s: string, i: nat, n: nat, w: nat)
    requires i + n <= |s| && 0 < n
    requires InClass(GlobStart, s[i]) && forall k | i < k < i + n :: InClass(GlobCont, s[k])
    requires i + n < |s| ==> !InClass(GlobCont, s[i + n]) && s[i + n] != '{'
    requires i <= w < i + n && (s[w] == '*' || s[w] == '?')
    ensures Scan(s, i) == (Glob, n)
  {
    GlobMatch(s, i, n, w);
    GlobNoBrace(s, i, n);
    GlobStartRivals(s[i]);
    ScanIs(s, i, Glob, n, {ModeStart, Regex, String, Glob, Error});
  }

  // ---------------------------------------------------------------------------
  // Popping tokens

  /**
   * Where collection resumes after a token ending at `p`: at `p` itself, or
   * after the whole run of whitespace that starts there.
   */
  predicate Gap(s: string, p: nat, j: nat) {
    p <= j <= |s| && (j == p || ((forall k | p <= k < j :: IsSpace(s[k])) && (j < |s| ==> !IsSpace(s[j]))))
  }

  /**
   * A token that is neither ignored nor Error is collected, and collection
   * goes on after it and after the whitespace that may follow it.
   */
  lemma KindsStep(s: string, i: nat, kind: TokenType, n: nat, j: nat)
    requires i < |s| && Scan(s, i) == (kind, n) && kind !in Ignored && kind != Error
    requires Gap(s, i + n, j)
    ensures Kinds(s, i) == [kind] + Kinds(s, j)
  {
    assert Next(s, i) == (Token(kind, i, i + n), i + n);
    KindsPopped(s, i, Token(kind, i, i + n), i + n);
    if j != i + n {
      SkipWhitespace(s, i + n, j);
    }
  }

  lemma KindsAtEnd(s: string)
    ensures Kinds(s, |s|) == [EOF]
  {
  }

  /** The whitespace from `i` up to `j`, which is not whitespace or the end, is one Whitespace token. */
  lemma SpacesAt(s: string, i: nat, j: nat)
    requires i < j <= |s|
    requires forall k | i <= k < j :: IsSpace(s[k])
    requires j < |s| ==> !IsSpace(s[j])
    ensures Scan(s, i) == (Whitespace, j - i)
  {
    RunIs(s, i, j - i, Space);
    ScanSpace(s, i);
  }

  /** A character that starts no other rule is a one-character Error. */
  lemma ScanStray(s: string, i: nat)
    requires i < |s| && Rivals(s[i]) == {Error}
    ensures Scan(s, i) == (Error, 1)
  {
    assert MatchLen(Error, s, i) == 1;
    ScanIs(s, i, Error, 1, {Error});
  }

  /** An Error token ends the collection. */
  lemma KindsStopsAtError(s: string, i: nat, n: nat)
    requires i < |s| && Scan(s, i) == (Error, n)
    ensures Kinds(s, i) == [Error]
  {
    assert Next(s, i).0.kind == Error;
  }

  /** What the driver collects is never empty and ends with EOF or Error. */
  lemma {:induction false} KindsEnd(s: string, i: nat)
    requires i <= |s|
    ensures 0 < |Kinds(s, i)| && Kinds(s, i)[|Kinds(s, i)| - 1] in {EOF, Error}
    decreases |s| - i
  {
    var (t, j) := Next(s, i);
    if t.kind != EOF && t.kind != Error {
      KindsEnd(s, j);
      assert Kinds(s, i) == [t.kind] + Kinds(s, j);
    }
  }

  /** What the driver collects holds no ignored kind. */
  lemma {:induction false} KindsVisible(s: string, i: nat)
    requires i <= |s|
    ensures forall k | 0 <= k < |Kinds(s, i)| :: Kinds(s, i)[k] !in Ignored
    decreases |s| - i
  {
    var (t, j) := Next(s, i);
    assert t.kind !in Ignored;
    if t.kind != EOF && t.kind != Error {
      KindsVisible(s, j);
      var rest := Kinds(s, j);
      var all := Kinds(s, i);
      assert all == [t.kind] + rest;
      forall k | 0 <= k < |all|
        ensures all[k] !in Ignored
      {
        if k > 0 {
          assert all[k] == rest[k - 1];
        }
      }
    }
  }

  /** EOF and Error occur in what the driver collects only as its last entry. */
  lemma {:induction false} KindsStopAtEnd(s: string, i: nat)
    requires i <= |s|
    ensures forall k | 0 <= k < |Kinds(s, i)| - 1 :: Kinds(s, i)[k] !in {EOF, Error}
    decreases |s| - i
  {
    var (t, j) := Next(s, i);
    if t.kind != EOF && t.kind != Error {
      KindsStopAtEnd(s, j);
      var rest := Kinds(s, j);
      var all := Kinds(s, i);
      assert all == [t.kind] + rest;
      forall k | 0 <= k < |all| - 1
        ensures all[k] !in {EOF, Error}
      {
        if k > 0 {
          assert all[k] == rest[k - 1];
        }
      }
    }
  }

  /**
   * What the driver collects is never empty, holds no ignored kind, ends
   * with EOF or Error, and holds neither before its last entry.
   */
  lemma KindsShape(s: string, i: nat)
    requires i <= |s|
    ensures 0 < |Kinds(s, i)|
    ensures forall k | 0 <= k < |Kinds(s, i)| :: Kinds(s, i)[k] !in Ignored
    ensures Kinds(s, i)[|Kinds(s, i)| - 1] in {EOF, Error}
    ensures forall k | 0 <= k < |Kinds(s, i)| - 1 :: Kinds(s, i)[k] !in {EOF, Error}
  {
    KindsEnd(s, i);
    KindsVisible(s, i);
    KindsStopAtEnd(s, i);
  }

  // ---------------------------------------------------------------------------
  // Collecting one token of each form

  /**
   * A word of `n` letters at `i` that no word character or brace continues,
   * with collection resuming at `j`.
   */
  predicate WordAt(s: string, i: nat, n: nat, j: nat) {
    i + n <= |s| && 0 < n && (forall k | i <= k < i + n :: IsLetter(s[k])) &&
    (i + n < |s| ==> !InClass(StringCont, s[i + n]) && !InClass(GlobCont, s[i + n]) && s[i + n] != '{') &&
    Gap(s, i + n, j)
  }

  /** A word of letters is collected as a String. */
  lemma CollectWord(s: string, i: nat, n: nat, j: nat)
    requires WordAt(s, i, n, j)
    ensures Kinds(s, i) == [String] + Kinds(s, j)
  {
    ScanLetters(s, i, n);
    KindsStep(s, i, String, n, j);
  }

  /** A one-character punctuation token of `kind` at `i`, with collection resuming at `j`. */
  predicate PunctuationAt(s: string, i: nat, kind: TokenType, j: nat) {
    i < |s| && kind in {Separator, Pipe, ModeEnd, SubscriptStart, SubscriptEnd} && CanStart(kind, s[i]) &&
    Gap(s, i + 1, j)
  }

  /** A separator, pipe, closing brace or bracket is collected on its own. */
  lemma CollectPunctuation(s: string, i: nat, kind: TokenType, j: nat)
    requires PunctuationAt(s, i, kind, j)
    ensures Kinds(s, i) == [kind] + Kinds(s, j)
  {
    ScanPunctuation(s, i, kind);
    KindsStep(s, i, kind, 1, j);
  }

  /** The operator token that starts with `=`, `<`, `>` or `!`, and its length. */
  function Operator(s: string, i: nat): (TokenType, nat)
    requires i < |s|
  {
    var eq := i + 1 < |s| && s[i + 1] == '=';
    var tilde := i + 1 < |s| && s[i + 1] == '~';
    if s[i] == '=' then
      if eq then (Equal, 2) else if tilde then (Match, 2) else (Assign, 1)
    else if s[i] == '<' then
      if eq then (LessThanOrEqual, 2) else (LessThan, 1)
    else if s[i] == '>' then
      if eq then (GreaterThanOrEqual, 2) else (GreaterThan, 1)
    else if eq then (NotEqual, 2) else if tilde then (NotMatch, 2) else (Error, 1)
  }

  /** The operator `kind` at `i`, with collection resuming at `j`. */
  predicate OperatorAt(s: string, i: nat, kind: TokenType, j: nat) {
    i < |s| && (s[i] == '=' || s[i] == '<' || s[i] == '>' || s[i] == '!') &&
    Operator(s, i).0 == kind && kind != Error && Gap(s, i + Operator(s, i).1, j)
  }

  /** The rules pick the operator `Operator` names, by longest match. */
  lemma ScanOperator(s: string, i: nat)
    requires i < |s| && (s[i] == '=' || s[i] == '<' || s[i] == '>' || s[i] == '!')
    ensures Scan(s, i) == Operator(s, i)
  {
    if s[i] == '=' {
      ScanEquals(s, i);
    } else if s[i] == '<' {
      ScanLess(s, i);
    } else if s[i] == '>' {
      ScanGreater(s, i);
    } else {
      ScanBang(s, i);
    }
  }

  /** An operator is collected with the longest spelling that matches. */
  lemma CollectOperator(s: string, i: nat, kind: TokenType, j: nat)
    requires OperatorAt(s, i, kind, j)
    ensures Kinds(s, i) == [kind] + Kinds(s, j)
  {
    ScanOperator(s, i);
    KindsStep(s, i, kind, Operator(s, i).1, j);
  }

  /** A run of `n` digits at `i` that no digit continues, with collection resuming at `j`. */
  predicate DigitsAt(s: string, i: nat, n: nat, j: nat) {
    i + n <= |s| && 0 < n && (forall k | i <= k < i + n :: IsDigit(s[k])) &&
    (i + n < |s| ==> !IsDigit(s[i + n])) && Gap(s, i + n, j)
  }

  /** A run of digits is collected as one Integer. */
  lemma CollectDigits(s: string, i: nat, n: nat, j: nat)
    requires DigitsAt(s, i, n, j)
    ensures Kinds(s, i) == [Integer] + Kinds(s, j)
  {
    RunIs(s, i, n, Digit);
    ScanDigits(s, i);
    KindsStep(s, i, Integer, n, j);
  }

  /**
   * A `$` (Variable) or `%` (Field) and a name, `n` characters in all, that
   * no name character continues, with collection resuming at `j`.
   */
  predicate SigilAt(s: string, i: nat, kind: TokenType, n: nat, j: nat) {
    i + n <= |s| && 2 <= n && ((kind == Variable && s[i] == '$') || (kind == Field && s[i] == '%')) &&
    InClass(IdentStart, s[i + 1]) && (forall k | i + 2 <= k < i + n :: InClass(IdentCont, s[k])) &&
    (i + n < |s| ==> !InClass(IdentCont, s[i + n])) && Gap(s, i + n, j)
  }

  /** A sigil and the name after it are collected as one Variable or Field. */
  lemma CollectSigil(s: string, i: nat, kind: TokenType, n: nat, j: nat)
    requires SigilAt(s, i, kind, n, j)
    ensures Kinds(s, i) == [kind] + Kinds(s, j)
  {
    ScanSigil(s, i, kind, n);
    KindsStep(s, i, kind, n, j);
  }

  /**
   * A glob pattern of `n` characters at `i` with a wildcard at `w`, that no
   * pattern character or brace continues, with collection resuming at `j`.
   */
  predicate GlobAt(s: string, i: nat, n: nat, w: nat, j: nat) {
    i + n <= |s| && 0 < n && InClass(GlobStart, s[i]) && (forall k | i < k < i + n :: InClass(GlobCont, s[k])) &&
    (i + n < |s| ==> !InClass(GlobCont, s[i + n]) && s[i + n] != '{') &&
    i <= w < i + n && (s[w] == '*' || s[w] == '?') && Gap(s, i + n, j)
  }

  /** A pattern holding a wildcard is collected as one Glob. */
  lemma CollectGlob(s: string, i: nat, n: nat, w: nat, j: nat)
    requires GlobAt(s, i, n, w, j)
    ensures Kinds(s, i) == [Glob] + Kinds(s, j)
  {
    ScanGlob(s, i, n, w);
    KindsStep(s, i, Glob, n, j);
  }

  /** A closed double-quoted string at `i`, with collection resuming at `j`. */
  predicate QuotedAt(s: string, i: nat, j: nat) {
    i < |s| && s[i] == '"' && QuotedLen(s, i) > 0 && Gap(s, i + QuotedLen(s, i), j)
  }

  /** A closed double-quoted string is collected as one QuotedString. */
  lemma CollectQuoted(s: string, i: nat, j: nat)
    requires QuotedAt(s, i, j)
    ensures Kinds(s, i) == [QuotedString] + Kinds(s, j)
  {
    ScanQuote(s, i);
    KindsStep(s, i, QuotedString, QuotedLen(s, i), j);
  }

  /** A complete regex literal at `i`, with collection resuming at `j`. */
  predicate RegexAt(s: string, i: nat, j: nat) {
    i < |s| && RegexLen(s, i) > 0 && Gap(s, i + RegexLen(s, i), j)
  }

  /** A complete regex literal is collected as one Regex. */
  lemma CollectRegex(s: string, i: nat, j: nat)
    requires RegexAt(s, i, j)
    ensures Kinds(s, i) == [Regex] + Kinds(s, j)
  {
    ScanRegex(s, i);
    KindsStep(s, i, Regex, RegexLen(s, i), j);
  }

  /** A backquote and a brace at `i`, with collection resuming at `j`. */
  predicate BackquoteAt(s: string, i: nat, j: nat) {
    i + 1 < |s| && s[i] == '`' && s[i + 1] == '{' && Gap(s, i + 2, j)
  }

  /** A backquote and a brace are collected as one ModeStart. */
  lemma CollectModeStart(s: string, i: nat, j: nat)
    requires BackquoteAt(s, i, j)
    ensures Kinds(s, i) == [ModeStart] + Kinds(s, j)
  {
    ScanBackquote(s, i);
    KindsStep(s, i, ModeStart, 2, j);
  }

  /** Whitespace is skipped. */
  lemma SkipWhitespace(s: string, i: nat, j: nat)
    requires i < j && Gap(s, i, j)
    ensures Kinds(s, i) == Kinds(s, j)
  {
    SpacesAt(s, i, j);
    NextAt(s, i, Whitespace, j - i);
    SamePop(s, i, j);
  }

  /** Two positions where the same pop comes next collect the same kinds. */
  lemma SamePop(s: string, i: nat, j: nat)
    requires i <= |s| && j <= |s| && Next(s, i) == Next(s, j)
    ensures Kinds(s, i) == Kinds(s, j)
  {
  }

  /** A `#` at `i` and the `n` characters after it up to the end of the line or of the input. */
  predicate CommentAt(s: string, i: nat, n: nat) {
    i + 1 + n <= |s| && s[i] == '#' && (forall k | i < k <= i + n :: s[k] != '\n') &&
    (i + 1 + n < |s| ==> s[i + 1 + n] == '\n')
  }

  /** A comment, which runs to the end of the line, is skipped. */
  lemma SkipComment(s: string, i: nat, n: nat, j: nat)
    requires CommentAt(s, i, n) && j == i + 1 + n
    ensures Kinds(s, i) == Kinds(s, j)
  {
    CommentSpan(s, i, n);
    NextAt(s, i, Comment, 1 + n);
    SamePop(s, i, j);
  }

  /** The comment at `i` is one Comment token of `1 + n` characters. */
  lemma CommentSpan(s: string, i: nat, n: nat)
    requires CommentAt(s, i, n)
    ensures Scan(s, i) == (Comment, 1 + n)
  {
    RunIs(s, i + 1, n, NotNewline);
    ScanComment(s, i);
  }

  /** A character only the fallback rule accepts ends the collection with Error. */
  lemma CollectStray(s: string, i: nat)
    requires i < |s| && Rivals(s[i]) == {Error}
    ensures Kinds(s, i) == [Error]
  {
    ScanStray(s, i);
    KindsStopsAtError(s, i, 1);
  }

  // ---------------------------------------------------------------------------
  // Collecting a whole input, one recognised form after another

  /** How the token at some position is recognised, as the lemmas above take it. */
  datatype Form =
    | Letters(n: nat)                      // a word of n letters
    | Punctuation(kind: TokenType)         // one of ; | } [ ]
    | Op(kind: TokenType)                  // = == =~ < <= > >= != !~
    | Digits(n: nat)                       // n digits
    | SigilName(kind: TokenType, n: nat)   // $name or %name, n characters in all
    | Pattern(n: nat, w: nat)              // a glob of n characters with a wildcard at w
    | Quoted                               // a closed double-quoted string
    | RegexLiteral                         // r{...}
    | Backquote                            // `{
    | Blank                                // whitespace
    | Remark(n: nat)                       // # and the n characters after it on the line
    | Stray                                // a character only the fallback rule takes

  /** A recognised form and the position where collection resumes after it. */
  datatype Step = Step(form: Form, next: nat)

  /** What collecting the form adds to the driver's list. */
  function Out(form: Form): seq<TokenType> {
    match form
    case Letters(_) => [String]
    case Punctuation(kind) => [kind]
    case Op(kind) => [kind]
    case Digits(_) => [Integer]
    case SigilName(kind, _) => [kind]
    case Pattern(_, _) => [Glob]
    case Quoted => [QuotedString]
    case RegexLiteral => [Regex]
    case Backquote => [ModeStart]
    case Blank => []
    case Remark(_) => []
    case Stray => [Error]
  }

  /** The step applies at `i`: the premise of the matching lemma above, with `next` as its end. */
  predicate Holds(s: string, i: nat, st: Step) {
    var j := st.next;
    match st.form
    case Letters(n) => WordAt(s, i, n, j)
    case Punctuation(kind) => PunctuationAt(s, i, kind, j)
    case Op(kind) => OperatorAt(s, i, kind, j)
    case Digits(n) => DigitsAt(s, i, n, j)
    case SigilName(kind, n) => SigilAt(s, i, kind, n, j)
    case Pattern(n, w) => GlobAt(s, i, n, w, j)
    case Quoted => QuotedAt(s, i, j)
    case RegexLiteral => RegexAt(s, i, j)
    case Backquote => BackquoteAt(s, i, j)
    case Blank => i < j && Gap(s, i, j)
    case Remark(n) => CommentAt(s, i, n) && j == i + 1 + n
    case Stray => i < |s| && Rivals(s[i]) == {Error} && j == i + 1
  }

  /** Collecting one step: its output, then what is collected from where it resumes. */
  lemma CollectStep(s: string, i: nat, st: Step)
    requires Holds(s, i, st) && !st.form.Stray?
    ensures Kinds(s, i) == Out(st.form) + Kinds(s, st.next)
  {
    CollectRun(s, i, st);
    CollectSymbol(s, i, st);
    CollectDelimited(s, i, st);
    CollectNothing(s, i, st);
  }

  /** The steps of `CollectStep` for words, digits and sigil names. */
  lemma CollectRun(s: string, i: nat, st: Step)
    ensures Holds(s, i, st) && (st.form.Letters? || st.form.Digits? || st.form.SigilName?) ==>
      Kinds(s, i) == Out(st.form) + Kinds(s, st.next)
  {
    if Holds(s, i, st) {
      match st.form
      case Letters(n) => CollectWord(s, i, n, st.next);
      case Digits(n) => CollectDigits(s, i, n, st.next);
      case SigilName(kind, n) => CollectSigil(s, i, kind, n, st.next);
      case _ =>
    }
  }

  /** The steps of `CollectStep` for punctuation, operators and globs. */
  lemma CollectSymbol(s: string, i: nat, st: Step)
    ensures Holds(s, i, st) && (st.form.Punctuation? || st.form.Op? || st.form.Pattern?) ==>
      Kinds(s, i) == Out(st.form) + Kinds(s, st.next)
  {
    if Holds(s, i, st) {
      match st.form
      case Punctuation(kind) => CollectPunctuation(s, i, kind, st.next);
      case Op(kind) => CollectOperator(s, i, kind, st.next);
      case Pattern(n, w) => CollectGlob(s, i, n, w, st.next);
      case _ =>
    }
  }

  /** The steps of `CollectStep` for quoted strings, regex literals and backquotes. */
  lemma CollectDelimited(s: string, i: nat, st: Step)
    ensures Holds(s, i, st) && (st.form.Quoted? || st.form.RegexLiteral? || st.form.Backquote?) ==>
      Kinds(s, i) == Out(st.form) + Kinds(s, st.next)
  {
    if Holds(s, i, st) {
      match st.form
      case Quoted => CollectQuoted(s, i, st.next);
      case RegexLiteral => CollectRegex(s, i, st.next);
      case Backquote => CollectModeStart(s, i, st.next);
      case _ =>
    }
  }

  /** The steps of `CollectStep` for whitespace and comments. */
  lemma CollectNothing(s: string, i: nat, st: Step)
    ensures Holds(s, i, st) && (st.form.Blank? || st.form.Remark?) ==> Kinds(s, i) == Kinds(s, st.next)
  {
    if Holds(s, i, st) {
      match st.form
      case Blank => SkipWhitespace(s, i, st.next);
      case Remark(n) => SkipComment(s, i, n, st.next);
      case _ =>
    }
  }

  /** A sequence of steps, first to last. */
  datatype Steps = End | Then(first: Step, rest: Steps)

  /**
   * The steps cover the input from `i`: each applies where the one before
   * resumes, and the last ends at the end of the input or is a stray
   * character.
   */
  predicate Recognised(s: string, i: nat, steps: Steps)
    decreases steps
  {
    match steps
    case End => i == |s|
    case Then(st, rest) =>
      Holds(s, i, st) && if st.form.Stray? then rest == End else Recognised(s, st.next, rest)
  }

  /** The list the driver collects along the steps: their outputs, then EOF, or Error at a stray character. */
  function Emitted(steps: Steps): (r: seq<TokenType>)
  {
    match steps
    case End => [EOF]
    case Then(st, rest) => if st.form.Stray? then [Error] else Out(st.form) + Emitted(rest)
  }

  /** What the driver collects over recognised steps is what the steps emit. */
  lemma {:induction false} CollectAll(s: string, i: nat, steps: Steps)
    ensures Recognised(s, i, steps) ==> i <= |s| && Kinds(s, i) == Emitted(steps)
    decreases steps
  {
    if Recognised(s, i, steps) {
      match steps
      case End =>
        KindsAtEnd(s);
      case Then(st, rest) =>
        if st.form.Stray? {
          CollectStray(s, i);
        } else {
          CollectStep(s, i, st);
          CollectAll(s, st.next, rest);
        }
    }
  }

  // ---------------------------------------------------------------------------
  // The lexer object: a cursor over the input

  /**
   * Lexer::new: the input, the rule table, the Error and EOF sentinels and
   * the ignored kinds, fixed at construction, and a position that only
   * popping moves.
   */
  class Lexer {
    const input: string
    /** The tables Lexer::new hands to the base lexer: the rules, the error and end kinds, the ignored set. */
    const rules: seq<TokenType> := Rules
    const errorKind: TokenType := Error
    const eofKind: TokenType := EOF
    const ignored: set<TokenType> := Ignored
    var pos: nat

    ghost predicate Valid()
      reads this
    {
      pos <= |input|
    }

    constructor(input: string)
      ensures Valid() && this.input == input && pos == 0
    {
      this.input := input;
      pos := 0;
    }

    /**
     * Tries every rule at the cursor in declaration order and keeps the
     * first of the longest matches.
     */
    method LongestMatch() returns (kind: TokenType, n: nat)
      requires Valid() && pos < |input|
      ensures (kind, n) == Scan(input, pos)
      ensures 0 < n && pos + n <= |input|
    {
      var best := 0;
      n := MatchLen(rules[0], input, pos);
      var k := 1;
      while k < |rules|
        invariant 1 <= k <= |rules| && best < k
        invariant n == MatchLen(rules[best], input, pos)
        invariant forall m | 0 <= m < k :: MatchLen(rules[m], input, pos) <= n
        invariant forall m | 0 <= m < best :: MatchLen(rules[m], input, pos) < n
      {
        var len := MatchLen(rules[k], input, pos);
        if len > n {
          best, n := k, len;
        }
        assert forall m | 0 <= m < k + 1 :: MatchLen(rules[m], input, pos) <= n by {
          assert MatchLen(rules[k], input, pos) == len;
        }
        k := k + 1;
      }
      kind := rules[best];
      FirstLongestIsBest(rules, input, pos, best, n);
    }

    /**
     * BaseLexer::pop: the next token the consumer sees. Raw tokens of an
     * ignored kind are consumed and skipped; at the end of the input the
     * EOF token comes back and the cursor stays put.
     */
    method Pop() returns (t: Token)
      requires Valid()
      modifies this`pos
      ensures Valid()
      ensures (t, pos) == Next(input, old(pos))
    {
      ghost var next := Next(input, pos);
      while pos < |input|
        invariant Valid()
        invariant NextIs(input, pos, next)
        decreases |input| - pos
      {
        var token, skipped := Advance();
        if !skipped {
          return token;
        }
      }
      NextAtEnd(input, next);
      return Token(eofKind, pos, pos);
    }

    /**
     * One round of Pop: the raw token at the cursor is consumed; it is the
     * next token unless its kind is ignored, and then the next token is
     * whatever follows it.
     */
    method Advance() returns (t: Token, skipped: bool)
      requires Valid() && pos < |input|
      modifies this`pos
      ensures Valid() && old(pos) < pos
      ensures skipped ==> Next(input, pos) == Next(input, old(pos))
      ensures !skipped ==> (t, pos) == Next(input, old(pos))
    {
      var kind, n := LongestMatch();
      NextAt(input, pos, kind, n);
      t := Token(kind, pos, pos + n);
      skipped := kind in ignored;
      pos := pos + n;
    }
  }

  /** One pop of the test driver: the popped kind, then what the driver collects after it. */
  lemma KindsPopped(s: string, i: nat, t: Token, j: nat)
    requires i <= |s| && (t, j) == Next(s, i)
    ensures t.kind == EOF || t.kind == Error ==> Kinds(s, i) == [t.kind]
    ensures t.kind != EOF && t.kind != Error ==> i < j && Kinds(s, i) == [t.kind] + Kinds(s, j)
  {
  }

  /** What the test driver has collected after one more pop. */
  lemma CollectPopped(s: string, start: nat, res: seq<TokenType>, i: nat, t: Token, j: nat)
    requires start <= i <= |s| && Kinds(s, start) == res + Kinds(s, i) && (t, j) == Next(s, i)
    ensures t.kind == EOF || t.kind == Error ==> Kinds(s, start) == res + [t.kind]
    ensures t.kind != EOF && t.kind != Error ==> i < j && Kinds(s, start) == (res + [t.kind]) + Kinds(s, j)
  {
    KindsPopped(s, i, t, j);
    if t.kind != EOF && t.kind != Error {
      Regroup(res, t.kind, Kinds(s, j));
    }
  }

  lemma Regroup<T>(front: seq<T>, x: T, back: seq<T>)
    ensures front + ([x] + back) == (front + [x]) + back
  {
  }

  /** The test driver: pop until EOF or Error, collecting every kind popped. */
  method Tokens(l: Lexer) returns (res: seq<TokenType>)
    requires l.Valid()
    modifies l`pos
    ensures l.Valid()
    ensures res == Kinds(l.input, old(l.pos))
  {
    ghost var s, start := l.input, l.pos;
    res := [];
    while true
      invariant l.Valid() && l.input == s
      invariant Kinds(s, start) == res + Kinds(s, l.pos)
      decreases |s| - l.pos
    {
      ghost var p := l.pos;
      var t := l.Pop();
      CollectPopped(s, start, res, p, t, l.pos);
      res := res + [t.kind];
      if t.kind == l.eofKind || t.kind == l.errorKind {
        return;
      }
    }
  }

  // ---------------------------------------------------------------------------
  // The lexer's test scenarios (src/lexer.rs, tests module)

  /** `` echo `{foo} ``: a backquote and a brace form one ModeStart. */
  lemma Blocks(s: string)
    requires |s| == 11 && s[0] == 'e' && s[1] == 'c' && s[2] == 'h' && s[3] == 'o' && s[4] == ' ' && s[5] == '`'
    requires s[6] == '{' && s[7] == 'f' && s[8] == 'o' && s[9] == 'o' && s[10] == '}'
    ensures Kinds(s, 0) == [String, ModeStart, String, ModeEnd, EOF]
  {
    BlocksRecognised(s);
    CollectAll(s, 0, BlocksSteps);
    BlocksEmitted();
  }

  /** How each token of that input is recognised. */
  const BlocksSteps: Steps :=
    Then(Step(Letters(4), 5), Then(Step(Backquote, 7), Then(Step(Letters(3), 10),
    Then(Step(Punctuation(ModeEnd), 11), End))))

  lemma BlocksEmitted()
    ensures Emitted(BlocksSteps) == [String, ModeStart, String, ModeEnd, EOF]
  {
  }

  lemma BlocksRecognisedFrom7(s: string)
    requires |s| == 11 && s[7] == 'f' && s[8] == 'o' && s[9] == 'o' && s[10] == '}'
    ensures Recognised(s, 7,
      Then(Step(Letters(3), 10), Then(Step(Punctuation(ModeEnd), 11), End)))
  {
    var t4 := End;
    var t3 := Then(Step(Punctuation(ModeEnd), 11), t4);
    assert Recognised(s, 11, t4);
    assert Recognised(s, 10, t3);
  }

  lemma BlocksRecognised(s: string)
    requires |s| == 11 && s[0] == 'e' && s[1] == 'c' && s[2] == 'h' && s[3] == 'o' && s[4] == ' ' && s[5] == '`'
    requires s[6] == '{' && s[7] == 'f' && s[8] == 'o' && s[9] == 'o' && s[10] == '}'
    ensures Recognised(s, 0, BlocksSteps)
  {
    BlocksRecognisedFrom7(s);
    var t2 :=
      Then(Step(Letters(3), 10), Then(Step(Punctuation(ModeEnd), 11), End));
    var t1 := Then(Step(Backquote, 7), t2);
    assert Recognised(s, 7, t2);
    assert Recognised(s, 5, t1);
  }

  /** `echo foo.* abc??def`: a word with a wildcard is a Glob, a plain word a String. */
  lemma Globs(s: string)
    requires |s| == 19 && s[0] == 'e' && s[1] == 'c' && s[2] == 'h' && s[3] == 'o' && s[4] == ' ' && s[5] == 'f'
    requires s[6] == 'o' && s[7] == 'o' && s[8] == '.' && s[9] == '*' && s[10] == ' ' && s[11] == 'a'
    requires s[12] == 'b' && s[13] == 'c' && s[14] == '?' && s[15] == '?' && s[16] == 'd' && s[17] == 'e'
    requires s[18] == 'f'
    ensures Kinds(s, 0) == [String, Glob, Glob, EOF]
  {
    GlobsRecognised(s);
    CollectAll(s, 0, GlobsSteps);
    GlobsEmitted();
  }

  /** How each token of that input is recognised. */
  const GlobsSteps: Steps :=
    Then(Step(Letters(4), 5), Then(Step(Pattern(5, 9), 11), Then(Step(Pattern(8, 14), 19), End)))

  lemma GlobsEmitted()
    ensures Emitted(GlobsSteps) == [String, Glob, Glob, EOF]
  {
  }

  lemma GlobsRecognisedFrom11(s: string)
    requires |s| == 19 && s[11] == 'a' && s[12] == 'b' && s[13] == 'c' && s[14] == '?' && s[15] == '?'
    requires s[16] == 'd' && s[17] == 'e' && s[18] == 'f'
    ensures Recognised(s, 11,
      Then(Step(Pattern(8, 14), 19), End))
  {
    var t3 := End;
    assert Recognised(s, 19, t3);
  }

  lemma GlobsRecognised(s: string)
    requires |s| == 19 && s[0] == 'e' && s[1] == 'c' && s[2] == 'h' && s[3] == 'o' && s[4] == ' ' && s[5] == 'f'
    requires s[6] == 'o' && s[7] == 'o' && s[8] == '.' && s[9] == '*' && s[10] == ' ' && s[11] == 'a'
    requires s[12] == 'b' && s[13] == 'c' && s[14] == '?' && s[15] == '?' && s[16] == 'd' && s[17] == 'e'
    requires s[18] == 'f'
    ensures Recognised(s, 0, GlobsSteps)
  {
    GlobsRecognisedFrom11(s);
    var t2 :=
      Then(Step(Pattern(8, 14), 19), End);
    var t1 := Then(Step(Pattern(5, 9), 11), t2);
    assert Recognised(s, 11, t2);
    assert Recognised(s, 5, t1);
  }

  /** `[a]`: brackets are subscript delimiters. */
  lemma List(s: string)
    requires |s| == 3 && s[0] == '[' && s[1] == 'a' && s[2] == ']'
    ensures Kinds(s, 0) == [SubscriptStart, String, SubscriptEnd, EOF]
  {
    ListRecognised(s);
    CollectAll(s, 0, ListSteps);
    ListEmitted();
  }

  /** How each token of that input is recognised. */
  const ListSteps: Steps :=
    Then(Step(Punctuation(SubscriptStart), 1), Then(Step(Letters(1), 2),
    Then(Step(Punctuation(SubscriptEnd), 3), End)))

  lemma ListEmitted()
    ensures Emitted(ListSteps) == [SubscriptStart, String, SubscriptEnd, EOF]
  {
  }

  lemma ListRecognisedFrom2(s: string)
    requires |s| == 3 && s[2] == ']'
    ensures Recognised(s, 2,
      Then(Step(Punctuation(SubscriptEnd), 3), End))
  {
    var t3 := End;
    assert Recognised(s, 3, t3);
  }

  lemma ListRecognised(s: string)
    requires |s| == 3 && s[0] == '[' && s[1] == 'a' && s[2] == ']'
    ensures Recognised(s, 0, ListSteps)
  {
    ListRecognisedFrom2(s);
    var t2 :=
      Then(Step(Punctuation(SubscriptEnd), 3), End);
    var t1 := Then(Step(Letters(1), 2), t2);
    assert Recognised(s, 2, t2);
    assert Recognised(s, 1, t1);
  }

  /** `a|b;c`: pipes and separators split words without whitespace. */
  lemma Separators(s: string)
    requires |s| == 5 && s[0] == 'a' && s[1] == '|' && s[2] == 'b' && s[3] == ';' && s[4] == 'c'
    ensures Kinds(s, 0) == [String, Pipe, String, Separator, String, EOF]
  {
    SeparatorsRecognised(s);
    CollectAll(s, 0, SeparatorsSteps);
    SeparatorsEmitted();
  }

  /** How each token of that input is recognised. */
  const SeparatorsSteps: Steps :=
    Then(Step(Letters(1), 1), Then(Step(Punctuation(Pipe), 2), Then(Step(Letters(1), 3),
    Then(Step(Punctuation(Separator), 4), Then(Step(Letters(1), 5), End)))))

  lemma SeparatorsEmitted()
    ensures Emitted(SeparatorsSteps) == [String, Pipe, String, Separator, String, EOF]
  {
  }

  lemma SeparatorsRecognisedFrom4(s: string)
    requires |s| == 5 && s[4] == 'c'
    ensures Recognised(s, 4,
      Then(Step(Letters(1), 5), End))
  {
    var t5 := End;
    assert Recognised(s, 5, t5);
  }

  lemma SeparatorsRecognisedFrom2(s: string)
    requires |s| == 5 && s[2] == 'b' && s[3] == ';' && s[4] == 'c'
    ensures Recognised(s, 2,
      Then(Step(Letters(1), 3), Then(Step(Punctuation(Separator), 4), Then(Step(Letters(1), 5), End))))
  {
    SeparatorsRecognisedFrom4(s);
    var t4 :=
      Then(Step(Letters(1), 5), End);
    var t3 := Then(Step(Punctuation(Separator), 4), t4);
    assert Recognised(s, 4, t4);
    assert Recognised(s, 3, t3);
  }

  lemma SeparatorsRecognised(s: string)
    requires |s| == 5 && s[0] == 'a' && s[1] == '|' && s[2] == 'b' && s[3] == ';' && s[4] == 'c'
    ensures Recognised(s, 0, SeparatorsSteps)
  {
    SeparatorsRecognisedFrom2(s);
    var t2 :=
      Then(Step(Letters(1), 3), Then(Step(Punctuation(Separator), 4), Then(Step(Letters(1), 5), End)));
    var t1 := Then(Step(Punctuation(Pipe), 2), t2);
    assert Recognised(s, 2, t2);
    assert Recognised(s, 1, t1);
  }

  /** `a # this is a comment`: the comment never reaches the consumer. */
  lemma Comments(s: string)
    requires |s| == 21 && s[0] == 'a' && s[1] == ' ' && s[2] == '#' && s[3] == ' ' && s[4] == 't' && s[5] == 'h'
    requires s[6] == 'i' && s[7] == 's' && s[8] == ' ' && s[9] == 'i' && s[10] == 's' && s[11] == ' '
    requires s[12] == 'a' && s[13] == ' ' && s[14] == 'c' && s[15] == 'o' && s[16] == 'm' && s[17] == 'm'
    requires s[18] == 'e' && s[19] == 'n' && s[20] == 't'
    ensures Kinds(s, 0) == [String, EOF]
  {
    CommentsRecognised(s);
    CollectAll(s, 0, CommentsSteps);
    CommentsEmitted();
  }

  /** How each token of that input is recognised. */
  const CommentsSteps: Steps :=
    Then(Step(Letters(1), 2), Then(Step(Remark(18), 21), End))

  lemma CommentsEmitted()
    ensures Emitted(CommentsSteps) == [String, EOF]
  {
  }

  lemma CommentsRecognised(s: string)
    requires |s| == 21 && s[0] == 'a' && s[1] == ' ' && s[2] == '#' && s[3] == ' ' && s[4] == 't' && s[5] == 'h'
    requires s[6] == 'i' && s[7] == 's' && s[8] == ' ' && s[9] == 'i' && s[10] == 's' && s[11] == ' '
    requires s[12] == 'a' && s[13] == ' ' && s[14] == 'c' && s[15] == 'o' && s[16] == 'm' && s[17] == 'm'
    requires s[18] == 'e' && s[19] == 'n' && s[20] == 't'
    ensures Recognised(s, 0, CommentsSteps)
  {
    var t2 := End;
    var t1 := Then(Step(Remark(18), 21), t2);
    assert Recognised(s, 21, t2);
    assert Recognised(s, 2, t1);
  }

  /** `b 2 d`: whitespace between tokens is dropped. */
  lemma Numbers(s: string)
    requires |s| == 5 && s[0] == 'b' && s[1] == ' ' && s[2] == '2' && s[3] == ' ' && s[4] == 'd'
    ensures Kinds(s, 0) == [String, Integer, String, EOF]
  {
    NumbersRecognised(s);
    CollectAll(s, 0, NumbersSteps);
    NumbersEmitted();
  }

  /** How each token of that input is recognised. */
  const NumbersSteps: Steps :=
    Then(Step(Letters(1), 2), Then(Step(Digits(1), 4), Then(Step(Letters(1), 5), End)))

  lemma NumbersEmitted()
    ensures Emitted(NumbersSteps) == [String, Integer, String, EOF]
  {
  }

  lemma NumbersRecognisedFrom4(s: string)
    requires |s| == 5 && s[4] == 'd'
    ensures Recognised(s, 4,
      Then(Step(Letters(1), 5), End))
  {
    var t3 := End;
    assert Recognised(s, 5, t3);
  }

  lemma NumbersRecognised(s: string)
    requires |s| == 5 && s[0] == 'b' && s[1] == ' ' && s[2] == '2' && s[3] == ' ' && s[4] == 'd'
    ensures Recognised(s, 0, NumbersSteps)
  {
    NumbersRecognisedFrom4(s);
    var t2 :=
      Then(Step(Letters(1), 5), End);
    var t1 := Then(Step(Digits(1), 4), t2);
    assert Recognised(s, 4, t2);
    assert Recognised(s, 2, t1);
  }

  /** ` "abc"  "\" ggg" "\d \\"  `: each quoted string, escapes included, is one token. */
  lemma QuotedStrings(s: string)
    requires |s| == 26 && s[0] == ' ' && s[1] == '\"' && s[2] == 'a' && s[3] == 'b' && s[4] == 'c'
    requires s[5] == '\"' && s[6] == ' ' && s[7] == ' ' && s[8] == '\"' && s[9] == '\\' && s[10] == '\"'
    requires s[11] == ' ' && s[12] == 'g' && s[13] == 'g' && s[14] == 'g' && s[15] == '\"' && s[16] == ' '
    requires s[17] == '\"' && s[18] == '\\' && s[19] == 'd' && s[20] == ' ' && s[21] == '\\' && s[22] == '\\'
    requires s[23] == '\"' && s[24] == ' ' && s[25] == ' '
    ensures Kinds(s, 0) == [QuotedString, QuotedString, QuotedString, EOF]
  {
    QuotedStringsRecognised(s);
    CollectAll(s, 0, QuotedStringsSteps);
    QuotedStringsEmitted();
  }

  /** How each token of that input is recognised. */
  const QuotedStringsSteps: Steps :=
    Then(Step(Blank, 1), Then(Step(Quoted, 8), Then(Step(Quoted, 17), Then(Step(Quoted, 26), End))))

  lemma QuotedStringsEmitted()
    ensures Emitted(QuotedStringsSteps) == [QuotedString, QuotedString, QuotedString, EOF]
  {
  }

  lemma QuotedStringsRecognisedFrom8(s: string)
    requires |s| == 26 && s[8] == '\"' && s[9] == '\\' && s[10] == '\"' && s[11] == ' ' && s[12] == 'g'
    requires s[13] == 'g' && s[14] == 'g' && s[15] == '\"' && s[16] == ' ' && s[17] == '\"' && s[18] == '\\'
    requires s[19] == 'd' && s[20] == ' ' && s[21] == '\\' && s[22] == '\\' && s[23] == '\"' && s[24] == ' '
    requires s[25] == ' '
    ensures Recognised(s, 8,
      Then(Step(Quoted, 17), Then(Step(Quoted, 26), End)))
  {
    assert EscapedRun(s, 15, '"') == 0;
    assert EscapedRun(s, 13, '"') == 2;
    assert EscapedRun(s, 11, '"') == 4;
    assert EscapedRun(s, 9, '"') == 6;
    assert EscapedRun(s, 23, '"') == 0;
    assert EscapedRun(s, 20, '"') == 3;
    assert EscapedRun(s, 18, '"') == 5;
    var t4 := End;
    var t3 := Then(Step(Quoted, 26), t4);
    assert Recognised(s, 26, t4);
    assert Recognised(s, 17, t3);
  }

  lemma QuotedStringsRecognised(s: string)
    requires |s| == 26 && s[0] == ' ' && s[1] == '\"' && s[2] == 'a' && s[3] == 'b' && s[4] == 'c'
    requires s[5] == '\"' && s[6] == ' ' && s[7] == ' ' && s[8] == '\"' && s[9] == '\\' && s[10] == '\"'
    requires s[11] == ' ' && s[12] == 'g' && s[13] == 'g' && s[14] == 'g' && s[15] == '\"' && s[16] == ' '
    requires s[17] == '\"' && s[18] == '\\' && s[19] == 'd' && s[20] == ' ' && s[21] == '\\' && s[22] == '\\'
    requires s[23] == '\"' && s[24] == ' ' && s[25] == ' '
    ensures Recognised(s, 0, QuotedStringsSteps)
  {
    assert EscapedRun(s, 5, '"') == 0;
    assert EscapedRun(s, 3, '"') == 2;
    assert EscapedRun(s, 2, '"') == 3;
    QuotedStringsRecognisedFrom8(s);
    var t2 :=
      Then(Step(Quoted, 17), Then(Step(Quoted, 26), End));
    var t1 := Then(Step(Quoted, 8), t2);
    assert Recognised(s, 8, t2);
    assert Recognised(s, 1, t1);
  }

  /** `foo=bar baz = 7`: `=` is not part of a word, with or without spaces around it. */
  lemma Assignments(s: string)
    requires |s| == 15 && s[0] == 'f' && s[1] == 'o' && s[2] == 'o' && s[3] == '=' && s[4] == 'b' && s[5] == 'a'
    requires s[6] == 'r' && s[7] == ' ' && s[8] == 'b' && s[9] == 'a' && s[10] == 'z' && s[11] == ' '
    requires s[12] == '=' && s[13] == ' ' && s[14] == '7'
    ensures Kinds(s, 0) == [String, Assign, String, String, Assign, Integer, EOF]
  {
    AssignmentsRecognised(s);
    CollectAll(s, 0, AssignmentsSteps);
    AssignmentsEmitted();
  }

  /** How each token of that input is recognised. */
  const AssignmentsSteps: Steps :=
    Then(Step(Letters(3), 3), Then(Step(Op(Assign), 4), Then(Step(Letters(3), 8), Then(Step(Letters(3), 12),
    Then(Step(Op(Assign), 14), Then(Step(Digits(1), 15), End))))))

  lemma AssignmentsEmitted()
    ensures Emitted(AssignmentsSteps) == [String, Assign, String, String, Assign, Integer, EOF]
  {
  }

  lemma AssignmentsRecognisedFrom12(s: string)
    requires |s| == 15 && s[12] == '=' && s[13] == ' ' && s[14] == '7'
    ensures Recognised(s, 12,
      Then(Step(Op(Assign), 14), Then(Step(Digits(1), 15), End)))
  {
    var t6 := End;
    var t5 := Then(Step(Digits(1), 15), t6);
    assert Recognised(s, 15, t6);
    assert Recognised(s, 14, t5);
  }

  lemma AssignmentsRecognisedFrom4(s: string)
    requires |s| == 15 && s[4] == 'b' && s[5] == 'a' && s[6] == 'r' && s[7] == ' ' && s[8] == 'b' && s[9] == 'a'
    requires s[10] == 'z' && s[11] == ' ' && s[12] == '=' && s[13] == ' ' && s[14] == '7'
    ensures Recognised(s, 4,
      Then(Step(Letters(3), 8), Then(Step(Letters(3), 12), Then(Step(Op(Assign), 14), Then(Step(Digits(1), 15), End)))))
  {
    AssignmentsRecognisedFrom12(s);
    var t4 :=
      Then(Step(Op(Assign), 14), Then(Step(Digits(1), 15), End));
    var t3 := Then(Step(Letters(3), 12), t4);
    assert Recognised(s, 12, t4);
    assert Recognised(s, 8, t3);
  }

  lemma AssignmentsRecognised(s: string)
    requires |s| == 15 && s[0] == 'f' && s[1] == 'o' && s[2] == 'o' && s[3] == '=' && s[4] == 'b' && s[5] == 'a'
    requires s[6] == 'r' && s[7] == ' ' && s[8] == 'b' && s[9] == 'a' && s[10] == 'z' && s[11] == ' '
    requires s[12] == '=' && s[13] == ' ' && s[14] == '7'
    ensures Recognised(s, 0, AssignmentsSteps)
  {
    AssignmentsRecognisedFrom4(s);
    var t2 :=
      Then(Step(Letters(3), 8), Then(Step(Letters(3), 12), Then(Step(Op(Assign), 14), Then(Step(Digits(1), 15), End))));
    var t1 := Then(Step(Op(Assign), 4), t2);
    assert Recognised(s, 4, t2);
    assert Recognised(s, 3, t1);
  }

  /** `== >= > < <= !=`: every two-character operator is one token, though a one-character rule is declared first. */
  lemma ComparisonOperators(s: string)
    requires |s| == 15 && s[0] == '=' && s[1] == '=' && s[2] == ' ' && s[3] == '>' && s[4] == '=' && s[5] == ' '
    requires s[6] == '>' && s[7] == ' ' && s[8] == '<' && s[9] == ' ' && s[10] == '<' && s[11] == '='
    requires s[12] == ' ' && s[13] == '!' && s[14] == '='
    ensures Kinds(s, 0) == [Equal, GreaterThanOrEqual, GreaterThan, LessThan, LessThanOrEqual, NotEqual, EOF]
  {
    ComparisonOperatorsRecognised(s);
    CollectAll(s, 0, ComparisonOperatorsSteps);
    ComparisonOperatorsEmitted();
  }

  /** How each token of that input is recognised. */
  const ComparisonOperatorsSteps: Steps :=
    Then(Step(Op(Equal), 3), Then(Step(Op(GreaterThanOrEqual), 6), Then(Step(Op(GreaterThan), 8),
    Then(Step(Op(LessThan), 10), Then(Step(Op(LessThanOrEqual), 13), Then(Step(Op(NotEqual), 15), End))))))

  lemma ComparisonOperatorsEmitted()
    ensures Emitted(ComparisonOperatorsSteps) == [Equal, GreaterThanOrEqual, GreaterThan, LessThan, LessThanOrEqual, NotEqual, EOF]
  {
  }

  lemma ComparisonOperatorsRecognisedFrom10(s: string)
    requires |s| == 15 && s[10] == '<' && s[11] == '=' && s[12] == ' ' && s[13] == '!' && s[14] == '='
    ensures Recognised(s, 10,
      Then(Step(Op(LessThanOrEqual), 13), Then(Step(Op(NotEqual), 15), End)))
  {
    var t6 := End;
    var t5 := Then(Step(Op(NotEqual), 15), t6);
    assert Recognised(s, 15, t6);
    assert Recognised(s, 13, t5);
  }

  lemma ComparisonOperatorsRecognisedFrom6(s: string)
    requires |s| == 15 && s[6] == '>' && s[7] == ' ' && s[8] == '<' && s[9] == ' ' && s[10] == '<'
    requires s[11] == '=' && s[12] == ' ' && s[13] == '!' && s[14] == '='
    ensures Recognised(s, 6,
      Then(Step(Op(GreaterThan), 8), Then(Step(Op(LessThan), 10), Then(Step(Op(LessThanOrEqual), 13),
      Then(Step(Op(NotEqual), 15), End)))))
  {
    ComparisonOperatorsRecognisedFrom10(s);
    var t4 :=
      Then(Step(Op(LessThanOrEqual), 13), Then(Step(Op(NotEqual), 15), End));
    var t3 := Then(Step(Op(LessThan), 10), t4);
    assert Recognised(s, 10, t4);
    assert Recognised(s, 8, t3);
  }

  lemma ComparisonOperatorsRecognised(s: string)
    requires |s| == 15 && s[0] == '=' && s[1] == '=' && s[2] == ' ' && s[3] == '>' && s[4] == '=' && s[5] == ' '
    requires s[6] == '>' && s[7] == ' ' && s[8] == '<' && s[9] == ' ' && s[10] == '<' && s[11] == '='
    requires s[12] == ' ' && s[13] == '!' && s[14] == '='
    ensures Recognised(s, 0, ComparisonOperatorsSteps)
  {
    ComparisonOperatorsRecognisedFrom6(s);
    var t2 :=
      Then(Step(Op(GreaterThan), 8), Then(Step(Op(LessThan), 10), Then(Step(Op(LessThanOrEqual), 13),
      Then(Step(Op(NotEqual), 15), End))));
    var t1 := Then(Step(Op(GreaterThanOrEqual), 6), t2);
    assert Recognised(s, 6, t2);
    assert Recognised(s, 3, t1);
  }

  /** `$foo %bar $foo.bar %baz.qux`: a sigil and a dotted name form one token. */
  lemma VariablesAndFields(s: string)
    requires |s| == 27 && s[0] == '$' && s[1] == 'f' && s[2] == 'o' && s[3] == 'o' && s[4] == ' ' && s[5] == '%'
    requires s[6] == 'b' && s[7] == 'a' && s[8] == 'r' && s[9] == ' ' && s[10] == '$' && s[11] == 'f'
    requires s[12] == 'o' && s[13] == 'o' && s[14] == '.' && s[15] == 'b' && s[16] == 'a' && s[17] == 'r'
    requires s[18] == ' ' && s[19] == '%' && s[20] == 'b' && s[21] == 'a' && s[22] == 'z' && s[23] == '.'
    requires s[24] == 'q' && s[25] == 'u' && s[26] == 'x'
    ensures Kinds(s, 0) == [Variable, Field, Variable, Field, EOF]
  {
    VariablesAndFieldsRecognised(s);
    CollectAll(s, 0, VariablesAndFieldsSteps);
    VariablesAndFieldsEmitted();
  }

  /** How each token of that input is recognised. */
  const VariablesAndFieldsSteps: Steps :=
    Then(Step(SigilName(Variable, 4), 5), Then(Step(SigilName(Field, 4), 10),
    Then(Step(SigilName(Variable, 8), 19), Then(Step(SigilName(Field, 8), 27), End))))

  lemma VariablesAndFieldsEmitted()
    ensures Emitted(VariablesAndFieldsSteps) == [Variable, Field, Variable, Field, EOF]
  {
  }

  lemma VariablesAndFieldsRecognisedFrom10(s: string)
    requires |s| == 27 && s[10] == '$' && s[11] == 'f' && s[12] == 'o' && s[13] == 'o' && s[14] == '.'
    requires s[15] == 'b' && s[16] == 'a' && s[17] == 'r' && s[18] == ' ' && s[19] == '%' && s[20] == 'b'
    requires s[21] == 'a' && s[22] == 'z' && s[23] == '.' && s[24] == 'q' && s[25] == 'u' && s[26] == 'x'
    ensures Recognised(s, 10,
      Then(Step(SigilName(Variable, 8), 19), Then(Step(SigilName(Field, 8), 27), End)))
  {
    var t4 := End;
    var t3 := Then(Step(SigilName(Field, 8), 27), t4);
    assert Recognised(s, 27, t4);
    assert Recognised(s, 19, t3);
  }

  lemma VariablesAndFieldsRecognised(s: string)
    requires |s| == 27 && s[0] == '$' && s[1] == 'f' && s[2] == 'o' && s[3] == 'o' && s[4] == ' ' && s[5] == '%'
    requires s[6] == 'b' && s[7] == 'a' && s[8] == 'r' && s[9] == ' ' && s[10] == '$' && s[11] == 'f'
    requires s[12] == 'o' && s[13] == 'o' && s[14] == '.' && s[15] == 'b' && s[16] == 'a' && s[17] == 'r'
    requires s[18] == ' ' && s[19] == '%' && s[20] == 'b' && s[21] == 'a' && s[22] == 'z' && s[23] == '.'
    requires s[24] == 'q' && s[25] == 'u' && s[26] == 'x'
    ensures Recognised(s, 0, VariablesAndFieldsSteps)
  {
    VariablesAndFieldsRecognisedFrom10(s);
    var t2 :=
      Then(Step(SigilName(Variable, 8), 19), Then(Step(SigilName(Field, 8), 27), End));
    var t1 := Then(Step(SigilName(Field, 4), 10), t2);
    assert Recognised(s, 10, t2);
    assert Recognised(s, 5, t1);
  }

  /** `   r{^.$}   r{{foo\}}  `: a regex literal, braces and escapes included, is one token. */
  lemma Regexes(s: string)
    requires |s| == 23 && s[0] == ' ' && s[1] == ' ' && s[2] == ' ' && s[3] == 'r' && s[4] == '{' && s[5] == '^'
    requires s[6] == '.' && s[7] == '$' && s[8] == '}' && s[9] == ' ' && s[10] == ' ' && s[11] == ' '
    requires s[12] == 'r' && s[13] == '{' && s[14] == '{' && s[15] == 'f' && s[16] == 'o' && s[17] == 'o'
    requires s[18] == '\\' && s[19] == '}' && s[20] == '}' && s[21] == ' ' && s[22] == ' '
    ensures Kinds(s, 0) == [Regex, Regex, EOF]
  {
    RegexesRecognised(s);
    CollectAll(s, 0, RegexesSteps);
    RegexesEmitted();
  }

  /** How each token of that input is recognised. */
  const RegexesSteps: Steps :=
    Then(Step(Blank, 3), Then(Step(RegexLiteral, 12), Then(Step(RegexLiteral, 23), End)))

  lemma RegexesEmitted()
    ensures Emitted(RegexesSteps) == [Regex, Regex, EOF]
  {
  }

  lemma RegexesRecognisedFrom12(s: string)
    requires |s| == 23 && s[12] == 'r' && s[13] == '{' && s[14] == '{' && s[15] == 'f' && s[16] == 'o'
    requires s[17] == 'o' && s[18] == '\\' && s[19] == '}' && s[20] == '}' && s[21] == ' ' && s[22] == ' '
    ensures Recognised(s, 12,
      Then(Step(RegexLiteral, 23), End))
  {
    assert EscapedRun(s, 20, '}') == 0;
    assert EscapedRun(s, 18, '}') == 2;
    assert EscapedRun(s, 16, '}') == 4;
    assert EscapedRun(s, 14, '}') == 6;
    var t3 := End;
    assert Recognised(s, 23, t3);
  }

  lemma RegexesRecognised(s: string)
    requires |s| == 23 && s[0] == ' ' && s[1] == ' ' && s[2] == ' ' && s[3] == 'r' && s[4] == '{' && s[5] == '^'
    requires s[6] == '.' && s[7] == '$' && s[8] == '}' && s[9] == ' ' && s[10] == ' ' && s[11] == ' '
    requires s[12] == 'r' && s[13] == '{' && s[14] == '{' && s[15] == 'f' && s[16] == 'o' && s[17] == 'o'
    requires s[18] == '\\' && s[19] == '}' && s[20] == '}' && s[21] == ' ' && s[22] == ' '
    ensures Recognised(s, 0, RegexesSteps)
  {
    assert EscapedRun(s, 8, '}') == 0;
    assert EscapedRun(s, 6, '}') == 2;
    assert EscapedRun(s, 5, '}') == 3;
    RegexesRecognisedFrom12(s);
    var t2 :=
      Then(Step(RegexLiteral, 23), End);
    var t1 := Then(Step(RegexLiteral, 12), t2);
    assert Recognised(s, 12, t2);
    assert Recognised(s, 3, t1);
  }

  /** `a @ b`: a character that only the fallback rule accepts is a one-character Error, and collection stops there. */
  lemma StrayCharacter(s: string)
    requires |s| == 5 && s[0] == 'a' && s[1] == ' ' && s[2] == '@' && s[3] == ' ' && s[4] == 'b'
    ensures Kinds(s, 0) == [String, Error]
  {
    StrayCharacterRecognised(s);
    CollectAll(s, 0, StrayCharacterSteps);
    StrayCharacterEmitted();
  }

  /** How each token of that input is recognised. */
  const StrayCharacterSteps: Steps :=
    Then(Step(Letters(1), 2), Then(Step(Stray, 3), End))

  lemma StrayCharacterEmitted()
    ensures Emitted(StrayCharacterSteps) == [String, Error]
  {
  }

  lemma StrayCharacterRecognised(s: string)
    requires |s| == 5 && s[0] == 'a' && s[1] == ' ' && s[2] == '@' && s[3] == ' ' && s[4] == 'b'
    ensures Recognised(s, 0, StrayCharacterSteps)
  {
    var t2 := End;
    var t1 := Then(Step(Stray, 3), t2);
    assert Recognised(s, 2, t1);
  }
}

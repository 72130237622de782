/**
 * The string methods (src/lib/string/mod.rs): the method registry and the
 * `upper`, `lower`, `split` and `trim` methods, each on the receiver's text.
 */
module StringMethods {
  import opened Wrappers
  import opened Values

  // ---------------------------------------------------------------------------
  // The registry

  datatype StringMethod = UpperMethod | LowerMethod | SplitMethod | TrimMethod | FormatMethod

  /** `STRING_METHODS`: each key with the command it names; none of them may block. */
  const Registry: map<string, StringMethod> := map[
    "upper" := UpperMethod,
    "lower" := LowerMethod,
    "split" := SplitMethod,
    "trim" := TrimMethod,
    "format" := FormatMethod
  ]

  /** The registry holds exactly five keys, each naming its own method. */
  lemma RegistryKeys()
    ensures Registry.Keys == {"upper", "lower", "split", "trim", "format"}
    ensures |Registry| == 5
    ensures Registry["upper"] == UpperMethod && Registry["lower"] == LowerMethod
    ensures Registry["split"] == SplitMethod && Registry["trim"] == TrimMethod
    ensures Registry["format"] == FormatMethod
  {
    assert "upper"[0] != "lower"[0] && "split"[1] != "format"[1];
  }

  /** `this.text()`: the receiver's text, if it is a string. */
  function Text(self: Value): (r: Result<string, Error>)
    ensures r.Success? <==> self.String?
    ensures r.Success? ==> r.value == self.s
    ensures r.Failure? ==> r.error == WrongReceiver(StringV)
  {
    if self.String? then Success(self.s) else Failure(WrongReceiver(StringV))
  }

  // ---------------------------------------------------------------------------
  // Case mapping

  predicate IsLower(c: char) { 'a' <= c <= 'z' }
  predicate IsUpper(c: char) { 'A' <= c <= 'Z' }

  function UpperChar(c: char): (d: char)
    ensures !IsLower(d)
    ensures IsLower(c) ==> IsUpper(d) && d as int == c as int - 32
    ensures !IsLower(c) ==> d == c
  {
    if IsLower(c) then (c as int - 32) as char else c
  }

  function LowerChar(c: char): (d: char)
    ensures !IsUpper(d)
    ensures IsUpper(c) ==> IsLower(d) && d as int == c as int + 32
    ensures !IsUpper(c) ==> d == c
  {
    if IsUpper(c) then (c as int + 32) as char else c
  }

  /** to_uppercase over ASCII: every lowercase letter becomes its capital, the rest stays. */
  function ToUpper(s: string): (r: string)
    ensures |r| == |s|
    ensures forall i | 0 <= i < |s| :: r[i] == UpperChar(s[i])
  {
    seq(|s|, i requires 0 <= i < |s| => UpperChar(s[i]))
  }

  /** to_lowercase over ASCII: every capital becomes its lowercase letter, the rest stays. */
  function ToLower(s: string): (r: string)
    ensures |r| == |s|
    ensures forall i | 0 <= i < |s| :: r[i] == LowerChar(s[i])
  {
    seq(|s|, i requires 0 <= i < |s| => LowerChar(s[i]))
  }

  /**
   * After `upper` no lowercase letter is left and every other character is
   * unchanged; after `lower` the same holds for capitals.
   */
  lemma CaseMapping(s: string)
    ensures forall i | 0 <= i < |s| :: !IsLower(ToUpper(s)[i]) && (!IsLower(s[i]) ==> ToUpper(s)[i] == s[i])
    ensures forall i | 0 <= i < |s| :: !IsUpper(ToLower(s)[i]) && (!IsUpper(s[i]) ==> ToLower(s)[i] == s[i])
  {
  }

  /** Case mapping only looks at the letters: each direction undoes the other up to case, and repeats change nothing. */
  lemma {:induction false} CaseRoundTrips(s: string)
    ensures ToUpper(ToUpper(s)) == ToUpper(s) && ToLower(ToLower(s)) == ToLower(s)
    ensures ToUpper(ToLower(s)) == ToUpper(s) && ToLower(ToUpper(s)) == ToLower(s)
  {
    forall i | 0 <= i < |s|
      ensures UpperChar(LowerChar(s[i])) == UpperChar(s[i]) && LowerChar(UpperChar(s[i])) == LowerChar(s[i])
    {
      var c := s[i];
      if IsUpper(c) {
        assert LowerChar(c) as int == c as int + 32;
      } else if IsLower(c) {
        assert UpperChar(c) as int == c as int - 32;
      }
    }
  }

  // ---------------------------------------------------------------------------
  // Trimming

  /** Unicode White_Space, which `char::is_whitespace` and `str::trim` use. */
  predicate IsWhitespace(c: char) {
    ('\U{0009}' <= c <= '\U{000D}') || c == '\U{0020}' || c == '\U{0085}' || c == '\U{00A0}'
    || c == '\U{1680}' || ('\U{2000}' <= c <= '\U{200A}') || c == '\U{2028}' || c == '\U{2029}'
    || c == '\U{202F}' || c == '\U{205F}' || c == '\U{3000}'
  }

  /** The position of the first character that is not whitespace, or the length. */
  function TrimStart(s: string): (i: nat)
    ensures i <= |s|
    ensures forall k | 0 <= k < i :: IsWhitespace(s[k])
    ensures i < |s| ==> !IsWhitespace(s[i])
  {
    if s == [] || !IsWhitespace(s[0]) then 0
    else
      assert forall k | 1 <= k < |s| :: s[1..][k - 1] == s[k];
      1 + TrimStart(s[1..])
  }

  /** The position after the last character that is not whitespace, or 0. */
  function TrimEnd(s: string): (j: nat)
    ensures j <= |s|
    ensures forall k | j <= k < |s| :: IsWhitespace(s[k])
    ensures j > 0 ==> !IsWhitespace(s[j - 1])
  {
    if s == [] || !IsWhitespace(s[|s| - 1]) then |s|
    else TrimEnd(s[..|s| - 1])
  }

  /** str::trim: the text without its leading and trailing whitespace. */
  function Trim(s: string): (r: string)
  {
    var i := TrimStart(s);
    var j := TrimEnd(s);
    if j <= i then [] else s[i..j]
  }

  /**
   * `trim` gives the contiguous part of the text from its first to its last
   * character that is not whitespace; everything cut off is whitespace.
   */
  lemma TrimIsMaximal(s: string)
    ensures exists i, j | 0 <= i <= j <= |s| ::
      (Trim(s) == s[i..j] && (forall k | 0 <= k < i :: IsWhitespace(s[k])) && (forall k | j <= k < |s| :: IsWhitespace(s[k])))
    ensures Trim(s) != [] ==> !IsWhitespace(Trim(s)[0]) && !IsWhitespace(Trim(s)[|Trim(s)| - 1])
  {
    var i := TrimStart(s);
    var j := TrimEnd(s);
    if j <= i {
      assert Trim(s) == s[i..i];
    } else {
      assert Trim(s) == s[i..j];
    }
  }

  /** Trimming twice trims no more than trimming once. */
  lemma TrimIdempotent(s: string)
    ensures Trim(Trim(s)) == Trim(s)
  {
    var t := Trim(s);
    TrimIsMaximal(s);
    if t != [] {
      assert TrimStart(t) == 0;
      assert TrimEnd(t) == |t|;
      assert t[0..|t|] == t;
    }
  }

  // ---------------------------------------------------------------------------
  // Splitting

  /** `sep` occurs in `s` at position `i`. */
  predicate OccursAt(s: string, sep: string, i: nat) {
    i + |sep| <= |s| && s[i..i + |sep|] == sep
  }

  /** A slice of the text without its first character is the same slice of the text, one place on. */
  lemma SliceOfTail(s: string, i: nat, n: nat)
    requires 1 <= i && i + n <= |s|
    ensures s[1..][i - 1..i - 1 + n] == s[i..i + n]
  {
  }

  /** Dropping the first character shifts every occurrence after it one place left. */
  lemma OccursShift(s: string, sep: string)
    requires s != []
    ensures forall i | 1 <= i <= |s| :: OccursAt(s, sep, i) <==> OccursAt(s[1..], sep, i - 1)
  {
    forall i | 1 <= i <= |s|
      ensures OccursAt(s, sep, i) <==> OccursAt(s[1..], sep, i - 1)
    {
      if i + |sep| <= |s| {
        SliceOfTail(s, i, |sep|);
      }
    }
  }

  /** The leftmost position where a non-empty separator occurs, if any. */
  function Find(s: string, sep: string): (r: Option<nat>)
    requires sep != []
    ensures r.Some? ==> OccursAt(s, sep, r.value)
    ensures r.Some? ==> forall i | 0 <= i < r.value :: !OccursAt(s, sep, i)
    ensures r.None? ==> forall i | 0 <= i <= |s| :: !OccursAt(s, sep, i)
    decreases |s|
  {
    if |s| < |sep| then None
    else if s[..|sep|] == sep then Some(0)
    else
      OccursShift(s, sep);
      match Find(s[1..], sep)
      case None => None
      case Some(k) => Some(k + 1)
  }

  /**
   * str::split with a string pattern: the pieces between the separator's
   * non-overlapping occurrences, found from the left. An empty separator
   * matches at every position, giving an empty piece at each end and one
   * piece per character between them.
   */
  function Split(s: string, sep: string): (pieces: seq<string>)
    ensures |pieces| >= 1
  {
    if sep == [] then SplitChars(s) else SplitOn(s, sep)
  }

  /** The split at an empty separator: an empty piece, one piece per character, an empty piece. */
  function SplitChars(s: string): (pieces: seq<string>)
    ensures |pieces| == |s| + 2
    ensures pieces[0] == [] && pieces[|s| + 1] == []
    ensures forall k | 0 <= k < |s| :: pieces[k + 1] == [s[k]]
  {
    [[]] + seq(|s|, k requires 0 <= k < |s| => [s[k]]) + [[]]
  }

  /** The split at a non-empty separator. */
  function SplitOn(s: string, sep: string): (pieces: seq<string>)
    requires sep != []
    ensures |pieces| >= 1
    decreases |s|
  {
    match Find(s, sep)
    case None => [s]
    case Some(i) => [s[..i]] + SplitOn(s[i + |sep|..], sep)
  }

  /** One step of SplitOn at the leftmost occurrence `i`. */
  lemma SplitOnAt(s: string, sep: string, i: nat)
    requires sep != [] && Find(s, sep) == Some(i)
    ensures i + |sep| <= |s| && s == s[..i] + sep + s[i + |sep|..]
    ensures SplitOn(s, sep) == [s[..i]] + SplitOn(s[i + |sep|..], sep)
    ensures forall k | 0 <= k < i :: !OccursAt(s, sep, k)
  {
    AroundOccurrence(s, sep, i);
  }

  /** The text is what comes before an occurrence, the separator, and what comes after it. */
  lemma AroundOccurrence(s: string, sep: string, i: nat)
    requires OccursAt(s, sep, i)
    ensures s == s[..i] + sep + s[i + |sep|..]
  {
    assert s == s[..i] + s[i..i + |sep|] + s[i + |sep|..];
  }

  /** The pieces joined with the separator between them. */
  function Join(pieces: seq<string>, sep: string): string
    requires |pieces| >= 1
  {
    if |pieces| == 1 then pieces[0] else pieces[0] + sep + Join(pieces[1..], sep)
  }

  /** Joining the pieces of a split with the separator gives the text back. */
  lemma SplitJoin(s: string, sep: string)
    ensures Join(Split(s, sep), sep) == s
  {
    if sep == [] {
      JoinChars(s);
    } else {
      JoinOn(s, sep);
    }
  }

  /** SplitJoin for a non-empty separator. */
  lemma {:induction false} JoinOn(s: string, sep: string)
    requires sep != []
    ensures Join(SplitOn(s, sep), sep) == s
    decreases |s|
  {
    var f := Find(s, sep);
    if f.Some? {
      var i := f.value;
      var rest := s[i + |sep|..];
      SplitOnAt(s, sep, i);
      JoinOn(rest, sep);
      var pieces := SplitOn(s, sep);
      assert pieces[0] == s[..i] && pieces[1..] == SplitOn(rest, sep);
    }
  }

  /** SplitJoin for the empty separator. */
  lemma {:induction false} JoinChars(s: string)
    ensures Join(SplitChars(s), []) == s
    decreases |s|
  {
    var pieces := SplitChars(s);
    if s != [] {
      JoinChars(s[1..]);
      var tail := SplitChars(s[1..]);
      assert pieces[1..][1..] == tail[1..];
      assert Join(pieces, []) == [s[0]] + Join(tail[1..], []);
      assert Join(tail, []) == Join(tail[1..], []);
      assert s == [s[0]] + s[1..];
    }
  }

  /** The separator occurs nowhere in `piece`. */
  predicate Avoids(piece: string, sep: string) {
    forall i | 0 <= i <= |piece| :: !OccursAt(piece, sep, i)
  }

  /** No piece of a split with a non-empty separator contains the separator. */
  lemma {:induction false} SplitPiecesAvoidSeparator(s: string, sep: string)
    requires sep != []
    ensures forall k | 0 <= k < |SplitOn(s, sep)| :: Avoids(SplitOn(s, sep)[k], sep)
    decreases |s|
  {
    var f := Find(s, sep);
    if f.Some? {
      var j := f.value;
      var rest := s[j + |sep|..];
      SplitOnAt(s, sep, j);
      SplitPiecesAvoidSeparator(rest, sep);
      PrefixAvoids(s, sep, j);
      var pieces, tail := SplitOn(s, sep), SplitOn(rest, sep);
      forall k | 0 <= k < |pieces|
        ensures Avoids(pieces[k], sep)
      {
        if k > 0 {
          assert pieces[k] == tail[k - 1];
        }
      }
    }
  }

  /** Text before the leftmost occurrence holds no occurrence. */
  lemma PrefixAvoids(s: string, sep: string, j: nat)
    requires j <= |s| && forall i | 0 <= i < j :: !OccursAt(s, sep, i)
    requires sep != []
    ensures Avoids(s[..j], sep)
  {
    forall i | 0 <= i <= j
      ensures !OccursAt(s[..j], sep, i)
    {
      if i + |sep| <= j {
        assert s[..j][i..i + |sep|] == s[i..i + |sep|];
        assert !OccursAt(s, sep, i);
      }
    }
  }

  /**
   * The number of non-overlapping occurrences of a non-empty separator,
   * counted by scanning from the left and skipping past each one found.
   */
  function Occurrences(s: string, sep: string): nat
    requires sep != []
    decreases |s|
  {
    if |s| < |sep| then 0
    else if s[..|sep|] == sep then 1 + Occurrences(s[|sep|..], sep)
    else Occurrences(s[1..], sep)
  }

  /** Skipping a prefix without an occurrence does not change the count. */
  lemma {:induction false} OccurrencesSkip(s: string, sep: string, i: nat)
    requires sep != [] && i <= |s|
    requires forall k | 0 <= k < i :: !OccursAt(s, sep, k)
    ensures Occurrences(s, sep) == Occurrences(s[i..], sep)
    decreases i
  {
    if i > 0 {
      assert !OccursAt(s, sep, 0);
      assert |s| >= |sep| ==> s[..|sep|] != sep by {
        if |s| >= |sep| { assert s[0..0 + |sep|] == s[..|sep|]; }
      }
      forall k | 0 <= k < i - 1
        ensures !OccursAt(s[1..], sep, k)
      {
        if OccursAt(s[1..], sep, k) {
          assert s[1..][k..k + |sep|] == s[k + 1..k + 1 + |sep|];
          assert OccursAt(s, sep, k + 1);
        }
      }
      OccurrencesSkip(s[1..], sep, i - 1);
      assert s[1..][i - 1..] == s[i..];
    }
  }

  /** A split with a non-empty separator has one piece more than the separator has occurrences. */
  lemma {:induction false} SplitCount(s: string, sep: string)
    requires sep != []
    ensures |SplitOn(s, sep)| == Occurrences(s, sep) + 1
    decreases |s|
  {
    var f := Find(s, sep);
    if f.None? {
      if |s| >= |sep| {
        OccurrencesSkip(s, sep, |s| - |sep| + 1);
      }
    } else {
      var j := f.value;
      var rest := s[j + |sep|..];
      SplitOnAt(s, sep, j);
      SplitCount(rest, sep);
      OccurrencesSkip(s, sep, j);
      var t := s[j..];
      assert t[..|sep|] == sep;
      assert t[|sep|..] == rest;
    }
  }

  // ---------------------------------------------------------------------------
  // The methods

  /** `upper`: the receiver's text in capitals; arguments are not looked at. */
  function Upper(self: Value, args: seq<Value>): (r: Result<Value, Error>)
    ensures r.Failure? <==> !self.String?
    ensures r.Failure? ==> r.error == WrongReceiver(StringV)
    ensures r.Success? ==>
      (r.value.String? && |r.value.s| == |self.s| && forall i | 0 <= i < |self.s| :: r.value.s[i] == UpperChar(self.s[i]))
  {
    var text :- Text(self);
    Success(String(ToUpper(text)))
  }

  /** `lower`: the receiver's text in lowercase; arguments are not looked at. */
  function Lower(self: Value, args: seq<Value>): (r: Result<Value, Error>)
    ensures r.Failure? <==> !self.String?
    ensures r.Failure? ==> r.error == WrongReceiver(StringV)
    ensures r.Success? ==>
      (r.value.String? && |r.value.s| == |self.s| && forall i | 0 <= i < |self.s| :: r.value.s[i] == LowerChar(self.s[i]))
  {
    var text :- Text(self);
    Success(String(ToLower(text)))
  }

  /** `trim`: the receiver's text without leading and trailing whitespace. */
  function TrimValue(self: Value, args: seq<Value>): (r: Result<Value, Error>)
    ensures r.Failure? <==> !self.String?
    ensures r.Failure? ==> r.error == WrongReceiver(StringV)
    ensures r.Success? ==> r.value.String? && |r.value.s| <= |self.s|
  {
    var text :- Text(self);
    TrimIsMaximal(text);
    Success(String(Trim(text)))
  }

  /** `arguments.string(0)`: the first argument's text, if there is one and it is a string. */
  function StringArgument(args: seq<Value>): (r: Result<string, Error>)
    ensures r.Success? <==> |args| >= 1 && args[0].String?
    ensures r.Success? ==> r.value == args[0].s
    ensures r.Failure? ==> r.error == WrongArgument(0, StringV)
  {
    if |args| >= 1 && args[0].String? then Success(args[0].s) else Failure(WrongArgument(0, StringV))
  }

  /**
   * `split`: the receiver's text cut at the separator given as the first
   * argument, as a list of strings whose declared type is String.
   */
  function SplitValue(self: Value, args: seq<Value>): (r: Result<Value, Error>)
    ensures r.Success? <==> self.String? && |args| >= 1 && args[0].String?
    ensures !self.String? ==> r == Failure(WrongReceiver(StringV))
    ensures self.String? && !(|args| >= 1 && args[0].String?) ==> r == Failure(WrongArgument(0, StringV))
    ensures r.Success? ==>
      (r.value.List? && r.value.elemType == StringType && |r.value.elems| == |Split(self.s, args[0].s)|
       && forall k | 0 <= k < |r.value.elems| :: r.value.elems[k] == String(Split(self.s, args[0].s)[k]))
  {
    var text :- Text(self);
    var separator :- StringArgument(args);
    var pieces := Split(text, separator);
    Success(List(StringType, seq(|pieces|, k requires 0 <= k < |pieces| => String(pieces[k]))))
  }
}

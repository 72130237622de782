/**
 * The JSON codec of crush (src/lib/io/json.rs): decoding a JSON document
 * into a runtime value, with the type unification that turns arrays into
 * lists or tables, and the lossy encoder back to JSON.
 */
module JsonCodec {
  import opened Wrappers
  import opened Values
  import Durations

  // ---------------------------------------------------------------------------
  // JSON documents

  const U64Max: int := 0xFFFF_FFFF_FFFF_FFFF

  /**
   * A JSON number: an integer (serde keeps one as a u64 or an i64), or any
   * other number, whose reading as an f64 may be absent.
   */
  datatype Number = IntNum(n: int) | FloatNum(asF64: Option<F64>)

  datatype Member = Member(key: string, val: Json)

  /** A JSON document. An object keeps its members in insertion order. */
  datatype Json =
    | JNull
    | JBool(truth: bool)
    | JNumber(num: Number)
    | JString(text: string)
    | JArray(items: seq<Json>)
    | JObject(members: seq<Member>)

  predicate KeyIn(ms: seq<Member>, key: string) {
    exists i | 0 <= i < |ms| :: ms[i].key == key
  }

  predicate DistinctKeys(ms: seq<Member>) {
    forall i, j | 0 <= i < j < |ms| :: ms[i].key != ms[j].key
  }

  /** What serde guarantees of a document: integers in the u64 or i64 range, and no key twice in an object. */
  predicate WellFormed(j: Json)
    decreases j
  {
    match j
    case JNumber(IntNum(n)) => I64Min <= n <= U64Max
    case JArray(items) => forall k | 0 <= k < |items| :: WellFormed(items[k])
    case JObject(ms) => DistinctKeys(ms) && forall k | 0 <= k < |ms| :: WellFormed(ms[k].val)
    case _ => true
  }

  predicate WellFormedMembers(ms: seq<Member>) {
    DistinctKeys(ms) && forall k | 0 <= k < |ms| :: WellFormed(ms[k].val)
  }

  // ---------------------------------------------------------------------------
  // Decoding

  /** from_json: a JSON document as a runtime value. */
  function FromJson(j: Json): (r: Result<Value, Error>)
    ensures j.JNumber? && j.num.FloatNum? ==> (r.Failure? <==> j.num.asF64.None?)
    ensures j.JArray? && r.Success? ==> (r.value.Empty? <==> j.items == [])
    ensures j.JObject? && r.Success? ==>
      r.value.Struct? && r.value.st.parent == None && |r.value.st.local| == |j.members|
    decreases j
  {
    match j
    case JNull => Success(Empty)
    case JBool(b) => Success(Bool(b))
    case JNumber(IntNum(n)) => Success(Integer(n))
    case JNumber(FloatNum(f)) =>
      if f.Some? then Success(Float(f.value)) else Failure(InvalidData("Not a valid number"))
    case JString(s) => Success(String(s))
    case JArray(items) =>
      var lst :- FromJsonAll(items);
      Unify(lst)
    case JObject(ms) =>
      var fields :- FromJsonMembers(ms);
      Success(Struct(StructOf(fields, None)))
  }

  /** The elements of an array, decoded in order; the first element that fails decides the error. */
  function FromJsonAll(items: seq<Json>): (r: Result<seq<Value>, Error>)
    ensures r.Success? ==>
      |r.value| == |items| && forall k | 0 <= k < |items| :: FromJson(items[k]) == Success(r.value[k])
    ensures r.Failure? ==>
      exists k | 0 <= k < |items| :: FromJson(items[k]) == Failure(r.error)
        && forall m | 0 <= m < k :: FromJson(items[m]).Success?
    decreases items
  {
    if items == [] then Success([])
    else
      var head :- FromJson(items[0]);
      var tail := FromJsonAll(items[1..]);
      if tail.Failure? then
        assert forall m | 0 <= m < |items| - 1 :: items[1..][m] == items[m + 1];
        Failure(tail.error)
      else
        Success([head] + tail.value)
  }

  /** The members of an object as struct fields, in order; the first member that fails decides the error. */
  function FromJsonMembers(ms: seq<Member>): (r: Result<seq<Field>, Error>)
    ensures r.Success? ==>
      |r.value| == |ms| &&
      forall k | 0 <= k < |ms| :: r.value[k].name == ms[k].key && FromJson(ms[k].val) == Success(r.value[k].value)
    ensures r.Failure? ==>
      exists k | 0 <= k < |ms| :: FromJson(ms[k].val) == Failure(r.error)
        && forall m | 0 <= m < k :: FromJson(ms[m].val).Success?
    decreases ms
  {
    if ms == [] then Success([])
    else
      var head :- FromJson(ms[0].val);
      var tail := FromJsonMembers(ms[1..]);
      if tail.Failure? then
        assert forall m | 0 <= m < |ms| - 1 :: ms[1..][m] == ms[m + 1];
        Failure(tail.error)
      else
        Success([Field(ms[0].key, head)] + tail.value)
  }

  /** The distinct value types of a list's elements. */
  function Types(lst: seq<Value>): set<ValueType> {
    set v <- lst :: TypeOf(v)
  }

  /** The distinct local signatures of the structs among a list's elements. */
  function Signatures(lst: seq<Value>): set<seq<ColumnType>> {
    set v <- lst | v.Struct? :: LocalSignature(v.st)
  }

  /** The rows of a list of structs, in order; "Impossible!" for an element that is not a struct. */
  function ToRows(lst: seq<Value>): (r: Result<seq<Row>, Error>)
    ensures r.Success? <==> forall k | 0 <= k < |lst| :: lst[k].Struct?
    ensures r.Success? ==> |r.value| == |lst| && forall k | 0 <= k < |lst| :: r.value[k] == ToRow(lst[k].st)
  {
    if lst == [] then Success([])
    else if !lst[0].Struct? then Failure(GenericError("Impossible!"))
    else
      var rest := ToRows(lst[1..]);
      if rest.Failure? then
        assert !lst[1..][FirstNonStruct(lst[1..])].Struct?;
        Failure(rest.error)
      else
        Success([ToRow(lst[0].st)] + rest.value)
  }

  /** The position of some element that is not a struct. */
  function FirstNonStruct(lst: seq<Value>): (k: nat)
    requires exists k | 0 <= k < |lst| :: !lst[k].Struct?
    ensures k < |lst| && !lst[k].Struct?
  {
    if !lst[0].Struct? then 0
    else
      assert forall m | 0 < m < |lst| :: lst[m] == lst[1..][m - 1];
      1 + FirstNonStruct(lst[1..])
  }

  /**
   * The value a decoded array becomes: Empty when there are no elements; a
   * table when all elements are structs with one local signature; a list
   * typed with the elements' type when they share one; a list of Any otherwise.
   */
  function Unify(lst: seq<Value>): (r: Result<Value, Error>)
    ensures r.Success? && (r.value.Empty? <==> lst == [])
  {
    TypesEmpty(lst);
    var types := Types(lst);
    if |types| == 0 then Success(Empty)
    else if |types| == 1 then
      var listType := TypeOf(lst[0]);
      assert forall k | 0 <= k < |lst| :: TypeOf(lst[k]) in types;
      SingletonSet(types, listType);
      if listType == StructType && |Signatures(lst)| == 1 then
        var rows := ToRows(lst);
        assert rows.Success?;
        Success(Table(LocalSignature(lst[0].st), rows.value))
      else
        Success(List(listType, lst))
    else
      Success(List(AnyType, lst))
  }

  lemma TypesEmpty(lst: seq<Value>)
    ensures |Types(lst)| == 0 <==> lst == []
  {
    if lst != [] {
      assert TypeOf(lst[0]) in Types(lst);
    }
  }

  /** A set holding `a` has one element exactly when every element is `a`. */
  lemma SingletonSet<T>(s: set<T>, a: T)
    requires a in s
    ensures |s| == 1 <==> forall x <- s :: x == a
  {
    if |s| == 1 {
      forall x <- s
        ensures x == a
      {
        var rest := s - {a};
        assert s == rest + {a};
        assert |rest| == 0;
      }
    } else {
      assert s != {a};
    }
  }

  // ---------------------------------------------------------------------------
  // Encoding

  /**
   * A value the encoder accepts: no stream anywhere (streams are
   * materialized before encoding), and every duration within chrono's range.
   */
  predicate Encodable(v: Value)
    decreases v
  {
    match v
    case BinaryStream(_) => false
    case TableStream(_, _) => false
    case Duration(d) => Durations.Representable(d)
    case List(_, elems) => forall k | 0 <= k < |elems| :: Encodable(elems[k])
    case Table(_, rows) => forall k | 0 <= k < |rows| :: EncodableRow(rows[k])
    case Struct(s) => forall k | 0 <= k < |s.local| :: Encodable(s.local[k].value)
    case _ => true
  }

  predicate EncodableRow(r: Row)
    decreases r
  {
    forall m | 0 <= m < |r.cells| :: Encodable(r.cells[m])
  }

  /** Duration::num_seconds: the whole seconds in a duration, rounded toward zero. */
  function NumSeconds(nanos: int): (s: int)
    ensures nanos >= 0 ==> 0 <= s * Durations.NanosPerSecond <= nanos < (s + 1) * Durations.NanosPerSecond
    ensures nanos < 0 ==> (s - 1) * Durations.NanosPerSecond < nanos <= s * Durations.NanosPerSecond <= 0
  {
    if nanos >= 0 then nanos / Durations.NanosPerSecond
    else -((-nanos) / Durations.NanosPerSecond)
  }

  /** The position of the first member with the given key. */
  function IndexOf(ms: seq<Member>, key: string): (i: nat)
    requires KeyIn(ms, key)
    ensures i < |ms| && ms[i].key == key
    ensures forall j | 0 <= j < i :: ms[j].key != key
  {
    if ms[0].key == key then 0
    else
      assert KeyIn(ms[1..], key) by {
        var i :| 0 <= i < |ms| && ms[i].key == key;
        assert ms[1..][i - 1].key == key;
      }
      1 + IndexOf(ms[1..], key)
  }

  /**
   * serde's map insert: a key already present keeps its place and takes
   * the new value; a new key goes at the end.
   */
  function Insert(ms: seq<Member>, key: string, val: Json): (r: seq<Member>)
    ensures KeyIn(r, key)
    ensures |r| == if KeyIn(ms, key) then |ms| else |ms| + 1
    ensures forall i | 0 <= i < |ms| :: r[i].key == ms[i].key
    ensures r[IndexOf(r, key)] == Member(key, val)
    ensures !KeyIn(ms, key) ==> r[..|ms|] == ms && r[|ms|] == Member(key, val)
    ensures KeyIn(ms, key) ==> forall i | 0 <= i < |ms| && i != IndexOf(ms, key) :: r[i] == ms[i]
  {
    if KeyIn(ms, key) then
      var i := IndexOf(ms, key);
      var r := ms[i := Member(key, val)];
      assert r[i].key == key;
      r
    else
      var r := ms + [Member(key, val)];
      assert r[|ms|].key == key;
      r
  }

  /**
   * In an object without repeated keys, insert replaces the value of the
   * member with that key and nothing else, keeps every key once, and keeps
   * every value well formed when the new one is.
   */
  lemma InsertReplaces(ms: seq<Member>, key: string, val: Json)
    requires DistinctKeys(ms)
    ensures DistinctKeys(Insert(ms, key, val))
    ensures forall i | 0 <= i < |ms| ::
      Insert(ms, key, val)[i] == if ms[i].key == key then Member(key, val) else ms[i]
    ensures WellFormedMembers(ms) && WellFormed(val) ==> WellFormedMembers(Insert(ms, key, val))
  {
    var r := Insert(ms, key, val);
    if !KeyIn(ms, key) {
      assert r[|ms|] == Member(key, val);
    }
  }

  /** Every field value lies inside `outer` (which bounds the recursion) and can be encoded. */
  ghost predicate FieldsBelow(fs: seq<Field>, outer: Value) {
    forall k | 0 <= k < |fs| :: fs[k].value < outer && Encodable(fs[k].value)
  }

  /** The struct each row of a table becomes holds only cells of that table. */
  lemma TableFieldsBelow(cols: seq<ColumnType>, rows: seq<Row>)
    requires Encodable(Table(cols, rows))
    ensures forall k | 0 <= k < |rows| :: FieldsBelow(IntoStruct(rows[k], cols).local, Table(cols, rows))
  {
    forall k | 0 <= k < |rows|
      ensures FieldsBelow(IntoStruct(rows[k], cols).local, Table(cols, rows))
    {
      var s := IntoStruct(rows[k], cols);
      assert EncodableRow(rows[k]);
      forall m | 0 <= m < |s.local|
        ensures s.local[m].value < Table(cols, rows) && Encodable(s.local[m].value)
      {
        assert s.local[m].value == rows[k].cells[m];
        assert rows[k].cells[m] < rows[k];
      }
    }
  }

  /** to_json: the JSON form of a value; `formatTime` renders an instant as RFC 3339 text. */
  function ToJson(v: Value, formatTime: int -> string): (r: Result<Json, Error>)
    requires Encodable(v)
    ensures r.Success? ==> WellFormed(r.value)
    decreases v, 3, 0
  {
    match v
    case File(p) =>
      if p.text.None? then Failure(GenericError("Invalid filename")) else Success(JString(p.text.value))
    case String(s) => Success(JString(s))
    case Integer(i) => if IsI64(i) then Success(JNumber(IntNum(i))) else Failure(OutOfRange)
    case List(_, elems) =>
      var items :- ToJsonAll(elems, v, formatTime);
      Success(JArray(items))
    case Table(cols, rows) =>
      TableFieldsBelow(cols, rows);
      var items :- EncodeRows(rows, cols, v, formatTime);
      Success(JArray(items))
    case Bool(b) => Success(JBool(b))
    case Float(f) => if f.IsFinite() then Success(JNumber(FloatNum(Some(f)))) else Success(JNull)
    case Struct(s) =>
      var ms :- EncodeFields([], s.local, v, formatTime);
      Success(JObject(ms))
    case Duration(d) => Success(JNumber(IntNum(NumSeconds(d))))
    case Time(t) => Success(JString(formatTime(t)))
    case Binary(bytes) =>
      Success(JArray(seq(|bytes|, k requires 0 <= k < |bytes| => JNumber(IntNum(bytes[k] as int)))))
    case _ => Failure(UnsupportedType(TypeOf(v)))
  }

  /** The elements of a list, encoded in order; `outer` is the list, which bounds the recursion. */
  function ToJsonAll(vs: seq<Value>, ghost outer: Value, formatTime: int -> string): (r: Result<seq<Json>, Error>)
    requires forall k | 0 <= k < |vs| :: vs[k] < outer && Encodable(vs[k])
    ensures r.Success? ==>
      |r.value| == |vs| && forall k | 0 <= k < |vs| :: ToJson(vs[k], formatTime) == Success(r.value[k])
    decreases outer, 1, |vs|
  {
    if vs == [] then Success([])
    else
      var head :- ToJson(vs[0], formatTime);
      var tail :- ToJsonAll(vs[1..], outer, formatTime);
      Success([head] + tail)
  }

  /** `j` is the well-formed object that the fields of `row`, made a struct with `cols`, encode to. */
  ghost predicate RowObject(row: Row, cols: seq<ColumnType>, outer: Value, formatTime: int -> string, j: Json)
    decreases outer, 1, 0
  {
    WellFormed(j) && j.JObject? && FieldsBelow(IntoStruct(row, cols).local, outer) &&
    EncodeFields([], IntoStruct(row, cols).local, outer, formatTime) == Success(j.members)
  }

  /** The rows of a table, each made a struct with `into_struct` and encoded as one. */
  function EncodeRows(rows: seq<Row>, cols: seq<ColumnType>, ghost outer: Value, formatTime: int -> string)
    : (r: Result<seq<Json>, Error>)
    requires forall k | 0 <= k < |rows| :: FieldsBelow(IntoStruct(rows[k], cols).local, outer)
    ensures r.Success? ==> |r.value| == |rows|
    ensures r.Success? ==> forall k | 0 <= k < |rows| :: RowObject(rows[k], cols, outer, formatTime, r.value[k])
    decreases outer, 2, |rows|
  {
    if rows == [] then Success([])
    else
      var head :- EncodeRow(rows[0], cols, outer, formatTime);
      RowsBelowTail(rows, cols, outer);
      var tail :- EncodeRows(rows[1..], cols, outer, formatTime);
      Success([head] + tail)
  }

  /** One row of a table, made a struct with `into_struct` and encoded as one. */
  function EncodeRow(row: Row, cols: seq<ColumnType>, ghost outer: Value, formatTime: int -> string)
    : (r: Result<Json, Error>)
    requires FieldsBelow(IntoStruct(row, cols).local, outer)
    ensures r.Success? ==> RowObject(row, cols, outer, formatTime, r.value)
    decreases outer, 1, 1
  {
    var ms :- EncodeFields([], IntoStruct(row, cols).local, outer, formatTime);
    Success(JObject(ms))
  }

  /** Dropping the first row keeps every remaining row's fields below `outer`. */
  lemma RowsBelowTail(rows: seq<Row>, cols: seq<ColumnType>, outer: Value)
    requires rows != []
    requires forall k | 0 <= k < |rows| :: FieldsBelow(IntoStruct(rows[k], cols).local, outer)
    ensures forall k | 0 <= k < |rows| - 1 :: FieldsBelow(IntoStruct(rows[1..][k], cols).local, outer)
  {
    forall k | 0 <= k < |rows| - 1
      ensures FieldsBelow(IntoStruct(rows[1..][k], cols).local, outer)
    {
      assert rows[1..][k] == rows[k + 1];
    }
  }

  /**
   * The loop of the struct arm: each field in turn is encoded and inserted
   * into the object built so far; the first field that fails decides the error.
   */
  function EncodeFields(acc: seq<Member>, fs: seq<Field>, ghost outer: Value, formatTime: int -> string)
    : (r: Result<seq<Member>, Error>)
    requires FieldsBelow(fs, outer)
    ensures r.Success? && WellFormedMembers(acc) ==> WellFormedMembers(r.value)
    decreases outer, 0, |fs|
  {
    if fs == [] then Success(acc)
    else
      var j :- ToJson(fs[0].value, formatTime);
      if WellFormedMembers(acc) then
        InsertReplaces(acc, fs[0].name, j);
        EncodeFields(Insert(acc, fs[0].name, j), fs[1..], outer, formatTime)
      else
        EncodeFields(Insert(acc, fs[0].name, j), fs[1..], outer, formatTime)
  }

  /** The struct arm's loop, field by field, as the source writes it. */
  method EncodeStruct(s: Struct, formatTime: int -> string) returns (r: Result<Json, Error>)
    requires Encodable(Struct(s))
    ensures r == ToJson(Struct(s), formatTime)
  {
    var obj: seq<Member> := [];
    var i := 0;
    while i < |s.local|
      invariant 0 <= i <= |s.local|
      invariant FieldsBelow(s.local[i..], Struct(s))
      invariant EncodeFields(obj, s.local[i..], Struct(s), formatTime) == EncodeFields([], s.local, Struct(s), formatTime)
    {
      var j := ToJson(s.local[i].value, formatTime);
      if j.Failure? {
        return Failure(j.error);
      }
      assert s.local[i..][1..] == s.local[i + 1..];
      obj := Insert(obj, s.local[i].name, j.value);
      i := i + 1;
    }
    return Success(JObject(obj));
  }

  // ---------------------------------------------------------------------------
  // Decoding arrays

  /** An array decodes to the unification of its decoded elements. */
  lemma DecodeArray(items: seq<Json>, lst: seq<Value>)
    requires |items| == |lst| && forall k | 0 <= k < |items| :: FromJson(items[k]) == Success(lst[k])
    ensures FromJsonAll(items) == Success(lst)
    ensures FromJson(JArray(items)) == Unify(lst)
  {
    var r := FromJsonAll(items);
    if r.Success? {
      assert r.value == lst;
    }
  }

  /** An element that fails to decode makes the whole array fail, with the first such element's error. */
  lemma DecodeArrayFailure(items: seq<Json>, k: nat)
    requires k < |items| && FromJson(items[k]).Failure?
    requires forall m | 0 <= m < k :: FromJson(items[m]).Success?
    ensures FromJson(JArray(items)) == Failure(FromJson(items[k]).error)
  {
    var r := FromJsonAll(items);
    if r.Failure? {
      var k' :| 0 <= k' < |items| && FromJson(items[k']) == Failure(r.error)
        && forall m | 0 <= m < k' :: FromJson(items[m]).Success?;
      assert k' == k;
    }
  }

  /**
   * Scalars decode to the value of the same kind; an integer keeps its value,
   * and a number that is not an integer is a Float unless it has no f64 form.
   */
  lemma DecodeScalars(b: bool, s: string, n: int, f: Option<F64>)
    ensures FromJson(JNull) == Success(Empty)
    ensures FromJson(JBool(b)) == Success(Bool(b))
    ensures FromJson(JString(s)) == Success(String(s))
    ensures FromJson(JNumber(IntNum(n))) == Success(Integer(n))
    ensures FromJson(JNumber(FloatNum(f))) ==
      if f.Some? then Success(Float(f.value)) else Failure(InvalidData("Not a valid number"))
  {
  }

  /** The empty array decodes to Empty, not to an empty list. */
  lemma DecodeEmptyArray()
    ensures FromJson(JArray([])) == Success(Empty)
  {
    assert Types([]) == {};
  }

  /** Elements that all have the type `t` give the type set `{t}`. */
  lemma OneType(lst: seq<Value>, t: ValueType)
    requires lst != [] && forall k | 0 <= k < |lst| :: TypeOf(lst[k]) == t
    ensures Types(lst) == {t}
  {
    assert t == TypeOf(lst[0]);
  }

  /** Structs that all have the local signature `sig` give the signature set `{sig}`. */
  lemma OneSignature(lst: seq<Value>, sig: seq<ColumnType>)
    requires lst != [] && forall k | 0 <= k < |lst| :: lst[k].Struct? && LocalSignature(lst[k].st) == sig
    ensures Signatures(lst) == {sig}
  {
    assert sig == LocalSignature(lst[0].st);
  }

  /**
   * Structs that all share one local signature unify to a table with that
   * signature as its columns and one row per struct, in order.
   */
  lemma UnifyTable(lst: seq<Value>)
    requires lst != [] && lst[0].Struct?
    requires forall k | 0 <= k < |lst| :: lst[k].Struct? && LocalSignature(lst[k].st) == LocalSignature(lst[0].st)
    ensures Unify(lst).Success? && Unify(lst).value.Table?
    ensures Unify(lst).value.columns == LocalSignature(lst[0].st)
    ensures |Unify(lst).value.rows| == |lst|
    ensures forall k | 0 <= k < |lst| :: Unify(lst).value.rows[k] == ToRow(lst[k].st)
  {
    OneType(lst, StructType);
    OneSignature(lst, LocalSignature(lst[0].st));
  }

  /**
   * Elements that share one type unify to a list of that type, in order,
   * unless they are structs with a single local signature: structs with two
   * or more signatures give a list of structs, not a table.
   */
  lemma UnifyList(lst: seq<Value>)
    requires lst != [] && forall k | 0 <= k < |lst| :: TypeOf(lst[k]) == TypeOf(lst[0])
    requires lst[0].Struct? ==>
      exists k | 0 <= k < |lst| && lst[k].Struct? :: LocalSignature(lst[k].st) != LocalSignature(lst[0].st)
    ensures Unify(lst) == Success(List(TypeOf(lst[0]), lst))
  {
    OneType(lst, TypeOf(lst[0]));
    if lst[0].Struct? {
      var k :| 0 <= k < |lst| && lst[k].Struct? && LocalSignature(lst[k].st) != LocalSignature(lst[0].st);
      assert LocalSignature(lst[k].st) in Signatures(lst);
      SingletonSet(Signatures(lst), LocalSignature(lst[0].st));
    }
  }

  /** Elements of two or more types unify to a list of Any, in order. */
  lemma UnifyAny(lst: seq<Value>, i: nat, j: nat)
    requires i < |lst| && j < |lst| && TypeOf(lst[i]) != TypeOf(lst[j])
    ensures Unify(lst) == Success(List(AnyType, lst))
  {
    var types := Types(lst);
    assert TypeOf(lst[i]) in types && TypeOf(lst[j]) in types;
    SingletonSet(types, TypeOf(lst[i]));
    TypesEmpty(lst);
  }

  // ---------------------------------------------------------------------------
  // Encoding

  /** The bound `outer` only limits the recursion: any two bounds give the same encoding. */
  lemma {:induction false} EncodeFieldsAnyBound(acc: seq<Member>, fs: seq<Field>, o1: Value, o2: Value, formatTime: int -> string)
    requires FieldsBelow(fs, o1) && FieldsBelow(fs, o2)
    ensures EncodeFields(acc, fs, o1, formatTime) == EncodeFields(acc, fs, o2, formatTime)
    decreases |fs|
  {
    if fs != [] {
      var j := ToJson(fs[0].value, formatTime);
      if j.Success? {
        EncodeFieldsStep(acc, fs, o1, formatTime);
        EncodeFieldsStep(acc, fs, o2, formatTime);
        EncodeFieldsAnyBound(Insert(acc, fs[0].name, j.value), fs[1..], o1, o2, formatTime);
      }
    }
  }

  /** An integer encodes exactly when it fits in an i64, and then as itself. */
  lemma EncodeInteger(i: int, formatTime: int -> string)
    ensures ToJson(Integer(i), formatTime).Success? <==> IsI64(i)
    ensures IsI64(i) ==> ToJson(Integer(i), formatTime) == Success(JNumber(IntNum(i)))
  {
  }

  /** A list encodes to an array of the same length, element by element. */
  lemma EncodeList(t: ValueType, elems: seq<Value>, formatTime: int -> string)
    requires Encodable(List(t, elems))
    ensures ToJson(List(t, elems), formatTime).Success? ==>
      var j := ToJson(List(t, elems), formatTime).value;
      j.JArray? && |j.items| == |elems| &&
      forall k | 0 <= k < |elems| :: ToJson(elems[k], formatTime) == Success(j.items[k])
  {
  }

  /** One row of a table encodes as the struct that `into_struct` makes of it. */
  lemma EncodeRowAsStruct(cols: seq<ColumnType>, rows: seq<Row>, k: nat, formatTime: int -> string)
    requires Encodable(Table(cols, rows)) && k < |rows|
    requires forall m | 0 <= m < |rows| :: FieldsBelow(IntoStruct(rows[m], cols).local, Table(cols, rows))
    requires EncodeRows(rows, cols, Table(cols, rows), formatTime).Success?
    ensures Encodable(Struct(IntoStruct(rows[k], cols)))
    ensures ToJson(Struct(IntoStruct(rows[k], cols)), formatTime) ==
      Success(EncodeRows(rows, cols, Table(cols, rows), formatTime).value[k])
  {
    var s := IntoStruct(rows[k], cols);
    assert FieldsBelow(s.local, Table(cols, rows));
    EncodeFieldsAnyBound([], s.local, Table(cols, rows), Struct(s), formatTime);
  }

  /**
   * A table encodes to one object per row: the encoding of the struct that
   * `into_struct` makes of the row with the table's columns.
   */
  lemma EncodeTable(cols: seq<ColumnType>, rows: seq<Row>, formatTime: int -> string)
    requires Encodable(Table(cols, rows))
    ensures forall k | 0 <= k < |rows| :: Encodable(Struct(IntoStruct(rows[k], cols)))
    ensures ToJson(Table(cols, rows), formatTime).Success? ==>
      var j := ToJson(Table(cols, rows), formatTime).value;
      j.JArray? && |j.items| == |rows| &&
      forall k | 0 <= k < |rows| :: ToJson(Struct(IntoStruct(rows[k], cols)), formatTime) == Success(j.items[k])
  {
    TableFieldsBelow(cols, rows);
    var e := EncodeRows(rows, cols, Table(cols, rows), formatTime);
    forall k | 0 <= k < |rows|
      ensures Encodable(Struct(IntoStruct(rows[k], cols)))
    {
      assert FieldsBelow(IntoStruct(rows[k], cols).local, Table(cols, rows));
    }
    if e.Success? {
      forall k | 0 <= k < |rows|
        ensures ToJson(Struct(IntoStruct(rows[k], cols)), formatTime) == Success(e.value[k])
      {
        EncodeRowAsStruct(cols, rows, k, formatTime);
      }
    }
  }

  /** A struct encodes only its own fields: what it inherits makes no difference. */
  lemma EncodeStructLocalOnly(local: seq<Field>, p1: Option<Struct>, p2: Option<Struct>, formatTime: int -> string)
    requires Encodable(Struct(StructOf(local, p1)))
    ensures Encodable(Struct(StructOf(local, p2)))
    ensures ToJson(Struct(StructOf(local, p1)), formatTime) == ToJson(Struct(StructOf(local, p2)), formatTime)
  {
    var v1 := Struct(StructOf(local, p1));
    var v2 := Struct(StructOf(local, p2));
    assert FieldsBelow(local, v1) && FieldsBelow(local, v2);
    EncodeFieldsAnyBound([], local, v1, v2, formatTime);
  }

  /** A duration encodes as its whole seconds, rounded toward zero. */
  lemma EncodeDuration(formatTime: int -> string)
    ensures ToJson(Duration(1_500_000_000), formatTime) == Success(JNumber(IntNum(1)))
    ensures ToJson(Duration(-1_500_000_000), formatTime) == Success(JNumber(IntNum(-1)))
    ensures ToJson(Duration(999_999_999), formatTime) == Success(JNumber(IntNum(0)))
  {
  }

  /** Streams never reach the encoder; the other variants without a JSON form are unsupported. */
  lemma EncodeUnsupported(v: Value, formatTime: int -> string)
    ensures v.BinaryStream? || v.TableStream? ==> !Encodable(v)
    ensures v.Empty? || v.Glob? || v.Regex? || v.Command? ==>
      Encodable(v) && ToJson(v, formatTime) == Failure(UnsupportedType(TypeOf(v)))
  {
  }

  // ---------------------------------------------------------------------------
  // Decoding what was encoded

  predicate DistinctNames(fs: seq<Field>) {
    forall i, j | 0 <= i < j < |fs| :: fs[i].name != fs[j].name
  }

  /**
   * The values that survive encoding and decoding unchanged: booleans,
   * strings, i64 integers, non-empty lists whose elements all have the
   * list's declared type (other than struct), and structs without a parent
   * whose field names are distinct.
   */
  predicate Plain(v: Value)
    decreases v
  {
    match v
    case Bool(_) => true
    case String(_) => true
    case Integer(i) => IsI64(i)
    case List(t, elems) =>
      |elems| > 0 && t != StructType &&
      forall k | 0 <= k < |elems| :: TypeOf(elems[k]) == t && Plain(elems[k])
    case Struct(s) =>
      s.parent == None && DistinctNames(s.local) &&
      forall k | 0 <= k < |s.local| :: Plain(s.local[k].value)
    case _ => false
  }

  lemma {:induction false} PlainIsEncodable(v: Value)
    requires Plain(v)
    ensures Encodable(v)
    decreases v
  {
    match v
    case List(_, elems) =>
      forall k | 0 <= k < |elems|
        ensures Encodable(elems[k])
      {
        PlainIsEncodable(elems[k]);
      }
    case Struct(s) =>
      forall k | 0 <= k < |s.local|
        ensures Encodable(s.local[k].value)
      {
        PlainIsEncodable(s.local[k].value);
      }
    case _ =>
  }

  /** Elements that each encode make a list whose elements encode. */
  lemma {:induction false} ToJsonAllSucceeds(vs: seq<Value>, outer: Value, formatTime: int -> string)
    requires forall k | 0 <= k < |vs| :: vs[k] < outer && Encodable(vs[k])
    requires forall k | 0 <= k < |vs| :: ToJson(vs[k], formatTime).Success?
    ensures ToJsonAll(vs, outer, formatTime).Success?
    decreases |vs|
  {
    if vs != [] {
      assert forall k | 0 <= k < |vs| - 1 :: vs[1..][k] == vs[k + 1];
      ToJsonAllSucceeds(vs[1..], outer, formatTime);
    }
  }

  /** The members that pair each field's name with a JSON value, in order. */
  function Members(fs: seq<Field>, js: seq<Json>): (ms: seq<Member>)
    requires |fs| == |js|
    ensures |ms| == |fs| && forall k | 0 <= k < |fs| :: ms[k] == Member(fs[k].name, js[k])
  {
    seq(|fs|, k requires 0 <= k < |fs| => Member(fs[k].name, js[k]))
  }

  /** Appending a member with another key keeps a key out of the object. */
  lemma NotKeyInAppend(acc: seq<Member>, m: Member, key: string)
    requires !KeyIn(acc, key) && m.key != key
    ensures !KeyIn(acc + [m], key)
  {
    forall i | 0 <= i < |acc + [m]|
      ensures (acc + [m])[i].key != key
    {
      if i < |acc| {
        assert (acc + [m])[i] == acc[i];
      }
    }
  }

  /** One turn of the struct arm's loop, for a field that encodes. */
  lemma EncodeFieldsStep(acc: seq<Member>, fs: seq<Field>, outer: Value, formatTime: int -> string)
    requires fs != [] && FieldsBelow(fs, outer)
    requires ToJson(fs[0].value, formatTime).Success?
    ensures FieldsBelow(fs[1..], outer)
    ensures EncodeFields(acc, fs, outer, formatTime) ==
      EncodeFields(Insert(acc, fs[0].name, ToJson(fs[0].value, formatTime).value), fs[1..], outer, formatTime)
  {
    assert forall k | 0 <= k < |fs| - 1 :: fs[1..][k] == fs[k + 1];
  }

  /**
   * Fields with distinct names, none of them a key of `acc`, whose values
   * encode to `js`.
   */
  predicate Appendable(acc: seq<Member>, fs: seq<Field>, js: seq<Json>, formatTime: int -> string) {
    DistinctNames(fs) && |js| == |fs| &&
    forall k | 0 <= k < |fs| ::
      Encodable(fs[k].value) && ToJson(fs[k].value, formatTime) == Success(js[k]) && !KeyIn(acc, fs[k].name)
  }

  /** One turn of the loop over appendable fields: the first is appended, the rest stay appendable. */
  lemma EncodeFieldsAppendsStep(acc: seq<Member>, fs: seq<Field>, js: seq<Json>, outer: Value, formatTime: int -> string)
    requires fs != [] && FieldsBelow(fs, outer) && Appendable(acc, fs, js, formatTime)
    ensures FieldsBelow(fs[1..], outer)
    ensures Appendable(acc + [Member(fs[0].name, js[0])], fs[1..], js[1..], formatTime)
    ensures EncodeFields(acc, fs, outer, formatTime) ==
      EncodeFields(acc + [Member(fs[0].name, js[0])], fs[1..], outer, formatTime)
  {
    var m := Member(fs[0].name, js[0]);
    var rest := fs[1..];
    assert forall k | 0 <= k < |rest| :: rest[k] == fs[k + 1];
    assert Insert(acc, fs[0].name, m.val) == acc + [m];
    EncodeFieldsStep(acc, fs, outer, formatTime);
    forall k | 0 <= k < |rest|
      ensures !KeyIn(acc + [m], rest[k].name)
    {
      NotKeyInAppend(acc, m, rest[k].name);
    }
  }

  /** Fields with distinct names, none already in the object, are appended in order. */
  lemma {:induction false} EncodeFieldsAppends(acc: seq<Member>, fs: seq<Field>, js: seq<Json>, outer: Value, formatTime: int -> string)
    requires FieldsBelow(fs, outer) && Appendable(acc, fs, js, formatTime)
    ensures EncodeFields(acc, fs, outer, formatTime) == Success(acc + Members(fs, js))
    decreases |fs|
  {
    MembersAfter(acc, fs, js);
    if fs != [] {
      EncodeFieldsAppendsStep(acc, fs, js, outer, formatTime);
      EncodeFieldsAppends(acc + [Member(fs[0].name, js[0])], fs[1..], js[1..], outer, formatTime);
    }
  }

  /** The members appended after `acc`: none for no fields, else the first one and then the rest. */
  lemma MembersAfter(acc: seq<Member>, fs: seq<Field>, js: seq<Json>)
    requires |fs| == |js|
    ensures fs == [] ==> acc + Members(fs, js) == acc
    ensures fs != [] ==> (acc + [Member(fs[0].name, js[0])]) + Members(fs[1..], js[1..]) == acc + Members(fs, js)
  {
    if fs != [] {
      MembersCons(fs, js);
      AppendOne(acc, Member(fs[0].name, js[0]), Members(fs[1..], js[1..]));
    } else {
      assert Members(fs, js) == [];
    }
  }

  /** The members of non-empty fields: the first one, then those of the rest. */
  lemma MembersCons(fs: seq<Field>, js: seq<Json>)
    requires |fs| == |js| && fs != []
    ensures Members(fs, js) == [Member(fs[0].name, js[0])] + Members(fs[1..], js[1..])
  {
    var a, b := Members(fs, js), [Member(fs[0].name, js[0])] + Members(fs[1..], js[1..]);
    forall k | 0 <= k < |a|
      ensures a[k] == b[k]
    {
      if k > 0 {
        assert b[k] == Members(fs[1..], js[1..])[k - 1];
      }
    }
  }

  lemma AppendOne<T>(a: seq<T>, x: T, b: seq<T>)
    ensures (a + [x]) + b == a + ([x] + b)
  {
  }

  /** Members that each decode give the struct fields of the same names, in order. */
  lemma DecodeMembers(ms: seq<Member>, fs: seq<Field>)
    requires |ms| == |fs|
    requires forall k | 0 <= k < |ms| :: ms[k].key == fs[k].name && FromJson(ms[k].val) == Success(fs[k].value)
    ensures FromJsonMembers(ms) == Success(fs)
  {
  }

  /**
   * Decoding what was encoded gives the value back, for every value that
   * has a JSON form of its own (see Plain).
   */
  lemma {:induction false} RoundTrip(v: Value, formatTime: int -> string)
    requires Plain(v)
    ensures Encodable(v) && ToJson(v, formatTime).Success?
    ensures FromJson(ToJson(v, formatTime).value) == Success(v)
    decreases v, 1
  {
    PlainIsEncodable(v);
    if v.List? {
      RoundTripList(v, formatTime);
    } else if v.Struct? {
      RoundTripStruct(v, formatTime);
    }
  }

  /** The list case of RoundTrip: the elements come back in order and unify to the list's own type. */
  lemma {:induction false} RoundTripList(v: Value, formatTime: int -> string)
    requires v.List? && Plain(v)
    ensures Encodable(v) && ToJson(v, formatTime).Success?
    ensures FromJson(ToJson(v, formatTime).value) == Success(v)
    decreases v, 0
  {
    PlainIsEncodable(v);
    var elems := v.elems;
    forall k | 0 <= k < |elems|
      ensures ToJson(elems[k], formatTime).Success? && FromJson(ToJson(elems[k], formatTime).value) == Success(elems[k])
    {
      RoundTrip(elems[k], formatTime);
    }
    ToJsonAllSucceeds(elems, v, formatTime);
    var items := ToJsonAll(elems, v, formatTime).value;
    DecodeArray(items, elems);
    UnifyList(elems);
  }

  /** The struct case of RoundTrip: the fields come back in order, under their names. */
  lemma {:induction false} RoundTripStruct(v: Value, formatTime: int -> string)
    requires v.Struct? && Plain(v)
    ensures Encodable(v) && ToJson(v, formatTime).Success?
    ensures FromJson(ToJson(v, formatTime).value) == Success(v)
    decreases v, 0
  {
    PlainIsEncodable(v);
    var s := v.st;
    forall k | 0 <= k < |s.local|
      ensures ToJson(s.local[k].value, formatTime).Success?
      ensures FromJson(ToJson(s.local[k].value, formatTime).value) == Success(s.local[k].value)
    {
      RoundTrip(s.local[k].value, formatTime);
    }
    var js := seq(|s.local|, k requires 0 <= k < |s.local| => ToJson(s.local[k].value, formatTime).value);
    assert Appendable([], s.local, js, formatTime);
    EncodeAppendableStruct(v, js, formatTime);
    DecodeParentlessStruct(s, Members(s.local, js));
  }

  /** A struct whose fields all encode, under distinct names, is the object of those encodings. */
  lemma EncodeAppendableStruct(v: Value, js: seq<Json>, formatTime: int -> string)
    requires v.Struct? && Encodable(v) && Appendable([], v.st.local, js, formatTime)
    ensures ToJson(v, formatTime) == Success(JObject(Members(v.st.local, js)))
  {
    var ms := Members(v.st.local, js);
    EncodeFieldsAppends([], v.st.local, js, v, formatTime);
    assert [] + ms == ms;
  }

  /** An object whose members decode to the fields of a struct without a parent decodes to that struct. */
  lemma DecodeParentlessStruct(s: Struct, ms: seq<Member>)
    requires s.parent == None && |ms| == |s.local|
    requires forall k | 0 <= k < |ms| :: ms[k].key == s.local[k].name && FromJson(ms[k].val) == Success(s.local[k].value)
    ensures FromJson(JObject(ms)) == Success(Struct(s))
  {
    DecodeMembers(ms, s.local);
  }

  // ---------------------------------------------------------------------------
  // Examples

  /** An object with one member decodes to a struct with that one field and no parent. */
  lemma DecodeSingleMember(key: string, j: Json, v: Value)
    requires FromJson(j) == Success(v)
    ensures FromJson(JObject([Member(key, j)])) == Success(Struct(StructOf([Field(key, v)], None)))
  {
    DecodeMembers([Member(key, j)], [Field(key, v)]);
  }

  /** An array of two one-member objects decodes to the unification of the two structs. */
  lemma DecodeTwoObjects(k1: string, j1: Json, v1: Value, k2: string, j2: Json, v2: Value)
    requires FromJson(j1) == Success(v1) && FromJson(j2) == Success(v2)
    ensures FromJson(JArray([JObject([Member(k1, j1)]), JObject([Member(k2, j2)])])) ==
      Unify([Struct(StructOf([Field(k1, v1)], None)), Struct(StructOf([Field(k2, v2)], None))])
  {
    DecodeSingleMember(k1, j1, v1);
    DecodeSingleMember(k2, j2, v2);
    DecodeArray([JObject([Member(k1, j1)]), JObject([Member(k2, j2)])],
      [Struct(StructOf([Field(k1, v1)], None)), Struct(StructOf([Field(k2, v2)], None))]);
  }

  /** `[{"a": 1}, {"a": 2}]`, for any key and integers: a table with one integer column and two rows. */
  lemma ExampleTable(key: string, x: int, y: int)
    ensures FromJson(JArray([JObject([Member(key, JNumber(IntNum(x)))]), JObject([Member(key, JNumber(IntNum(y)))])]))
      == Success(Table([ColumnType(key, IntegerType)], [Row([Integer(x)]), Row([Integer(y)])]))
  {
    DecodeTwoObjects(key, JNumber(IntNum(x)), Integer(x), key, JNumber(IntNum(y)), Integer(y));
    SameSignature(key, x, y);
  }

  /** Two one-field structs with the same key and integer values unify to a table. */
  lemma SameSignature(key: string, x: int, y: int)
    ensures Unify([Struct(StructOf([Field(key, Integer(x))], None)), Struct(StructOf([Field(key, Integer(y))], None))])
      == Success(Table([ColumnType(key, IntegerType)], [Row([Integer(x)]), Row([Integer(y)])]))
  {
    var s1 := StructOf([Field(key, Integer(x))], None);
    var s2 := StructOf([Field(key, Integer(y))], None);
    assert LocalSignature(s1) == [ColumnType(key, IntegerType)] == LocalSignature(s2);
    UnifyTable([Struct(s1), Struct(s2)]);
    var u := Unify([Struct(s1), Struct(s2)]).value;
    assert ToRow(s1) == Row([Integer(x)]) && ToRow(s2) == Row([Integer(y)]);
    assert u.rows == [Row([Integer(x)]), Row([Integer(y)])];
  }

  /** `[{"a": 1}, {"b": 1}]`, for any two keys: two signatures give a list of structs, not a table. */
  lemma ExampleStructList(a: string, b: string, x: int)
    requires a != b
    ensures FromJson(JArray([JObject([Member(a, JNumber(IntNum(x)))]), JObject([Member(b, JNumber(IntNum(x)))])]))
      == Success(List(StructType, [Struct(StructOf([Field(a, Integer(x))], None)), Struct(StructOf([Field(b, Integer(x))], None))]))
  {
    DecodeTwoObjects(a, JNumber(IntNum(x)), Integer(x), b, JNumber(IntNum(x)), Integer(x));
    TwoSignatures(a, b, x);
  }

  /** Two one-field structs with different keys unify to a list of structs. */
  lemma TwoSignatures(a: string, b: string, x: int)
    requires a != b
    ensures Unify([Struct(StructOf([Field(a, Integer(x))], None)), Struct(StructOf([Field(b, Integer(x))], None))])
      == Success(List(StructType, [Struct(StructOf([Field(a, Integer(x))], None)), Struct(StructOf([Field(b, Integer(x))], None))]))
  {
    var s1 := StructOf([Field(a, Integer(x))], None);
    var s2 := StructOf([Field(b, Integer(x))], None);
    var lst := [Struct(s1), Struct(s2)];
    assert LocalSignature(s1) == [ColumnType(a, IntegerType)];
    assert LocalSignature(s2) == [ColumnType(b, IntegerType)];
    assert lst[1].Struct? && LocalSignature(lst[1].st) != LocalSignature(lst[0].st);
    UnifyList(lst);
  }

  /** `[1, "x"]` is a list of Any; `[1, 2]` a list of integers. */
  lemma ExampleLists()
    ensures FromJson(JArray([JNumber(IntNum(1)), JString("x")])) == Success(List(AnyType, [Integer(1), String("x")]))
    ensures FromJson(JArray([JNumber(IntNum(1)), JNumber(IntNum(2))])) == Success(List(IntegerType, [Integer(1), Integer(2)]))
  {
    DecodeArray([JNumber(IntNum(1)), JString("x")], [Integer(1), String("x")]);
    UnifyAny([Integer(1), String("x")], 0, 1);
    DecodeArray([JNumber(IntNum(1)), JNumber(IntNum(2))], [Integer(1), Integer(2)]);
    UnifyList([Integer(1), Integer(2)]);
  }

  /** 2^63 does not fit in an i64 and fails to encode; 2^63 - 1 does. */
  lemma ExampleIntegerRange(formatTime: int -> string)
    ensures ToJson(Integer(0x8000_0000_0000_0000), formatTime).Failure?
    ensures ToJson(Integer(0x7FFF_FFFF_FFFF_FFFF), formatTime) == Success(JNumber(IntNum(0x7FFF_FFFF_FFFF_FFFF)))
  {
  }
}

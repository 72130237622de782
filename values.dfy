/**
 * The runtime value union of crush and the pieces the modelled commands use:
 * type tags, struct and table shapes, the errors commands report, and the
 * integer widths the source converts between.
 */
module Values {
  import opened Wrappers

  // ---------------------------------------------------------------------------
  // Integer widths

  const I64Min: int := -0x8000_0000_0000_0000
  const I64Max: int := 0x7FFF_FFFF_FFFF_FFFF

  predicate IsI64(x: int) {
    I64Min <= x <= I64Max
  }

  /** `x as i32` in Rust: keep the low 32 bits and read them as a signed number. */
  function AsI32(x: int): (r: int)
    ensures -0x8000_0000 <= r < 0x8000_0000
    ensures -0x8000_0000 <= x < 0x8000_0000 ==> r == x
    ensures (r - x) % 0x1_0000_0000 == 0
  {
    var low := x % 0x1_0000_0000;
    if low < 0x8000_0000 then low else low - 0x1_0000_0000
  }

  /** Division rounding toward zero, as Rust's `/` on integers does. */
  function TruncDiv(a: int, b: int): (q: int)
    requires b != 0
  {
    if (a < 0) == (b < 0) then Abs(a) / Abs(b) else -(Abs(a) / Abs(b))
  }

  function Abs(x: int): nat {
    if x < 0 then -x else x
  }

  // ---------------------------------------------------------------------------
  // Values and their types

  /** An IEEE-754 double, kept as its bit pattern; no arithmetic is done on it. */
  datatype F64 = F64(bits: bv64) {
    /** Not an infinity or a NaN: the exponent field is not all ones. */
    predicate IsFinite() {
      (bits >> 52) & 0x7FF != 0x7FF
    }
  }

  /** A path as the operating system gives it; `text` is None when it is not valid Unicode. */
  datatype Path = Path(text: Option<string>)

  /** A value's type tag, which registries and JSON decoding compare by equality. */
  datatype ValueType =
    | EmptyType | BoolType | IntegerType | FloatType | StringType | BinaryType
    | DurationType | TimeType | FileType | GlobType | RegexType | CommandType
    | StructType
    | ListType(elem: ValueType)
    | TableType(columns: seq<ColumnType>)
    | BinaryStreamType
    | TableStreamType(streamColumns: seq<ColumnType>)
    | AnyType

  /** A named, typed column of a table, and one field of a struct's signature. */
  datatype ColumnType = ColumnType(name: string, cellType: ValueType)

  /**
   * A runtime value. Integers are wide and signed (i128 in the source),
   * durations are signed nanosecond counts and times are instants in
   * nanoseconds. The two stream variants are unread, pull-based data.
   */
  datatype Value =
    | Empty
    | Bool(b: bool)
    | Integer(i: int)
    | Float(f: F64)
    | String(s: string)
    | Binary(bytes: seq<bv8>)
    | Duration(nanos: int)
    | Time(instant: int)
    | File(path: Path)
    | Glob(pattern: string)
    | Regex(source: string)
    | Command(name: string)
    | Struct(st: Struct)
    | List(elemType: ValueType, elems: seq<Value>)
    | Table(columns: seq<ColumnType>, rows: seq<Row>)
    | BinaryStream(streamId: nat)
    | TableStream(streamColumns: seq<ColumnType>, tableStreamId: nat)

  /** The struct's own fields in order, and the struct it inherits further fields from. */
  datatype Struct = StructOf(local: seq<Field>, parent: Option<Struct>)

  /** A named member of a struct. */
  datatype Field = Field(name: string, value: Value)

  datatype Row = Row(cells: seq<Value>)

  /** The variant of a value, which is what a pattern `Value::X(v)` tests. */
  datatype Variant =
    | EmptyV | BoolV | IntegerV | FloatV | StringV | BinaryV | DurationV | TimeV | FileV
    | GlobV | RegexV | CommandV | StructV | ListV | TableV | BinaryStreamV | TableStreamV

  function VariantOf(v: Value): Variant {
    match v
    case Empty => EmptyV
    case Bool(_) => BoolV
    case Integer(_) => IntegerV
    case Float(_) => FloatV
    case String(_) => StringV
    case Binary(_) => BinaryV
    case Duration(_) => DurationV
    case Time(_) => TimeV
    case File(_) => FileV
    case Glob(_) => GlobV
    case Regex(_) => RegexV
    case Command(_) => CommandV
    case Struct(_) => StructV
    case List(_, _) => ListV
    case Table(_, _) => TableV
    case BinaryStream(_) => BinaryStreamV
    case TableStream(_, _) => TableStreamV
  }

  /** value_type(): a list carries its declared element type and a table its columns. */
  function TypeOf(v: Value): ValueType {
    match v
    case Empty => EmptyType
    case Bool(_) => BoolType
    case Integer(_) => IntegerType
    case Float(_) => FloatType
    case String(_) => StringType
    case Binary(_) => BinaryType
    case Duration(_) => DurationType
    case Time(_) => TimeType
    case File(_) => FileType
    case Glob(_) => GlobType
    case Regex(_) => RegexType
    case Command(_) => CommandType
    case Struct(_) => StructType
    case List(t, _) => ListType(t)
    case Table(cols, _) => TableType(cols)
    case BinaryStream(_) => BinaryStreamType
    case TableStream(cols, _) => TableStreamType(cols)
  }

  /** The names and types of a struct's own fields, inherited ones excluded. */
  function LocalSignature(s: Struct): (sig: seq<ColumnType>)
    ensures |sig| == |s.local|
    ensures forall k | 0 <= k < |sig| :: sig[k] == ColumnType(s.local[k].name, TypeOf(s.local[k].value))
  {
    seq(|s.local|, k requires 0 <= k < |s.local| => ColumnType(s.local[k].name, TypeOf(s.local[k].value)))
  }

  /** to_row: the values of the struct's own fields, in order. */
  function ToRow(s: Struct): (r: Row)
    ensures |r.cells| == |s.local|
    ensures forall k | 0 <= k < |r.cells| :: r.cells[k] == s.local[k].value
  {
    Row(seq(|s.local|, k requires 0 <= k < |s.local| => s.local[k].value))
  }

  /**
   * into_struct: pairs column names with cells position by position
   * (as far as both go) into a struct without a parent.
   */
  function IntoStruct(r: Row, columns: seq<ColumnType>): (s: Struct)
    ensures s.parent == None
    ensures |s.local| == if |r.cells| < |columns| then |r.cells| else |columns|
    ensures forall k | 0 <= k < |s.local| :: s.local[k] == Field(columns[k].name, r.cells[k])
  {
    var n := if |r.cells| < |columns| then |r.cells| else |columns|;
    StructOf(seq(n, k requires 0 <= k < n => Field(columns[k].name, r.cells[k])), None)
  }

  // ---------------------------------------------------------------------------
  // Errors

  /**
   * The failures the modelled commands report. Those raised with a literal
   * message in the modelled files carry it; the others name their cause,
   * since their wording comes from code outside this model.
   */
  datatype Error =
    | ArgumentError(msg: string)
    | InvalidData(msg: string)
    | GenericError(msg: string)
    | WrongArgumentCount(expected: nat, given: nat)
    | WrongReceiver(receiverType: Variant)
    | WrongArgument(index: nat, argumentType: Variant)
    | OutOfRange
    | UnsupportedType(t: ValueType)
}

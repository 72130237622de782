/**
 * The duration type's methods (src/lib/types/duration.rs): the operator arm
 * tables, negation, construction from components and unit conversion.
 * A duration is a signed count of nanoseconds and a time an instant in
 * nanoseconds.
 */
module Durations {
  import opened Wrappers
  import opened Values
  import opened BinaryOp

  const NanosPerMicro: int := 1_000
  const NanosPerMilli: int := 1_000_000
  const NanosPerSecond: int := 1_000_000_000

  /** A chrono duration spans at most i64::MAX milliseconds either way. */
  const MaxNanos: int := I64Max * NanosPerMilli

  predicate Representable(nanos: int) {
    -MaxNanos <= nanos <= MaxNanos
  }

  /** `context.this.duration()`. */
  const DurationReceiver: Receiver<int> := Receiver(DurationV, (v: Value) => if v.Duration? then Some(v.nanos) else None)

  // ---------------------------------------------------------------------------
  // The operators

  /** `duration + duration` is a duration; `duration + time` shifts the time. */
  const AddArms: seq<Arm<int>> := [
    Arm(DurationV, DurationV, (a: int, v: Value) requires v.Duration? && Representable(a + v.nanos) => Duration(a + v.nanos)),
    Arm(TimeV, TimeV, (a: int, v: Value) requires v.Time? => Time(v.instant + a))
  ]

  const SubArms: seq<Arm<int>> := [
    Arm(DurationV, DurationV, (a: int, v: Value) requires v.Duration? && Representable(a - v.nanos) => Duration(a - v.nanos))
  ]

  /** The integer factor is cut to 32 bits (`b as i32`) before scaling. */
  const MulArms: seq<Arm<int>> := [
    Arm(IntegerV, DurationV, (a: int, v: Value) requires v.Integer? && Representable(a * AsI32(v.i)) => Duration(a * AsI32(v.i)))
  ]

  const DivArms: seq<Arm<int>> := [
    Arm(IntegerV, DurationV, (a: int, v: Value) requires v.Integer? && AsI32(v.i) != 0 => Duration(TruncDiv(a, AsI32(v.i))))
  ]

  /** Each arm wraps its result in the output variant it declares. */
  lemma ArmsWellTyped()
    ensures WellTyped(AddArms) && WellTyped(SubArms) && WellTyped(MulArms) && WellTyped(DivArms)
  {
  }

  function Add(self: Value, args: seq<Value>): (r: Result<Value, Error>)
    requires |args| == 1 && self.Duration? && args[0].Duration? ==> Representable(self.nanos + args[0].nanos)
    ensures |args| != 1 ==> r == Failure(WrongArgumentCount(1, |args|))
    ensures |args| == 1 && !self.Duration? ==> r == Failure(WrongReceiver(DurationV))
    ensures |args| == 1 && self.Duration? ==>
      r == match args[0]
           case Duration(d) => Success(Duration(self.nanos + d))
           case Time(t) => Success(Time(t + self.nanos))
           case _ => Failure(ArgumentError(SameTypeMessage))
  {
    if |args| == 1 && self.Duration? && args[0].Duration? then
      DispatchUsesFirstArm(DurationReceiver, AddArms, self, args, 0);
      Dispatch(DurationReceiver, AddArms, self, args)
    else if |args| == 1 && self.Duration? && args[0].Time? then
      DispatchUsesFirstArm(DurationReceiver, AddArms, self, args, 1);
      Dispatch(DurationReceiver, AddArms, self, args)
    else
      Dispatch(DurationReceiver, AddArms, self, args)
  }

  function Sub(self: Value, args: seq<Value>): (r: Result<Value, Error>)
    requires |args| == 1 && self.Duration? && args[0].Duration? ==> Representable(self.nanos - args[0].nanos)
    ensures |args| != 1 ==> r == Failure(WrongArgumentCount(1, |args|))
    ensures |args| == 1 && !self.Duration? ==> r == Failure(WrongReceiver(DurationV))
    ensures |args| == 1 && self.Duration? ==>
      r == if args[0].Duration? then Success(Duration(self.nanos - args[0].nanos))
           else Failure(ArgumentError(SameTypeMessage))
  {
    if |args| == 1 && self.Duration? && args[0].Duration? then
      DispatchUsesFirstArm(DurationReceiver, SubArms, self, args, 0);
      Dispatch(DurationReceiver, SubArms, self, args)
    else
      Dispatch(DurationReceiver, SubArms, self, args)
  }

  function Mul(self: Value, args: seq<Value>): (r: Result<Value, Error>)
    requires |args| == 1 && self.Duration? && args[0].Integer? ==> Representable(self.nanos * AsI32(args[0].i))
    ensures |args| != 1 ==> r == Failure(WrongArgumentCount(1, |args|))
    ensures |args| == 1 && !self.Duration? ==> r == Failure(WrongReceiver(DurationV))
    ensures |args| == 1 && self.Duration? ==>
      r == if args[0].Integer? then Success(Duration(self.nanos * AsI32(args[0].i)))
           else Failure(ArgumentError(SameTypeMessage))
  {
    if |args| == 1 && self.Duration? && args[0].Integer? then
      DispatchUsesFirstArm(DurationReceiver, MulArms, self, args, 0);
      Dispatch(DurationReceiver, MulArms, self, args)
    else
      Dispatch(DurationReceiver, MulArms, self, args)
  }

  function Div(self: Value, args: seq<Value>): (r: Result<Value, Error>)
    requires |args| == 1 && self.Duration? && args[0].Integer? ==> AsI32(args[0].i) != 0
    ensures |args| != 1 ==> r == Failure(WrongArgumentCount(1, |args|))
    ensures |args| == 1 && !self.Duration? ==> r == Failure(WrongReceiver(DurationV))
    ensures |args| == 1 && self.Duration? ==>
      r == if args[0].Integer? then Success(Duration(TruncDiv(self.nanos, AsI32(args[0].i))))
           else Failure(ArgumentError(SameTypeMessage))
  {
    if |args| == 1 && self.Duration? && args[0].Integer? then
      DispatchUsesFirstArm(DurationReceiver, DivArms, self, args, 0);
      Dispatch(DurationReceiver, DivArms, self, args)
    else
      Dispatch(DurationReceiver, DivArms, self, args)
  }

  /** `neg`: no arguments, then a duration receiver, which is negated. */
  function Neg(self: Value, args: seq<Value>): (r: Result<Value, Error>)
    ensures |args| != 0 ==> r == Failure(WrongArgumentCount(0, |args|))
    ensures |args| == 0 && !self.Duration? ==> r == Failure(WrongReceiver(DurationV))
    ensures r.Success? ==> r.value.Duration? && r.value.nanos + self.nanos == 0
  {
    if |args| != 0 then Failure(WrongArgumentCount(0, |args|))
    else if !self.Duration? then Failure(WrongReceiver(DurationV))
    else Success(Duration(-self.nanos))
  }

  /** Negating twice gives the duration back. */
  lemma NegNeg(d: int)
    ensures Neg(Duration(d), []).Success?
    ensures Neg(Neg(Duration(d), []).value, []) == Success(Duration(d))
  {
  }

  // ---------------------------------------------------------------------------
  // Unit conversion

  /** The nanoseconds in one of each unit that `to_duration` names, singular or plural. */
  function UnitNanos(unit: string): (r: Option<int>)
    ensures r.Some? ==> r.value > 0
  {
    if unit == "nanosecond" || unit == "nanoseconds" then Some(1)
    else if unit == "microsecond" || unit == "microseconds" then Some(NanosPerMicro)
    else if unit == "millisecond" || unit == "milliseconds" then Some(NanosPerMilli)
    else if unit == "second" || unit == "seconds" then Some(NanosPerSecond)
    else if unit == "minute" || unit == "minutes" then Some(60 * NanosPerSecond)
    else if unit == "hour" || unit == "hours" then Some(3600 * NanosPerSecond)
    else if unit == "day" || unit == "days" then Some(3600 * 24 * NanosPerSecond)
    else if unit == "year" || unit == "years" then Some(3600 * 24 * 365 * NanosPerSecond)
    else None
  }

  /** The units `to_duration` builds through a whole number of seconds (`Duration::seconds`). */
  predicate CountsSeconds(unit: string) {
    UnitNanos(unit).Some? && UnitNanos(unit).value >= NanosPerSecond
  }

  const SingularUnits: seq<string> := ["nanosecond", "microsecond", "millisecond", "second", "minute", "hour", "day", "year"]

  /** `to_duration(a, t)`: `a` units of the named unit, or "Invalid duration" for any other name. */
  function ToDuration(a: int, unit: string): (r: Result<int, Error>)
    requires IsI64(a)
    requires CountsSeconds(unit) ==> Representable(a * UnitNanos(unit).value)
    ensures r.Failure? <==> UnitNanos(unit).None?
    ensures r.Failure? ==> r.error == ArgumentError("Invalid duration")
  {
    match UnitNanos(unit)
    case None => Failure(ArgumentError("Invalid duration"))
    case Some(n) => Success(a * n)
  }

  /** Every unit is accepted in its singular and its plural spelling, with the same result. */
  lemma PluralIsSingular(a: int, k: nat)
    requires k < |SingularUnits| && IsI64(a)
    requires CountsSeconds(SingularUnits[k]) ==> Representable(a * UnitNanos(SingularUnits[k]).value)
    ensures UnitNanos(SingularUnits[k] + "s").Some?
    ensures ToDuration(a, SingularUnits[k] + "s") == ToDuration(a, SingularUnits[k])
  {
    var u := SingularUnits[k];
    if k == 0 { assert u + "s" == "nanoseconds"; }
    else if k == 1 { assert u + "s" == "microseconds"; }
    else if k == 2 { assert u + "s" == "milliseconds"; }
    else if k == 3 { assert u + "s" == "seconds"; }
    else if k == 4 { assert u + "s" == "minutes"; }
    else if k == 5 { assert u + "s" == "hours"; }
    else if k == 6 { assert u + "s" == "days"; }
    else { assert u + "s" == "years"; }
  }

  /** A minute is 60 seconds, an hour 60 minutes, a day 24 hours and a year 365 days. */
  lemma UnitRatios(a: int)
    requires IsI64(365 * 24 * 60 * 60 * a) && Representable(365 * 24 * 60 * 60 * a * NanosPerSecond)
    ensures IsI64(a)
    ensures ToDuration(a, "minute") == ToDuration(60 * a, "second")
    ensures ToDuration(a, "hour") == ToDuration(60 * a, "minute")
    ensures ToDuration(a, "day") == ToDuration(24 * a, "hour")
    ensures ToDuration(a, "year") == ToDuration(365 * a, "day")
  {
  }

  // ---------------------------------------------------------------------------
  // new

  /** The arguments of `new`, each zero unless given. */
  datatype NewArgs = NewArgs(
    nanoseconds: int, microseconds: int, milliseconds: int, seconds: int,
    minutes: int, hours: int, days: int)

  const NoArgs: NewArgs := NewArgs(0, 0, 0, 0, 0, 0, 0)

  /** The seven terms `new` adds up, in nanoseconds, in the order it adds them. */
  function Terms(c: NewArgs): (t: seq<int>)
    ensures |t| == 7
  {
    [c.nanoseconds, c.microseconds * NanosPerMicro, c.milliseconds * NanosPerMilli,
     c.seconds * NanosPerSecond, c.minutes * (60 * NanosPerSecond),
     c.hours * (3600 * NanosPerSecond), c.days * (3600 * 24 * NanosPerSecond)]
  }

  /** The sum of the first `k` terms. */
  function Running(t: seq<int>, k: nat): int
    requires k <= |t|
  {
    if k == 0 then 0 else Running(t, k - 1) + t[k - 1]
  }

  /**
   * What `new` needs in order not to panic: every component an i64, the
   * second-based terms within chrono's range, and every running sum too.
   */
  predicate NewDefined(c: NewArgs) {
    IsI64(c.nanoseconds) && IsI64(c.microseconds) && IsI64(c.milliseconds) && IsI64(c.seconds)
    && IsI64(c.minutes) && IsI64(c.hours) && IsI64(c.days)
    && (forall k | 3 <= k < 7 :: Representable(Terms(c)[k]))
    && (forall k | 2 <= k <= 7 :: Representable(Running(Terms(c), k)))
  }

  /** `new`: the duration made of all seven components. */
  function New(c: NewArgs): (r: Value)
    requires NewDefined(c)
    ensures r.Duration? && Representable(r.nanos)
    ensures r.nanos == c.nanoseconds + c.microseconds * NanosPerMicro + c.milliseconds * NanosPerMilli
      + c.seconds * NanosPerSecond + c.minutes * (60 * NanosPerSecond)
      + c.hours * (3600 * NanosPerSecond) + c.days * (3600 * 24 * NanosPerSecond)
  {
    var t := Terms(c);
    assert Running(t, 1) == t[0];
    assert Running(t, 2) == t[0] + t[1];
    assert Running(t, 3) == t[0] + t[1] + t[2];
    assert Running(t, 4) == t[0] + t[1] + t[2] + t[3];
    assert Running(t, 5) == t[0] + t[1] + t[2] + t[3] + t[4];
    assert Running(t, 6) == t[0] + t[1] + t[2] + t[3] + t[4] + t[5];
    Duration(Running(t, 7))
  }

  /** What `to_duration` gives for the `j`-th component of `new` (in declaration order) in its own unit. */
  function Converted(c: NewArgs, j: nat): int
    requires NewDefined(c) && j < 7
  {
    var t := Terms(c);
    if j == 0 then ToDuration(c.nanoseconds, "nanosecond").value
    else if j == 1 then ToDuration(c.microseconds, "microsecond").value
    else if j == 2 then ToDuration(c.milliseconds, "millisecond").value
    else if j == 3 then assert Representable(t[3]); ToDuration(c.seconds, "second").value
    else if j == 4 then assert Representable(t[4]); ToDuration(c.minutes, "minute").value
    else if j == 5 then assert Representable(t[5]); ToDuration(c.hours, "hour").value
    else assert Representable(t[6]); ToDuration(c.days, "day").value
  }

  /** `new` is the sum of what `to_duration` gives for each component in its own unit. */
  lemma NewIsSumOfConversions(c: NewArgs)
    requires NewDefined(c)
    ensures New(c).nanos == Converted(c, 0) + Converted(c, 1) + Converted(c, 2) + Converted(c, 3)
      + Converted(c, 4) + Converted(c, 5) + Converted(c, 6)
  {
  }

  /** The arguments of `new` with only the `j`-th component (in declaration order) given. */
  function Single(a: int, j: nat): (c: NewArgs)
    requires j < 7
    ensures forall k | 0 <= k < 7 && k != j :: Terms(c)[k] == 0
  {
    NewArgs(if j == 0 then a else 0, if j == 1 then a else 0, if j == 2 then a else 0,
      if j == 3 then a else 0, if j == 4 then a else 0, if j == 5 then a else 0, if j == 6 then a else 0)
  }

  /** Adding zeros: when only term `j` can be non-zero, a running sum is 0 before it and that term after. */
  lemma {:induction false} RunningOfSingle(t: seq<int>, j: nat, k: nat)
    requires j < |t| && k <= |t|
    requires forall m | 0 <= m < |t| && m != j :: t[m] == 0
    ensures Running(t, k) == if k > j then t[j] else 0
  {
    if k > 0 {
      RunningOfSingle(t, j, k - 1);
    }
  }

  /** `new` with no arguments is the zero duration. */
  lemma NewWithNoArguments()
    ensures NewDefined(NoArgs) && New(NoArgs) == Duration(0)
  {
    forall k | 0 <= k <= 7
      ensures Running(Terms(NoArgs), k) == 0
    {
      RunningOfSingle(Terms(NoArgs), 0, k);
    }
  }

  /** `new` given one component agrees with `to_duration` for that component's unit. */
  lemma NewAgreesWithToDuration(a: int, j: nat)
    requires j < 7 && IsI64(a) && Representable(a * UnitNanos(SingularUnits[j]).value)
    ensures NewDefined(Single(a, j))
    ensures New(Single(a, j)) == Duration(ToDuration(a, SingularUnits[j]).value)
  {
    var t := Terms(Single(a, j));
    forall k | 0 <= k <= 7
      ensures Running(t, k) == if k > j then t[j] else 0
    {
      RunningOfSingle(t, j, k);
    }
  }

  // ---------------------------------------------------------------------------
  // The method registry

  /** What a command declares about its output. */
  datatype OutputType = Known(t: ValueType) | Unknown

  /** One registry entry: the method's key, its full path, whether it may block, and its declared output. */
  datatype Method = Method(name: string, path: seq<string>, canBlock: bool, output: OutputType)

  const DurationPath: seq<string> := ["global", "types", "duration"]

  /** `full(name)`: the path of a duration method. */
  function FullPath(name: string): (p: seq<string>)
    ensures |p| == 4 && p[..3] == DurationPath && p[3] == name
  {
    DurationPath + [name]
  }

  /**
   * `METHODS`, in declaration order. The output that the `new` signature
   * declares comes from a macro outside this model, so it is Unknown here.
   */
  const Methods: seq<Method> := [
    Method("__add__", FullPath("__add__"), false, Unknown),
    Method("__sub__", FullPath("__sub__"), false, Known(DurationType)),
    Method("__mul__", FullPath("__mul__"), false, Known(DurationType)),
    Method("__div__", FullPath("__div__"), false, Known(DurationType)),
    Method("new", FullPath("new"), false, Unknown),
    Method("__neg__", FullPath("__neg__"), false, Known(DurationType))
  ]

  /** The registry entry with the given key. */
  function Lookup(name: string): (r: Option<Method>)
    ensures r.Some? ==> r.value in Methods && r.value.name == name
    ensures r.None? ==> forall m <- Methods :: m.name != name
  {
    LookupIn(Methods, name)
  }

  function LookupIn(ms: seq<Method>, name: string): (r: Option<Method>)
    ensures r.Some? ==> r.value in ms && r.value.name == name
    ensures r.None? ==> forall m <- ms :: m.name != name
  {
    if ms == [] then None
    else if ms[0].name == name then Some(ms[0])
    else LookupIn(ms[1..], name)
  }

  /** A key that no earlier entry has is found at its own entry. */
  lemma {:induction false} LookupInFinds(ms: seq<Method>, k: nat)
    requires k < |ms|
    requires forall j | 0 <= j < k :: ms[j].name != ms[k].name
    ensures LookupIn(ms, ms[k].name) == Some(ms[k])
  {
    if k > 0 {
      LookupInFinds(ms[1..], k - 1);
    }
  }

  /** The six keys are distinct. */
  lemma MethodNamesDistinct()
    ensures |Methods| == 6
    ensures forall i, j | 0 <= i < j < |Methods| :: Methods[i].name != Methods[j].name
  {
    assert Methods[0].name[2] == 'a' && Methods[1].name[2] == 's' && Methods[2].name[2] == 'm';
    assert Methods[3].name[2] == 'd' && |Methods[4].name| == 3 && Methods[5].name[2] == 'n';
  }

  /**
   * Each method is non-blocking, declared under `global/types/duration`,
   * and found by its key.
   */
  lemma MethodsDeclared()
    ensures forall k | 0 <= k < |Methods| :: Methods[k].path == DurationPath + [Methods[k].name] && !Methods[k].canBlock
    ensures forall k | 0 <= k < |Methods| :: Lookup(Methods[k].name) == Some(Methods[k])
  {
    MethodNamesDistinct();
    forall k | 0 <= k < |Methods|
      ensures Methods[k].path == DurationPath + [Methods[k].name] && !Methods[k].canBlock
    {
      assert Methods[k].path == FullPath(Methods[k].name);
    }
    forall k | 0 <= k < |Methods|
      ensures Lookup(Methods[k].name) == Some(Methods[k])
    {
      LookupInFinds(Methods, k);
    }
  }

  /** Every output a method declares as known is the type of what it returns on success. */
  lemma DeclaredOutputsHold(self: Value, args: seq<Value>)
    requires |args| == 1 && self.Duration? && args[0].Duration? ==> Representable(self.nanos - args[0].nanos)
    requires |args| == 1 && self.Duration? && args[0].Integer? ==>
      Representable(self.nanos * AsI32(args[0].i)) && AsI32(args[0].i) != 0
    ensures forall k | 0 <= k < |Methods| && Methods[k].output.Known? :: Methods[k].output.t == DurationType
    ensures Sub(self, args).Success? ==> TypeOf(Sub(self, args).value) == DurationType
    ensures Mul(self, args).Success? ==> TypeOf(Mul(self, args).value) == DurationType
    ensures Div(self, args).Success? ==> TypeOf(Div(self, args).value) == DurationType
    ensures Neg(self, args).Success? ==> TypeOf(Neg(self, args).value) == DurationType
  {
  }
}

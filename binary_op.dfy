/**
 * The binary_op! dispatch (src/lib/binary_op.rs) as one generic function over
 * an ordered table of arms, and the example! help-text helper.
 */
module BinaryOp {
  import opened Wrappers
  import opened Values

  const SameTypeMessage: string := "Expected only arguments of the same type"

  /**
   * One arm `Value::input(v) => Value::output(op(this, v))`. The operation is
   * partial: where the source would panic (an overflow, a zero divisor) the
   * operation has a precondition instead.
   */
  datatype Arm<!T> = Arm(input: Variant, output: Variant, op: (T, Value) --> Value)

  /** `context.this.<type>()`: the variant the receiver must have and its payload. */
  datatype Receiver<T> = Receiver(variant: Variant, extract: Value -> Option<T>)

  /** The position of the first arm that accepts the variant of `v`, if there is one. */
  function FirstArm<T>(arms: seq<Arm<T>>, v: Value): (r: Option<nat>)
    ensures r.Some? ==> r.value < |arms| && arms[r.value].input == VariantOf(v)
    ensures r.Some? ==> forall k | 0 <= k < r.value :: arms[k].input != VariantOf(v)
    ensures r.None? ==> forall k | 0 <= k < |arms| :: arms[k].input != VariantOf(v)
    decreases |arms|
  {
    if arms == [] then None
    else if arms[0].input == VariantOf(v) then Some(0)
    else
      match FirstArm(arms[1..], v)
      case None => None
      case Some(k) => Some(k + 1)
  }

  /** The arm that the argument selects can be applied (the source would not panic in it). */
  ghost predicate Applicable<T>(arms: seq<Arm<T>>, t: T, v: Value) {
    FirstArm(arms, v).Some? ==> arms[FirstArm(arms, v).value].op.requires(t, v)
  }

  /** Every arm's operation yields a value of the arm's declared output variant. */
  ghost predicate WellTyped<T(!new)>(arms: seq<Arm<T>>) {
    forall k, t, v | 0 <= k < |arms| && arms[k].op.requires(t, v) :: VariantOf(arms[k].op(t, v)) == arms[k].output
  }

  /**
   * The body binary_op! generates: exactly one argument, then a receiver of
   * the declared type, then the first arm accepting the argument's variant.
   */
  function Dispatch<T(!new)>(receiver: Receiver<T>, arms: seq<Arm<T>>, self: Value, args: seq<Value>): (r: Result<Value, Error>)
    requires |args| == 1 && receiver.extract(self).Some? ==> Applicable(arms, receiver.extract(self).value, args[0])
    ensures |args| != 1 ==> r == Failure(WrongArgumentCount(1, |args|))
    ensures |args| == 1 && receiver.extract(self).None? ==> r == Failure(WrongReceiver(receiver.variant))
    ensures |args| == 1 && receiver.extract(self).Some? ==>
      (r.Failure? <==> forall k | 0 <= k < |arms| :: arms[k].input != VariantOf(args[0]))
    ensures r.Failure? && |args| == 1 && receiver.extract(self).Some? ==> r.error == ArgumentError(SameTypeMessage)
    ensures r.Success? && WellTyped(arms) ==>
      |args| == 1 && FirstArm(arms, args[0]).Some? && VariantOf(r.value) == arms[FirstArm(arms, args[0]).value].output
  {
    if |args| != 1 then Failure(WrongArgumentCount(1, |args|))
    else
      match receiver.extract(self)
      case None => Failure(WrongReceiver(receiver.variant))
      case Some(t) =>
        match FirstArm(arms, args[0])
        case None => Failure(ArgumentError(SameTypeMessage))
        case Some(k) => Success(arms[k].op(t, args[0]))
  }

  /**
   * The arm that decides: when arm `k` is the first to accept the argument,
   * the result is that arm's operation on the receiver and the argument.
   */
  lemma DispatchUsesFirstArm<T(!new)>(receiver: Receiver<T>, arms: seq<Arm<T>>, self: Value, args: seq<Value>, k: nat)
    requires |args| == 1 && receiver.extract(self).Some?
    requires k < |arms| && arms[k].input == VariantOf(args[0])
    requires forall m | 0 <= m < k :: arms[m].input != VariantOf(args[0])
    requires arms[k].op.requires(receiver.extract(self).value, args[0])
    ensures Applicable(arms, receiver.extract(self).value, args[0])
    ensures Dispatch(receiver, arms, self, args) == Success(arms[k].op(receiver.extract(self).value, args[0]))
  {
    assert FirstArm(arms, args[0]) == Some(k);
  }

  /**
   * Arms are tried in order: arms declared after one that accepts the
   * argument never change the result.
   */
  lemma {:induction false} FirstArmOfPrefix<T>(arms: seq<Arm<T>>, more: seq<Arm<T>>, v: Value)
    requires FirstArm(arms, v).Some?
    ensures FirstArm(arms + more, v) == FirstArm(arms, v)
    decreases |arms|
  {
    if arms[0].input != VariantOf(v) {
      assert (arms + more)[1..] == arms[1..] + more;
      FirstArmOfPrefix(arms[1..], more, v);
    }
  }

  const ExamplePrefix: string := "    Example:\n\n    "

  /** example!: a help example, indented under an "Example:" heading. */
  function Example(s: string): (r: Option<string>)
    ensures r.Some? && |r.value| == |ExamplePrefix| + |s|
    ensures r.value[..|ExamplePrefix|] == ExamplePrefix && r.value[|ExamplePrefix|..] == s
  {
    Some(ExamplePrefix + s)
  }
}

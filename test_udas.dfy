/**
 * The concrete aggregate functions used by the aggregation tests: MemTest,
 * ToggleNull, CountNulls, ArgIsConst and the identity Serialize/Finalize of Agg.
 *
 * Each UDA is an Init/Update/Merge/Serialize/Finalize family. Init, Update and
 * Merge write their result through an out-pointer; here that pointer is a `Slot`
 * object and the functions are methods that modify it. What each of them does to
 * the value is a pure step function, and the lemmas relate runs of those steps:
 * what a sequence of updates computes, and that merging partial results agrees
 * with updating sequentially, however the inputs are split.
 */
module TestUdas {

  /** A nullable 64-bit integer (BigIntVal). The value is an unbounded int. */
  datatype BigIntVal = BigIntVal(isNull: bool, val: int)

  /** A nullable 32-bit integer (IntVal). The value is an unbounded int. */
  datatype IntVal = IntVal(isNull: bool, val: int)

  /** A nullable boolean (BooleanVal). */
  datatype BooleanVal = BooleanVal(isNull: bool, val: bool)

  /** A nullable string (StringVal); pointer and length become the byte sequence. */
  datatype StringVal = StringVal(isNull: bool, bytes: seq<bv8>)

  /** `BigIntVal(v)`: a non-NULL value. */
  function BigInt(v: int): BigIntVal { BigIntVal(false, v) }

  /** `BigIntVal::null()`: NULL, with the default value 0. */
  const BigIntNull: BigIntVal := BigIntVal(true, 0)

  /** `IntVal(v)`: a non-NULL value. */
  function Int(v: int): IntVal { IntVal(false, v) }

  /** `IntVal::null()`: NULL, with the default value 0. */
  const IntNull: IntVal := IntVal(true, 0)

  /** The memory location an Init, Update or Merge writes its result to. */
  class Slot<T> {
    var value: T

    constructor (v: T)
      ensures value == v
    {
      value := v;
    }
  }

  /**
   * The part of the function context these UDAs use: the net number of bytes
   * reported through TrackAllocation and Free, and which arguments the
   * planner found to be constant.
   */
  class FunctionContext {
    var trackedBytes: int
    const constantArgs: seq<bool>

    constructor (constantArgs: seq<bool>)
      ensures trackedBytes == 0 && this.constantArgs == constantArgs
    {
      trackedBytes := 0;
      this.constantArgs := constantArgs;
    }

    method TrackAllocation(bytes: int)
      modifies this
      ensures trackedBytes == old(trackedBytes) + bytes
    {
      trackedBytes := trackedBytes + bytes;
    }

    method Free(bytes: int)
      modifies this
      ensures trackedBytes == old(trackedBytes) - bytes
    {
      trackedBytes := trackedBytes - bytes;
    }

    /** True iff argument `i` is a constant expression; false out of range. */
    function IsArgConstant(i: int): bool
    {
      0 <= i < |constantArgs| && constantArgs[i]
    }
  }

  /** Concatenation of a sequence of input chunks. */
  function Flatten<T>(chunks: seq<seq<T>>): (r: seq<T>)
  {
    if chunks == [] then [] else Flatten(chunks[..|chunks| - 1]) + chunks[|chunks| - 1]
  }

  lemma {:induction false} FlattenAppend<T>(chunks: seq<seq<T>>, c: seq<T>)
    ensures Flatten(chunks + [c]) == Flatten(chunks) + c
  {
    assert (chunks + [c])[..|chunks|] == chunks;
  }

  // ---------------------------------------------------------------------------
  // MemTest: a NULL-skipping running sum of byte counts that "allocates" the
  // bytes in Update and Merge and frees them in Serialize and Finalize.
  // ---------------------------------------------------------------------------

  /** The value MemTestUpdate leaves in `total`. */
  function MemTestStep(total: BigIntVal, bytes: BigIntVal): BigIntVal
  {
    if bytes.isNull then total else total.(val := total.val + bytes.val)
  }

  /** The value MemTestMerge leaves in `dst`. */
  function MemTestMergeStep(src: BigIntVal, dst: BigIntVal): BigIntVal
  {
    if src.isNull then dst
    else if dst.isNull then src
    else dst.(val := dst.val + src.val)
  }

  /** The value MemTestSerialize and MemTestFinalize return. */
  function MemTestResult(total: BigIntVal): (r: BigIntVal)
    ensures !r.isNull
    ensures total.isNull ==> r == BigInt(0)
    ensures !total.isNull ==> r == total
  {
    if total.isNull then BigInt(0) else total
  }

  method MemTestInit(context: FunctionContext, total: Slot<BigIntVal>)
    modifies total
    ensures total.value == BigInt(0)
  {
    total.value := BigInt(0);
  }

  method MemTestUpdate(context: FunctionContext, bytes: BigIntVal, total: Slot<BigIntVal>)
    modifies context, total
    ensures bytes.isNull ==> total.value == old(total.value)
    ensures !bytes.isNull ==> total.value == old(total.value).(val := old(total.value).val + bytes.val)
    ensures total.value == MemTestStep(old(total.value), bytes)
    ensures context.trackedBytes == old(context.trackedBytes) + (if bytes.isNull then 0 else bytes.val)
  {
    if bytes.isNull {
      return;
    }
    context.TrackAllocation(bytes.val);
    total.value := total.value.(val := total.value.val + bytes.val);
  }

  method MemTestMerge(context: FunctionContext, src: BigIntVal, dst: Slot<BigIntVal>)
    modifies context, dst
    ensures src.isNull ==> dst.value == old(dst.value)
    ensures !src.isNull && old(dst.value).isNull ==> dst.value == src
    ensures !src.isNull && !old(dst.value).isNull ==> dst.value == BigInt(old(dst.value).val + src.val)
    ensures dst.value == MemTestMergeStep(src, old(dst.value))
    ensures context.trackedBytes == old(context.trackedBytes) + (if src.isNull then 0 else src.val)
  {
    if src.isNull {
      return;
    }
    context.TrackAllocation(src.val);
    if dst.value.isNull {
      dst.value := src;
      return;
    }
    dst.value := dst.value.(val := dst.value.val + src.val);
  }

  method MemTestSerialize(context: FunctionContext, total: BigIntVal) returns (r: BigIntVal)
    modifies context
    ensures r == MemTestResult(total)
    ensures context.trackedBytes == old(context.trackedBytes) - (if total.isNull then 0 else total.val)
  {
    if total.isNull {
      return BigInt(0);
    }
    context.Free(total.val);
    return total;
  }

  method MemTestFinalize(context: FunctionContext, total: BigIntVal) returns (r: BigIntVal)
    modifies context
    ensures r == MemTestResult(total)
    ensures context.trackedBytes == old(context.trackedBytes) - (if total.isNull then 0 else total.val)
  {
    if total.isNull {
      return BigInt(0);
    }
    context.Free(total.val);
    return total;
  }

  /** The sum of the non-NULL inputs: what MemTest is meant to compute. */
  function SumNonNull(inputs: seq<BigIntVal>): int
  {
    if inputs == [] then 0
    else
      var last := inputs[|inputs| - 1];
      SumNonNull(inputs[..|inputs| - 1]) + (if last.isNull then 0 else last.val)
  }

  /** The state after MemTestInit followed by one MemTestUpdate per input, in order. */
  function MemTestRun(inputs: seq<BigIntVal>): BigIntVal
  {
    if inputs == [] then BigInt(0)
    else MemTestStep(MemTestRun(inputs[..|inputs| - 1]), inputs[|inputs| - 1])
  }

  lemma {:induction false} SumNonNullAppend(xs: seq<BigIntVal>, ys: seq<BigIntVal>)
    ensures SumNonNull(xs + ys) == SumNonNull(xs) + SumNonNull(ys)
  {
    if ys != [] {
      var init := ys[..|ys| - 1];
      assert (xs + ys)[..|xs + ys| - 1] == xs + init;
      SumNonNullAppend(xs, init);
    } else {
      assert xs + ys == xs;
    }
  }

  /** From MemTestInit, updates leave a non-NULL total equal to the sum of the non-NULL inputs. */
  lemma {:induction false} MemTestRunIsSum(inputs: seq<BigIntVal>)
    ensures MemTestRun(inputs) == BigInt(SumNonNull(inputs))
  {
    if inputs != [] {
      MemTestRunIsSum(inputs[..|inputs| - 1]);
    }
  }

  /** Merging the state of a second run into the first equals one run over both inputs. */
  lemma MemTestMergeAgreesWithUpdate(xs: seq<BigIntVal>, ys: seq<BigIntVal>)
    ensures MemTestMergeStep(MemTestRun(ys), MemTestRun(xs)) == MemTestRun(xs + ys)
  {
    MemTestRunIsSum(xs);
    MemTestRunIsSum(ys);
    MemTestRunIsSum(xs + ys);
    SumNonNullAppend(xs, ys);
  }

  /** A NULL source or destination is the identity of MemTestMerge. */
  lemma MemTestMergeNullIdentity(v: BigIntVal, w: BigIntVal)
    requires w.isNull
    ensures MemTestMergeStep(w, v) == v
    ensures !v.isNull ==> MemTestMergeStep(v, w) == v
  {
  }

  /** Merging is insensitive to the order in which partial states arrive. */
  lemma MemTestMergeCommutes(a: BigIntVal, b: BigIntVal, d: BigIntVal)
    ensures MemTestMergeStep(a, MemTestMergeStep(b, d)) == MemTestMergeStep(b, MemTestMergeStep(a, d))
  {
  }

  /** The merge phase: a fresh MemTestInit state into which each chunk's partial state is merged. */
  function MemTestMergeAll(chunks: seq<seq<BigIntVal>>): BigIntVal
  {
    if chunks == [] then BigInt(0)
    else MemTestMergeStep(MemTestRun(chunks[|chunks| - 1]), MemTestMergeAll(chunks[..|chunks| - 1]))
  }

  /** However the inputs are split between partial aggregations, merging gives the sequential result. */
  lemma {:induction false} MemTestSplitInvariant(chunks: seq<seq<BigIntVal>>)
    ensures MemTestMergeAll(chunks) == MemTestRun(Flatten(chunks))
  {
    if chunks != [] {
      var init, last := chunks[..|chunks| - 1], chunks[|chunks| - 1];
      assert chunks == init + [last];
      MemTestSplitInvariant(init);
      FlattenAppend(init, last);
      MemTestMergeAgreesWithUpdate(Flatten(init), last);
    }
  }

  /**
   * One group through the whole MemTest life cycle: Init, one Update per input,
   * then Serialize. The bytes Update reports are exactly the bytes Serialize frees,
   * and the result is the sum of the non-NULL inputs.
   */
  method MemTestGroup(context: FunctionContext, inputs: seq<BigIntVal>) returns (r: BigIntVal)
    modifies context
    ensures r == BigInt(SumNonNull(inputs))
    ensures context.trackedBytes == old(context.trackedBytes)
  {
    var total := new Slot(BigIntNull);
    MemTestInit(context, total);
    var i := 0;
    while i < |inputs|
      invariant 0 <= i <= |inputs|
      invariant total.value == MemTestRun(inputs[..i])
      invariant context.trackedBytes == old(context.trackedBytes) + SumNonNull(inputs[..i])
    {
      assert inputs[..i + 1][..i] == inputs[..i];
      MemTestUpdate(context, inputs[i], total);
      i := i + 1;
    }
    assert inputs[..i] == inputs;
    MemTestRunIsSum(inputs);
    r := MemTestSerialize(context, total.value);
  }

  // ---------------------------------------------------------------------------
  // ToggleNull: NULL after an even number of updates, 1 after an odd number.
  // ---------------------------------------------------------------------------

  /** The value ToggleNullUpdate leaves in `total`; the input itself is never inspected. */
  function ToggleNullStep(total: IntVal): IntVal
  {
    if total.isNull then Int(1) else IntNull
  }

  /** The value ToggleNullMerge leaves in `dst`. */
  function ToggleNullMergeStep(src: IntVal, dst: IntVal): IntVal
  {
    if src.isNull != dst.isNull then Int(1) else IntNull
  }

  /** The parity state for a number of consumed inputs. */
  function Parity(n: nat): (r: IntVal)
    ensures r.isNull <==> n % 2 == 0
  {
    if n % 2 == 0 then IntNull else Int(1)
  }

  method ToggleNullInit(context: FunctionContext, total: Slot<IntVal>)
    modifies total
    ensures total.value == IntNull
  {
    total.value := IntNull;
  }

  method ToggleNullUpdate(context: FunctionContext, val: IntVal, total: Slot<IntVal>)
    modifies total
    ensures old(total.value).isNull ==> total.value == Int(1)
    ensures !old(total.value).isNull ==> total.value == IntNull
    ensures total.value == ToggleNullStep(old(total.value))
  {
    if total.value.isNull {
      total.value := Int(1);
    } else {
      total.value := IntNull;
    }
  }

  method ToggleNullMerge(context: FunctionContext, src: IntVal, dst: Slot<IntVal>)
    modifies dst
    ensures src.isNull != old(dst.value).isNull ==> dst.value == Int(1)
    ensures src.isNull == old(dst.value).isNull ==> dst.value == IntNull
    ensures dst.value == ToggleNullMergeStep(src, old(dst.value))
  {
    if src.isNull != dst.value.isNull {
      dst.value := Int(1);
    } else {
      dst.value := IntNull;
    }
  }

  /** The state after ToggleNullInit followed by one ToggleNullUpdate per input. */
  function ToggleNullRun(inputs: seq<IntVal>): IntVal
  {
    if inputs == [] then IntNull else ToggleNullStep(ToggleNullRun(inputs[..|inputs| - 1]))
  }

  /** After n updates the state is NULL exactly when n is even, and 1 otherwise. */
  lemma {:induction false} ToggleNullRunIsParity(inputs: seq<IntVal>)
    ensures ToggleNullRun(inputs) == Parity(|inputs|)
    ensures ToggleNullRun(inputs).isNull <==> |inputs| % 2 == 0
  {
    if inputs != [] {
      ToggleNullRunIsParity(inputs[..|inputs| - 1]);
    }
  }

  /** Merging two parity states gives the parity of the combined count. */
  lemma ToggleNullMergeIsParity(m: nat, n: nat)
    ensures ToggleNullMergeStep(Parity(m), Parity(n)) == Parity(m + n)
    ensures !ToggleNullMergeStep(Parity(m), Parity(n)).isNull <==> (Parity(m).isNull != Parity(n).isNull)
  {
  }

  /** Merging the state of a second run into the first equals one run over both inputs. */
  lemma ToggleNullMergeAgreesWithUpdate(xs: seq<IntVal>, ys: seq<IntVal>)
    ensures ToggleNullMergeStep(ToggleNullRun(ys), ToggleNullRun(xs)) == ToggleNullRun(xs + ys)
  {
    assert ToggleNullRun(xs) == Parity(|xs|) by { ToggleNullRunIsParity(xs); }
    assert ToggleNullRun(ys) == Parity(|ys|) by { ToggleNullRunIsParity(ys); }
    assert ToggleNullRun(xs + ys) == Parity(|xs| + |ys|) by { ToggleNullRunIsParity(xs + ys); }
    ToggleNullMergeIsParity(|ys|, |xs|);
  }

  /** The merge phase: a fresh ToggleNullInit state into which each chunk's state is merged. */
  function ToggleNullMergeAll(chunks: seq<seq<IntVal>>): IntVal
  {
    if chunks == [] then IntNull
    else ToggleNullMergeStep(ToggleNullRun(chunks[|chunks| - 1]), ToggleNullMergeAll(chunks[..|chunks| - 1]))
  }

  /** However the inputs are split between partial aggregations, merging gives the sequential result. */
  lemma {:induction false} ToggleNullSplitInvariant(chunks: seq<seq<IntVal>>)
    ensures ToggleNullMergeAll(chunks) == ToggleNullRun(Flatten(chunks))
  {
    if chunks != [] {
      var init, last := chunks[..|chunks| - 1], chunks[|chunks| - 1];
      assert chunks == init + [last];
      ToggleNullSplitInvariant(init);
      FlattenAppend(init, last);
      ToggleNullMergeAgreesWithUpdate(Flatten(init), last);
    }
  }

  // ---------------------------------------------------------------------------
  // CountNulls: the number of NULL inputs.
  // ---------------------------------------------------------------------------

  /** The value CountNullsUpdate leaves in `total`. */
  function CountNullsStep(total: BigIntVal, val: BigIntVal): BigIntVal
  {
    if val.isNull then total.(val := total.val + 1) else total
  }

  /** The value CountNullsMerge leaves in `dst`; NULL flags are not consulted. */
  function CountNullsMergeStep(src: BigIntVal, dst: BigIntVal): BigIntVal
  {
    dst.(val := dst.val + src.val)
  }

  method CountNullsInit(context: FunctionContext, total: Slot<BigIntVal>)
    modifies total
    ensures total.value == BigInt(0)
  {
    total.value := BigInt(0);
  }

  method CountNullsUpdate(context: FunctionContext, val: BigIntVal, total: Slot<BigIntVal>)
    modifies total
    ensures total.value.isNull == old(total.value).isNull
    ensures total.value.val == old(total.value).val + (if val.isNull then 1 else 0)
    ensures total.value == CountNullsStep(old(total.value), val)
  {
    if val.isNull {
      total.value := total.value.(val := total.value.val + 1);
    }
  }

  method CountNullsMerge(context: FunctionContext, src: BigIntVal, dst: Slot<BigIntVal>)
    modifies dst
    ensures dst.value.isNull == old(dst.value).isNull
    ensures dst.value.val == old(dst.value).val + src.val
    ensures dst.value == CountNullsMergeStep(src, old(dst.value))
  {
    dst.value := dst.value.(val := dst.value.val + src.val);
  }

  /** The number of NULL inputs: what CountNulls is meant to compute. */
  function NullCount(inputs: seq<BigIntVal>): nat
  {
    if inputs == [] then 0
    else NullCount(inputs[..|inputs| - 1]) + (if inputs[|inputs| - 1].isNull then 1 else 0)
  }

  /** The state after CountNullsInit followed by one CountNullsUpdate per input. */
  function CountNullsRun(inputs: seq<BigIntVal>): BigIntVal
  {
    if inputs == [] then BigInt(0)
    else CountNullsStep(CountNullsRun(inputs[..|inputs| - 1]), inputs[|inputs| - 1])
  }

  lemma {:induction false} NullCountAppend(xs: seq<BigIntVal>, ys: seq<BigIntVal>)
    ensures NullCount(xs + ys) == NullCount(xs) + NullCount(ys)
  {
    if ys != [] {
      var init := ys[..|ys| - 1];
      assert (xs + ys)[..|xs + ys| - 1] == xs + init;
      NullCountAppend(xs, init);
    } else {
      assert xs + ys == xs;
    }
  }

  /** From CountNullsInit, updates leave a non-NULL count of the NULL inputs. */
  lemma {:induction false} CountNullsRunIsNullCount(inputs: seq<BigIntVal>)
    ensures CountNullsRun(inputs) == BigInt(NullCount(inputs))
  {
    if inputs != [] {
      CountNullsRunIsNullCount(inputs[..|inputs| - 1]);
    }
  }

  /** Merging the state of a second run into the first equals one run over both inputs. */
  lemma CountNullsMergeAgreesWithUpdate(xs: seq<BigIntVal>, ys: seq<BigIntVal>)
    ensures CountNullsMergeStep(CountNullsRun(ys), CountNullsRun(xs)) == CountNullsRun(xs + ys)
  {
    CountNullsRunIsNullCount(xs);
    CountNullsRunIsNullCount(ys);
    CountNullsRunIsNullCount(xs + ys);
    NullCountAppend(xs, ys);
  }

  /** The merge phase: a fresh CountNullsInit state into which each chunk's count is merged. */
  function CountNullsMergeAll(chunks: seq<seq<BigIntVal>>): BigIntVal
  {
    if chunks == [] then BigInt(0)
    else CountNullsMergeStep(CountNullsRun(chunks[|chunks| - 1]), CountNullsMergeAll(chunks[..|chunks| - 1]))
  }

  /** However the inputs are split between partial aggregations, the result is the number of NULL inputs. */
  lemma {:induction false} CountNullsSplitInvariant(chunks: seq<seq<BigIntVal>>)
    ensures CountNullsMergeAll(chunks) == BigInt(NullCount(Flatten(chunks)))
  {
    if chunks != [] {
      var init, last := chunks[..|chunks| - 1], chunks[|chunks| - 1];
      assert chunks == init + [last];
      CountNullsSplitInvariant(init);
      FlattenAppend(init, last);
      CountNullsRunIsNullCount(last);
      NullCountAppend(Flatten(init), last);
    }
  }

  // ---------------------------------------------------------------------------
  // ArgIsConst: whether the second argument was constant; partial results are ORed.
  // ---------------------------------------------------------------------------

  /** The value ArgIsConstMerge leaves in `dst`; the NULL flag is not touched. */
  function ArgIsConstMergeStep(src: BooleanVal, dst: BooleanVal): BooleanVal
  {
    dst.(val := dst.val || src.val)
  }

  method ArgIsConstInit(context: FunctionContext, isConst: Slot<BooleanVal>)
    modifies isConst
    ensures isConst.value == BooleanVal(false, context.IsArgConstant(1))
  {
    isConst.value := BooleanVal(false, context.IsArgConstant(1));
  }

  /** Update does nothing: the answer is fixed by Init. */
  method ArgIsConstUpdate(context: FunctionContext, val: IntVal, constArg: IntVal, isConst: Slot<BooleanVal>)
    ensures isConst.value == old(isConst.value)
  {
  }

  method ArgIsConstMerge(context: FunctionContext, src: BooleanVal, dst: Slot<BooleanVal>)
    modifies dst
    ensures dst.value.isNull == old(dst.value).isNull
    ensures dst.value.val == (old(dst.value).val || src.val)
    ensures dst.value == ArgIsConstMergeStep(src, old(dst.value))
  {
    dst.value := dst.value.(val := dst.value.val || src.val);
  }

  /** Merging the same source twice has the effect of merging it once. */
  lemma ArgIsConstMergeIdempotent(src: BooleanVal, dst: BooleanVal)
    ensures ArgIsConstMergeStep(src, ArgIsConstMergeStep(src, dst)) == ArgIsConstMergeStep(src, dst)
  {
  }

  /** The order in which two sources are merged does not matter. */
  lemma ArgIsConstMergeCommutes(a: BooleanVal, b: BooleanVal, dst: BooleanVal)
    ensures ArgIsConstMergeStep(a, ArgIsConstMergeStep(b, dst)) == ArgIsConstMergeStep(b, ArgIsConstMergeStep(a, dst))
  {
  }

  /** `dst` after merging each of `srcs` in order. */
  function ArgIsConstMergeAll(srcs: seq<BooleanVal>, dst: BooleanVal): BooleanVal
  {
    if srcs == [] then dst
    else ArgIsConstMergeStep(srcs[|srcs| - 1], ArgIsConstMergeAll(srcs[..|srcs| - 1], dst))
  }

  /** Merging many partial results: true exactly when the destination or some source is true. */
  lemma {:induction false} ArgIsConstMergeAllIsOr(srcs: seq<BooleanVal>, dst: BooleanVal)
    ensures ArgIsConstMergeAll(srcs, dst).isNull == dst.isNull
    ensures ArgIsConstMergeAll(srcs, dst).val <==> dst.val || exists i :: 0 <= i < |srcs| && srcs[i].val
  {
    if srcs != [] {
      var init := srcs[..|srcs| - 1];
      ArgIsConstMergeAllIsOr(init, dst);
      if exists i :: 0 <= i < |init| && init[i].val {
        var i :| 0 <= i < |init| && init[i].val;
        assert srcs[i].val;
      }
    }
  }

  // ---------------------------------------------------------------------------
  // Agg: Serialize and Finalize return their argument.
  // ---------------------------------------------------------------------------

  /** Serialize of an IntVal intermediate: hands back its argument unchanged. */
  function AggSerializeInt(i: IntVal): (r: IntVal)
    ensures r == i
  {
    i
  }

  /** Finalize of an IntVal intermediate: hands back its argument unchanged. */
  function AggFinalizeInt(i: IntVal): (r: IntVal)
    ensures r == i
  {
    i
  }

  /** Serialize of a StringVal intermediate: hands back its argument unchanged. */
  function AggSerializeString(v: StringVal): (r: StringVal)
    ensures r == v
  {
    v
  }

  /** Finalize of a StringVal intermediate: hands back its argument unchanged. */
  function AggFinalizeString(v: StringVal): (r: StringVal)
    ensures r == v
  {
    v
  }

  /** Serialize and Finalize are the identity on both intermediate types. */
  lemma AggSerializeFinalizeIdentity(i: IntVal, v: StringVal)
    ensures AggSerializeInt(i) == i && AggFinalizeInt(i) == i
    ensures AggFinalizeInt(AggSerializeInt(i)) == i
    ensures AggSerializeString(v) == v && AggFinalizeString(v) == v
    ensures AggFinalizeString(AggSerializeString(v)) == v
  {
  }
}

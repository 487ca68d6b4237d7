// `CombineArgs` and `SwappedCombineOp` of `openvdb/Types.h`: the argument
// bundle handed to grid-combiner functors, and the adapter that exchanges
// the A and B inputs of a functor.
//
// The bundle holds pointers: to the A and B input values and to the result,
// which is either a value stored inside the bundle or an external one. Each
// pointee is a `Cell` object here, so that aliasing (several bundles
// writing the same result) is what the source has.
module Combine {

  /** A storage location that an argument pointer refers to. */
  class Cell<T> {
    var value: T

    constructor (v: T)
      ensures value == v
    {
      value := v;
    }
  }

  /** What a combiner can see through a bundle, and what it leaves behind. */
  datatype ArgsView<X, Y> = ArgsView(a: X, b: Y, result: X, aOn: bool, bOn: bool, resultOn: bool)

  /** The rule the bundle applies unless told otherwise: the result is
      active when either input is. */
  predicate DefaultActivity<X, Y>(v: ArgsView<X, Y>)
  {
    v.resultOn == (v.aOn || v.bOn)
  }

  /** A grid combiner functor on same-typed grids: given what it sees, the
      result value and result active state it sets. */
  type CombineOp<!T> = ArgsView<T, T> -> (T, bool)

  /** The bundle after a functor ran on it. */
  function ApplyOp<T>(op: CombineOp<T>, v: ArgsView<T, T>): ArgsView<T, T>
  {
    v.(result := op(v).0, resultOn := op(v).1)
  }

  /** The bundle `SwappedCombineOp` builds: B's value and flag as A's, A's
      as B's, the same result location, the default result activity. */
  function SwapArgs<T>(v: ArgsView<T, T>): (w: ArgsView<T, T>)
    ensures DefaultActivity(w)
  {
    ArgsView(v.b, v.a, v.result, v.bOn, v.aOn, v.bOn || v.aOn)
  }

  /** The adapted functor: the original one, run on the swapped bundle. */
  function SwapOp<T>(op: CombineOp<T>): CombineOp<T>
  {
    v => op(SwapArgs(v))
  }

  /** `SwappedCombineOp::operator()` as written: the result value the
      functor computed lands in the caller's result, but the result active
      state it set stays in the temporary bundle. */
  function SwappedAsWritten<T>(op: CombineOp<T>, v: ArgsView<T, T>): ArgsView<T, T>
  {
    v.(result := op(SwapArgs(v)).0)
  }

  /** The adapted functor sees B where the functor expects A and vice versa,
      with the flags exchanged; it changes only the result and its activity. */
  lemma SwappedSeesExchangedInputs<T>(op: CombineOp<T>, v: ArgsView<T, T>)
    ensures ApplyOp(SwapOp(op), v).result == op(ArgsView(v.b, v.a, v.result, v.bOn, v.aOn, v.aOn || v.bOn)).0
    ensures ApplyOp(SwapOp(op), v).resultOn == op(ArgsView(v.b, v.a, v.result, v.bOn, v.aOn, v.aOn || v.bOn)).1
    ensures ApplyOp(SwapOp(op), v).(result := v.result, resultOn := v.resultOn) == v
  {
    assert SwapArgs(v) == ArgsView(v.b, v.a, v.result, v.bOn, v.aOn, v.aOn || v.bOn);
  }

  /** Swapping twice gives back the functor itself, on every bundle in the
      state the constructors and the A/B setters leave it in. */
  lemma SwapTwiceIsIdentity<T>(op: CombineOp<T>, v: ArgsView<T, T>)
    requires DefaultActivity(v)
    ensures ApplyOp(SwapOp(SwapOp(op)), v) == ApplyOp(op, v)
  {
    assert SwapArgs(SwapArgs(v)) == v;
  }

  /** As written, the adapter reports the caller's old result activity
      whenever the functor decides otherwise. */
  lemma AsWrittenIgnoresOpActivity<T>(op: CombineOp<T>, v: ArgsView<T, T>)
    requires op(SwapArgs(v)).1 != v.resultOn
    ensures SwappedAsWritten(op, v).resultOn == v.resultOn
    ensures SwappedAsWritten(op, v).resultOn != ApplyOp(SwapOp(op), v).resultOn
    ensures SwappedAsWritten(op, v).result == ApplyOp(SwapOp(op), v).result
  {
  }

  /** A functor that keeps A's value and marks the result inactive. */
  function KeepAInactive(v: ArgsView<int, int>): (int, bool)
  {
    (v.a, false)
  }

  /** Concretely: with A active and B inactive, the swapped functor is meant
      to leave an inactive result; as written the result stays active, and
      swapping twice no longer gives the functor back. */
  lemma AsWrittenCounterexample()
    ensures SwappedAsWritten(KeepAInactive, ArgsView(1, 2, 0, true, false, true)).resultOn
    ensures !ApplyOp(SwapOp(KeepAInactive), ArgsView(1, 2, 0, true, false, true)).resultOn
    ensures ApplyOp(AsWrittenOp(AsWrittenOp(KeepAInactive)), ArgsView(1, 2, 0, true, false, true))
         != ApplyOp(KeepAInactive, ArgsView(1, 2, 0, true, false, true))
  {
  }

  /** The as-written adapter seen as a functor in its own right. */
  function AsWrittenOp<T>(op: CombineOp<T>): CombineOp<T>
  {
    v => (SwappedAsWritten(op, v).result, SwappedAsWritten(op, v).resultOn)
  }

  /** `CombineArgs<AValueType, BValueType>`. */
  class CombineArgs<X(0), Y> {
    /** `mAValPtr`, `mBValPtr`: null after the default constructor. */
    var aRef: Cell?<X>
    var bRef: Cell?<Y>
    /** `mResultVal`: the result storage inside the bundle. */
    const ownResult: Cell<X>
    /** `mResultValPtr`: `ownResult` or an external location. */
    var resultRef: Cell<X>
    var aOn: bool
    var bOn: bool
    var resultOn: bool

    /** `CombineArgs()`: no inputs, result stored inside, all flags off. */
    constructor Default()
      ensures aRef == null && bRef == null
      ensures fresh(ownResult) && resultRef == ownResult
      ensures !aOn && !bOn && !resultOn
    {
      var init: X := *;
      aRef, bRef := null, null;
      ownResult := new Cell(init);
      resultRef := ownResult;
      aOn, bOn, resultOn := false, false, false;
    }

    /** `CombineArgs(a, b, result, aOn, bOn)`: the result is stored externally. */
    constructor WithResult(a: Cell<X>, b: Cell<Y>, result: Cell<X>, aOn: bool, bOn: bool)
      ensures aRef == a && bRef == b && resultRef == result
      ensures this.aOn == aOn && this.bOn == bOn
      ensures resultOn == (aOn || bOn)
      ensures fresh(ownResult)
    {
      var init: X := *;
      aRef, bRef := a, b;
      ownResult := new Cell(init);
      resultRef := result;
      this.aOn, this.bOn := aOn, bOn;
      new;
      UpdateResultActive();
    }

    /** `CombineArgs(a, b, aOn, bOn)`: the result is stored inside. */
    constructor WithOwnResult(a: Cell<X>, b: Cell<Y>, aOn: bool, bOn: bool)
      ensures aRef == a && bRef == b
      ensures fresh(ownResult) && resultRef == ownResult
      ensures this.aOn == aOn && this.bOn == bOn
      ensures resultOn == (aOn || bOn)
    {
      var init: X := *;
      aRef, bRef := a, b;
      ownResult := new Cell(init);
      resultRef := ownResult;
      this.aOn, this.bOn := aOn, bOn;
      new;
      UpdateResultActive();
    }

    function A(): X
      reads this, aRef
      requires aRef != null
    {
      aRef.value
    }

    function B(): Y
      reads this, bRef
      requires bRef != null
    {
      bRef.value
    }

    function Result(): X
      reads this, resultRef
    {
      resultRef.value
    }

    /** Everything a functor can observe through the bundle. */
    function View(): ArgsView<X, Y>
      reads this, aRef, bRef, resultRef
      requires aRef != null && bRef != null
    {
      ArgsView(aRef.value, bRef.value, resultRef.value, aOn, bOn, resultOn)
    }

    /** `setResult`: write through the result pointer. */
    method SetResult(v: X)
      modifies resultRef
      ensures resultRef.value == v
    {
      resultRef.value := v;
    }

    /** `setARef`: read A from another location. */
    method SetARef(a: Cell<X>)
      modifies this`aRef
      ensures aRef == a
    {
      aRef := a;
    }

    /** `setBRef`: read B from another location. */
    method SetBRef(b: Cell<Y>)
      modifies this`bRef
      ensures bRef == b
    {
      bRef := b;
    }

    /** `setResultRef`: write the result to another location. */
    method SetResultRef(r: Cell<X>)
      modifies this`resultRef
      ensures resultRef == r
    {
      resultRef := r;
    }

    /** `updateResultActive`: restore the default activity rule. */
    method UpdateResultActive()
      modifies this`resultOn
      ensures resultOn == (aOn || bOn)
    {
      resultOn := aOn || bOn;
    }

    /** `setAIsActive`: set A's flag and recompute the result's. */
    method SetAIsActive(on: bool)
      modifies this`aOn, this`resultOn
      ensures aOn == on && bOn == old(bOn)
      ensures resultOn == (aOn || bOn)
    {
      aOn := on;
      UpdateResultActive();
    }

    /** `setBIsActive`: set B's flag and recompute the result's. */
    method SetBIsActive(on: bool)
      modifies this`bOn, this`resultOn
      ensures bOn == on && aOn == old(aOn)
      ensures resultOn == (aOn || bOn)
    {
      bOn := on;
      UpdateResultActive();
    }

    /** `setResultIsActive`: override the result's flag, nothing else. */
    method SetResultIsActive(on: bool)
      modifies this`resultOn
      ensures resultOn == on
      ensures aOn == old(aOn) && bOn == old(bOn)
    {
      resultOn := on;
    }
  }

  /** Running a functor on a bundle: it sets the result value and the result
      active state through the bundle's setters. */
  method RunOp<T(0)>(op: CombineOp<T>, args: CombineArgs<T, T>)
    requires args.aRef != null && args.bRef != null
    modifies args`resultOn, args.resultRef
    ensures args.resultRef.value == op(old(args.View())).0
    ensures args.resultOn == op(old(args.View())).1
  {
    var v := args.View();
    args.SetResult(op(v).0);
    args.SetResultIsActive(op(v).1);
  }

  /** `SwappedCombineOp`: wraps a functor so that it combines B with A. */
  class SwappedCombineOp<T(0)> {
    const op: CombineOp<T>

    constructor (op: CombineOp<T>)
      ensures this.op == op
    {
      this.op := op;
    }

    /** `operator()`, with the functor's result activity passed back to the
        caller's bundle. When the result location is not also an input,
        the caller's bundle ends as the swapped functor leaves it. */
    method Apply(args: CombineArgs<T, T>)
      requires args.aRef != null && args.bRef != null
      modifies args`resultOn, args.resultRef
      ensures args.resultRef.value == SwapOp(op)(old(args.View())).0
      ensures args.resultOn == SwapOp(op)(old(args.View())).1
      ensures args.aOn == old(args.aOn) && args.bOn == old(args.bOn)
      ensures args.resultRef != args.aRef && args.resultRef != args.bRef ==>
        args.View() == ApplyOp(SwapOp(op), old(args.View()))
    {
      var swapped := new CombineArgs.WithResult(args.bRef, args.aRef, args.resultRef, args.bOn, args.aOn);
      assert swapped.View() == SwapArgs(args.View());
      RunOp(op, swapped);
      args.SetResultIsActive(swapped.resultOn);
    }

    /** `operator()` as written: the result activity the functor set is
        lost with the temporary bundle. */
    method ApplyAsWritten(args: CombineArgs<T, T>)
      requires args.aRef != null && args.bRef != null
      modifies args.resultRef
      ensures args.resultRef.value == SwapOp(op)(old(args.View())).0
      ensures args.resultOn == old(args.resultOn)
      ensures args.resultRef != args.aRef && args.resultRef != args.bRef ==>
        args.View() == SwappedAsWritten(op, old(args.View()))
    {
      var swapped := new CombineArgs.WithResult(args.bRef, args.aRef, args.resultRef, args.bOn, args.aOn);
      assert swapped.View() == SwapArgs(args.View());
      RunOp(op, swapped);
    }
  }
}

/**
 * The GPU fence as the frame scheduler sees it: a completed value that only
 * grows, moved forward by the device, and the history of values the command
 * queue has been asked to signal. The device reaches every signalled value
 * eventually and never goes beyond the last one, so a wait for a value that
 * was signalled returns, and a wait for anything larger would never return.
 */
module GpuFence {

  /** The values are signalled in strictly increasing order, all above the initial value. */
  ghost predicate Increasing(initial: nat, signalled: seq<nat>)
  {
    && (forall i :: 0 <= i < |signalled| ==> initial < signalled[i])
    && (forall i, j :: 0 <= i < j < |signalled| ==> signalled[i] < signalled[j])
  }

  class Fence {
    var completed: nat
    ghost var initial: nat
    ghost var signalled: seq<nat>

    /** The largest value the device will reach: the last one signalled, or the initial value. */
    ghost function Top(): nat
      reads this
    {
      if signalled == [] then initial else signalled[|signalled| - 1]
    }

    ghost predicate Valid()
      reads this
    {
      Increasing(initial, signalled) && initial <= completed <= Top()
    }

    /** Fence::Create with an initial value. */
    constructor (initialValue: nat)
      ensures Valid()
      ensures completed == initialValue && initial == initialValue && signalled == []
    {
      completed := initialValue;
      initial := initialValue;
      signalled := [];
    }

    /** CommandQueue::Signal: the device sets the fence to value once earlier work is done. */
    method Signal(value: nat)
      requires Valid() && value > Top()
      modifies this
      ensures Valid()
      ensures signalled == old(signalled) + [value] && Top() == value
      ensures completed == old(completed) && initial == old(initial)
    {
      signalled := signalled + [value];
    }

    /**
     * Fence::GetCompletedValue. The device works concurrently, so the value
     * read is an input: reached, anywhere from the last value read up to the
     * last value signalled.
     */
    method GetCompletedValue(reached: nat) returns (v: nat)
      requires Valid() && completed <= reached <= Top()
      modifies this
      ensures Valid()
      ensures v == reached && completed == reached
      ensures signalled == old(signalled) && initial == old(initial)
    {
      completed := reached;
      v := completed;
    }

    /**
     * SetEventOnCompletion followed by an infinite WaitForSingleObjectEx:
     * returns once the device has reached target. It can return only if
     * target was signalled, hence the precondition.
     */
    method WaitFor(target: nat)
      requires Valid() && target <= Top()
      modifies this
      ensures Valid()
      ensures completed >= target && completed >= old(completed)
      ensures signalled == old(signalled) && initial == old(initial)
    {
      if completed < target {
        completed := target;
      }
    }
  }
}

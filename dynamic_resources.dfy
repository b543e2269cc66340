/**
 * DynamicResources.cpp: the sample's frame scheduler (one fence value per
 * swap-chain slot), its command-line and hot-key handling, and the commands
 * it records for one frame around the bindless filter.
 */
module Sample {
  import opened Types
  import opened GpuFence
  import opened WideString
  import opened Commands
  import opened Filter

  /** FrameCount: the number of swap-chain back buffers, each with its own allocator and fence value. */
  const FRAME_COUNT: nat := 3

  /** The virtual-key codes OnKeyUp reacts to. */
  const VK_SPACE: uint8 := 0x20
  const VK_ESCAPE: uint8 := 0x1B
  const VK_F1: uint8 := 0x70

  /** The image loaded when no -image flag is given. */
  const DEFAULT_FILE_NAME: seq<char> := "Assets/Sashimi.dds"

  /** A bound on the starting fence value that leaves 2^63 markers before a 64-bit value wraps. */
  const FENCE_VALUE_HEADROOM: nat := 0x8000_0000_0000_0000

  /** The number of descriptor pools bound for the frame: one for views, one for samplers. */
  const DESCRIPTOR_POOL_COUNT: nat := 2

  /** The flags the hot keys toggle. */
  datatype HotKeyState = HotKeyState(isPaused: bool, showFPS: bool)

  /** The effect of releasing key: Space toggles the pause, F1 the frame-rate display. */
  function AfterKeyUp(s: HotKeyState, key: uint8): (t: HotKeyState)
    ensures t.isPaused != s.isPaused <==> key == VK_SPACE
    ensures t.showFPS != s.showFPS <==> key == VK_F1
  {
    if key == VK_SPACE then s.(isPaused := !s.isPaused)
    else if key == VK_F1 then s.(showFPS := !s.showFPS)
    else s
  }

  /** Releasing the same key twice leaves both flags as they were. */
  lemma KeyUpTwiceRestores(s: HotKeyState, key: uint8)
    ensures AfterKeyUp(AfterKeyUp(s, key), key) == s
  {
  }

  /** Keys other than Space and F1 (Escape among them) change neither flag. */
  lemma OtherKeysChangeNothing(s: HotKeyState, key: uint8)
    requires key != VK_SPACE && key != VK_F1
    ensures AfterKeyUp(s, key) == s
  {
  }

  /** Position k of argv is an image flag that has a value after it. */
  ghost predicate FlagWithValue(argv: seq<seq<char>>, k: int)
  {
    1 <= k && k + 1 < |argv| && IsImageFlag(argv[k])
  }

  /** The state a barrier command requests for r: the last transition for r it lists. */
  function RequestedBy(c: Command, r: Target): Option<ResourceState>
  {
    if !c.Barrier? then None else LastTransitionFor(c.requested, r)
  }

  function LastTransitionFor(ts: seq<Transition>, r: Target): Option<ResourceState>
  {
    if ts == [] then None
    else if ts[|ts| - 1].resource == r then Some(ts[|ts| - 1].state)
    else LastTransitionFor(ts[..|ts| - 1], r)
  }

  /**
   * The state of r as last requested by the barriers of cmds, None when no
   * barrier mentions r. A barrier count of zero means the tracker found r
   * already in that state; what the trackers leave r in is not modelled.
   */
  function LastRequested(cmds: seq<Command>, r: Target): (s: Option<ResourceState>)
    ensures s.Some? ==> exists i :: 0 <= i < |cmds| && RequestedBy(cmds[i], r) == s
  {
    if cmds == [] then None
    else if RequestedBy(cmds[|cmds| - 1], r).Some? then RequestedBy(cmds[|cmds| - 1], r)
    else LastRequested(cmds[..|cmds| - 1], r)
  }

  /**
   * The commands PopulateCommandList records for slot, around the filter's
   * own commands; copyBarriers and presentBarriers are what the trackers of
   * the render target and the result report.
   */
  function FrameCommands(slot: nat, filterCommands: seq<Command>, copyBarriers: nat, presentBarriers: nat): (cmds: seq<Command>)
    ensures |cmds| == |filterCommands| + 7
    ensures cmds[0] == ResetAllocator(slot) && cmds[1] == ResetCommandList(slot)
    ensures cmds[2] == SetDescriptorPools(DESCRIPTOR_POOL_COUNT)
    ensures cmds[3..3 + |filterCommands|] == filterCommands
    ensures cmds[|cmds| - 3] == CopyResource(RenderTarget(slot), FilterResult)
    ensures cmds[|cmds| - 1] == Close
  {
    [ResetAllocator(slot), ResetCommandList(slot), SetDescriptorPools(DESCRIPTOR_POOL_COUNT)]
    + filterCommands
    + [ Barrier([Transition(RenderTarget(slot), CopyDest), Transition(FilterResult, CopySource)], copyBarriers),
        CopyResource(RenderTarget(slot), FilterResult),
        Barrier([Transition(RenderTarget(slot), Present)], presentBarriers),
        Close ]
  }

  /**
   * In a frame whose filter commands are those of BindlessFilter.Process,
   * the last state requested for the result before the dispatch is unordered
   * access, the last states requested before the copy are copy destination
   * for the back buffer and copy source for the result, and the last state
   * requested for the back buffer at the end of the frame is present.
   */
  lemma {:induction false} FrameResourceStates(slot: nat, filterCommands: seq<Command>, copyBarriers: nat, presentBarriers: nat)
    requires |filterCommands| == 6 && filterCommands[0].Barrier? && filterCommands[0].requested == [Transition(FilterResult, UnorderedAccess)]
    requires forall i :: 1 <= i < 6 ==> !filterCommands[i].Barrier?
    requires filterCommands[5].Dispatch?
    ensures var cmds := FrameCommands(slot, filterCommands, copyBarriers, presentBarriers);
      && cmds[8].Dispatch? && LastRequested(cmds[..8], FilterResult) == Some(UnorderedAccess)
      && cmds[10].CopyResource?
      && LastRequested(cmds[..10], RenderTarget(slot)) == Some(CopyDest)
      && LastRequested(cmds[..10], FilterResult) == Some(CopySource)
      && LastRequested(cmds, RenderTarget(slot)) == Some(Present)
  {
    var cmds := FrameCommands(slot, filterCommands, copyBarriers, presentBarriers);
    var copyRequest := [Transition(RenderTarget(slot), CopyDest), Transition(FilterResult, CopySource)];
    assert cmds[9] == Barrier(copyRequest, copyBarriers);
    assert copyRequest[..1] == [Transition(RenderTarget(slot), CopyDest)];
    assert LastTransitionFor(copyRequest, RenderTarget(slot)) == Some(CopyDest);
    assert cmds[..10][9] == cmds[9];
    assert LastRequested(cmds[..10], RenderTarget(slot)) == Some(CopyDest);
    assert LastRequested(cmds[..10], FilterResult) == Some(CopySource);
    assert cmds[..13][..12] == cmds[..12];
    assert cmds[..12][11] == Barrier([Transition(RenderTarget(slot), Present)], presentBarriers);
    assert cmds == cmds[..13];
    assert LastRequested(cmds, RenderTarget(slot)) == Some(Present);
    var k := 8;
    while k > 4
      invariant 4 <= k <= 8
      invariant LastRequested(cmds[..8], FilterResult) == LastRequested(cmds[..k], FilterResult)
    {
      assert cmds[..k][..k - 1] == cmds[..k - 1];
      assert cmds[..k][k - 1] == filterCommands[k - 4];
      k := k - 1;
    }
    assert cmds[..4][3] == filterCommands[0];
  }

  class DynamicResources {
    var frameIndex: nat           // m_frameIndex: the back buffer being recorded
    var fence: Fence?             // m_fence, null until LoadAssets
    var fenceValues: array<nat>   // m_fenceValues: the next value each slot signals
    var fenceEventOpen: bool      // m_fenceEvent holds an open event handle
    var showFPS: bool
    var isPaused: bool
    var fileName: seq<char>
    /**
     * For each slot, the fence value signalled after the last frame recorded
     * with its allocator (0 if none): the slot's allocator and command list
     * may be reused once the fence has reached it.
     */
    ghost var stamped: seq<nat>

    /**
     * The scheduler's invariant once the fence exists: the current slot will
     * signal the next marker, every other slot holds a value already
     * signalled (so a wait for it returns), and the device has finished the
     * last frame recorded for the current slot.
     */
    ghost predicate Valid()
      reads this, fenceValues, fence
    {
      && fenceValues.Length == FRAME_COUNT && frameIndex < FRAME_COUNT && |stamped| == FRAME_COUNT
      && fence != null && fence.Valid()
      && fenceValues[frameIndex] == fence.Top() + 1
      && (forall k :: 0 <= k < FRAME_COUNT && k != frameIndex ==> stamped[k] <= fenceValues[k] <= fence.Top())
      && stamped[frameIndex] <= fence.completed
    }

    /** The device has reached every value signalled so far. */
    ghost predicate Drained()
      reads this, fence
    {
      fence != null && forall i :: 0 <= i < |fence.signalled| ==> fence.signalled[i] <= fence.completed
    }

    /**
     * The state before LoadAssets creates the fence: no slot holds more than
     * the current one, and the current one is below 2^63, so that 2^63
     * markers can be signalled before a 64-bit fence value wraps.
     */
    ghost predicate Fresh()
      reads this, fenceValues
    {
      && fenceValues.Length == FRAME_COUNT && frameIndex < FRAME_COUNT && |stamped| == FRAME_COUNT
      && fence == null && fenceValues[frameIndex] < FENCE_VALUE_HEADROOM
      && forall k :: 0 <= k < FRAME_COUNT ==> stamped[k] == 0 && fenceValues[k] <= fenceValues[frameIndex]
    }

    ghost function HotKeys(): HotKeyState
      reads this
    {
      HotKeyState(isPaused, showFPS)
    }

    /**
     * The constructor leaves m_fenceValues and m_isPaused uninitialised, so
     * their starting values are parameters here.
     */
    constructor (initialFenceValues: seq<uint64>, initialPaused: bool)
      requires |initialFenceValues| == FRAME_COUNT
      ensures fenceValues[..] == initialFenceValues && fresh(fenceValues)
      ensures frameIndex == 0 && fence == null && !fenceEventOpen
      ensures showFPS && isPaused == initialPaused && fileName == DEFAULT_FILE_NAME
      ensures stamped == [0, 0, 0]
    {
      frameIndex := 0;
      fence := null;
      fenceValues := new nat[FRAME_COUNT](i => if 0 <= i < |initialFenceValues| then initialFenceValues[i] else 0);
      fenceEventOpen := false;
      showFPS := true;
      isPaused := initialPaused;
      fileName := DEFAULT_FILE_NAME;
      stamped := [0, 0, 0];
    }

    /** The end of LoadPipeline: the current slot is the swap chain's current back buffer. */
    method TakeBackBufferIndex(backBufferIndex: nat)
      requires backBufferIndex < FRAME_COUNT
      modifies this`frameIndex
      ensures frameIndex == backBufferIndex
    {
      frameIndex := backBufferIndex;
    }

    /**
     * LoadAssets: creates the fence with the current slot's value (unless it
     * exists), advances that value, opens the event and waits for the setup
     * work. The other slots must start no higher than the current one.
     */
    method LoadAssets()
      requires Fresh() || Valid()
      modifies this`fence, this`fenceEventOpen, fenceValues, fence
      ensures Valid() && Drained() && fenceEventOpen
      ensures old(fence) == null ==>
        && fresh(fence) && fence.initial == old(fenceValues[frameIndex])
        && fence.signalled == [old(fenceValues[frameIndex]) + 1]
        && fenceValues[..] == old(fenceValues[..])[frameIndex := old(fenceValues[frameIndex]) + 2]
      ensures old(fence) != null ==>
        && fence == old(fence)
        && fence.signalled == old(fence.signalled) + [old(fenceValues[frameIndex])]
        && fenceValues[..] == old(fenceValues[..])[frameIndex := old(fenceValues[frameIndex]) + 1]
    {
      if fence == null {
        fence := new Fence(fenceValues[frameIndex]);
        fenceValues[frameIndex] := fenceValues[frameIndex] + 1;
      }
      fenceEventOpen := true;
      WaitForGpu();
    }

    /**
     * WaitForGpu: signals the current slot's value, returns once the device
     * has reached it, and advances that slot's value by one.
     */
    method WaitForGpu()
      requires Valid()
      modifies fenceValues, fence
      ensures Valid() && Drained()
      ensures fence.initial == old(fence.initial)
      ensures fence.signalled == old(fence.signalled) + [old(fenceValues[frameIndex])]
      ensures fence.Top() == old(fence.Top()) + 1
      ensures fenceValues[..] == old(fenceValues[..])[frameIndex := old(fenceValues[frameIndex]) + 1]
    {
      fence.Signal(fenceValues[frameIndex]);
      fence.WaitFor(fenceValues[frameIndex]);
      fenceValues[frameIndex] := fenceValues[frameIndex] + 1;
    }

    /**
     * MoveToNextFrame: signals the current slot's value V, moves to the back
     * buffer the swap chain reports, waits if the device has not yet reached
     * that slot's value (observed is the completed value read at that
     * moment), and gives the new slot V + 1.
     */
    method MoveToNextFrame(backBufferIndex: nat, observed: nat) returns (ghost waited: bool)
      requires Valid() && backBufferIndex < FRAME_COUNT
      requires fence.completed <= observed <= fenceValues[frameIndex]
      modifies this`frameIndex, this`stamped, fenceValues, fence
      ensures Valid()
      ensures frameIndex == backBufferIndex
      ensures fence.signalled == old(fence.signalled) + [old(fenceValues[frameIndex])]
      ensures fence.Top() == old(fence.Top()) + 1
      ensures fenceValues[..] == old(fenceValues[..])[backBufferIndex := old(fenceValues[frameIndex]) + 1]
      ensures stamped == old(stamped)[old(frameIndex) := old(fenceValues[frameIndex])]
      ensures waited <==> observed < old(fenceValues[backBufferIndex])
      ensures fence.completed >= old(fenceValues[backBufferIndex]) && fence.completed >= stamped[frameIndex]
      ensures !waited ==> fence.completed == observed
    {
      var currentFenceValue := fenceValues[frameIndex];
      fence.Signal(currentFenceValue);
      stamped := stamped[frameIndex := currentFenceValue];

      frameIndex := backBufferIndex;

      var completed := fence.GetCompletedValue(observed);
      waited := completed < fenceValues[frameIndex];
      if completed < fenceValues[frameIndex] {
        fence.WaitFor(fenceValues[frameIndex]);
      }

      fenceValues[frameIndex] := currentFenceValue + 1;
    }

    /** OnDestroy: waits for the device once more, then closes the event. */
    method OnDestroy()
      requires Valid()
      modifies this`fenceEventOpen, fenceValues, fence
      ensures Valid() && Drained() && !fenceEventOpen
      ensures fence.signalled == old(fence.signalled) + [old(fenceValues[frameIndex])]
      ensures fenceValues[..] == old(fenceValues[..])[frameIndex := old(fenceValues[frameIndex]) + 1]
    {
      WaitForGpu();
      fenceEventOpen := false;
    }

    /** OnKeyUp: the hot keys; Escape asks the message loop to quit. */
    method OnKeyUp(key: uint8) returns (quit: bool)
      modifies this`isPaused, this`showFPS
      ensures HotKeys() == AfterKeyUp(old(HotKeys()), key)
      ensures quit <==> key == VK_ESCAPE
    {
      quit := false;
      if key == VK_SPACE {
        isPaused := !isPaused;
      } else if key == VK_F1 {
        showFPS := !showFPS;
      } else if key == VK_ESCAPE {
        quit := true;
      }
    }

    /**
     * ParseCommandLineArgs: from position 1 on, an image flag followed by
     * another argument makes that argument the file name; the last such flag
     * wins, and without one the file name stays as it was.
     */
    method ParseCommandLineArgs(argv: seq<seq<char>>)
      requires forall k :: 0 <= k < |argv| ==> IsCString(argv[k])
      modifies this`fileName
      ensures (exists k :: FlagWithValue(argv, k)) ==>
        exists k :: FlagWithValue(argv, k) && fileName == argv[k + 1]
          && forall j :: k < j < |argv| ==> !FlagWithValue(argv, j)
      ensures (forall k :: !FlagWithValue(argv, k)) ==> fileName == old(fileName)
    {
      var i := 1;
      ghost var last := 0;
      while i < |argv|
        invariant 1 <= i <= |argv| + 1
        invariant last == 0 ==> fileName == old(fileName) && forall k :: k < i ==> !FlagWithValue(argv, k)
        invariant last != 0 ==> last < i && FlagWithValue(argv, last) && fileName == argv[last + 1]
        invariant last != 0 ==> forall k :: last < k < i ==> !FlagWithValue(argv, k)
      {
        if IsImageFlag(argv[i]) {
          if i + 1 < |argv| {
            fileName := argv[i + 1];
            last := i;
          }
        }
        i := i + 1;
      }
    }

    /**
     * PopulateCommandList: resets the current slot's allocator, which the
     * device has finished with, binds the descriptor pools, lets the filter
     * record its pass, copies its result into the back buffer and makes the
     * back buffer presentable. The counts are what the state trackers report
     * for each barrier request.
     */
    method PopulateCommandList(cmd: CommandList, filter: BindlessFilter,
                               processBarriers: nat, targetBarriers: nat, resultBarriers: nat, presentBarriers: nat)
      requires Valid() && filter.Ready()
      requires processBarriers <= 1 && targetBarriers + resultBarriers <= 2 && presentBarriers <= 2
      modifies cmd
      ensures fence.completed >= stamped[frameIndex]
      ensures cmd.recorded == old(cmd.recorded)
        + FrameCommands(frameIndex, filter.ProcessCommands(processBarriers), targetBarriers + resultBarriers, presentBarriers)
    {
      cmd.Record(ResetAllocator(frameIndex));
      cmd.Record(ResetCommandList(frameIndex));
      cmd.Record(SetDescriptorPools(DESCRIPTOR_POOL_COUNT));

      filter.Process(cmd, processBarriers);

      var numBarriers := targetBarriers;
      numBarriers := numBarriers + resultBarriers;
      cmd.Record(Barrier([Transition(RenderTarget(frameIndex), CopyDest), Transition(FilterResult, CopySource)], numBarriers));

      cmd.Record(CopyResource(RenderTarget(frameIndex), FilterResult));

      numBarriers := presentBarriers;
      cmd.Record(Barrier([Transition(RenderTarget(frameIndex), Present)], numBarriers));

      cmd.Record(Close);
    }

    /**
     * OnRender: records the frame, then (after the queue runs it and the
     * swap chain presents it, neither modelled) moves to the next frame.
     */
    method OnRender(cmd: CommandList, filter: BindlessFilter,
                    processBarriers: nat, targetBarriers: nat, resultBarriers: nat, presentBarriers: nat,
                    backBufferIndex: nat, observed: nat)
      requires Valid() && filter.Ready()
      requires processBarriers <= 1 && targetBarriers + resultBarriers <= 2 && presentBarriers <= 2
      requires backBufferIndex < FRAME_COUNT && fence.completed <= observed <= fenceValues[frameIndex]
      modifies cmd, this`frameIndex, this`stamped, fenceValues, fence
      ensures Valid() && frameIndex == backBufferIndex
      ensures cmd.recorded == old(cmd.recorded)
        + FrameCommands(old(frameIndex), old(filter.ProcessCommands(processBarriers)), targetBarriers + resultBarriers, presentBarriers)
      ensures fence.signalled == old(fence.signalled) + [old(fenceValues[frameIndex])]
      ensures fence.Top() == old(fence.Top()) + 1
      ensures fenceValues[..] == old(fenceValues[..])[backBufferIndex := old(fenceValues[frameIndex]) + 1]
      ensures stamped == old(stamped)[old(frameIndex) := old(fenceValues[frameIndex])]
      ensures fence.completed >= stamped[frameIndex]
    {
      PopulateCommandList(cmd, filter, processBarriers, targetBarriers, resultBarriers, presentBarriers);
      ghost var waited := MoveToNextFrame(backBufferIndex, observed);
    }
  }
}

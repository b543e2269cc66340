/**
 * The parts of the graphics library the core records into, seen from the
 * outside: a command list is the sequence of commands recorded into it, and
 * the caller's vector of upload resources is the sequence of staging buffers
 * appended to it. What the device later does with them is not modelled.
 */
module Commands {
  import opened Types

  /** Resource states requested through the state tracker. */
  datatype ResourceState = UnorderedAccess | CopySource | CopyDest | Present

  /** The resources whose states the core changes. */
  datatype Target = RenderTarget(slot: nat) | FilterResult

  /** One state request handed to a resource's tracker. */
  datatype Transition = Transition(resource: Target, state: ResourceState)

  datatype Command =
    | ResetAllocator(slot: nat)
    | ResetCommandList(allocatorSlot: nat)
    | SetDescriptorPools(count: nat)
    // the transitions requested and the number of barriers the trackers wrote
    | Barrier(requested: seq<Transition>, count: nat)
    | SetComputePipelineLayout(layout: nat)
    | SetPipelineState(pipeline: nat)
    | SetCompute32BitConstants(rootIndex: nat, words: seq<uint32>)
    | SetComputeRootUnorderedAccessView(rootIndex: nat, address: uint64)
    | Dispatch(x: nat, y: nat, z: nat)
    | CopyResource(dst: Target, src: Target)
    | Close

  class CommandList {
    var recorded: seq<Command>

    constructor ()
      ensures recorded == []
    {
      recorded := [];
    }

    method Record(c: Command)
      modifies this
      ensures recorded == old(recorded) + [c]
    {
      recorded := recorded + [c];
    }
  }

  /** What each staging buffer is appended for. */
  datatype Staging = ImageStaging | IndexRecordStaging

  /** The caller's vector<Resource::uptr> of staging buffers, appended to in place. */
  class Uploaders {
    var items: seq<Staging>

    constructor ()
      ensures items == []
    {
      items := [];
    }

    method EmplaceBack(s: Staging)
      modifies this
      ensures items == old(items) + [s]
    {
      items := items + [s];
    }
  }
}

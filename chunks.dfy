/** The field layout of the chunks written by the queue functions. A chunk
    is written and read by the same sequence of SERIALISE_ELEMENT calls, so
    its layout is fixed by the order of those calls; this module states that
    order as an encoder and a decoder and proves that they invert each other. */
module Chunks {
  import opened Types

  datatype ChunkType = GET_DEVICE_QUEUE | QUEUE_SUBMIT | QUEUE_WAIT_IDLE

  /** One serialised element: a resource id or a uint32_t. */
  datatype Field = IdField(id: ResourceId) | U32Field(v: u32)

  datatype Chunk = Chunk(kind: ChunkType, fields: seq<Field>)

  /** What a QUEUE_SUBMIT chunk carries. `fence` is None for VK_NULL_HANDLE;
      an entry of `cmdIds` is the baked command buffer's id, or the empty id
      when the command buffer had no baked commands. */
  datatype SubmitData = SubmitData(queueId: ResourceId, fence: Option<ResourceId>, cmdIds: seq<ResourceId>, numWaitSems: u32)

  /** A submission the writer can produce: its command count fits the
      uint32_t `numCmds` field, and a real fence never has the empty id. */
  predicate WritableSubmit(s: SubmitData) {
    |s.cmdIds| < Pow32 && (s.fence.Some? ==> s.fence.value != EmptyId)
  }

  /** `fence != VK_NULL_HANDLE ? GetResID(fence) : ResourceId()` */
  function FenceToId(fence: Option<ResourceId>): ResourceId {
    match fence
    case None => EmptyId
    case Some(f) => f
  }

  /** `fenceId != ResourceId() ? <the fence> : VK_NULL_HANDLE` */
  function IdToFence(id: ResourceId): Option<ResourceId> {
    if id == EmptyId then None else Some(id)
  }

  function IdFields(ids: seq<ResourceId>): seq<Field> {
    seq(|ids|, i requires 0 <= i < |ids| => IdField(ids[i]))
  }

  /** The QUEUE_SUBMIT fields in write order: queue id, fence id (or the
      empty id), numCmds, one baked id per command buffer, numWaitSems. */
  function WriteSubmit(s: SubmitData): (r: seq<Field>)
    requires |s.cmdIds| < Pow32
    ensures |r| == 4 + |s.cmdIds|
    ensures r[2].U32Field? && r[2].v as int == |r| - 4
    ensures forall i | 0 <= i < |r| :: r[i].U32Field? <==> i == 2 || i == |r| - 1
  {
    [IdField(s.queueId), IdField(FenceToId(s.fence)), U32Field(|s.cmdIds| as u32)]
    + IdFields(s.cmdIds)
    + [U32Field(s.numWaitSems)]
  }

  /** Reads the QUEUE_SUBMIT fields back in the same order; any other layout
      is a MalformedChunk. */
  function ReadSubmit(fs: seq<Field>): (r: Result<SubmitData>)
    ensures r.Err? ==> r.error == MalformedChunk
  {
    if |fs| < 4 || !fs[0].IdField? || !fs[1].IdField? || !fs[2].U32Field? then Err(MalformedChunk)
    else
      var n := fs[2].v as int;
      if |fs| != 4 + n || !fs[3 + n].U32Field? || !(forall i | 3 <= i < 3 + n :: fs[i].IdField?) then Err(MalformedChunk)
      else Ok(SubmitData(fs[0].id, IdToFence(fs[1].id), seq(n, i requires 0 <= i < n => fs[3 + i].id), fs[3 + n].v))
  }

  /** Reading what was written gives back the submission, with a null fence
      read back as null. */
  lemma SubmitRoundTrip(s: SubmitData)
    requires WritableSubmit(s)
    ensures ReadSubmit(WriteSubmit(s)) == Ok(s)
  {
    var fs := WriteSubmit(s);
    var n := |s.cmdIds|;
    assert fs[2] == U32Field(n as u32);
    assert forall i | 3 <= i < 3 + n :: fs[i] == IdField(s.cmdIds[i - 3]);
    assert seq(n, i requires 0 <= i < n => fs[3 + i].id) == s.cmdIds;
    assert IdToFence(FenceToId(s.fence)) == s.fence;
  }

  /** Whatever the reader accepts is exactly what the writer produces for the
      decoded submission: the encoding has no other accepted form. */
  lemma SubmitReadIsExact(fs: seq<Field>)
    requires ReadSubmit(fs).Ok?
    ensures WritableSubmit(ReadSubmit(fs).value)
    ensures WriteSubmit(ReadSubmit(fs).value) == fs
  {
    var s := ReadSubmit(fs).value;
    var n := fs[2].v as int;
    var ws := WriteSubmit(s);
    assert |ws| == |fs|;
    forall i | 0 <= i < |fs| ensures ws[i] == fs[i] {
      if i == 1 {
        assert FenceToId(IdToFence(fs[1].id)) == fs[1].id;
      } else if 3 <= i < 3 + n {
        assert ws[i] == IdField(s.cmdIds[i - 3]);
      }
    }
  }

  /** The GET_DEVICE_QUEUE fields: device id, queue family index, queue index,
      queue id. */
  function WriteGetDeviceQueue(devId: ResourceId, familyIdx: u32, idx: u32, queueId: ResourceId): seq<Field> {
    [IdField(devId), U32Field(familyIdx), U32Field(idx), IdField(queueId)]
  }

  function ReadGetDeviceQueue(fs: seq<Field>): (r: Result<(ResourceId, u32, u32, ResourceId)>)
    ensures r.Err? ==> r.error == MalformedChunk
  {
    if |fs| == 4 && fs[0].IdField? && fs[1].U32Field? && fs[2].U32Field? && fs[3].IdField?
    then Ok((fs[0].id, fs[1].v, fs[2].v, fs[3].id))
    else Err(MalformedChunk)
  }

  lemma GetDeviceQueueRoundTrip(devId: ResourceId, familyIdx: u32, idx: u32, queueId: ResourceId)
    ensures ReadGetDeviceQueue(WriteGetDeviceQueue(devId, familyIdx, idx, queueId)) == Ok((devId, familyIdx, idx, queueId))
  {
  }

  lemma GetDeviceQueueReadIsExact(fs: seq<Field>)
    requires ReadGetDeviceQueue(fs).Ok?
    ensures var t := ReadGetDeviceQueue(fs).value; WriteGetDeviceQueue(t.0, t.1, t.2, t.3) == fs
  {
  }

  /** The QUEUE_WAIT_IDLE fields: the queue id alone. */
  function WriteQueueWaitIdle(queueId: ResourceId): seq<Field> {
    [IdField(queueId)]
  }

  function ReadQueueWaitIdle(fs: seq<Field>): (r: Result<ResourceId>)
    ensures r.Err? ==> r.error == MalformedChunk
  {
    if |fs| == 1 && fs[0].IdField? then Ok(fs[0].id) else Err(MalformedChunk)
  }

  lemma QueueWaitIdleRoundTrip(queueId: ResourceId)
    ensures ReadQueueWaitIdle(WriteQueueWaitIdle(queueId)) == Ok(queueId)
  {
  }
}

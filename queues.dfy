/** vkGetDeviceQueue and its replay, Serialise_vkGetDeviceQueue. The driver
    may hand out the same queue handle on every call, so a handle that is
    already wrapped is returned as its wrapper and nothing else happens; a
    new handle gets a fresh resource id and, under capture, a record with a
    GET_DEVICE_QUEUE chunk that the instance record keeps as a pooled child.
    Wrapped objects are identified with their resource ids; the handles the
    driver returns are parameters. */
module Queues {
  import opened Types
  import opened Chunks

  class WrappedVulkan {
    var state: LogState                             // m_State
    var queueFamilyIdx: u32                         // m_QueueFamilyIdx
    var queue: Option<ResourceId>                   // m_Queue, once a queue of that family is wrapped
    var wrappers: map<Handle, ResourceId>           // the resource manager's wrapper of each real handle
    var nextId: ResourceId                          // the next id the resource manager hands out
    var live: map<ResourceId, ResourceId>           // the resource manager's live resources
    var records: map<ResourceId, seq<Chunk>>        // resource records and their chunks
    var pooledChildren: seq<ResourceId>             // the instance record's pooledChildren
    ghost var driverLog: seq<DriverCall>

    /** Every wrapper has its own id, never the empty one, handed out
        before `nextId`; every record belongs to such an id. */
    ghost predicate Valid()
      reads this
    {
      && EmptyId < nextId
      && (forall h | h in wrappers :: EmptyId < wrappers[h] < nextId)
      && (forall h1, h2 | h1 in wrappers && h2 in wrappers && h1 != h2 :: wrappers[h1] != wrappers[h2])
      && (forall id | id in records :: id < nextId)
    }

    constructor(state: LogState, queueFamilyIdx: u32)
      ensures Valid()
      ensures this.state == state && this.queueFamilyIdx == queueFamilyIdx && queue == None
      ensures wrappers == map[] && live == map[] && records == map[] && pooledChildren == [] && driverLog == []
    {
      this.state := state;
      this.queueFamilyIdx := queueFamilyIdx;
      queue := None;
      wrappers := map[];
      nextId := EmptyId + 1;
      live := map[];
      records := map[];
      pooledChildren := [];
      driverLog := [];
    }

    /** WrapResource: a fresh id becomes the handle's wrapper. */
    method Wrap(h: Handle) returns (id: ResourceId)
      requires Valid()
      modifies this`wrappers, this`nextId
      ensures Valid()
      ensures id == old(nextId) && nextId == id + 1 && wrappers == old(wrappers)[h := id]
      ensures id != EmptyId && id !in records && forall x | x in old(wrappers) :: old(wrappers)[x] != id
    {
      id := nextId;
      nextId := nextId + 1;
      wrappers := wrappers[h := id];
    }

    /** The queue of family `familyIdx` is m_Queue once wrapped; the
        commands queued before it existed are submitted. */
    method TakeQueueIfFamily(familyIdx: u32, q: ResourceId)
      modifies this`queue, this`driverLog
      ensures familyIdx == queueFamilyIdx ==> queue == Some(q) && driverLog == old(driverLog) + [SubmitCmds]
      ensures familyIdx != queueFamilyIdx ==> queue == old(queue) && driverLog == old(driverLog)
    {
      if familyIdx == queueFamilyIdx {
        queue := Some(q);
        driverLog := driverLog + [SubmitCmds];
      }
    }

    /** The record of a newly wrapped queue under capture: a pooled child of
        the instance record, holding the GET_DEVICE_QUEUE chunk. */
    method AddQueueRecord(q: ResourceId, deviceId: ResourceId, familyIdx: u32, idx: u32)
      requires q !in records
      modifies this`records, this`pooledChildren
      ensures records == old(records)[q := [Chunk(GET_DEVICE_QUEUE, WriteGetDeviceQueue(deviceId, familyIdx, idx, q))]]
      ensures ReadGetDeviceQueue(records[q][0].fields) == Ok((deviceId, familyIdx, idx, q))
      ensures pooledChildren == old(pooledChildren) + [q]
    {
      var chunk := Chunk(GET_DEVICE_QUEUE, WriteGetDeviceQueue(deviceId, familyIdx, idx, q));
      pooledChildren := pooledChildren + [q];
      records := records[q := [chunk]];
      GetDeviceQueueRoundTrip(deviceId, familyIdx, idx, q);
    }

    /** A queue handle the resource manager has not seen: wrapped with a
        fresh id, then recorded under capture or made live otherwise. */
    method WrapNewQueue(deviceId: ResourceId, familyIdx: u32, idx: u32, returned: Handle) returns (q: ResourceId)
      requires Valid() && returned !in wrappers
      modifies this`queue, this`wrappers, this`nextId, this`live, this`records, this`pooledChildren, this`driverLog
      ensures Valid()
      ensures q == old(nextId) && q != EmptyId && wrappers == old(wrappers)[returned := q]
      ensures forall h | h in old(wrappers) :: old(wrappers)[h] != q
      ensures familyIdx == queueFamilyIdx ==> queue == Some(q) && driverLog == old(driverLog) + [SubmitCmds]
      ensures familyIdx != queueFamilyIdx ==> queue == old(queue) && driverLog == old(driverLog)
      ensures state.IsWriting() ==>
                && q !in old(records)
                && records == old(records)[q := [Chunk(GET_DEVICE_QUEUE, WriteGetDeviceQueue(deviceId, familyIdx, idx, q))]]
                && ReadGetDeviceQueue(records[q][0].fields) == Ok((deviceId, familyIdx, idx, q))
                && pooledChildren == old(pooledChildren) + [q] && live == old(live)
      ensures !state.IsWriting() ==>
                live == old(live)[q := q] && records == old(records) && pooledChildren == old(pooledChildren)
    {
      q := Wrap(returned);
      if state.IsWriting() {
        AddQueueRecord(q, deviceId, familyIdx, idx);
      } else {
        live := live[q := q];
      }
      TakeQueueIfFamily(familyIdx, q);
    }

    /** vkGetDeviceQueue: the driver returns `returned` for the device whose
        real handle is `device` and whose id is `deviceId`. */
    method GetDeviceQueue(deviceId: ResourceId, device: Handle, familyIdx: u32, idx: u32, returned: Handle)
      returns (q: ResourceId)
      requires Valid()
      modifies this`queue, this`wrappers, this`nextId, this`live, this`records, this`pooledChildren, this`driverLog
      ensures Valid()
      ensures returned in wrappers && wrappers[returned] == q && q != EmptyId
      // a handle wrapped before is returned as its wrapper, and nothing else changes
      ensures returned in old(wrappers) ==>
                && q == old(wrappers)[returned]
                && wrappers == old(wrappers) && nextId == old(nextId) && live == old(live) && records == old(records)
                && pooledChildren == old(pooledChildren) && queue == old(queue)
                && driverLog == old(driverLog) + [DriverCall.GetDeviceQueue(device, familyIdx, idx)]
      // a new handle gets a fresh id
      ensures returned !in old(wrappers) ==>
                && q == old(nextId) && wrappers == old(wrappers)[returned := q]
                && (forall h | h in old(wrappers) :: old(wrappers)[h] != q)
                && (familyIdx == queueFamilyIdx ==>
                      queue == Some(q) && driverLog == old(driverLog) + [DriverCall.GetDeviceQueue(device, familyIdx, idx), SubmitCmds])
                && (familyIdx != queueFamilyIdx ==>
                      queue == old(queue) && driverLog == old(driverLog) + [DriverCall.GetDeviceQueue(device, familyIdx, idx)])
      // ... recorded, with its GET_DEVICE_QUEUE chunk, as a pooled child of the instance under capture
      ensures returned !in old(wrappers) && state.IsWriting() ==>
                && q !in old(records)
                && records == old(records)[q := [Chunk(GET_DEVICE_QUEUE, WriteGetDeviceQueue(deviceId, familyIdx, idx, q))]]
                && ReadGetDeviceQueue(records[q][0].fields) == Ok((deviceId, familyIdx, idx, q))
                && pooledChildren == old(pooledChildren) + [q] && live == old(live)
      // ... and registered as a live resource otherwise
      ensures returned !in old(wrappers) && !state.IsWriting() ==>
                && live == old(live)[q := q] && records == old(records) && pooledChildren == old(pooledChildren)
    {
      driverLog := driverLog + [DriverCall.GetDeviceQueue(device, familyIdx, idx)];
      if returned in wrappers {
        q := wrappers[returned];
        return;
      }
      q := WrapNewQueue(deviceId, familyIdx, idx, returned);
    }

    /** Serialise_vkGetDeviceQueue while reading a capture: the device is
        looked up by its id, the driver's queue is wrapped (without looking
        for an existing wrapper, unlike vkGetDeviceQueue) and becomes the
        live resource of the captured queue id. In any other state the
        fields are only decoded. */
    method SerialiseGetDeviceQueue(fields: seq<Field>, returned: Handle) returns (r: Result<ResourceId>)
      requires Valid()
      modifies this`queue, this`wrappers, this`nextId, this`live, this`driverLog
      ensures Valid()
      ensures ReadGetDeviceQueue(fields).Err? ==>
                r == Err(MalformedChunk) && unchanged(this)
      ensures ReadGetDeviceQueue(fields).Ok? && state != READING ==>
                r == Ok(ReadGetDeviceQueue(fields).value.3) && unchanged(this)
      ensures ReadGetDeviceQueue(fields).Ok? && state == READING ==>
                var (devId, familyIdx, idx, queueId) := ReadGetDeviceQueue(fields).value;
                && (devId !in old(live) ==> r == Err(UnknownResource(devId)) && unchanged(this))
                && (devId in old(live) ==>
                      && r == Ok(queueId)
                      && wrappers == old(wrappers)[returned := old(nextId)] && nextId == old(nextId) + 1
                      && live == old(live)[queueId := old(nextId)]
                      && queue == (if familyIdx == queueFamilyIdx then Some(old(nextId)) else old(queue))
                      && driverLog == old(driverLog) + [DriverCall.GetDeviceQueue(old(live)[devId], familyIdx, idx)]
                                      + (if familyIdx == queueFamilyIdx then [SubmitCmds] else []))
    {
      var decoded := ReadGetDeviceQueue(fields);
      if decoded.Err? {
        return Err(MalformedChunk);
      }
      var (devId, familyIdx, idx, queueId) := decoded.value;
      if state != READING {
        return Ok(queueId);
      }
      if devId !in live {
        return Err(UnknownResource(devId));
      }
      var device := live[devId];
      driverLog := driverLog + [DriverCall.GetDeviceQueue(device, familyIdx, idx)];
      var q := Wrap(returned);
      live := live[queueId := q];
      TakeQueueIfFamily(familyIdx, q);
      r := Ok(queueId);
    }
  }
}

/** The flush of persistently mapped coherent memory that vkQueueSubmit does
    once a submission is part of the captured frame. The application may
    write to such a mapping at any time without telling the layer, so before
    the submission is recorded every coherent mapping the submitted work can
    reach is compared with its last snapshot; the changed byte range is
    flushed, so that its contents are serialised, and the snapshot is taken
    again. The flush goes through the layer's own vkFlushMappedMemoryRanges
    wrapper; the model logs the call and its range, and what the wrapper
    then records is not part of this model. `FlushOne` is that decision for one mapping, `FlushAll` for the
    list of coherent mappings in order. */
module MapFlush {
  import opened Types

  /** A memory object's mapping state (MemMapState): whether the memory is
      host coherent, the mapped bytes (None while unmapped), whether the
      application flushed the mapping itself, the mapped offset and size,
      and the snapshot taken at the last flush (None before the first). */
  datatype MemMapState = MemMapState(
    mapCoherent: bool,
    mapped: Option<seq<bv8>>,
    mapFlushed: bool,
    mapOffset: nat,
    mapSize: nat,
    refData: Option<seq<bv8>>)

  /** FindDiffRange(mapped, refData, size): the byte range [start, end) in
      which the mapping differs from its snapshot, or None when they agree.
      Its body is not part of this model. */
  type DiffFinder = (seq<bv8>, seq<bv8>, nat) -> Option<(nat, nat)>

  /** A diff finder that reports no range for two equal buffers. */
  ghost predicate NoDiffWhenEqual(findDiff: DiffFinder) {
    forall bytes: seq<bv8>, size: nat :: findDiff(bytes, bytes, size) == None
  }

  /** What the flush changes: the mapping states, the resource manager's
      pending-dirty set and the driver calls made. */
  datatype Flushed = Flushed(maps: map<ResourceId, MemMapState>, pendingDirty: set<ResourceId>, calls: seq<DriverCall>)

  /** A potential persistent map: coherent, mapped and not flushed by the
      application. */
  predicate Considered(m: MemMapState) {
    m.mapCoherent && m.mapped.Some? && !m.mapFlushed
  }

  /** The range to flush: the differing range when there is a snapshot to
      compare with, and the whole mapping otherwise. */
  function DiffRange(m: MemMapState, findDiff: DiffFinder): (r: Option<(nat, nat)>)
    requires m.mapped.Some?
    ensures m.refData.None? ==> r == Some((0, m.mapSize))
  {
    if m.refData.Some? then findDiff(m.mapped.value, m.refData.value, m.mapSize) else Some((0, m.mapSize))
  }

  /** The flush call for the range [start, end) of a mapping: VkDeviceSize
      offset mapOffset+start and size end-start, both modulo 2^64. */
  function FlushCall(id: ResourceId, m: MemMapState, start: nat, end: nat): DriverCall {
    FlushMappedMemoryRanges(id, Wrap64(m.mapOffset + start), Wrap64(end - start))
  }

  /** One coherent mapping: skipped unless it is considered and the
      submission referenced its memory; otherwise a found range is flushed,
      the memory is marked pending-dirty and the snapshot becomes the
      mapped bytes. */
  function FlushOne(st: Flushed, id: ResourceId, refd: set<ResourceId>, findDiff: DiffFinder): (r: Flushed)
    requires id in st.maps
    ensures r.maps.Keys == st.maps.Keys
  {
    var m := st.maps[id];
    if !Considered(m) || id !in refd then st
    else
      match DiffRange(m, findDiff)
      case None => st
      case Some((start, end)) =>
        Flushed(st.maps[id := m.(mapFlushed := false, refData := m.mapped)],
                st.pendingDirty + {id},
                st.calls + [FlushCall(id, m, start, end)])
  }

  /** The coherent mappings of `ids`, in order. */
  function FlushAll(st: Flushed, ids: seq<ResourceId>, refd: set<ResourceId>, findDiff: DiffFinder): (r: Flushed)
    requires forall id | id in ids :: id in st.maps
    ensures r.maps.Keys == st.maps.Keys
    decreases |ids|
  {
    if ids == [] then st
    else
      var n := |ids| - 1;
      FlushOne(FlushAll(st, ids[..n], refd, findDiff), ids[n], refd, findDiff)
  }

  // ---------------------------------------------------------------------------
  // One mapping
  // ---------------------------------------------------------------------------

  /** A mapping is flushed, with one driver call, iff it is considered, its
      memory was referenced and a range is found; otherwise nothing
      changes. A flushed mapping's snapshot becomes its mapped bytes, and its
      memory is marked pending-dirty. */
  lemma FlushOneEffect(st: Flushed, id: ResourceId, refd: set<ResourceId>, findDiff: DiffFinder)
    requires id in st.maps
    ensures var m := st.maps[id];
            var r := FlushOne(st, id, refd, findDiff);
            var flushes := Considered(m) && id in refd && DiffRange(m, findDiff).Some?;
            && (!flushes ==> r == st)
            && (flushes ==>
                  && r.calls == st.calls + [FlushCall(id, m, DiffRange(m, findDiff).value.0, DiffRange(m, findDiff).value.1)]
                  && r.pendingDirty == st.pendingDirty + {id}
                  && r.maps[id].refData == m.mapped
                  && Considered(r.maps[id])
                  && (forall x | x in st.maps && x != id :: r.maps[x] == st.maps[x]))
  {
  }

  /** Without a snapshot, the whole mapping [0, mapSize) is flushed. */
  lemma FlushWithoutSnapshot(st: Flushed, id: ResourceId, refd: set<ResourceId>, findDiff: DiffFinder)
    requires id in st.maps && Considered(st.maps[id]) && id in refd && st.maps[id].refData.None?
    ensures var m := st.maps[id];
            FlushOne(st, id, refd, findDiff).calls == st.calls + [FlushMappedMemoryRanges(id, Wrap64(m.mapOffset), Wrap64(m.mapSize))]
  {
  }

  /** Once a mapping is flushed its snapshot equals its bytes, so flushing it
      again before the application writes to it finds nothing to flush, when
      the diff finder reports no range for equal buffers. */
  lemma FlushOneTwice(st: Flushed, id: ResourceId, refd: set<ResourceId>, findDiff: DiffFinder)
    requires id in st.maps && NoDiffWhenEqual(findDiff)
    ensures var r := FlushOne(st, id, refd, findDiff);
            FlushOne(r, id, refd, findDiff) == r
  {
    var r := FlushOne(st, id, refd, findDiff);
    var m := st.maps[id];
    if Considered(m) && id in refd && DiffRange(m, findDiff).Some? {
      var m' := r.maps[id];
      assert m'.refData == m.mapped && m'.mapped == m.mapped;
      assert findDiff(m.mapped.value, m.mapped.value, m.mapSize) == None;
    }
  }

  // ---------------------------------------------------------------------------
  // The list of coherent mappings
  // ---------------------------------------------------------------------------

  /** The flush only adds driver calls, each a flush of a listed memory
      object that the submission referenced and whose mapping was a
      potential persistent map; a mapping that was not is left as it was. */
  lemma {:induction false} FlushAllCalls(st: Flushed, ids: seq<ResourceId>, refd: set<ResourceId>, findDiff: DiffFinder)
    requires forall id | id in ids :: id in st.maps
    ensures var r := FlushAll(st, ids, refd, findDiff);
            && |st.calls| <= |r.calls| && r.calls[..|st.calls|] == st.calls
            && (forall j | |st.calls| <= j < |r.calls| ::
                  && r.calls[j].FlushMappedMemoryRanges?
                  && r.calls[j].memory in ids && r.calls[j].memory in refd
                  && Considered(st.maps[r.calls[j].memory]))
            && (forall x | x in st.maps :: Considered(r.maps[x]) == Considered(st.maps[x]))
            && (forall x | x in st.maps && !(x in ids && x in refd && Considered(st.maps[x])) :: r.maps[x] == st.maps[x])
  {
    if ids != [] {
      var n := |ids| - 1;
      assert forall id | id in ids[..n] :: id in ids;
      FlushAllCalls(st, ids[..n], refd, findDiff);
      var prev := FlushAll(st, ids[..n], refd, findDiff);
      FlushOneEffect(prev, ids[n], refd, findDiff);
    }
  }

  /** A memory object ends up pending-dirty iff it already was or the flush
      made a driver call for it. */
  lemma {:induction false} FlushAllPending(st: Flushed, ids: seq<ResourceId>, refd: set<ResourceId>, findDiff: DiffFinder, x: ResourceId)
    requires forall id | id in ids :: id in st.maps
    ensures var r := FlushAll(st, ids, refd, findDiff);
            && |st.calls| <= |r.calls|
            && (x in r.pendingDirty <==>
                  x in st.pendingDirty
                  || exists j :: |st.calls| <= j < |r.calls| && r.calls[j].FlushMappedMemoryRanges? && r.calls[j].memory == x)
  {
    if ids != [] {
      var n := |ids| - 1;
      assert forall id | id in ids[..n] :: id in ids;
      FlushAllPending(st, ids[..n], refd, findDiff, x);
      var prev := FlushAll(st, ids[..n], refd, findDiff);
      var r := FlushAll(st, ids, refd, findDiff);
      FlushOneEffect(prev, ids[n], refd, findDiff);
      if r != prev {
        assert r.calls == prev.calls + [r.calls[|prev.calls|]];
        assert forall j | |st.calls| <= j < |prev.calls| :: r.calls[j] == prev.calls[j];
      }
    }
  }
}

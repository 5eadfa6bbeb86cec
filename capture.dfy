/** vkQueueSubmit and vkQueueWaitIdle while the application runs under
    capture: the call into the driver, the per-command-buffer bookkeeping,
    the flush of persistent coherent maps and the QUEUE_SUBMIT chunks added
    to the frame capture record. Handles are identified with their resource
    ids. The bookkeeping methods are proved against `Bookkeeping.Run`, the
    flush against `MapFlush.FlushAll`, and the chunks against
    `Chunks.ReadSubmit`. */
module Capture {
  import opened Types
  import opened Chunks
  import opened Bookkeeping
  import opened MapFlush

  /** One VkSubmitInfo: the semaphores it waits on, its command buffers and
      the semaphores it signals. */
  datatype Submit = Submit(waitSems: seq<ResourceId>, cmdBuffers: seq<ResourceId>, signalSems: seq<ResourceId>)

  /** Every submitted command buffer has the records vkQueueSubmit reads. */
  predicate SubmitsKnown(env: Env, submits: seq<Submit>) {
    forall s | 0 <= s < |submits| :: AllKnown(env, submits[s].cmdBuffers)
  }

  /** The counts of a VkSubmitInfo are uint32_t. */
  predicate CountsFit(submits: seq<Submit>) {
    forall s | 0 <= s < |submits| :: |submits[s].waitSems| < Pow32 && |submits[s].cmdBuffers| < Pow32
  }

  /** The effects of all command buffers of all submits, in submission order. */
  function SubmitEffects(env: Env, submits: seq<Submit>, queue: ResourceId, fence: Option<ResourceId>): seq<Effect>
    requires SubmitsKnown(env, submits)
  {
    if submits == [] then []
    else
      var n := |submits| - 1;
      SubmitEffects(env, submits[..n], queue, fence) + Effects(env, submits[n].cmdBuffers, queue, fence)
  }

  /** The bookkeeping of the submission loops over all submits, every
      command buffer observing `state`. */
  function Accounting(k: Book, env: Env, state: LogState, submits: seq<Submit>, queue: ResourceId, fence: Option<ResourceId>): Book
    requires SubmitsKnown(env, submits)
  {
    var effs := SubmitEffects(env, submits, queue, fence);
    Run(k, effs, Same(state, |effs|))
  }

  lemma SubmitsKnownPrefix(env: Env, submits: seq<Submit>, s: nat)
    requires SubmitsKnown(env, submits) && s <= |submits|
    ensures SubmitsKnown(env, submits[..s])
  {
    assert forall i | 0 <= i < s :: submits[..s][i] == submits[i];
  }

  /** Accounting for one more submit runs its command buffers after the
      earlier ones. */
  lemma AccountingSnoc(k: Book, env: Env, state: LogState, submits: seq<Submit>, s: nat, queue: ResourceId, fence: Option<ResourceId>)
    requires SubmitsKnown(env, submits) && s < |submits|
    ensures SubmitsKnown(env, submits[..s]) && SubmitsKnown(env, submits[..s + 1])
    ensures Accounting(k, env, state, submits[..s + 1], queue, fence)
            == Run(Accounting(k, env, state, submits[..s], queue, fence), Effects(env, submits[s].cmdBuffers, queue, fence),
                   Same(state, |submits[s].cmdBuffers|))
  {
    SubmitsKnownPrefix(env, submits, s);
    SubmitsKnownPrefix(env, submits, s + 1);
    var before := SubmitEffects(env, submits[..s], queue, fence);
    var batch := Effects(env, submits[s].cmdBuffers, queue, fence);
    assert submits[..s + 1][..s] == submits[..s];
    assert SubmitEffects(env, submits[..s + 1], queue, fence) == before + batch;
    assert Same(state, |before|) + Same(state, |batch|) == Same(state, |before + batch|);
    RunAppend(k, before, Same(state, |before|), batch, Same(state, |batch|));
  }

  /** No command buffer is submitted iff every submit is empty. */
  lemma {:induction false} SubmitEffectsEmpty(env: Env, submits: seq<Submit>, queue: ResourceId, fence: Option<ResourceId>)
    requires SubmitsKnown(env, submits)
    ensures SubmitEffects(env, submits, queue, fence) == [] <==> forall s | 0 <= s < |submits| :: submits[s].cmdBuffers == []
  {
    if submits != [] {
      var n := |submits| - 1;
      SubmitsKnownPrefix(env, submits, n);
      SubmitEffectsEmpty(env, submits[..n], queue, fence);
      assert forall s | 0 <= s < n :: submits[..n][s] == submits[s];
    }
  }

  /** A single-threaded vkQueueSubmit is part of the captured frame iff the
      state is WRITING_CAPFRAME and it submits at least one command buffer. */
  lemma AccountingInFrame(k: Book, env: Env, state: LogState, submits: seq<Submit>, queue: ResourceId, fence: Option<ResourceId>)
    requires SubmitsKnown(env, submits) && !k.capframe
    ensures Accounting(k, env, state, submits, queue, fence).capframe
            <==> state == WRITING_CAPFRAME && exists s :: 0 <= s < |submits| && submits[s].cmdBuffers != []
  {
    SubmitEffectsEmpty(env, submits, queue, fence);
    SameCapframe(k, SubmitEffects(env, submits, queue, fence), state);
  }

  /** The command buffers handed to the driver, batch by batch. */
  function Unwrapped(submits: seq<Submit>): (r: seq<seq<Option<Handle>>>)
    ensures |r| == |submits|
    ensures forall i | 0 <= i < |submits| :: |r[i]| == |submits[i].cmdBuffers|
  {
    seq(|submits|, i requires 0 <= i < |submits| =>
      seq(|submits[i].cmdBuffers|, o requires 0 <= o < |submits[i].cmdBuffers| => Some(submits[i].cmdBuffers[o])))
  }

  /** The batches as the unwrapping loop writes them: every slot starts as a
      copy of submit 0 (`*pSubmits`), so batch i keeps submit 0's command
      buffer count and is filled from submit i's array up to that count. A
      slot past the end of submit i's array is a read out of bounds; it is
      None here. */
  function UnwrapAsWritten(submits: seq<Submit>): (r: seq<seq<Option<Handle>>>)
    ensures |r| == |submits|
  {
    if submits == [] then []
    else
      var count := |submits[0].cmdBuffers|;
      seq(|submits|, i requires 0 <= i < |submits| =>
        seq(count, o requires 0 <= o < count =>
          if o < |submits[i].cmdBuffers| then Some(submits[i].cmdBuffers[o]) else None))
  }

  /** Two submits with different command buffer counts: the as-written
      unwrapping hands the driver only the first command buffer of the
      second submit, so command buffer 3 is never executed. */
  lemma UnwrapDropsCommandBuffers()
    ensures var submits := [Submit([], [1], []), Submit([], [2, 3], [])];
            && UnwrapAsWritten(submits) == [[Some(1)], [Some(2)]]
            && Unwrapped(submits) == [[Some(1)], [Some(2), Some(3)]]
  {
    var submits := [Submit([], [1], []), Submit([], [2, 3], [])];
    var w, u := UnwrapAsWritten(submits), Unwrapped(submits);
    assert |submits[0].cmdBuffers| == 1 && |w[0]| == 1 && |w[1]| == 1;
    assert w[0][0] == Some(1) && w[1][0] == Some(2);
    assert |u[1]| == 2 && u[1][0] == Some(2) && u[1][1] == Some(3);
    assert w[0] == [Some(1)] && w[1] == [Some(2)];
    assert u[0] == [Some(1)] && u[1] == [Some(2), Some(3)];
  }

  /** The as-written unwrapping is right exactly when every submit has as
      many command buffers as submit 0. */
  lemma UnwrapAgreesIffSameCounts(submits: seq<Submit>)
    ensures UnwrapAsWritten(submits) == Unwrapped(submits)
            <==> forall i | 0 <= i < |submits| :: |submits[i].cmdBuffers| == |submits[0].cmdBuffers|
  {
    if submits != [] {
      var w, u := UnwrapAsWritten(submits), Unwrapped(submits);
      if forall i | 0 <= i < |submits| :: |submits[i].cmdBuffers| == |submits[0].cmdBuffers| {
        forall i | 0 <= i < |submits| ensures w[i] == u[i] {
          assert |w[i]| == |u[i]|;
        }
      } else {
        var i :| 0 <= i < |submits| && |submits[i].cmdBuffers| != |submits[0].cmdBuffers|;
        assert |w[i]| != |u[i]|;
      }
    }
  }

  /** What the QUEUE_SUBMIT chunk of one submit carries: the queue, the
      fence, the baked record of each command buffer and the number of wait
      semaphores. */
  function SubmitDataOf(env: Env, queue: ResourceId, s: Submit, fence: Option<ResourceId>): SubmitData
    requires AllKnown(env, s.cmdBuffers) && |s.waitSems| < Pow32
  {
    SubmitData(queue, fence, BakedIds(env, s.cmdBuffers), |s.waitSems| as u32)
  }

  /** One QUEUE_SUBMIT chunk per submit, in order. */
  function SubmitChunks(env: Env, queue: ResourceId, submits: seq<Submit>, fence: Option<ResourceId>): (r: seq<Chunk>)
    requires SubmitsKnown(env, submits) && CountsFit(submits)
    ensures |r| == |submits|
  {
    seq(|submits|, s requires 0 <= s < |submits| =>
      Chunk(QUEUE_SUBMIT, WriteSubmit(SubmitDataOf(env, queue, submits[s], fence))))
  }

  /** The semaphores of a list of submits, waited on or signalled. */
  function SemaphoreRefs(submits: seq<Submit>): set<ResourceId> {
    if submits == [] then {}
    else
      var n := |submits| - 1;
      SemaphoreRefs(submits[..n]) + Elems(submits[n].waitSems) + Elems(submits[n].signalSems)
  }

  /** Every QUEUE_SUBMIT chunk of a call reads back as its own submit, with
      the call's queue and fence and the baked records of its command
      buffers. */
  lemma SubmitChunksDecode(env: Env, queue: ResourceId, submits: seq<Submit>, fence: Option<ResourceId>)
    requires SubmitsKnown(env, submits) && CountsFit(submits) && fence != Some(EmptyId)
    ensures forall s | 0 <= s < |submits| ::
              && SubmitChunks(env, queue, submits, fence)[s].kind == QUEUE_SUBMIT
              && ReadSubmit(SubmitChunks(env, queue, submits, fence)[s].fields)
                 == Ok(SubmitData(queue, fence, BakedIds(env, submits[s].cmdBuffers), |submits[s].waitSems| as u32))
  {
    forall s | 0 <= s < |submits|
      ensures ReadSubmit(SubmitChunks(env, queue, submits, fence)[s].fields)
              == Ok(SubmitData(queue, fence, BakedIds(env, submits[s].cmdBuffers), |submits[s].waitSems| as u32))
    {
      SubmitRoundTrip(SubmitDataOf(env, queue, submits[s], fence));
    }
  }

  /** The capture-side state of WrappedVulkan that queue submission uses. */
  class WrappedVulkan {
    var state: LogState                              // m_State
    const env: Env                                    // the records submission reads
    var dirty: set<ResourceId>                       // the resource manager's dirty resources
    var pendingDirty: set<ResourceId>                // ... and pending-dirty resources
    var frameRefs: set<ResourceId>                   // ... and frame-referenced resources
    var cmdBufferRecords: seq<ResourceId>            // m_CmdBufferRecords
    var refCount: map<ResourceId, nat>               // reference counts of the baked records
    var liveDirtied: map<ResourceId, set<ResourceId>> // each command buffer record's cmdInfo->dirtied
    var coherentMaps: seq<ResourceId>                // m_CoherentMaps
    var memMaps: map<ResourceId, MemMapState>        // each memory record's memMapState
    var frameChunks: seq<Chunk>                      // m_FrameCaptureRecord's chunks
    ghost var appliedBarriers: seq<seq<ImageBarrier>>
    ghost var driverLog: seq<DriverCall>

    /** A capture with the given records, before any submission. */
    constructor(env: Env, state: LogState, coherentMaps: seq<ResourceId>, memMaps: map<ResourceId, MemMapState>)
      ensures this.env == env && this.state == state && this.coherentMaps == coherentMaps && this.memMaps == memMaps
      ensures dirty == {} && pendingDirty == {} && frameRefs == {} && cmdBufferRecords == [] && refCount == map[]
      ensures liveDirtied == map[] && frameChunks == [] && appliedBarriers == [] && driverLog == []
    {
      this.env := env;
      this.state := state;
      dirty, pendingDirty, frameRefs := {}, {}, {};
      cmdBufferRecords := [];
      refCount := map[];
      liveDirtied := map[];
      this.coherentMaps := coherentMaps;
      this.memMaps := memMaps;
      frameChunks := [];
      appliedBarriers := [];
      driverLog := [];
    }

    /** The bookkeeping state, with the call's local refdIDs and capframe. */
    ghost function BookOf(refd: set<ResourceId>, capframe: bool): Book
      reads this
    {
      Book(dirty, pendingDirty, frameRefs, refd, cmdBufferRecords, refCount, liveDirtied, appliedBarriers, capframe)
    }

    ghost function FlushedOf(): Flushed
      reads this
    {
      Flushed(memMaps, pendingDirty, driverLog)
    }

    /** MarkDirtyResource for each dirtied resource. */
    method MarkDirtyAll(ids: set<ResourceId>)
      modifies this`dirty
      ensures dirty == old(dirty) + ids
    {
      var todo := ids;
      while todo != {}
        invariant todo <= ids
        invariant dirty == old(dirty) + (ids - todo)
        decreases todo
      {
        var x :| x in todo;
        dirty := dirty + {x};
        todo := todo - {x};
      }
    }

    /** MarkPendingDirty for each dirtied resource. */
    method MarkPendingDirtyAll(ids: set<ResourceId>)
      modifies this`pendingDirty
      ensures pendingDirty == old(pendingDirty) + ids
    {
      var todo := ids;
      while todo != {}
        invariant todo <= ids
        invariant pendingDirty == old(pendingDirty) + (ids - todo)
        decreases todo
      {
        var x :| x in todo;
        pendingDirty := pendingDirty + {x};
        todo := todo - {x};
      }
    }

    /** Each bound descriptor set is frame referenced, and so is every
        resource bound to it, which also joins refdIDs. */
    method MarkDescSets(sets: seq<ResourceId>, refd: set<ResourceId>) returns (refd': set<ResourceId>)
      requires forall ds | ds in sets :: ds in env.bindRefs
      modifies this`frameRefs
      ensures frameRefs == old(frameRefs) + Elems(sets) + DescRefs(env, sets)
      ensures refd' == refd + DescRefs(env, sets)
    {
      refd' := refd;
      var i := 0;
      while i < |sets|
        invariant 0 <= i <= |sets|
        invariant frameRefs == old(frameRefs) + Elems(sets[..i]) + DescRefs(env, sets[..i])
        invariant refd' == refd + DescRefs(env, sets[..i])
      {
        var ds := sets[i];
        frameRefs := frameRefs + {ds};
        var bound := env.bindRefs[ds];
        refd' := refd' + bound;
        frameRefs := frameRefs + bound;
        assert sets[..i + 1] == sets[..i] + [ds];
        ElemsSnoc(sets[..i], ds);
        i := i + 1;
      }
      assert sets[..i] == sets;
    }

    /** One secondary command buffer: the resources its baked recording
        references are frame referenced and join refdIDs, the secondary
        itself is frame referenced, and its baked record gains a reference. */
    method AddSubcmd(sub: ResourceId, refd: set<ResourceId>) returns (refd': set<ResourceId>)
      requires sub in env.bakedOf && env.bakedOf[sub] in env.bakedCmds
      modifies this`frameRefs, this`refCount
      ensures var refs := env.bakedCmds[env.bakedOf[sub]].references;
              frameRefs == old(frameRefs) + refs + {sub} && refd' == refd + refs
      ensures refCount == Bump(old(refCount), env.bakedOf[sub])
    {
      var baked := env.bakedOf[sub];
      var refs := env.bakedCmds[baked].references;
      frameRefs := frameRefs + refs;
      refd' := refd + refs;
      frameRefs := frameRefs + {sub};
      refCount := Bump(refCount, baked);
    }

    /** The secondary command buffers, in order. */
    method AddSubcmds(subs: seq<ResourceId>, refd: set<ResourceId>) returns (refd': set<ResourceId>)
      requires forall s | s in subs :: s in env.bakedOf && env.bakedOf[s] in env.bakedCmds
      modifies this`frameRefs, this`refCount
      ensures frameRefs == old(frameRefs) + SubRefs(env, subs) + Elems(subs)
      ensures refd' == refd + SubRefs(env, subs)
      ensures refCount == AddRefs(old(refCount), BakedIds(env, subs))
    {
      refd' := refd;
      ghost var baked := BakedIds(env, subs);
      var i := 0;
      while i < |subs|
        invariant 0 <= i <= |subs|
        invariant frameRefs == old(frameRefs) + SubRefs(env, subs[..i]) + Elems(subs[..i])
        invariant refd' == refd + SubRefs(env, subs[..i])
        invariant AddRefs(refCount, baked[i..]) == AddRefs(old(refCount), baked)
      {
        refd' := AddSubcmd(subs[i], refd');
        ghost var p := subs[..i];
        assert subs[..i + 1] == p + [subs[i]] && (p + [subs[i]])[..i] == p;
        ElemsSnoc(p, subs[i]);
        UnionRegroup(old(frameRefs), SubRefs(env, p), Elems(p), env.bakedCmds[env.bakedOf[subs[i]]].references, {subs[i]});
        assert baked[i] == env.bakedOf[subs[i]] && baked[i..][1..] == baked[i + 1..];
        i := i + 1;
      }
      assert subs[..i] == subs && baked[i..] == [];
    }

    /** m_CmdBufferRecords gains the command buffer's baked record, then
        each of its secondaries' baked records. */
    method PushRecords(b: ResourceId)
      requires Known(env, b)
      modifies this`cmdBufferRecords
      ensures cmdBufferRecords == old(cmdBufferRecords) + Appended(env, b)
    {
      var subs := Baked(env, b).subcmds;
      var baked := BakedIds(env, subs);
      cmdBufferRecords := cmdBufferRecords + [env.bakedOf[b]];
      var i := 0;
      while i < |subs|
        invariant 0 <= i <= |subs|
        invariant cmdBufferRecords == old(cmdBufferRecords) + [env.bakedOf[b]] + baked[..i]
      {
        cmdBufferRecords := cmdBufferRecords + [env.bakedOf[subs[i]]];
        assert baked[..i + 1] == baked[..i] + [baked[i]];
        i := i + 1;
      }
      assert baked[..i] == baked;
    }

    /** The references a command buffer submitted in the captured frame
        adds: its descriptor sets and what is bound to them, its own
        references, itself, its secondaries and theirs, the queue and the
        fence are frame referenced, and each secondary's baked record gains a
        reference. */
    method MarkReferences(b: ResourceId, queue: ResourceId, fence: Option<ResourceId>, refd: set<ResourceId>)
      returns (refd': set<ResourceId>)
      requires Known(env, b)
      modifies this`frameRefs, this`refCount
      ensures frameRefs == old(frameRefs) + FrameRefdBy(env, b, queue, fence)
      ensures refd' == refd + RefdBy(env, b)
      ensures refCount == AddRefs(old(refCount), BakedIds(env, Baked(env, b).subcmds))
    {
      var baked := env.bakedCmds[env.bakedOf[b]];
      refd' := MarkDescSets(baked.boundDescSets, refd);
      frameRefs := frameRefs + baked.references;
      refd' := refd' + baked.references;
      frameRefs := frameRefs + {b};
      refd' := AddSubcmds(baked.subcmds, refd');
      frameRefs := frameRefs + {queue};
      ghost var f1 := frameRefs;
      if fence.Some? {
        frameRefs := frameRefs + {fence.value};
      }
      assert frameRefs == f1 + FenceRefs(fence);
      FrameUnion(old(frameRefs), Elems(baked.boundDescSets), DescRefs(env, baked.boundDescSets), baked.references, {b},
                 SubRefs(env, baked.subcmds), Elems(baked.subcmds), {queue}, FenceRefs(fence));
    }

    /** What a command buffer submitted in the captured frame adds: its
        references, and its baked record and its secondaries' appended to
        m_CmdBufferRecords, each with one more reference. */
    method ReferenceInFrame(b: ResourceId, queue: ResourceId, fence: Option<ResourceId>, refd: set<ResourceId>)
      returns (refd': set<ResourceId>)
      requires Known(env, b)
      modifies this`frameRefs, this`cmdBufferRecords, this`refCount
      ensures var e := EffectOf(env, b, queue, fence);
              && frameRefs == old(frameRefs) + e.frame && refd' == refd + e.refd
              && cmdBufferRecords == old(cmdBufferRecords) + e.appended
              && refCount == AddRefs(old(refCount), e.addRefs)
    {
      refd' := MarkReferences(b, queue, fence, refd);
      PushRecords(b);
      var id := env.bakedOf[b];
      refCount := Bump(refCount, id);
      AddRefsAppend(old(refCount), BakedIds(env, Baked(env, b).subcmds), [id]);
    }

    /** ApplyBarriers with the baked recording's image barriers, then what
        it dirtied marked pending-dirty in the captured frame and dirty
        otherwise. */
    method MarkBaked(b: ResourceId)
      requires Known(env, b)
      modifies this`dirty, this`pendingDirty, this`appliedBarriers
      ensures appliedBarriers == old(appliedBarriers) + [Baked(env, b).imgbarriers]
      ensures state == WRITING_CAPFRAME ==> dirty == old(dirty) && pendingDirty == old(pendingDirty) + Baked(env, b).dirtied
      ensures state != WRITING_CAPFRAME ==> dirty == old(dirty) + Baked(env, b).dirtied && pendingDirty == old(pendingDirty)
    {
      var baked := env.bakedCmds[env.bakedOf[b]];
      appliedBarriers := appliedBarriers + [baked.imgbarriers];
      if state == WRITING_CAPFRAME {
        MarkPendingDirtyAll(baked.dirtied);
      } else {
        MarkDirtyAll(baked.dirtied);
      }
    }

    /** The body of the per-command-buffer loop of vkQueueSubmit. */
    method SubmitBuffer(b: ResourceId, queue: ResourceId, fence: Option<ResourceId>, refd: set<ResourceId>, capframe: bool)
      returns (refd': set<ResourceId>, capframe': bool)
      requires Known(env, b)
      modifies this`dirty, this`pendingDirty, this`frameRefs, this`cmdBufferRecords, this`refCount, this`liveDirtied, this`appliedBarriers
      ensures BookOf(refd', capframe') == Step(old(BookOf(refd, capframe)), EffectOf(env, b, queue, fence), state)
    {
      MarkBaked(b);
      capframe' := capframe || state == WRITING_CAPFRAME;
      refd' := refd;
      if capframe' {
        refd' := ReferenceInFrame(b, queue, fence, refd');
      }
      liveDirtied := liveDirtied[b := {}];
    }

    /** The command buffers of one submit, in order. */
    method SubmitBatch(cmds: seq<ResourceId>, queue: ResourceId, fence: Option<ResourceId>, refd: set<ResourceId>, capframe: bool)
      returns (refd': set<ResourceId>, capframe': bool)
      requires AllKnown(env, cmds)
      modifies this`dirty, this`pendingDirty, this`frameRefs, this`cmdBufferRecords, this`refCount, this`liveDirtied, this`appliedBarriers
      ensures BookOf(refd', capframe') == Run(old(BookOf(refd, capframe)), Effects(env, cmds, queue, fence), Same(state, |cmds|))
    {
      ghost var k := BookOf(refd, capframe);
      refd', capframe' := refd, capframe;
      var i := 0;
      while i < |cmds|
        invariant 0 <= i <= |cmds|
        invariant BookOf(refd', capframe') == Run(k, Effects(env, cmds, queue, fence)[..i], Same(state, |cmds|)[..i])
      {
        refd', capframe' := SubmitNext(k, cmds, i, queue, fence, refd', capframe');
        i := i + 1;
      }
      assert Effects(env, cmds, queue, fence)[..i] == Effects(env, cmds, queue, fence) && Same(state, |cmds|)[..i] == Same(state, |cmds|);
    }

    /** The i-th command buffer of a submit, after the first i. */
    method SubmitNext(ghost k: Book, cmds: seq<ResourceId>, i: nat, queue: ResourceId, fence: Option<ResourceId>, refd: set<ResourceId>, capframe: bool)
      returns (refd': set<ResourceId>, capframe': bool)
      requires AllKnown(env, cmds) && i < |cmds|
      requires BookOf(refd, capframe) == Run(k, Effects(env, cmds, queue, fence)[..i], Same(state, |cmds|)[..i])
      modifies this`dirty, this`pendingDirty, this`frameRefs, this`cmdBufferRecords, this`refCount, this`liveDirtied, this`appliedBarriers
      ensures BookOf(refd', capframe') == Run(k, Effects(env, cmds, queue, fence)[..i + 1], Same(state, |cmds|)[..i + 1])
    {
      ghost var before := BookOf(refd, capframe);
      refd', capframe' := SubmitBuffer(cmds[i], queue, fence, refd, capframe);
      RunBufferStep(k, env, cmds, queue, fence, state, i, before, BookOf(refd', capframe'));
    }

    /** Both loops of vkQueueSubmit: every command buffer of every submit, in
        order, starting with an empty refdIDs and capframe false. */
    method SubmitAll(submits: seq<Submit>, queue: ResourceId, fence: Option<ResourceId>)
      returns (refd: set<ResourceId>, capframe: bool)
      requires SubmitsKnown(env, submits)
      modifies this`dirty, this`pendingDirty, this`frameRefs, this`cmdBufferRecords, this`refCount, this`liveDirtied, this`appliedBarriers
      ensures BookOf(refd, capframe) == Accounting(old(BookOf({}, false)), env, state, submits, queue, fence)
    {
      ghost var k := BookOf({}, false);
      refd, capframe := {}, false;
      var s := 0;
      assert submits[..0] == [];
      while s < |submits|
        invariant 0 <= s <= |submits|
        invariant SubmitsKnown(env, submits[..s])
        invariant BookOf(refd, capframe) == Accounting(k, env, state, submits[..s], queue, fence)
      {
        AccountingSnoc(k, env, state, submits, s, queue, fence);
        refd, capframe := SubmitBatch(submits[s].cmdBuffers, queue, fence, refd, capframe);
        s := s + 1;
      }
      assert submits[..s] == submits;
    }

    /** One coherent mapping of the flush loop. The flush call goes to the
        layer's own vkFlushMappedMemoryRanges wrapper; only the call itself is
        logged. */
    method FlushMap(id: ResourceId, refd: set<ResourceId>, findDiff: DiffFinder)
      requires id in memMaps
      modifies this`memMaps, this`pendingDirty, this`driverLog
      ensures FlushedOf() == FlushOne(old(FlushedOf()), id, refd, findDiff)
    {
      var m := memMaps[id];
      if m.mapCoherent && m.mapped.Some? && !m.mapFlushed {
        if id !in refd {
          return;
        }
        var found := true;
        var start: nat, end: nat := 0, 0;
        if m.refData.Some? {
          var d := findDiff(m.mapped.value, m.refData.value, m.mapSize);
          found := d.Some?;
          if found {
            start, end := d.value.0, d.value.1;
          }
        } else {
          end := m.mapSize;
        }
        if found {
          driverLog := driverLog + [FlushMappedMemoryRanges(id, Wrap64(m.mapOffset + start), Wrap64(end as int - start as int))];
          m := m.(mapFlushed := false);
          pendingDirty := pendingDirty + {id};
          m := m.(refData := m.mapped);
          memMaps := memMaps[id := m];
        }
      }
    }

    /** The flush loop over a copy of m_CoherentMaps. */
    method FlushCoherentMaps(refd: set<ResourceId>, findDiff: DiffFinder)
      requires forall id | id in coherentMaps :: id in memMaps
      modifies this`memMaps, this`pendingDirty, this`driverLog
      ensures FlushedOf() == FlushAll(old(FlushedOf()), coherentMaps, refd, findDiff)
    {
      var maps := coherentMaps;
      var i := 0;
      while i < |maps|
        invariant 0 <= i <= |maps|
        invariant memMaps.Keys == old(memMaps).Keys
        invariant FlushedOf() == FlushAll(old(FlushedOf()), maps[..i], refd, findDiff)
      {
        assert maps[..i + 1][..i] == maps[..i];
        FlushMap(maps[i], refd, findDiff);
        i := i + 1;
      }
      assert maps[..i] == maps;
    }

    /** One QUEUE_SUBMIT chunk per submit is added to the frame capture
        record, and the submit's semaphores are frame referenced. */
    method SerialiseSubmits(queue: ResourceId, submits: seq<Submit>, fence: Option<ResourceId>)
      requires SubmitsKnown(env, submits) && CountsFit(submits)
      modifies this`frameChunks, this`frameRefs
      ensures frameChunks == old(frameChunks) + SubmitChunks(env, queue, submits, fence)
      ensures frameRefs == old(frameRefs) + SemaphoreRefs(submits)
    {
      ghost var chunks := SubmitChunks(env, queue, submits, fence);
      var s := 0;
      while s < |submits|
        invariant 0 <= s <= |submits|
        invariant frameChunks == old(frameChunks) + chunks[..s]
        invariant frameRefs == old(frameRefs) + SemaphoreRefs(submits[..s])
      {
        var data := SubmitData(queue, fence, BakedIds(env, submits[s].cmdBuffers), |submits[s].waitSems| as u32);
        frameChunks := frameChunks + [Chunk(QUEUE_SUBMIT, WriteSubmit(data))];
        frameRefs := frameRefs + Elems(submits[s].waitSems);
        frameRefs := frameRefs + Elems(submits[s].signalSems);
        assert chunks[..s + 1] == chunks[..s] + [chunks[s]];
        assert submits[..s + 1][..s] == submits[..s];
        s := s + 1;
      }
      assert chunks[..s] == chunks && submits[..s] == submits;
    }

    /** vkQueueSubmit under capture. The driver receives every submit's own
        command buffers; then each command buffer is accounted for, and if
        the call is part of the captured frame the coherent maps it reaches
        are flushed and its QUEUE_SUBMIT chunks are recorded. m_State does
        not change during the call. */
    method QueueSubmit(queue: ResourceId, submits: seq<Submit>, fence: Option<ResourceId>, findDiff: DiffFinder)
      requires SubmitsKnown(env, submits) && CountsFit(submits)
      requires forall id | id in coherentMaps :: id in memMaps
      modifies this`dirty, this`pendingDirty, this`frameRefs, this`cmdBufferRecords, this`refCount, this`liveDirtied,
               this`appliedBarriers, this`memMaps, this`driverLog, this`frameChunks
      ensures var r := Accounting(old(BookOf({}, false)), env, state, submits, queue, fence);
              && dirty == r.dirty && cmdBufferRecords == r.records && refCount == r.refCount
              && liveDirtied == r.liveDirtied && appliedBarriers == r.barriers
      ensures var r := Accounting(old(BookOf({}, false)), env, state, submits, queue, fence);
              r.capframe ==>
                && FlushedOf() == FlushAll(Flushed(old(memMaps), r.pendingDirty, old(driverLog) + [DriverCall.QueueSubmit(queue, Unwrapped(submits), fence)]),
                                           coherentMaps, r.refdIDs, findDiff)
                && frameChunks == old(frameChunks) + SubmitChunks(env, queue, submits, fence)
                && frameRefs == r.frameRefs + SemaphoreRefs(submits)
      ensures var r := Accounting(old(BookOf({}, false)), env, state, submits, queue, fence);
              !r.capframe ==>
                && memMaps == old(memMaps) && pendingDirty == r.pendingDirty
                && driverLog == old(driverLog) + [DriverCall.QueueSubmit(queue, Unwrapped(submits), fence)]
                && frameChunks == old(frameChunks) && frameRefs == r.frameRefs
    {
      ghost var k := BookOf({}, false);
      ghost var r := Accounting(k, env, state, submits, queue, fence);
      driverLog := driverLog + [DriverCall.QueueSubmit(queue, Unwrapped(submits), fence)];
      assert BookOf({}, false) == k;
      var refd, capframe := SubmitAll(submits, queue, fence);
      assert dirty == r.dirty && cmdBufferRecords == r.records && refCount == r.refCount && liveDirtied == r.liveDirtied
        && appliedBarriers == r.barriers && pendingDirty == r.pendingDirty && frameRefs == r.frameRefs && refd == r.refdIDs && capframe == r.capframe;
      if capframe {
        RecordFrame(queue, submits, fence, refd, findDiff);
      }
    }

    method RecordFrame(queue: ResourceId, submits: seq<Submit>, fence: Option<ResourceId>, refd: set<ResourceId>, findDiff: DiffFinder)
      requires SubmitsKnown(env, submits) && CountsFit(submits)
      requires forall id | id in coherentMaps :: id in memMaps
      modifies this`pendingDirty, this`frameRefs, this`memMaps, this`driverLog, this`frameChunks
      ensures FlushedOf() == FlushAll(old(FlushedOf()), coherentMaps, refd, findDiff)
      ensures frameChunks == old(frameChunks) + SubmitChunks(env, queue, submits, fence)
      ensures frameRefs == old(frameRefs) + SemaphoreRefs(submits)
    {
      FlushCoherentMaps(refd, findDiff);
      SerialiseSubmits(queue, submits, fence);
    }

    /** vkQueueWaitIdle under capture: the driver waits; in the captured
        frame a QUEUE_WAIT_IDLE chunk naming the queue is recorded and the
        queue is frame referenced. */
    method QueueWaitIdle(queue: ResourceId)
      modifies this`driverLog, this`frameChunks, this`frameRefs
      ensures driverLog == old(driverLog) + [DriverCall.QueueWaitIdle(queue)]
      ensures state.InCapFrame() ==>
                && frameChunks == old(frameChunks) + [Chunk(QUEUE_WAIT_IDLE, WriteQueueWaitIdle(queue))]
                && ReadQueueWaitIdle(frameChunks[|frameChunks| - 1].fields) == Ok(queue)
                && frameRefs == old(frameRefs) + {queue}
      ensures !state.InCapFrame() ==> frameChunks == old(frameChunks) && frameRefs == old(frameRefs)
    {
      driverLog := driverLog + [DriverCall.QueueWaitIdle(queue)];
      if state.InCapFrame() {
        frameChunks := frameChunks + [Chunk(QUEUE_WAIT_IDLE, WriteQueueWaitIdle(queue))];
        QueueWaitIdleRoundTrip(queue);
        frameRefs := frameRefs + {queue};
      }
    }
  }
}

/** The resource bookkeeping vkQueueSubmit does for each command buffer it
    submits while the application runs under capture. For every command
    buffer the capture-state decision is taken under a lock, so another
    thread may start or end a frame capture between two command buffers of
    the same call: the state each command buffer observed is an input here.
    `Step` is what one command buffer does to the bookkeeping, `Run` what a
    list of them does in order, and the lemmas below say what that amounts
    to: which resources end up dirty or pending-dirty, which baked records
    are kept for the frame and with how many references, which ids count as
    referenced, and what is frame-referenced. */
module Bookkeeping {
  import opened Types

  /** A command buffer's baked recording (bakedCommands->cmdInfo): the
      resources it writes, the descriptor sets it binds (in the order the
      bound-set container iterates them), the command buffers it executes as
      secondaries, the resources it references, and its image barriers. */
  datatype BakedCommands = BakedCommands(
    dirtied: set<ResourceId>,
    boundDescSets: seq<ResourceId>,
    subcmds: seq<ResourceId>,
    references: set<ResourceId>,
    imgbarriers: seq<ImageBarrier>)

  /** What vkQueueSubmit only reads: the baked record of each command buffer
      record, each baked record's recording, and the resources each
      descriptor set currently has bound (the keys of bindFrameRefs). */
  datatype Env = Env(
    bakedOf: map<ResourceId, ResourceId>,
    bakedCmds: map<ResourceId, BakedCommands>,
    bindRefs: map<ResourceId, set<ResourceId>>)

  /** The records vkQueueSubmit dereferences for a command buffer exist: its
      own record, its baked record, the record of every descriptor set it
      binds, and the records and baked records of its secondaries. */
  predicate Known(env: Env, b: ResourceId) {
    && b in env.bakedOf && env.bakedOf[b] in env.bakedCmds
    && (forall ds | ds in env.bakedCmds[env.bakedOf[b]].boundDescSets :: ds in env.bindRefs)
    && (forall s | s in env.bakedCmds[env.bakedOf[b]].subcmds :: s in env.bakedOf && env.bakedOf[s] in env.bakedCmds)
  }

  predicate AllKnown(env: Env, bufs: seq<ResourceId>) {
    forall i | 0 <= i < |bufs| :: Known(env, bufs[i])
  }

  function Baked(env: Env, b: ResourceId): BakedCommands
    requires Known(env, b)
  {
    env.bakedCmds[env.bakedOf[b]]
  }

  /** The baked record of each command buffer of a list. */
  function BakedIds(env: Env, cmds: seq<ResourceId>): (r: seq<ResourceId>)
    requires forall s | s in cmds :: s in env.bakedOf
    ensures |r| == |cmds|
  {
    seq(|cmds|, i requires 0 <= i < |cmds| => env.bakedOf[cmds[i]])
  }

  /** The resources bound to a list of descriptor sets. */
  function DescRefs(env: Env, sets: seq<ResourceId>): set<ResourceId>
    requires forall ds | ds in sets :: ds in env.bindRefs
  {
    if sets == [] then {} else DescRefs(env, sets[..|sets| - 1]) + env.bindRefs[sets[|sets| - 1]]
  }

  /** The resources referenced by the baked recordings of a list of
      secondary command buffers. */
  function SubRefs(env: Env, subs: seq<ResourceId>): set<ResourceId>
    requires forall s | s in subs :: s in env.bakedOf && env.bakedOf[s] in env.bakedCmds
  {
    if subs == [] then {} else SubRefs(env, subs[..|subs| - 1]) + env.bakedCmds[env.bakedOf[subs[|subs| - 1]]].references
  }

  /** The ids a command buffer adds to refdIDs: every resource bound to one
      of its descriptor sets, and every resource it or one of its
      secondaries references. */
  function RefdBy(env: Env, b: ResourceId): set<ResourceId>
    requires Known(env, b)
  {
    DescRefs(env, Baked(env, b).boundDescSets) + Baked(env, b).references + SubRefs(env, Baked(env, b).subcmds)
  }

  function FenceRefs(fence: Option<ResourceId>): set<ResourceId> {
    if fence.Some? then {fence.value} else {}
  }

  /** What a command buffer submitted in the captured frame marks as frame
      referenced: its descriptor sets, what it adds to refdIDs, itself, its
      secondaries, the queue and the fence. */
  function FrameRefdBy(env: Env, b: ResourceId, queue: ResourceId, fence: Option<ResourceId>): set<ResourceId>
    requires Known(env, b)
  {
    Elems(Baked(env, b).boundDescSets) + RefdBy(env, b) + {b} + Elems(Baked(env, b).subcmds) + {queue} + FenceRefs(fence)
  }

  /** The baked records a command buffer submitted in the captured frame
      appends to m_CmdBufferRecords: its own, then its secondaries'. */
  function Appended(env: Env, b: ResourceId): seq<ResourceId>
    requires Known(env, b)
  {
    [env.bakedOf[b]] + BakedIds(env, Baked(env, b).subcmds)
  }

  /** AddRef on one record; a record never seen before starts from zero. */
  function Bump(rc: map<ResourceId, nat>, id: ResourceId): map<ResourceId, nat> {
    rc[id := GetOr(rc, id, 0) + 1]
  }

  /** AddRef on each record of a list, in order. */
  function AddRefs(rc: map<ResourceId, nat>, ids: seq<ResourceId>): map<ResourceId, nat>
    decreases |ids|
  {
    if ids == [] then rc else AddRefs(Bump(rc, ids[0]), ids[1..])
  }

  /** What one command buffer brings to the loop, whatever the state: the
      resources its baked recording dirtied and its image barriers; and what
      it adds once the call is in the captured frame: the ids it adds to
      refdIDs, the ids it marks frame referenced, the baked records it
      appends to m_CmdBufferRecords and the records it AddRefs, in the
      order of the calls. */
  datatype Effect = Effect(
    buf: ResourceId,
    dirtied: set<ResourceId>,
    imgbarriers: seq<ImageBarrier>,
    refd: set<ResourceId>,
    frame: set<ResourceId>,
    appended: seq<ResourceId>,
    addRefs: seq<ResourceId>)

  /** The effect of submitting command buffer `b` on `queue` with `fence`. */
  function EffectOf(env: Env, b: ResourceId, queue: ResourceId, fence: Option<ResourceId>): Effect
    requires Known(env, b)
  {
    Effect(b, Baked(env, b).dirtied, Baked(env, b).imgbarriers, RefdBy(env, b), FrameRefdBy(env, b, queue, fence),
           Appended(env, b), BakedIds(env, Baked(env, b).subcmds) + [env.bakedOf[b]])
  }

  function Effects(env: Env, bufs: seq<ResourceId>, queue: ResourceId, fence: Option<ResourceId>): (r: seq<Effect>)
    requires AllKnown(env, bufs)
    ensures |r| == |bufs|
  {
    seq(|bufs|, i requires 0 <= i < |bufs| => EffectOf(env, bufs[i], queue, fence))
  }

  /** The state vkQueueSubmit's per-buffer loop changes. `dirty`,
      `pendingDirty` and `frameRefs` belong to the resource manager,
      `records` is m_CmdBufferRecords, `refCount` the baked records'
      reference counts, `liveDirtied` each command buffer record's own
      (not baked) dirtied set, `barriers` the barrier lists applied to the
      image layouts; `refdIDs` and `capframe` are locals of the call. */
  datatype Book = Book(
    dirty: set<ResourceId>,
    pendingDirty: set<ResourceId>,
    frameRefs: set<ResourceId>,
    refdIDs: set<ResourceId>,
    records: seq<ResourceId>,
    refCount: map<ResourceId, nat>,
    liveDirtied: map<ResourceId, set<ResourceId>>,
    barriers: seq<seq<ImageBarrier>>,
    capframe: bool)

  /** One command buffer, submitted while the capture state was `observed`:
      its barriers are applied; what it dirtied is marked pending-dirty in
      the captured frame and dirty otherwise; once the call is in the frame
      its references are added; its record's own dirtied set is cleared. */
  function Step(k: Book, e: Effect, observed: LogState): (r: Book)
    ensures r.dirty + r.pendingDirty == k.dirty + k.pendingDirty + e.dirtied
    ensures k.dirty <= r.dirty && k.pendingDirty <= r.pendingDirty && k.frameRefs <= r.frameRefs && k.refdIDs <= r.refdIDs
    ensures k.capframe ==> r.capframe
    ensures e.buf in r.liveDirtied && r.liveDirtied[e.buf] == {}
  {
    var inFrame := observed == WRITING_CAPFRAME;
    var capframe := k.capframe || inFrame;
    Book(
      if inFrame then k.dirty else k.dirty + e.dirtied,
      if inFrame then k.pendingDirty + e.dirtied else k.pendingDirty,
      if capframe then k.frameRefs + e.frame else k.frameRefs,
      if capframe then k.refdIDs + e.refd else k.refdIDs,
      if capframe then k.records + e.appended else k.records,
      if capframe then AddRefs(k.refCount, e.addRefs) else k.refCount,
      k.liveDirtied[e.buf := {}],
      k.barriers + [e.imgbarriers],
      capframe)
  }

  /** The command buffers with effects `effs`, in order, the i-th having
      observed `obs[i]`. */
  function Run(k: Book, effs: seq<Effect>, obs: seq<LogState>): (r: Book)
    requires |obs| == |effs|
    ensures k.dirty <= r.dirty && k.pendingDirty <= r.pendingDirty && k.frameRefs <= r.frameRefs && k.refdIDs <= r.refdIDs
    ensures k.capframe ==> r.capframe
    ensures |r.barriers| == |k.barriers| + |effs|
    decreases |effs|
  {
    if effs == [] then k
    else
      var n := |effs| - 1;
      Step(Run(k, effs[..n], obs[..n]), effs[n], obs[n])
  }

  /** The index of the first command buffer that observed the captured
      frame, or the number of command buffers if none did. */
  function FirstInFrame(obs: seq<LogState>): (r: nat)
    ensures r <= |obs|
    ensures forall i | 0 <= i < r :: obs[i] != WRITING_CAPFRAME
    ensures r < |obs| ==> obs[r] == WRITING_CAPFRAME
  {
    if obs == [] then 0
    else if obs[0] == WRITING_CAPFRAME then 0
    else 1 + FirstInFrame(obs[1..])
  }

  /** The first command buffer the call treats as part of the captured frame. */
  function CapStart(capframe: bool, obs: seq<LogState>): nat {
    if capframe then 0 else FirstInFrame(obs)
  }

  function AppendedOf(effs: seq<Effect>): (r: seq<seq<ResourceId>>)
    ensures |r| == |effs|
  {
    seq(|effs|, i requires 0 <= i < |effs| => effs[i].appended)
  }

  function RefdOf(effs: seq<Effect>): (r: seq<set<ResourceId>>)
    ensures |r| == |effs|
  {
    seq(|effs|, i requires 0 <= i < |effs| => effs[i].refd)
  }

  function FrameOf(effs: seq<Effect>): (r: seq<set<ResourceId>>)
    ensures |r| == |effs|
  {
    seq(|effs|, i requires 0 <= i < |effs| => effs[i].frame)
  }

  function EffectBarriers(effs: seq<Effect>): (r: seq<seq<ImageBarrier>>)
    ensures |r| == |effs|
  {
    seq(|effs|, i requires 0 <= i < |effs| => effs[i].imgbarriers)
  }

  // ---------------------------------------------------------------------------
  // What a command buffer's effect holds
  // ---------------------------------------------------------------------------

  /** An id is bound to the listed descriptor sets iff one of them has it bound. */
  lemma {:induction false} DescRefsMember(env: Env, sets: seq<ResourceId>, x: ResourceId)
    requires forall ds | ds in sets :: ds in env.bindRefs
    ensures x in DescRefs(env, sets) <==> exists i :: 0 <= i < |sets| && x in env.bindRefs[sets[i]]
  {
    if sets != [] {
      var n := |sets| - 1;
      DescRefsMember(env, sets[..n], x);
      if x in DescRefs(env, sets[..n]) {
        var i :| 0 <= i < n && x in env.bindRefs[sets[..n][i]];
        assert sets[i] == sets[..n][i];
      }
      if exists i :: 0 <= i < |sets| && x in env.bindRefs[sets[i]] {
        var i :| 0 <= i < |sets| && x in env.bindRefs[sets[i]];
        if i < n {
          assert sets[..n][i] == sets[i];
        }
      }
    }
  }

  /** An id is referenced by the listed secondaries iff one of their baked
      recordings references it. */
  lemma {:induction false} SubRefsMember(env: Env, subs: seq<ResourceId>, x: ResourceId)
    requires forall s | s in subs :: s in env.bakedOf && env.bakedOf[s] in env.bakedCmds
    ensures x in SubRefs(env, subs) <==> exists i :: 0 <= i < |subs| && x in env.bakedCmds[env.bakedOf[subs[i]]].references
  {
    if subs != [] {
      var n := |subs| - 1;
      SubRefsMember(env, subs[..n], x);
      if x in SubRefs(env, subs[..n]) {
        var i :| 0 <= i < n && x in env.bakedCmds[env.bakedOf[subs[..n][i]]].references;
        assert subs[i] == subs[..n][i];
      }
      if exists i :: 0 <= i < |subs| && x in env.bakedCmds[env.bakedOf[subs[i]]].references {
        var i :| 0 <= i < |subs| && x in env.bakedCmds[env.bakedOf[subs[i]]].references;
        if i < n {
          assert subs[..n][i] == subs[i];
        }
      }
    }
  }

  /** AddRef on a list adds to each record's count the number of times the
      list names it. */
  lemma {:induction false} AddRefsCount(rc: map<ResourceId, nat>, ids: seq<ResourceId>, r: ResourceId)
    ensures GetOr(AddRefs(rc, ids), r, 0) == GetOr(rc, r, 0) + multiset(ids)[r]
    decreases |ids|
  {
    if ids != [] {
      AddRefsCount(Bump(rc, ids[0]), ids[1..], r);
      assert ids == [ids[0]] + ids[1..];
      assert multiset(ids) == multiset{ids[0]} + multiset(ids[1..]);
    }
  }

  /** AddRef on the records of two lists, one after the other. */
  lemma {:induction false} AddRefsAppend(rc: map<ResourceId, nat>, a: seq<ResourceId>, b: seq<ResourceId>)
    ensures AddRefs(rc, a + b) == AddRefs(AddRefs(rc, a), b)
    decreases |a|
  {
    if a == [] {
      assert a + b == b;
    } else {
      AddRefsAppend(Bump(rc, a[0]), a[1..], b);
      assert (a + b)[1..] == a[1..] + b;
    }
  }

  /** A command buffer's effect: it adds to refdIDs exactly the resources
      bound to its descriptor sets and those it or one of its secondaries
      references; it AddRefs exactly the records it appends. */
  lemma EffectContents(env: Env, b: ResourceId, queue: ResourceId, fence: Option<ResourceId>, x: ResourceId)
    requires Known(env, b)
    ensures var e := EffectOf(env, b, queue, fence);
            var baked := Baked(env, b);
            && (x in e.refd <==>
                  || (exists i :: 0 <= i < |baked.boundDescSets| && x in env.bindRefs[baked.boundDescSets[i]])
                  || x in baked.references
                  || (exists i :: 0 <= i < |baked.subcmds| && x in env.bakedCmds[env.bakedOf[baked.subcmds[i]]].references))
            && multiset(e.addRefs) == multiset(e.appended)
            && e.appended[0] == env.bakedOf[b]
  {
    var baked := Baked(env, b);
    DescRefsMember(env, baked.boundDescSets, x);
    SubRefsMember(env, baked.subcmds, x);
    var subs := BakedIds(env, baked.subcmds);
    assert multiset(subs + [env.bakedOf[b]]) == multiset([env.bakedOf[b]] + subs);
  }

  /** In the captured frame, a command buffer marks as frame referenced its
      descriptor sets, everything it adds to refdIDs, itself, its
      secondaries, the queue and a non-null fence. */
  lemma EffectFrameRefs(env: Env, b: ResourceId, queue: ResourceId, fence: Option<ResourceId>)
    requires Known(env, b)
    ensures var e := EffectOf(env, b, queue, fence);
            && e.refd <= e.frame
            && b in e.frame && queue in e.frame
            && (fence.Some? ==> fence.value in e.frame)
            && (forall ds | ds in Baked(env, b).boundDescSets :: ds in e.frame)
            && (forall s | s in Baked(env, b).subcmds :: s in e.frame)
  {
  }

  // ---------------------------------------------------------------------------
  // Properties of a run
  // ---------------------------------------------------------------------------

  lemma PrefixKnown(env: Env, bufs: seq<ResourceId>, n: nat)
    requires AllKnown(env, bufs) && n <= |bufs|
    ensures AllKnown(env, bufs[..n])
  {
    assert forall i | 0 <= i < n :: bufs[..n][i] == bufs[i];
  }

  /** The state each of `n` command buffers observes when m_State does not
      change during the call. */
  function Same(state: LogState, n: nat): (r: seq<LogState>)
    ensures |r| == n
  {
    seq(n, _ => state)
  }

  /** With one observed state, the call is in the captured frame iff that
      state is WRITING_CAPFRAME and at least one command buffer is submitted. */
  lemma SameCapframe(k: Book, effs: seq<Effect>, state: LogState)
    requires !k.capframe
    ensures Run(k, effs, Same(state, |effs|)).capframe == (state == WRITING_CAPFRAME && effs != [])
  {
    CapframeIffObserved(k, effs, Same(state, |effs|));
    if effs != [] {
      assert Same(state, |effs|)[0] == state;
    }
  }

  /** Submitting one more command buffer is one more step. */
  lemma RunSnoc(k: Book, effs: seq<Effect>, obs: seq<LogState>, i: nat)
    requires |obs| == |effs| && i < |effs|
    ensures Run(k, effs[..i + 1], obs[..i + 1]) == Step(Run(k, effs[..i], obs[..i]), effs[i], obs[i])
  {
    assert effs[..i + 1][..i] == effs[..i];
    assert obs[..i + 1][..i] == obs[..i];
  }

  /** RunSnoc for the command buffers of one submit, all observing one state. */
  lemma RunBufferStep(k: Book, env: Env, cmds: seq<ResourceId>, queue: ResourceId, fence: Option<ResourceId>,
                      state: LogState, i: nat, before: Book, after: Book)
    requires AllKnown(env, cmds) && i < |cmds|
    requires before == Run(k, Effects(env, cmds, queue, fence)[..i], Same(state, |cmds|)[..i])
    requires after == Step(before, EffectOf(env, cmds[i], queue, fence), state)
    ensures after == Run(k, Effects(env, cmds, queue, fence)[..i + 1], Same(state, |cmds|)[..i + 1])
  {
    RunSnoc(k, Effects(env, cmds, queue, fence), Same(state, |cmds|), i);
  }

  /** The captured frame begins for the call at the first command buffer
      that observed it, and from then on the call stays in it. */
  lemma CapStartSnoc(capframe: bool, obs: seq<LogState>)
    requires obs != []
    ensures var n := |obs| - 1;
            var c := CapStart(capframe, obs[..n]);
            if c < n then CapStart(capframe, obs) == c
            else (capframe || obs[n] == WRITING_CAPFRAME) == (CapStart(capframe, obs) == n)
                 && (CapStart(capframe, obs) == n || CapStart(capframe, obs) == n + 1)
  {
    var n := |obs| - 1;
    var f, g := FirstInFrame(obs[..n]), FirstInFrame(obs);
    assert forall i | 0 <= i < n :: obs[..n][i] == obs[i];
    if f < n {
      assert obs[f] == WRITING_CAPFRAME;
    }
  }

  /** The command buffers in the frame before and after the last one, as
      SuffixStep describes them. */
  lemma CapStartStep(capframe: bool, obs: seq<LogState>, prevCap: bool)
    requires obs != []
    requires prevCap == (capframe || CapStart(capframe, obs[..|obs| - 1]) < |obs| - 1)
    ensures SuffixStep(|obs| - 1, CapStart(capframe, obs[..|obs| - 1]), CapStart(capframe, obs),
                       prevCap || obs[|obs| - 1] == WRITING_CAPFRAME)
  {
    CapStartSnoc(capframe, obs);
  }

  /** After the loop the call is in the captured frame iff it started there
      or some command buffer observed the captured frame. */
  lemma {:induction false} RunCapframe(k: Book, effs: seq<Effect>, obs: seq<LogState>)
    requires |obs| == |effs|
    ensures Run(k, effs, obs).capframe == (k.capframe || CapStart(k.capframe, obs) < |effs|)
  {
    if effs != [] {
      var n := |effs| - 1;
      RunCapframe(k, effs[..n], obs[..n]);
      CapStartSnoc(k.capframe, obs);
    }
  }

  /** capframe ends up set iff it was set or some command buffer observed
      WRITING_CAPFRAME; it is never reset. */
  lemma CapframeIffObserved(k: Book, effs: seq<Effect>, obs: seq<LogState>)
    requires |obs| == |effs|
    ensures Run(k, effs, obs).capframe == (k.capframe || WRITING_CAPFRAME in obs)
  {
    RunCapframe(k, effs, obs);
    if WRITING_CAPFRAME in obs {
      var i :| 0 <= i < |obs| && obs[i] == WRITING_CAPFRAME;
      assert FirstInFrame(obs) <= i;
    }
  }

  /** A resource is marked dirty iff it already was or a command buffer that
      observed a state other than the captured frame dirtied it; it is
      marked pending-dirty iff it already was or a command buffer that
      observed the captured frame dirtied it. */
  lemma {:induction false} RunDirty(k: Book, effs: seq<Effect>, obs: seq<LogState>, x: ResourceId)
    requires |obs| == |effs|
    ensures x in Run(k, effs, obs).dirty <==>
              x in k.dirty || exists i :: 0 <= i < |effs| && obs[i] != WRITING_CAPFRAME && x in effs[i].dirtied
    ensures x in Run(k, effs, obs).pendingDirty <==>
              x in k.pendingDirty || exists i :: 0 <= i < |effs| && obs[i] == WRITING_CAPFRAME && x in effs[i].dirtied
  {
    if effs != [] {
      var n := |effs| - 1;
      RunDirty(k, effs[..n], obs[..n], x);
      assert forall i | 0 <= i < n :: effs[..n][i] == effs[i] && obs[..n][i] == obs[i];
    }
  }

  /** From the first command buffer in the captured frame on, every command
      buffer appends its baked record, then its secondaries', to
      m_CmdBufferRecords; the ones before append nothing. */
  lemma {:induction false} RunRecords(k: Book, effs: seq<Effect>, obs: seq<LogState>)
    requires |obs| == |effs|
    ensures CapStart(k.capframe, obs) <= |effs|
    ensures Run(k, effs, obs).records == k.records + Concat(AppendedOf(effs)[CapStart(k.capframe, obs)..])
  {
    if effs != [] {
      var n := |effs| - 1;
      RunRecords(k, effs[..n], obs[..n]);
      RunCapframe(k, effs[..n], obs[..n]);
      var prev := Run(k, effs[..n], obs[..n]);
      CapStartStep(k.capframe, obs, prev.capframe);
      assert AppendedOf(effs[..n]) == AppendedOf(effs)[..n];
      ConcatKeptSnoc(k.records, prev.records, Run(k, effs, obs).records, AppendedOf(effs),
        CapStart(k.capframe, obs[..n]), CapStart(k.capframe, obs), prev.capframe || obs[n] == WRITING_CAPFRAME);
    }
  }

  /** From the first command buffer in the captured frame on, every command
      buffer adds what it references to refdIDs; the ones before add nothing. */
  lemma {:induction false} RunRefd(k: Book, effs: seq<Effect>, obs: seq<LogState>)
    requires |obs| == |effs|
    ensures CapStart(k.capframe, obs) <= |effs|
    ensures Run(k, effs, obs).refdIDs == k.refdIDs + UnionOf(RefdOf(effs)[CapStart(k.capframe, obs)..])
  {
    if effs != [] {
      var n := |effs| - 1;
      RunRefd(k, effs[..n], obs[..n]);
      RunCapframe(k, effs[..n], obs[..n]);
      var prev := Run(k, effs[..n], obs[..n]);
      CapStartStep(k.capframe, obs, prev.capframe);
      assert RefdOf(effs[..n]) == RefdOf(effs)[..n];
      UnionKeptSnoc(k.refdIDs, prev.refdIDs, Run(k, effs, obs).refdIDs, RefdOf(effs),
        CapStart(k.capframe, obs[..n]), CapStart(k.capframe, obs), prev.capframe || obs[n] == WRITING_CAPFRAME);
    }
  }

  /** From the first command buffer in the captured frame on, every command
      buffer marks what it uses as frame referenced; the ones before mark
      nothing. */
  lemma {:induction false} RunFrameRefs(k: Book, effs: seq<Effect>, obs: seq<LogState>)
    requires |obs| == |effs|
    ensures CapStart(k.capframe, obs) <= |effs|
    ensures Run(k, effs, obs).frameRefs == k.frameRefs + UnionOf(FrameOf(effs)[CapStart(k.capframe, obs)..])
  {
    if effs != [] {
      var n := |effs| - 1;
      RunFrameRefs(k, effs[..n], obs[..n]);
      RunCapframe(k, effs[..n], obs[..n]);
      var prev := Run(k, effs[..n], obs[..n]);
      CapStartStep(k.capframe, obs, prev.capframe);
      assert FrameOf(effs[..n]) == FrameOf(effs)[..n];
      UnionKeptSnoc(k.frameRefs, prev.frameRefs, Run(k, effs, obs).frameRefs, FrameOf(effs),
        CapStart(k.capframe, obs[..n]), CapStart(k.capframe, obs), prev.capframe || obs[n] == WRITING_CAPFRAME);
    }
  }

  /** Every baked record appended to m_CmdBufferRecords gains exactly one
      reference, and no other record gains one. */
  lemma {:induction false} RunRefCount(k: Book, effs: seq<Effect>, obs: seq<LogState>, r: ResourceId)
    requires |obs| == |effs|
    requires forall i | 0 <= i < |effs| :: multiset(effs[i].addRefs) == multiset(effs[i].appended)
    ensures GetOr(Run(k, effs, obs).refCount, r, 0) + multiset(k.records)[r]
            == GetOr(k.refCount, r, 0) + multiset(Run(k, effs, obs).records)[r]
  {
    if effs != [] {
      var n := |effs| - 1;
      assert forall i | 0 <= i < n :: effs[..n][i] == effs[i];
      RunRefCount(k, effs[..n], obs[..n], r);
      var prev := Run(k, effs[..n], obs[..n]);
      if prev.capframe || obs[n] == WRITING_CAPFRAME {
        AddRefsCount(prev.refCount, effs[n].addRefs, r);
        assert multiset(prev.records + effs[n].appended) == multiset(prev.records) + multiset(effs[n].appended);
      }
    }
  }

  /** When some command buffer is in the captured frame, the queue and a
      non-null fence end up frame referenced; otherwise nothing is. */
  lemma QueueAndFenceReferenced(env: Env, k: Book, bufs: seq<ResourceId>, obs: seq<LogState>, queue: ResourceId, fence: Option<ResourceId>)
    requires AllKnown(env, bufs) && |obs| == |bufs|
    ensures var r := Run(k, Effects(env, bufs, queue, fence), obs);
            && (r.capframe && bufs != [] ==> queue in r.frameRefs && (fence.Some? ==> fence.value in r.frameRefs))
            && (!r.capframe ==> r.frameRefs == k.frameRefs)
  {
    var effs := Effects(env, bufs, queue, fence);
    var c := CapStart(k.capframe, obs);
    RunCapframe(k, effs, obs);
    RunFrameRefs(k, effs, obs);
    var kept := FrameOf(effs)[c..];
    if c < |bufs| {
      assert kept[0] == EffectOf(env, bufs[c], queue, fence).frame;
      EffectFrameRefs(env, bufs[c], queue, fence);
      UnionOfMember(kept, queue);
      if fence.Some? {
        UnionOfMember(kept, fence.value);
      }
    } else {
      assert kept == [];
    }
  }

  /** Every submitted command buffer's own dirtied set is cleared; no other
      command buffer's changes. */
  lemma {:induction false} RunClears(k: Book, effs: seq<Effect>, obs: seq<LogState>, b: ResourceId)
    requires |obs| == |effs|
    ensures (exists i :: 0 <= i < |effs| && effs[i].buf == b) ==>
              b in Run(k, effs, obs).liveDirtied && Run(k, effs, obs).liveDirtied[b] == {}
    ensures (forall i | 0 <= i < |effs| :: effs[i].buf != b) ==>
              (b in Run(k, effs, obs).liveDirtied <==> b in k.liveDirtied)
              && GetOr(Run(k, effs, obs).liveDirtied, b, {}) == GetOr(k.liveDirtied, b, {})
  {
    if effs != [] {
      var n := |effs| - 1;
      RunClears(k, effs[..n], obs[..n], b);
      assert forall i | 0 <= i < n :: effs[..n][i] == effs[i];
    }
  }

  /** The barrier lists of the submitted command buffers are applied in
      submission order, whatever the capture state. */
  lemma {:induction false} RunBarriers(k: Book, effs: seq<Effect>, obs: seq<LogState>)
    requires |obs| == |effs|
    ensures Run(k, effs, obs).barriers == k.barriers + EffectBarriers(effs)
  {
    if effs != [] {
      var n := |effs| - 1;
      RunBarriers(k, effs[..n], obs[..n]);
      assert EffectBarriers(effs) == EffectBarriers(effs[..n]) + [effs[n].imgbarriers];
    }
  }

  /** Running two lists of command buffers one after the other is running
      their concatenation. */
  lemma {:induction false} RunAppend(k: Book, a: seq<Effect>, oa: seq<LogState>, b: seq<Effect>, ob: seq<LogState>)
    requires |oa| == |a| && |ob| == |b|
    ensures Run(k, a + b, oa + ob) == Run(Run(k, a, oa), b, ob)
  {
    if b == [] {
      assert a + b == a && oa + ob == oa;
    } else {
      var n := |b| - 1;
      RunAppend(k, a, oa, b[..n], ob[..n]);
      assert (a + b)[..|a + b| - 1] == a + b[..n];
      assert (oa + ob)[..|oa + ob| - 1] == oa + ob[..n];
    }
  }

  /** The effects of a concatenation are the concatenated effects. */
  lemma EffectsAppend(env: Env, a: seq<ResourceId>, b: seq<ResourceId>, queue: ResourceId, fence: Option<ResourceId>)
    requires AllKnown(env, a) && AllKnown(env, b)
    ensures AllKnown(env, a + b)
    ensures Effects(env, a + b, queue, fence) == Effects(env, a, queue, fence) + Effects(env, b, queue, fence)
  {
    assert forall i | 0 <= i < |a + b| :: (a + b)[i] == if i < |a| then a[i] else b[i - |a|];
  }
}

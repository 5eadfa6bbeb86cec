/** The replay side of queue submission: what a QUEUE_SUBMIT chunk does when
    a capture is read (READING, which builds the event timeline) and when it
    is executed (EXECUTING, which decides how much of the submission to hand
    to the driver). Handles are identified with the live resource ids they
    are registered under in the replay session. */
module Replay {
  import opened Types
  import opened DrawTree
  import opened Chunks
  import opened Timeline

  /** What the replay knows of one baked command buffer (BakedCmdBufferInfo). */
  datatype BakedCmdBufferInfo = BakedCmdBufferInfo(eventCount: nat, drawCount: nat, draw: DrawNode, imgbarriers: seq<ImageBarrier>)

  /** The entry `m_BakedCmdBufferInfo[id]` creates for an id it has not seen. */
  const EmptyInfo := BakedCmdBufferInfo(0, 0, DrawNode(Drawcall(0, 0, "", []), []), [])

  function EventCounts(info: map<ResourceId, BakedCmdBufferInfo>, ids: seq<ResourceId>): (r: seq<nat>)
    ensures |r| == |ids|
  {
    seq(|ids|, c requires 0 <= c < |ids| => GetOr(info, ids[c], EmptyInfo).eventCount)
  }

  function DrawCounts(info: map<ResourceId, BakedCmdBufferInfo>, ids: seq<ResourceId>): (r: seq<nat>)
    ensures |r| == |ids|
  {
    seq(|ids|, c requires 0 <= c < |ids| => GetOr(info, ids[c], EmptyInfo).drawCount)
  }

  function BarriersOf(info: map<ResourceId, BakedCmdBufferInfo>, keys: seq<ResourceId>): (r: seq<seq<ImageBarrier>>)
    ensures |r| == |keys|
  {
    seq(|keys|, i requires 0 <= i < |keys| => GetOr(info, keys[i], EmptyInfo).imgbarriers)
  }

  /** The events of several renumbered trees, one after the other. */
  function EventsOfAll(trees: seq<seq<DrawNode>>): seq<APIEvent> {
    if trees == [] then [] else EventsOfAll(trees[..|trees| - 1]) + Events(trees[|trees| - 1])
  }

  predicate StrictlyIncreasing(s: seq<nat>) {
    forall i, j :: 0 <= i < j < |s| ==> s[i] < s[j]
  }

  lemma EventsOfAllSnoc(trees: seq<seq<DrawNode>>, t: seq<DrawNode>)
    ensures EventsOfAll(trees + [t]) == EventsOfAll(trees) + Events(t)
  {
    assert (trees + [t])[..|trees|] == trees;
  }

  /** Every command buffer's list of start events increases strictly and
      stays at or below `top`. */
  predicate SubmitsBelow(m: map<ResourceId, seq<nat>>, top: nat) {
    forall id | id in m :: StrictlyIncreasing(m[id]) && forall k | 0 <= k < |m[id]| :: m[id][k] <= top
  }

  lemma SubmitsBelowMono(m: map<ResourceId, seq<nat>>, top: nat, top': nat)
    requires SubmitsBelow(m, top) && top <= top'
    ensures SubmitsBelow(m, top')
  {
  }

  /** `cmdBufferSubmits[ids[c]].push_back(starts[c])` for c = 0, 1, ... */
  function PushStarts(m: map<ResourceId, seq<nat>>, ids: seq<ResourceId>, starts: seq<nat>): map<ResourceId, seq<nat>>
    requires |ids| == |starts|
  {
    if ids == [] then m
    else
      var n := |ids| - 1;
      var m' := PushStarts(m, ids[..n], starts[..n]);
      m'[ids[n] := GetOr(m', ids[n], []) + [starts[n]]]
  }

  /** Every start event pushed is recorded under its command buffer. */
  lemma {:induction false} PushStartsRecordsEach(m: map<ResourceId, seq<nat>>, ids: seq<ResourceId>, starts: seq<nat>, c: nat)
    requires |ids| == |starts| && c < |ids|
    ensures ids[c] in PushStarts(m, ids, starts) && starts[c] in PushStarts(m, ids, starts)[ids[c]]
    decreases |ids|
  {
    var n := |ids| - 1;
    if c < n {
      PushStartsRecordsEach(m, ids[..n], starts[..n], c);
      assert ids[..n][c] == ids[c] && starts[..n][c] == starts[c];
      var m' := PushStarts(m, ids[..n], starts[..n]);
      if ids[n] == ids[c] {
        assert GetOr(m', ids[n], []) == m'[ids[c]];
      }
    }
  }

  /** Replacing one buffer's list by an increasing list at or below `top`
      keeps every list increasing and at or below `top`. */
  lemma SubmitsBelowUpdate(m: map<ResourceId, seq<nat>>, top: nat, id: ResourceId, s: seq<nat>)
    requires SubmitsBelow(m, top)
    requires StrictlyIncreasing(s) && forall k | 0 <= k < |s| :: s[k] <= top
    ensures SubmitsBelow(m[id := s], top)
  {
  }

  /** An event above every recorded one extends the list increasingly. */
  lemma PushAbove(prev: seq<nat>, x: nat, bound: nat)
    requires StrictlyIncreasing(prev) && forall k | 0 <= k < |prev| :: prev[k] <= bound
    requires bound < x
    ensures StrictlyIncreasing(prev + [x])
  {
    var pushed := prev + [x];
    forall i, j | 0 <= i < j < |pushed| ensures pushed[i] < pushed[j] {
      if j < |prev| { assert pushed[i] == prev[i] && pushed[j] == prev[j]; }
    }
  }

  /** Pushing start events that lie above every recorded one and increase
      strictly keeps each buffer's list strictly increasing, with nothing
      above the last pushed event. */
  lemma {:induction false} PushStartsIncreasing(m: map<ResourceId, seq<nat>>, ids: seq<ResourceId>, starts: seq<nat>, bound: nat, top: nat)
    requires |ids| == |starts|
    requires SubmitsBelow(m, bound)
    requires StrictlyIncreasing(starts)
    requires bound <= top
    requires forall c | 0 <= c < |starts| :: bound < starts[c] <= top
    ensures SubmitsBelow(PushStarts(m, ids, starts), top)
    decreases |ids|
  {
    if ids == [] {
      SubmitsBelowMono(m, bound, top);
    } else {
      var n := |ids| - 1;
      var m' := PushStarts(m, ids[..n], starts[..n]);
      var bound' := if n == 0 then bound else starts[n - 1];
      assert bound' < starts[n] <= top;
      assert StrictlyIncreasing(starts[..n]);
      assert forall c | 0 <= c < n :: bound < starts[..n][c] <= bound' by {
        forall c | 0 <= c < n ensures bound < starts[..n][c] <= bound' {
          assert starts[..n][c] == starts[c];
          if c < n - 1 { assert starts[c] < starts[n - 1]; }
        }
      }
      PushStartsIncreasing(m, ids[..n], starts[..n], bound, bound');
      var prev := GetOr(m', ids[n], []);
      PushAbove(prev, starts[n], bound');
      SubmitsBelowMono(m', bound', top);
      SubmitsBelowUpdate(m', top, ids[n], prev + [starts[n]]);
    }
  }

  /** The start events a submission records all lie above `root` (the last
      event id handed out before it) and at or below the last event id it
      hands out, so recording them keeps every buffer's list increasing. */
  lemma StartsKeepValid(m: map<ResourceId, seq<nat>>, ids: seq<ResourceId>, counts: seq<nat>, root: nat)
    requires |ids| == |counts|
    requires SubmitsBelow(m, root)
    ensures SubmitsBelow(PushStarts(m, ids, Starts(root + 1, counts)), root + Span(counts))
  {
    var starts := Starts(root + 1, counts);
    forall k, j | 0 <= k < j < |starts| ensures starts[k] < starts[j] {
      StartsIncreasing(root + 1, counts, k, j);
    }
    forall k | 0 <= k < |starts| ensures root < starts[k] <= root + Span(counts) {
      StartsLowerBound(root + 1, counts, k);
      if k < |starts| - 1 { StartsIncreasing(root + 1, counts, k, |starts| - 1); }
      StartsCover(root + 1, counts);
    }
    PushStartsIncreasing(m, ids, starts, root, root + Span(counts));
  }

  /** The counters a buffer's tree is renumbered from: its start event and
      the drawcall id reached before it. */
  datatype Base = Base(eventID: nat, drawID: nat)

  /** What the READING loop over a submission's buffers produces: the start
      events recorded per buffer, the counters after the last buffer, and the
      base each buffer's children were renumbered from. */
  datatype Layout = Layout(submits: map<ResourceId, seq<nat>>, root: nat, draw: nat, bases: seq<Base>)

  /** The READING loop, buffer by buffer: the buffer's start event is the
      current root event; its children are renumbered from the current
      counters, which then move past its virtual event, its events and its
      draws. */
  function Attach(info: map<ResourceId, BakedCmdBufferInfo>, m: map<ResourceId, seq<nat>>, ids: seq<ResourceId>, root: nat, draw: nat): (r: Layout)
    requires forall c :: 0 <= c < |ids| ==> ids[c] in info
    ensures |r.bases| == |ids|
  {
    if ids == [] then Layout(m, root, draw, [])
    else
      var n := |ids| - 1;
      var p := Attach(info, m, ids[..n], root, draw);
      var b := info[ids[n]];
      Layout(p.submits[ids[n] := GetOr(p.submits, ids[n], []) + [p.root]],
             p.root + 1 + b.eventCount,
             p.draw + b.drawCount,
             p.bases + [Base(p.root, p.draw)])
  }

  /** Each buffer's tree is its drawcall's children renumbered from its base. */
  ghost predicate Renumbered(info: map<ResourceId, BakedCmdBufferInfo>, ids: seq<ResourceId>, bases: seq<Base>, trees: seq<seq<DrawNode>>)
    requires forall c :: 0 <= c < |ids| ==> ids[c] in info
  {
    && |bases| == |ids| && |trees| == |ids|
    && forall c :: 0 <= c < |ids| ==> trees[c] == Refreshed(info[ids[c]].draw.children, bases[c].eventID, bases[c].drawID)
  }

  /** The state the READING loop leaves matches the layout, and its trees
      are renumbered from the layout's bases. */
  ghost predicate LaidOut(info: map<ResourceId, BakedCmdBufferInfo>, ids: seq<ResourceId>, l: Layout,
                          submits: map<ResourceId, seq<nat>>, root: nat, draw: nat, trees: seq<seq<DrawNode>>)
    requires forall c :: 0 <= c < |ids| ==> ids[c] in info
  {
    submits == l.submits && root == l.root && draw == l.draw && Renumbered(info, ids, l.bases, trees)
  }

  lemma RenumberedSnoc(info: map<ResourceId, BakedCmdBufferInfo>, ids: seq<ResourceId>, bases: seq<Base>, trees: seq<seq<DrawNode>>, c: nat)
    requires forall k :: 0 <= k < |ids| ==> ids[k] in info
    requires c < |ids|
    requires Renumbered(info, ids[..c], bases, trees)
    ensures forall base: Base :: Renumbered(info, ids[..c + 1], bases + [base],
                                            trees + [Refreshed(info[ids[c]].draw.children, base.eventID, base.drawID)])
  {
    forall base: Base
      ensures Renumbered(info, ids[..c + 1], bases + [base], trees + [Refreshed(info[ids[c]].draw.children, base.eventID, base.drawID)])
    {
      forall k | 0 <= k < c ensures ids[..c + 1][k] == ids[..c][k] {}
    }
  }

  /** One more buffer of the READING loop. */
  lemma AttachSnoc(info: map<ResourceId, BakedCmdBufferInfo>, m: map<ResourceId, seq<nat>>, ids: seq<ResourceId>, root: nat, draw: nat, c: nat)
    requires forall k :: 0 <= k < |ids| ==> ids[k] in info
    requires c < |ids|
    ensures Attach(info, m, ids[..c + 1], root, draw)
            == Layout(Attach(info, m, ids[..c], root, draw).submits[ids[c] := GetOr(Attach(info, m, ids[..c], root, draw).submits, ids[c], [])
                        + [Attach(info, m, ids[..c], root, draw).root]],
                      Attach(info, m, ids[..c], root, draw).root + 1 + info[ids[c]].eventCount,
                      Attach(info, m, ids[..c], root, draw).draw + info[ids[c]].drawCount,
                      Attach(info, m, ids[..c], root, draw).bases
                        + [Base(Attach(info, m, ids[..c], root, draw).root, Attach(info, m, ids[..c], root, draw).draw)])
  {
    assert ids[..c + 1][..c] == ids[..c];
  }

  lemma EventCountsPrefix(info: map<ResourceId, BakedCmdBufferInfo>, ids: seq<ResourceId>, n: nat)
    requires n <= |ids|
    ensures EventCounts(info, ids[..n]) == EventCounts(info, ids)[..n]
    ensures DrawCounts(info, ids[..n]) == DrawCounts(info, ids)[..n]
  {
  }

  /** After the loop the counters have moved past the whole submission:
      Σ (1 + eventCount) events and Σ drawCount drawcalls. */
  lemma {:induction false} AttachCounters(info: map<ResourceId, BakedCmdBufferInfo>, m: map<ResourceId, seq<nat>>, ids: seq<ResourceId>, root: nat, draw: nat)
    requires forall c :: 0 <= c < |ids| ==> ids[c] in info
    ensures Attach(info, m, ids, root, draw).root == root + Span(EventCounts(info, ids))
    ensures Attach(info, m, ids, root, draw).draw == draw + DrawSum(DrawCounts(info, ids))
    decreases |ids|
  {
    if ids != [] {
      var n := |ids| - 1;
      AttachCounters(info, m, ids[..n], root, draw);
      EventCountsPrefix(info, ids, n);
      TakeSnoc(EventCounts(info, ids), n);
      TakeSnoc(DrawCounts(info, ids), n);
      assert EventCounts(info, ids)[..n + 1] == EventCounts(info, ids);
      assert DrawCounts(info, ids)[..n + 1] == DrawCounts(info, ids);
      SpanAppend(EventCounts(info, ids)[..n], [info[ids[n]].eventCount]);
      DrawSumAppend(DrawCounts(info, ids)[..n], [info[ids[n]].drawCount]);
    }
  }

  /** The loop records each buffer's start event, as laid out by Starts,
      under that buffer's id. */
  lemma {:induction false} AttachSubmits(info: map<ResourceId, BakedCmdBufferInfo>, m: map<ResourceId, seq<nat>>, ids: seq<ResourceId>, root: nat, draw: nat)
    requires forall c :: 0 <= c < |ids| ==> ids[c] in info
    ensures Attach(info, m, ids, root, draw).submits == PushStarts(m, ids, Starts(root, EventCounts(info, ids)))
    decreases |ids|
  {
    if ids != [] {
      var n := |ids| - 1;
      var counts := EventCounts(info, ids);
      var starts := Starts(root, counts);
      AttachSubmits(info, m, ids[..n], root, draw);
      AttachCounters(info, m, ids[..n], root, draw);
      EventCountsPrefix(info, ids, n);
      StartsPrefix(root, counts, n);
      StartsAt(root, counts, n);
    }
  }

  /** Buffer c's children are renumbered from its own start event and from
      the drawcall ids used by the buffers before it. */
  lemma {:induction false} AttachBases(info: map<ResourceId, BakedCmdBufferInfo>, m: map<ResourceId, seq<nat>>, ids: seq<ResourceId>, root: nat, draw: nat, c: nat)
    requires forall k :: 0 <= k < |ids| ==> ids[k] in info
    requires c < |ids|
    ensures Attach(info, m, ids, root, draw).bases[c]
            == Base(Starts(root, EventCounts(info, ids))[c], draw + DrawSum(DrawCounts(info, ids)[..c]))
    decreases |ids|
  {
    var n := |ids| - 1;
    var counts, draws := EventCounts(info, ids), DrawCounts(info, ids);
    var p := Attach(info, m, ids[..n], root, draw);
    AttachSnoc(info, m, ids, root, draw, n);
    assert ids[..n + 1] == ids;
    EventCountsPrefix(info, ids, n);
    if c == n {
      AttachCounters(info, m, ids[..n], root, draw);
      StartsAt(root, counts, n);
    } else {
      AttachBases(info, m, ids[..n], root, draw, c);
      StartsPrefix(root, counts, n);
      assert draws[..n][..c] == draws[..c];
    }
  }

  /** Laying out a submission after event `root` keeps every buffer's start
      events increasing and at or below the last event the submission uses. */
  lemma AttachKeepsSubmitsBelow(info: map<ResourceId, BakedCmdBufferInfo>, m: map<ResourceId, seq<nat>>, ids: seq<ResourceId>, root: nat, draw: nat)
    requires forall c :: 0 <= c < |ids| ==> ids[c] in info
    requires SubmitsBelow(m, root)
    ensures SubmitsBelow(Attach(info, m, ids, root + 1, draw).submits, root + Span(EventCounts(info, ids)))
  {
    AttachCounters(info, m, ids, root + 1, draw);
    AttachSubmits(info, m, ids, root + 1, draw);
    StartsKeepValid(m, ids, EventCounts(info, ids), root);
  }

  /** The live handle of a recorded id, or UnknownResource. */
  function ResolveHandle(live: map<ResourceId, ResourceId>, id: ResourceId): (r: Result<Handle>)
    ensures r.Ok? <==> id in live
  {
    if id in live then Ok(live[id]) else Err(UnknownResource(id))
  }

  /** `id != ResourceId() ? <live handle> : NULL`, for each command buffer. */
  function ResolveCmds(live: map<ResourceId, ResourceId>, ids: seq<ResourceId>): (r: Result<seq<Option<Handle>>>)
    ensures r.Ok? <==> forall c :: 0 <= c < |ids| ==> ids[c] == EmptyId || ids[c] in live
    ensures r.Ok? ==> |r.value| == |ids|
    ensures r.Ok? ==> forall c :: 0 <= c < |ids| ==> r.value[c] == (if ids[c] == EmptyId then None else Some(live[ids[c]]))
    ensures r.Err? ==> r.error.UnknownResource?
  {
    if ids == [] then Ok([])
    else if ids[0] != EmptyId && ids[0] !in live then Err(UnknownResource(ids[0]))
    else
      match ResolveCmds(live, ids[1..])
      case Err(e) => Err(e)
      case Ok(rest) => Ok([if ids[0] == EmptyId then None else Some(live[ids[0]])] + rest)
  }

  /** A fence id read back: the empty id is VK_NULL_HANDLE. */
  function ResolveFence(live: map<ResourceId, ResourceId>, id: ResourceId): (r: Result<Option<Handle>>)
    ensures r.Ok? <==> id == EmptyId || id in live
    ensures r.Ok? ==> r.value == (if id == EmptyId then None else Some(live[id]))
  {
    if id == EmptyId then Ok(None) else if id in live then Ok(Some(live[id])) else Err(UnknownResource(id))
  }

  /** GetLiveID for each command buffer id; the empty id stays empty. */
  function LiveIDs(live: map<ResourceId, ResourceId>, ids: seq<ResourceId>): (r: seq<ResourceId>)
    requires forall c :: 0 <= c < |ids| ==> ids[c] == EmptyId || ids[c] in live
    ensures |r| == |ids|
  {
    seq(|ids|, c requires 0 <= c < |ids| => if ids[c] == EmptyId then EmptyId else live[ids[c]])
  }

  /** The first id of the submission that has no BakedCmdBufferInfo, if any. */
  function FirstWithoutInfo(info: map<ResourceId, BakedCmdBufferInfo>, ids: seq<ResourceId>): (r: Option<ResourceId>)
    ensures r.None? <==> forall c :: 0 <= c < |ids| ==> ids[c] in info
    ensures r.Some? ==> r.value !in info
  {
    if ids == [] then None
    else if ids[0] !in info then Some(ids[0])
    else FirstWithoutInfo(info, ids[1..])
  }

  /** The first buffer a partial trim keeps as recorded (neither replaced by
      the partial command buffer nor dropped) whose id has no live resource.
      The keep branch looks each id up again with no special case for the
      empty id, so a kept empty id fails there. */
  function FirstKeptNotLive(live: map<ResourceId, ResourceId>, ids: seq<ResourceId>, counts: seq<nat>,
                            eid: nat, baseEvent: nat, lastEventID: nat): (r: Option<ResourceId>)
    requires |ids| == |counts|
    ensures r.Some? ==> r.value !in live && r.value in ids
    decreases ids
  {
    if ids == [] then None
    else if FateOf(eid, counts[0], baseEvent, lastEventID) == Keep && ids[0] !in live then Some(ids[0])
    else FirstKeptNotLive(live, ids[1..], counts[1..], eid + 1 + counts[0], baseEvent, lastEventID)
  }

  /** The partial trim finds no missing id exactly when every buffer it keeps
      as recorded has a live resource. */
  lemma {:induction false} FirstKeptNotLiveNone(live: map<ResourceId, ResourceId>, ids: seq<ResourceId>, counts: seq<nat>,
                                                eid: nat, baseEvent: nat, lastEventID: nat)
    requires |ids| == |counts|
    ensures FirstKeptNotLive(live, ids, counts, eid, baseEvent, lastEventID).None?
            <==> forall c :: 0 <= c < |ids| && FateOf(Starts(eid, counts)[c], counts[c], baseEvent, lastEventID) == Keep
                             ==> ids[c] in live
    decreases ids
  {
    if ids != [] {
      FirstKeptNotLiveNone(live, ids[1..], counts[1..], eid + 1 + counts[0], baseEvent, lastEventID);
      var ss := Starts(eid, counts);
      assert forall c :: 1 <= c < |ids| ==> ss[c] == Starts(eid + 1 + counts[0], counts[1..])[c - 1] && ids[c] == ids[1..][c - 1];
    }
  }

  /** The handle the keep branch of the partial trim submits for each id: the
      id's live handle (only looked at for ids FirstKeptNotLive accepts). */
  function KeptHandles(live: map<ResourceId, ResourceId>, ids: seq<ResourceId>): (r: seq<Option<Handle>>)
    ensures |r| == |ids|
  {
    seq(|ids|, c requires 0 <= c < |ids| => if ids[c] in live then Some(live[ids[c]]) else None)
  }

  /** Where every buffer the partial trim keeps as recorded has a live
      resource and the empty id has none, the handles the keep branch looks
      up again are the ones the submission resolved to: the trim submits the
      same list either way. */
  lemma {:induction false} KeptHandlesAgree(live: map<ResourceId, ResourceId>, ids: seq<ResourceId>, cmds: seq<Option<Handle>>,
                                            counts: seq<nat>, eid: nat, baseEvent: nat, lastEventID: nat, partial: Option<Handle>)
    requires |ids| == |counts|
    requires ResolveCmds(live, ids) == Ok(cmds)
    requires EmptyId !in live
    requires FirstKeptNotLive(live, ids, counts, eid, baseEvent, lastEventID).None?
    ensures TrimFrom(KeptHandles(live, ids), counts, eid, baseEvent, lastEventID, partial)
            == TrimFrom(cmds, counts, eid, baseEvent, lastEventID, partial)
    decreases ids
  {
    if ids != [] {
      var eid' := eid + 1 + counts[0];
      KeptHandlesAgreeHead(live, ids, cmds, counts, eid, baseEvent, lastEventID, partial);
      KeptHandlesAgree(live, ids[1..], cmds[1..], counts[1..], eid', baseEvent, lastEventID, partial);
    }
  }

  /** One step of KeptHandlesAgree: the first buffer contributes the same to
      both trims, and the rest of the submission meets the same conditions. */
  lemma KeptHandlesAgreeHead(live: map<ResourceId, ResourceId>, ids: seq<ResourceId>, cmds: seq<Option<Handle>>,
                             counts: seq<nat>, eid: nat, baseEvent: nat, lastEventID: nat, partial: Option<Handle>)
    requires |ids| == |counts| && ids != []
    requires ResolveCmds(live, ids) == Ok(cmds)
    requires EmptyId !in live
    requires FirstKeptNotLive(live, ids, counts, eid, baseEvent, lastEventID).None?
    ensures ResolveCmds(live, ids[1..]) == Ok(cmds[1..])
    ensures FirstKeptNotLive(live, ids[1..], counts[1..], eid + 1 + counts[0], baseEvent, lastEventID).None?
    ensures KeptHandles(live, ids)[1..] == KeptHandles(live, ids[1..])
    ensures Outcome(FateOf(eid, counts[0], baseEvent, lastEventID), KeptHandles(live, ids)[0], partial)
            == Outcome(FateOf(eid, counts[0], baseEvent, lastEventID), cmds[0], partial)
  {
    var rest := ResolveCmds(live, ids[1..]);
    assert rest.Ok? && cmds == [if ids[0] == EmptyId then None else Some(live[ids[0]])] + rest.value;
    assert cmds[1..] == rest.value;
    if FateOf(eid, counts[0], baseEvent, lastEventID) == Keep {
      assert ids[0] in live && ids[0] != EmptyId;
    }
  }

  /** A kept buffer recorded with the empty id: in a submission of a null
      buffer and buffer 7, with the base event at buffer 7's start and the
      target inside it, the null buffer is kept, and the keep branch's lookup
      of the empty id fails. */
  lemma PartialKeepsEmptyId()
    ensures FateOf(Starts(10, [2, 3])[0], 2, 13, 14) == Keep
    ensures FateOf(Starts(10, [2, 3])[1], 3, 13, 14) == Substitute
    ensures FirstKeptNotLive(map[7 := 70], [EmptyId, 7], [2, 3], 10, 13, 14) == Some(EmptyId)
  {
  }

  /** The driver log after the wait for idle that a submission with
      `numWaitSems` wait semaphores causes: one QueueWaitIdle exactly when it
      has any. */
  function AfterWait(log: seq<DriverCall>, numWaitSems: u32, queue: Handle): seq<DriverCall> {
    if numWaitSems > 0 then log + [QueueWaitIdle(queue)] else log
  }

  /** A QUEUE_SUBMIT's ids, resolved to the handles the replay submits. */
  datatype Resolved = Resolved(queue: Handle, fence: Option<Handle>, cmds: seq<Option<Handle>>)

  /** Resolution of a decoded submission, in the order the chunk is read:
      each command buffer, then the queue, then the fence. Every id must have
      a live resource (the empty id stands for a null command buffer or fence),
      and while reading, every command buffer must also have baked info. */
  function ResolveSubmit(live: map<ResourceId, ResourceId>, info: map<ResourceId, BakedCmdBufferInfo>, state: LogState, data: SubmitData): (r: Result<Resolved>)
    ensures r.Ok? <==>
              && (forall c :: 0 <= c < |data.cmdIds| ==> data.cmdIds[c] == EmptyId || data.cmdIds[c] in live)
              && data.queueId in live
              && (data.fence.Some? ==> data.fence.value == EmptyId || data.fence.value in live)
              && (state == READING ==> forall c :: 0 <= c < |data.cmdIds| ==> data.cmdIds[c] in info)
    ensures r.Ok? ==> r.value.queue == live[data.queueId]
    ensures r.Ok? ==> r.value.fence == (if FenceToId(data.fence) == EmptyId then None else Some(live[FenceToId(data.fence)]))
    ensures r.Ok? ==> |r.value.cmds| == |data.cmdIds|
    ensures r.Ok? ==> forall c :: 0 <= c < |data.cmdIds| ==>
              r.value.cmds[c] == (if data.cmdIds[c] == EmptyId then None else Some(live[data.cmdIds[c]]))
    ensures r.Err? ==> r.error.UnknownResource?
  {
    match ResolveCmds(live, data.cmdIds)
    case Err(e) => Err(e)
    case Ok(cmds) =>
      match ResolveHandle(live, data.queueId)
      case Err(e) => Err(e)
      case Ok(queue) =>
        match ResolveFence(live, FenceToId(data.fence))
        case Err(e) => Err(e)
        case Ok(fence) =>
          if state == READING && FirstWithoutInfo(info, data.cmdIds).Some? then
            Err(UnknownResource(FirstWithoutInfo(info, data.cmdIds).value))
          else Ok(Resolved(queue, fence, cmds))
  }

  /** The replay-side state of WrappedVulkan that queue submission uses. */
  class WrappedVulkan {
    var state: LogState
    var rootEventID: nat                                // m_RootEventID
    var rootDrawcallID: nat                             // m_RootDrawcallID
    var lastEventID: nat                                // m_LastEventID: the replay target
    var baseEvent: nat                                  // m_PartialReplayData.baseEvent
    var partialCmdBufId: ResourceId                     // GetResID(PartialCmdBuf())
    var partialCmdBuf: Handle                           // Unwrap(PartialCmdBuf())
    var cmdBufferSubmits: map<ResourceId, seq<nat>>     // m_PartialReplayData.cmdBufferSubmits
    var events: seq<APIEvent>                           // m_Events
    var bakedInfo: map<ResourceId, BakedCmdBufferInfo>  // m_BakedCmdBufferInfo
    var live: map<ResourceId, ResourceId>               // the resource manager's live resources
    ghost var driverLog: seq<DriverCall>
    ghost var appliedBarriers: seq<seq<ImageBarrier>>

    /** A replay session in a replay state, with the counters, the replay
        target, the partial command buffer, the baked command buffer infos
        and the live resources it starts from; no start event is recorded
        yet, no event appended and no driver call made. */
    constructor(state: LogState, rootEventID: nat, rootDrawcallID: nat, lastEventID: nat, baseEvent: nat,
                partialCmdBufId: ResourceId, partialCmdBuf: Handle,
                bakedInfo: map<ResourceId, BakedCmdBufferInfo>, live: map<ResourceId, ResourceId>)
      requires state == READING || state == EXECUTING
      ensures Valid()
      ensures this.state == state && this.rootEventID == rootEventID && this.rootDrawcallID == rootDrawcallID
      ensures this.lastEventID == lastEventID && this.baseEvent == baseEvent
      ensures this.partialCmdBufId == partialCmdBufId && this.partialCmdBuf == partialCmdBuf
      ensures this.bakedInfo == bakedInfo && this.live == live
      ensures cmdBufferSubmits == map[] && events == [] && driverLog == [] && appliedBarriers == []
    {
      this.state := state;
      this.rootEventID, this.rootDrawcallID := rootEventID, rootDrawcallID;
      this.lastEventID, this.baseEvent := lastEventID, baseEvent;
      this.partialCmdBufId, this.partialCmdBuf := partialCmdBufId, partialCmdBuf;
      this.bakedInfo, this.live := bakedInfo, live;
      cmdBufferSubmits := map[];
      events := [];
      driverLog := [];
      appliedBarriers := [];
    }

    /** A replay session: the state is a replay state, and the start events
        recorded for each command buffer increase strictly and never exceed
        the last event id handed out. */
    ghost predicate Valid()
      reads this
    {
      && (state == READING || state == EXECUTING)
      && SubmitsBelow(cmdBufferSubmits, rootEventID)
    }

    ghost function Snapshot(): (nat, nat, map<ResourceId, seq<nat>>, seq<APIEvent>, seq<DriverCall>, seq<seq<ImageBarrier>>)
      reads this
    {
      (rootEventID, rootDrawcallID, cmdBufferSubmits, events, driverLog, appliedBarriers)
    }

    /** The event loop of RefreshIDs for one node: each API event gains
        `baseEventID` and is appended to m_Events. */
    method AppendShiftedEvents(es: seq<APIEvent>, baseEventID: nat) returns (shifted: seq<APIEvent>)
      modifies this`events
      ensures shifted == ShiftEvents(es, baseEventID)
      ensures events == old(events) + shifted
    {
      shifted := [];
      var e := 0;
      while e < |es|
        invariant 0 <= e <= |es|
        invariant shifted == ShiftEvents(es[..e], baseEventID)
        invariant events == old(events) + shifted
      {
        var ev := es[e].(eventID := es[e].eventID + baseEventID);
        shifted := shifted + [ev];
        events := events + [ev];
        assert es[..e + 1] == es[..e] + [es[e]];
        ShiftEventsAppend(es[..e], [es[e]], baseEventID);
        e := e + 1;
      }
      assert es[..e] == es;
    }

    /** RefreshIDs: renumbers `nodes` (an in/out vector, returned here) and
        appends each renumbered API event to m_Events as it goes. */
    method RefreshIDs(nodes: seq<DrawNode>, baseEventID: nat, baseDrawID: nat) returns (refreshed: seq<DrawNode>)
      modifies this`events
      ensures refreshed == Refreshed(nodes, baseEventID, baseDrawID)
      ensures events == old(events) + Events(refreshed)
      decreases nodes
    {
      refreshed := [];
      var i := 0;
      while i < |nodes|
        invariant 0 <= i <= |nodes|
        invariant refreshed == Refreshed(nodes[..i], baseEventID, baseDrawID)
        invariant events == old(events) + Events(refreshed)
      {
        var node := nodes[i];
        ghost var before := events;
        var es := AppendShiftedEvents(node.draw.events, baseEventID);
        ghost var mid := events;
        var children := RefreshIDs(node.children, baseEventID, baseDrawID);
        var draw := node.draw.(eventID := node.draw.eventID + baseEventID,
                               drawcallID := node.draw.drawcallID + baseDrawID,
                               events := es);
        var node' := DrawNode(draw, children);
        TakeSnoc(nodes, i);
        RefreshedSnoc(nodes[..i], node, baseEventID, baseDrawID);
        EventsSnoc(refreshed, node');
        AppendAssoc(before, es, Events(children));
        AppendAssoc(old(events), Events(refreshed), es + Events(children));
        refreshed := refreshed + [node'];
        i := i + 1;
      }
      assert nodes[..i] == nodes;
    }

    /** ApplyBarriers for each key's barrier list, in order. */
    method ApplyBarriersFor(keys: seq<ResourceId>)
      modifies this`appliedBarriers
      ensures appliedBarriers == old(appliedBarriers) + BarriersOf(bakedInfo, keys)
    {
      var i := 0;
      while i < |keys|
        invariant 0 <= i <= |keys|
        invariant appliedBarriers == old(appliedBarriers) + BarriersOf(bakedInfo, keys[..i])
      {
        appliedBarriers := appliedBarriers + [GetOr(bakedInfo, keys[i], EmptyInfo).imgbarriers];
        assert keys[..i + 1] == keys[..i] + [keys[i]];
        i := i + 1;
      }
      assert keys[..i] == keys;
    }

    /** One iteration of the READING loop: the buffer's virtual start event is
        the current root event, its tree is renumbered from there, and the
        counters move past its events and draws. */
    method AttachBuffer(id: ResourceId) returns (children: seq<DrawNode>)
      requires id in bakedInfo
      modifies this`rootEventID, this`rootDrawcallID, this`cmdBufferSubmits, this`events
      ensures children == Refreshed(bakedInfo[id].draw.children, old(rootEventID), old(rootDrawcallID))
      ensures events == old(events) + Events(children)
      ensures cmdBufferSubmits == old(cmdBufferSubmits)[id := GetOr(old(cmdBufferSubmits), id, []) + [old(rootEventID)]]
      ensures rootEventID == old(rootEventID) + 1 + bakedInfo[id].eventCount
      ensures rootDrawcallID == old(rootDrawcallID) + bakedInfo[id].drawCount
    {
      var info := bakedInfo[id];
      children := RefreshIDs(info.draw.children, rootEventID, rootDrawcallID);
      cmdBufferSubmits := cmdBufferSubmits[id := GetOr(cmdBufferSubmits, id, []) + [rootEventID]];
      rootEventID := rootEventID + 1 + info.eventCount;
      rootDrawcallID := rootDrawcallID + info.drawCount;
    }

    /** The READING loop over the buffers of a submission, starting with the
        root event at the first buffer's virtual start event. */
    method AttachAll(cmdIds: seq<ResourceId>) returns (cmdTrees: seq<seq<DrawNode>>)
      requires forall c :: 0 <= c < |cmdIds| ==> cmdIds[c] in bakedInfo
      modifies this`rootEventID, this`rootDrawcallID, this`cmdBufferSubmits, this`events
      ensures LaidOut(bakedInfo, cmdIds, Attach(bakedInfo, old(cmdBufferSubmits), cmdIds, old(rootEventID), old(rootDrawcallID)),
                      cmdBufferSubmits, rootEventID, rootDrawcallID, cmdTrees)
      ensures events == old(events) + EventsOfAll(cmdTrees)
    {
      cmdTrees := [];
      var c := 0;
      while c < |cmdIds|
        invariant 0 <= c <= |cmdIds|
        invariant LaidOut(bakedInfo, cmdIds[..c], Attach(bakedInfo, old(cmdBufferSubmits), cmdIds[..c], old(rootEventID), old(rootDrawcallID)),
                          cmdBufferSubmits, rootEventID, rootDrawcallID, cmdTrees)
        invariant events == old(events) + EventsOfAll(cmdTrees)
      {
        AttachSnoc(bakedInfo, old(cmdBufferSubmits), cmdIds, old(rootEventID), old(rootDrawcallID), c);
        RenumberedSnoc(bakedInfo, cmdIds, Attach(bakedInfo, old(cmdBufferSubmits), cmdIds[..c], old(rootEventID), old(rootDrawcallID)).bases, cmdTrees, c);
        ghost var before := events;
        var children := AttachBuffer(cmdIds[c]);
        EventsOfAllSnoc(cmdTrees, children);
        AppendAssoc(old(events), EventsOfAll(cmdTrees), Events(children));
        cmdTrees := cmdTrees + [children];
        c := c + 1;
      }
      assert cmdIds[..c] == cmdIds;
    }

    /** The timeline part of the READING branch: one event for the
        submission itself (counted by the caller's loop, hence the decrement
        at the end) and the buffers laid out after it. */
    method AddSubmissionEvents(cmdIds: seq<ResourceId>) returns (cmdTrees: seq<seq<DrawNode>>)
      requires forall c :: 0 <= c < |cmdIds| ==> cmdIds[c] in bakedInfo
      requires SubmitsBelow(cmdBufferSubmits, rootEventID)
      modifies this`rootEventID, this`rootDrawcallID, this`cmdBufferSubmits, this`events
      ensures SubmitsBelow(cmdBufferSubmits, rootEventID)
      ensures LaidOut(bakedInfo, cmdIds, Attach(bakedInfo, old(cmdBufferSubmits), cmdIds, old(rootEventID) + 1, old(rootDrawcallID)),
                      cmdBufferSubmits, rootEventID + 1, rootDrawcallID, cmdTrees)
      ensures rootEventID == old(rootEventID) + Span(EventCounts(bakedInfo, cmdIds))
      ensures rootDrawcallID == old(rootDrawcallID) + DrawSum(DrawCounts(bakedInfo, cmdIds))
      ensures events == old(events) + EventsOfAll(cmdTrees)
    {
      ghost var l := Attach(bakedInfo, cmdBufferSubmits, cmdIds, rootEventID + 1, rootDrawcallID);
      ghost var top := rootEventID + Span(EventCounts(bakedInfo, cmdIds));
      AttachKeepsSubmitsBelow(bakedInfo, cmdBufferSubmits, cmdIds, rootEventID, rootDrawcallID);
      AttachCounters(bakedInfo, cmdBufferSubmits, cmdIds, rootEventID + 1, rootDrawcallID);
      assert SubmitsBelow(l.submits, top) && l.root == top + 1;
      rootEventID := rootEventID + 1;
      cmdTrees := AttachAll(cmdIds);
      assert SubmitsBelow(cmdBufferSubmits, top);
      rootEventID := rootEventID - 1;
    }

    /** The READING branch: submit as recorded, apply every buffer's
        barriers, then lay the buffers out on the timeline. Each buffer gets a
        virtual start event, recorded in cmdBufferSubmits, followed by its
        renumbered events; the returned trees are the renumbered children of
        each buffer's drawcall. */
    method ReadingBranch(queue: Handle, fence: Option<Handle>, cmdIds: seq<ResourceId>, cmds: seq<Option<Handle>>)
      returns (cmdTrees: seq<seq<DrawNode>>)
      requires SubmitsBelow(cmdBufferSubmits, rootEventID)
      requires forall c :: 0 <= c < |cmdIds| ==> cmdIds[c] in bakedInfo && (cmdIds[c] == EmptyId || cmdIds[c] in live)
      modifies this`rootEventID, this`rootDrawcallID, this`cmdBufferSubmits, this`events, this`driverLog, this`appliedBarriers
      ensures SubmitsBelow(cmdBufferSubmits, rootEventID)
      ensures driverLog == old(driverLog) + [QueueSubmit(queue, [cmds], fence)]
      ensures appliedBarriers == old(appliedBarriers) + BarriersOf(bakedInfo, LiveIDs(live, cmdIds))
      ensures LaidOut(bakedInfo, cmdIds, Attach(bakedInfo, old(cmdBufferSubmits), cmdIds, old(rootEventID) + 1, old(rootDrawcallID)),
                      cmdBufferSubmits, rootEventID + 1, rootDrawcallID, cmdTrees)
      ensures rootEventID == old(rootEventID) + Span(EventCounts(bakedInfo, cmdIds))
      ensures rootDrawcallID == old(rootDrawcallID) + DrawSum(DrawCounts(bakedInfo, cmdIds))
      ensures events == old(events) + EventsOfAll(cmdTrees)
    {
      ghost var m0, root0, draw0 := cmdBufferSubmits, rootEventID, rootDrawcallID;
      driverLog := driverLog + [QueueSubmit(queue, [cmds], fence)];
      ApplyBarriersFor(LiveIDs(live, cmdIds));
      assert cmdBufferSubmits == m0 && rootEventID == root0 && rootDrawcallID == draw0;
      cmdTrees := AddSubmissionEvents(cmdIds);
    }

    /** The EXECUTING counter loop: move past every buffer's virtual start
        event, its events and its draws, as READING did. */
    method AdvanceCounters(cmdIds: seq<ResourceId>)
      modifies this`rootEventID, this`rootDrawcallID
      ensures rootEventID == old(rootEventID) + Span(EventCounts(bakedInfo, cmdIds))
      ensures rootDrawcallID == old(rootDrawcallID) + DrawSum(DrawCounts(bakedInfo, cmdIds))
    {
      ghost var counts := EventCounts(bakedInfo, cmdIds);
      ghost var draws := DrawCounts(bakedInfo, cmdIds);
      var c := 0;
      while c < |cmdIds|
        invariant 0 <= c <= |cmdIds|
        invariant rootEventID == old(rootEventID) + Span(counts[..c])
        invariant rootDrawcallID == old(rootDrawcallID) + DrawSum(draws[..c])
      {
        var info := GetOr(bakedInfo, cmdIds[c], EmptyInfo);
        rootEventID := rootEventID + 1 + info.eventCount;
        rootDrawcallID := rootDrawcallID + info.drawCount;
        assert counts[..c + 1] == counts[..c] + [counts[c]] && draws[..c + 1] == draws[..c] + [draws[c]];
        SpanAppend(counts[..c], [counts[c]]);
        DrawSumAppend(draws[..c], [draws[c]]);
        c := c + 1;
      }
      assert counts[..c] == counts && draws[..c] == draws;
    }

    /** The EXECUTING branch: advance the counters exactly as READING did,
        then skip the submission, submit a trimmed copy of it, or submit it
        whole, depending on where the replay target lies. Barriers are applied
        for exactly the command buffers handed to the driver. */
    method ExecutingBranch(queue: Handle, fence: Option<Handle>, cmdIds: seq<ResourceId>, cmds: seq<Option<Handle>>)
      returns (r: Result<()>)
      requires |cmds| == |cmdIds|
      requires forall c :: 0 <= c < |cmdIds| ==> cmdIds[c] == EmptyId || cmdIds[c] in live
      modifies this`rootEventID, this`rootDrawcallID, this`driverLog, this`appliedBarriers
      ensures rootEventID == old(rootEventID) + Span(EventCounts(bakedInfo, cmdIds))
      ensures rootDrawcallID == old(rootDrawcallID) + DrawSum(DrawCounts(bakedInfo, cmdIds))
      ensures ReplayEffect(queue, fence, cmdIds, cmds, old(rootEventID) + 1, rootEventID, r,
                           old(driverLog), old(appliedBarriers))
    {
      rootEventID := rootEventID + 1;
      var startEID := rootEventID;
      AdvanceCounters(cmdIds);
      rootEventID := rootEventID - 1;
      r := ReplayForTarget(queue, fence, cmdIds, cmds, startEID, rootEventID);
    }

    /** What the EXECUTING branch hands to the driver for a submission whose
        buffers start at event `startEID` and whose last event is `endEID`:
        nothing when the target is the submission's own event, a trimmed copy
        as PartialEffect says when the target lies inside it, and the whole
        submission otherwise. */
    ghost predicate ReplayEffect(queue: Handle, fence: Option<Handle>, cmdIds: seq<ResourceId>, cmds: seq<Option<Handle>>,
                                 startEID: nat, endEID: nat, r: Result<()>,
                                 log0: seq<DriverCall>, barriers0: seq<seq<ImageBarrier>>)
      requires |cmds| == |cmdIds|
      requires forall c :: 0 <= c < |cmdIds| ==> cmdIds[c] == EmptyId || cmdIds[c] in live
      reads this
    {
      match Decide(lastEventID, startEID, endEID)
      case Skip =>
        r == Ok(()) && driverLog == log0 && appliedBarriers == barriers0
      case Partial =>
        PartialEffect(queue, fence, cmdIds, startEID, r, log0, barriers0)
      case Full =>
        r == Ok(()) &&
        driverLog == log0 + [QueueSubmit(queue, [cmds], fence)] &&
        appliedBarriers == barriers0 + BarriersOf(bakedInfo, LiveIDs(live, cmdIds))
    }

    /** A partial replay of a submission whose buffers start at `startEID`.
        A buffer kept as recorded is submitted with its id's live handle,
        looked up again; a kept id with no live resource (the empty id among
        them) is an UnknownResource error and a trim that leaves nothing is
        an EmptyPartialSubmission error, neither submitting anything.
        Otherwise the trimmed handles are submitted once and the barriers of
        exactly the trimmed ids are applied. */
    ghost predicate PartialEffect(queue: Handle, fence: Option<Handle>, cmdIds: seq<ResourceId>, startEID: nat, r: Result<()>,
                                  log0: seq<DriverCall>, barriers0: seq<seq<ImageBarrier>>)
      reads this
    {
      var counts := EventCounts(bakedInfo, cmdIds);
      var trimmedIds := TrimFrom(cmdIds, counts, startEID, baseEvent, lastEventID, partialCmdBufId);
      var trimmedCmds := TrimFrom(KeptHandles(live, cmdIds), counts, startEID, baseEvent, lastEventID, Some(partialCmdBuf));
      var missing := FirstKeptNotLive(live, cmdIds, counts, startEID, baseEvent, lastEventID);
      if missing.Some? then
        r == Err(UnknownResource(missing.value)) && driverLog == log0 && appliedBarriers == barriers0
      else if trimmedIds == [] then
        r == Err(EmptyPartialSubmission) && driverLog == log0 && appliedBarriers == barriers0
      else
        r == Ok(()) &&
        driverLog == log0 + [QueueSubmit(queue, [trimmedCmds], fence)] &&
        appliedBarriers == barriers0 + BarriersOf(bakedInfo, trimmedIds)
    }

    /** The decision of the EXECUTING branch and the submission it makes. */
    method ReplayForTarget(queue: Handle, fence: Option<Handle>, cmdIds: seq<ResourceId>, cmds: seq<Option<Handle>>,
                           startEID: nat, endEID: nat)
      returns (r: Result<()>)
      requires |cmds| == |cmdIds|
      requires forall c :: 0 <= c < |cmdIds| ==> cmdIds[c] == EmptyId || cmdIds[c] in live
      modifies this`driverLog, this`appliedBarriers
      ensures ReplayEffect(queue, fence, cmdIds, cmds, startEID, endEID, r, old(driverLog), old(appliedBarriers))
    {
      r := Ok(());
      if lastEventID == startEID {
        // nothing of this submission is replayed yet
      } else if lastEventID > startEID && lastEventID < endEID {
        r := ReplayPartial(queue, fence, cmdIds, startEID);
      } else {
        driverLog := driverLog + [QueueSubmit(queue, [cmds], fence)];
        ApplyBarriersFor(LiveIDs(live, cmdIds));
      }
    }

    /** A partial replay: submit the trimmed copy of the submission and apply
        the barriers of exactly the buffers in it, as PartialEffect says. */
    method ReplayPartial(queue: Handle, fence: Option<Handle>, cmdIds: seq<ResourceId>, startEID: nat)
      returns (r: Result<()>)
      modifies this`driverLog, this`appliedBarriers
      ensures PartialEffect(queue, fence, cmdIds, startEID, r, old(driverLog), old(appliedBarriers))
    {
      var counts := EventCounts(bakedInfo, cmdIds);
      var missing := FirstKeptNotLive(live, cmdIds, counts, startEID, baseEvent, lastEventID);
      if missing.Some? {
        return Err(UnknownResource(missing.value));
      }
      var trimmedCmdIds, trimmedCmds := TrimSubmission(cmdIds, KeptHandles(live, cmdIds), counts, startEID,
                                                       baseEvent, lastEventID, partialCmdBufId, partialCmdBuf);
      if |trimmedCmds| == 0 {
        return Err(EmptyPartialSubmission);
      }
      driverLog := driverLog + [QueueSubmit(queue, [trimmedCmds], fence)];
      ApplyBarriersFor(trimmedCmdIds);
      r := Ok(());
    }

    /** Serialise_vkQueueWaitIdle on the replay side: read the queue id and,
        in a replay state, wait for that queue's live handle to go idle. A
        chunk that does not decode, or a queue id with no live resource,
        makes no driver call. */
    method SerialiseQueueWaitIdle(fields: seq<Field>) returns (r: Result<ResourceId>)
      modifies this`driverLog
      ensures ReadQueueWaitIdle(fields).Err? ==> r == Err(MalformedChunk) && driverLog == old(driverLog)
      ensures ReadQueueWaitIdle(fields).Ok? && !state.IsWriting() ==>
                var id := ReadQueueWaitIdle(fields).value;
                if id in live then r == Ok(id) && driverLog == old(driverLog) + [QueueWaitIdle(live[id])]
                else r == Err(UnknownResource(id)) && driverLog == old(driverLog)
      ensures ReadQueueWaitIdle(fields).Ok? && state.IsWriting() ==>
                r == Ok(ReadQueueWaitIdle(fields).value) && driverLog == old(driverLog)
    {
      var decoded := ReadQueueWaitIdle(fields);
      if decoded.Err? {
        return Err(MalformedChunk);
      }
      var id := decoded.value;
      r := Ok(id);
      if !state.IsWriting() {
        var queue := ResolveHandle(live, id);
        if queue.Err? {
          return Err(queue.error);
        }
        driverLog := driverLog + [QueueWaitIdle(queue.value)];
      }
    }

    /** The application waited on semaphores, which the capture does not
        record: the replay waits for the queue to go idle instead. */
    method WaitIdleIfWaited(numWaitSems: u32, queue: Handle)
      modifies this`driverLog
      ensures driverLog == AfterWait(old(driverLog), numWaitSems, queue)
    {
      if numWaitSems > 0 {
        driverLog := driverLog + [QueueWaitIdle(queue)];
      }
    }

    /** Serialise_vkQueueSubmit on the replay side: read the chunk's fields,
        resolve its ids to live handles, wait for idle if the application
        waited on semaphores, and run the READING or EXECUTING branch. The
        result holds the renumbered trees READING attaches under the
        submission (none when EXECUTING). A chunk that does not decode, or
        whose ids do not resolve, changes nothing. */
    method SerialiseQueueSubmit(fields: seq<Field>) returns (r: Result<seq<seq<DrawNode>>>)
      requires Valid()
      modifies this`rootEventID, this`rootDrawcallID, this`cmdBufferSubmits, this`events, this`driverLog, this`appliedBarriers
      ensures Valid()
      ensures ReadSubmit(fields).Err? ==> r == Err(MalformedChunk) && Snapshot() == old(Snapshot())
      ensures ReadSubmit(fields).Ok? && ResolveSubmit(live, bakedInfo, state, ReadSubmit(fields).value).Err? ==>
                r == Err(ResolveSubmit(live, bakedInfo, state, ReadSubmit(fields).value).error) && Snapshot() == old(Snapshot())
      ensures ReadSubmit(fields).Ok? && ResolveSubmit(live, bakedInfo, state, ReadSubmit(fields).value).Ok? ==>
                Replayed(ReadSubmit(fields).value, ResolveSubmit(live, bakedInfo, state, ReadSubmit(fields).value).value, r,
                         old(rootEventID), old(rootDrawcallID), old(cmdBufferSubmits), old(events), old(driverLog), old(appliedBarriers))
    {
      var decoded := ReadSubmit(fields);
      if decoded.Err? {
        return Err(MalformedChunk);
      }
      var data := decoded.value;
      var resolved := ResolveSubmit(live, bakedInfo, state, data);
      if resolved.Err? {
        return Err(resolved.error);
      }
      r := ReplayResolved(data, resolved.value);
    }

    /** What a resolved QUEUE_SUBMIT does, from the counters, start-event
        lists, events, driver log and applied barriers it started with. In
        every replay state the counters move past the submission, after a
        wait for idle when the application waited on semaphores. READING
        submits the command buffers as recorded, applies every buffer's
        barriers and lays the buffers out on the timeline, returning each
        buffer's renumbered tree. EXECUTING leaves the timeline alone, returns
        no trees and skips, trims or fully submits as ReplayEffect says. */
    ghost predicate Replayed(data: SubmitData, res: Resolved, r: Result<seq<seq<DrawNode>>>,
                             root0: nat, draw0: nat, submits0: map<ResourceId, seq<nat>>, events0: seq<APIEvent>,
                             log0: seq<DriverCall>, barriers0: seq<seq<ImageBarrier>>)
      requires ResolveSubmit(live, bakedInfo, state, data) == Ok(res)
      reads this
    {
      var log1 := AfterWait(log0, data.numWaitSems, res.queue);
      && rootEventID == root0 + Span(EventCounts(bakedInfo, data.cmdIds))
      && rootDrawcallID == draw0 + DrawSum(DrawCounts(bakedInfo, data.cmdIds))
      && (state == READING ==>
            && r.Ok? && |r.value| == |data.cmdIds|
            && LaidOut(bakedInfo, data.cmdIds, Attach(bakedInfo, submits0, data.cmdIds, root0 + 1, draw0),
                       cmdBufferSubmits, rootEventID + 1, rootDrawcallID, r.value)
            && events == events0 + EventsOfAll(r.value)
            && driverLog == log1 + [QueueSubmit(res.queue, [res.cmds], res.fence)]
            && appliedBarriers == barriers0 + BarriersOf(bakedInfo, LiveIDs(live, data.cmdIds)))
      && (state != READING ==>
            && (r.Ok? ==> r.value == [])
            && cmdBufferSubmits == submits0 && events == events0
            && ReplayEffect(res.queue, res.fence, data.cmdIds, res.cmds, root0 + 1, rootEventID,
                            if r.Ok? then Ok(()) else Err(r.error), log1, barriers0))
    }

    /** A decoded and resolved QUEUE_SUBMIT: wait for idle if the application
        waited on semaphores, then run the READING or EXECUTING branch. */
    method ReplayResolved(data: SubmitData, res: Resolved) returns (r: Result<seq<seq<DrawNode>>>)
      requires Valid() && ResolveSubmit(live, bakedInfo, state, data) == Ok(res)
      modifies this`rootEventID, this`rootDrawcallID, this`cmdBufferSubmits, this`events, this`driverLog, this`appliedBarriers
      ensures Valid()
      ensures Replayed(data, res, r, old(rootEventID), old(rootDrawcallID), old(cmdBufferSubmits), old(events),
                       old(driverLog), old(appliedBarriers))
    {
      if state == READING {
        var trees := ReplayReading(data.numWaitSems, res.queue, res.fence, data.cmdIds, res.cmds);
        r := Ok(trees);
      } else {
        ghost var root0 := rootEventID;
        var e := ReplayExecuting(data.numWaitSems, res.queue, res.fence, data.cmdIds, res.cmds);
        SubmitsBelowMono(cmdBufferSubmits, root0, rootEventID);
        r := if e.Ok? then Ok([]) else Err(e.error);
      }
    }

    /** The READING half of ReplayResolved: the wait for idle, then the
        READING branch. */
    method ReplayReading(numWaitSems: u32, queue: Handle, fence: Option<Handle>, cmdIds: seq<ResourceId>, cmds: seq<Option<Handle>>)
      returns (cmdTrees: seq<seq<DrawNode>>)
      requires SubmitsBelow(cmdBufferSubmits, rootEventID)
      requires forall c :: 0 <= c < |cmdIds| ==> cmdIds[c] in bakedInfo && (cmdIds[c] == EmptyId || cmdIds[c] in live)
      modifies this`rootEventID, this`rootDrawcallID, this`cmdBufferSubmits, this`events, this`driverLog, this`appliedBarriers
      ensures SubmitsBelow(cmdBufferSubmits, rootEventID)
      ensures driverLog == AfterWait(old(driverLog), numWaitSems, queue) + [QueueSubmit(queue, [cmds], fence)]
      ensures appliedBarriers == old(appliedBarriers) + BarriersOf(bakedInfo, LiveIDs(live, cmdIds))
      ensures LaidOut(bakedInfo, cmdIds, Attach(bakedInfo, old(cmdBufferSubmits), cmdIds, old(rootEventID) + 1, old(rootDrawcallID)),
                      cmdBufferSubmits, rootEventID + 1, rootDrawcallID, cmdTrees)
      ensures rootEventID == old(rootEventID) + Span(EventCounts(bakedInfo, cmdIds))
      ensures rootDrawcallID == old(rootDrawcallID) + DrawSum(DrawCounts(bakedInfo, cmdIds))
      ensures events == old(events) + EventsOfAll(cmdTrees)
    {
      ghost var m0, root0, draw0 := cmdBufferSubmits, rootEventID, rootDrawcallID;
      WaitIdleIfWaited(numWaitSems, queue);
      assert cmdBufferSubmits == m0 && rootEventID == root0 && rootDrawcallID == draw0;
      cmdTrees := ReadingBranch(queue, fence, cmdIds, cmds);
    }

    /** The EXECUTING half of ReplayResolved: the wait for idle, then the
        EXECUTING branch. */
    method ReplayExecuting(numWaitSems: u32, queue: Handle, fence: Option<Handle>, cmdIds: seq<ResourceId>, cmds: seq<Option<Handle>>)
      returns (r: Result<()>)
      requires |cmds| == |cmdIds|
      requires forall c :: 0 <= c < |cmdIds| ==> cmdIds[c] == EmptyId || cmdIds[c] in live
      modifies this`rootEventID, this`rootDrawcallID, this`driverLog, this`appliedBarriers
      ensures rootEventID == old(rootEventID) + Span(EventCounts(bakedInfo, cmdIds))
      ensures rootDrawcallID == old(rootDrawcallID) + DrawSum(DrawCounts(bakedInfo, cmdIds))
      ensures ReplayEffect(queue, fence, cmdIds, cmds, old(rootEventID) + 1, rootEventID, r,
                           AfterWait(old(driverLog), numWaitSems, queue), old(appliedBarriers))
    {
      WaitIdleIfWaited(numWaitSems, queue);
      r := ExecutingBranch(queue, fence, cmdIds, cmds);
    }
  }
}

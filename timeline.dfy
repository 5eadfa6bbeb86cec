/** Event accounting for one QUEUE_SUBMIT chunk and the partial-replay trim
    policy, as pure functions over the command buffers' event counts.

    A submission of command buffers with event counts e_0 .. e_{n-1} whose
    first event id is `first` gives buffer c the events
    [Starts(first, e)[c], Starts(first, e)[c] + e_c]: one "virtual" event that
    stands for the start of the buffer, then its e_c recorded events. The
    submission as a whole occupies [first, first + Span(e) - 1]. */
module Timeline {
  import opened Types

  /** Σ (1 + e_c): the event ids a submission uses, one virtual event per
      command buffer plus its recorded events. */
  function Span(counts: seq<nat>): nat {
    if counts == [] then 0 else 1 + counts[0] + Span(counts[1..])
  }

  /** Σ d_c: the drawcall ids a submission uses. */
  function DrawSum(draws: seq<nat>): nat {
    if draws == [] then 0 else draws[0] + DrawSum(draws[1..])
  }

  /** The start (virtual) event of each command buffer. */
  function Starts(first: nat, counts: seq<nat>): (r: seq<nat>)
    ensures |r| == |counts|
    decreases counts
  {
    if counts == [] then [] else [first] + Starts(first + 1 + counts[0], counts[1..])
  }

  lemma {:induction false} SpanAppend(a: seq<nat>, b: seq<nat>)
    ensures Span(a + b) == Span(a) + Span(b)
  {
    if a != [] {
      assert (a + b)[0] == a[0] && (a + b)[1..] == a[1..] + b;
      SpanAppend(a[1..], b);
      assert Span(a + b) == 1 + a[0] + Span(a[1..] + b);
    } else {
      assert a + b == b;
    }
  }

  lemma {:induction false} DrawSumAppend(a: seq<nat>, b: seq<nat>)
    ensures DrawSum(a + b) == DrawSum(a) + DrawSum(b)
  {
    if a != [] {
      assert (a + b)[0] == a[0] && (a + b)[1..] == a[1..] + b;
      DrawSumAppend(a[1..], b);
      assert DrawSum(a + b) == a[0] + DrawSum(a[1..] + b);
    } else {
      assert a + b == b;
    }
  }

  /** Buffer c starts at first + Σ_{k<c} (1 + e_k). */
  lemma {:induction false} StartsAt(first: nat, counts: seq<nat>, c: nat)
    requires c < |counts|
    ensures Starts(first, counts)[c] == first + Span(counts[..c])
    decreases counts
  {
    if c > 0 {
      StartsAt(first + 1 + counts[0], counts[1..], c - 1);
      assert counts[..c][1..] == counts[1..][..c - 1];
    }
  }

  /** The starts of the first n buffers do not depend on the buffers after
      them. */
  lemma {:induction false} StartsPrefix(first: nat, counts: seq<nat>, n: nat)
    requires n <= |counts|
    ensures Starts(first, counts[..n]) == Starts(first, counts)[..n]
    decreases counts
  {
    if n > 0 {
      StartsPrefix(first + 1 + counts[0], counts[1..], n - 1);
      assert counts[..n][1..] == counts[1..][..n - 1];
    }
  }

  /** The next buffer starts right after the previous one's last event. */
  lemma {:induction false} StartsNext(first: nat, counts: seq<nat>, c: nat)
    requires c + 1 < |counts|
    ensures Starts(first, counts)[c + 1] == Starts(first, counts)[c] + 1 + counts[c]
    decreases counts
  {
    if c > 0 {
      StartsNext(first + 1 + counts[0], counts[1..], c - 1);
    }
  }

  lemma {:induction false} StartsLowerBound(first: nat, counts: seq<nat>, k: nat)
    requires k < |counts|
    ensures Starts(first, counts)[k] >= first
    decreases counts
  {
    if k > 0 {
      StartsLowerBound(first + 1 + counts[0], counts[1..], k - 1);
    }
  }

  /** Buffers occupy disjoint, increasing event ranges: every event of buffer
      i comes before the start event of any later buffer j. */
  lemma {:induction false} StartsIncreasing(first: nat, counts: seq<nat>, i: nat, j: nat)
    requires i < j < |counts|
    ensures Starts(first, counts)[i] + counts[i] < Starts(first, counts)[j]
    decreases counts
  {
    if i == 0 {
      StartsLowerBound(first + 1 + counts[0], counts[1..], j - 1);
    } else {
      StartsIncreasing(first + 1 + counts[0], counts[1..], i - 1, j - 1);
    }
  }

  /** The last buffer's last event is the submission's last event id. */
  lemma {:induction false} StartsCover(first: nat, counts: seq<nat>)
    requires counts != []
    ensures Starts(first, counts)[|counts| - 1] + counts[|counts| - 1] == first + Span(counts) - 1
    decreases counts
  {
    if |counts| > 1 {
      StartsCover(first + 1 + counts[0], counts[1..]);
    }
  }

  /** Any event id of the submission lies in the range of some buffer. */
  lemma {:induction false} TargetInSomeBuffer(first: nat, counts: seq<nat>, t: nat)
    requires first <= t < first + Span(counts)
    ensures exists c :: 0 <= c < |counts| && Starts(first, counts)[c] <= t <= Starts(first, counts)[c] + counts[c]
    decreases counts
  {
    var ss := Starts(first, counts);
    if t <= first + counts[0] {
      assert ss[0] <= t <= ss[0] + counts[0];
    } else {
      var first' := first + 1 + counts[0];
      TargetInSomeBuffer(first', counts[1..], t);
      var c :| 0 <= c < |counts[1..]| && Starts(first', counts[1..])[c] <= t <= Starts(first', counts[1..])[c] + counts[1..][c];
      assert ss[c + 1] == Starts(first', counts[1..])[c];
      assert ss[c + 1] <= t <= ss[c + 1] + counts[c + 1];
    }
  }

  /** No event id lies in the ranges of two different buffers. */
  lemma TargetInOneBuffer(first: nat, counts: seq<nat>, t: nat)
    ensures forall c1, c2 ::
              0 <= c1 < |counts| && Starts(first, counts)[c1] <= t <= Starts(first, counts)[c1] + counts[c1] &&
              0 <= c2 < |counts| && Starts(first, counts)[c2] <= t <= Starts(first, counts)[c2] + counts[c2]
              ==> c1 == c2
  {
    var ss := Starts(first, counts);
    forall c1, c2 | 0 <= c1 < |counts| && ss[c1] <= t <= ss[c1] + counts[c1] &&
                    0 <= c2 < |counts| && ss[c2] <= t <= ss[c2] + counts[c2]
      ensures c1 == c2
    {
      if c1 < c2 { StartsIncreasing(first, counts, c1, c2); }
      if c2 < c1 { StartsIncreasing(first, counts, c2, c1); }
    }
  }

  /** The three ways an EXECUTING submission is replayed. */
  datatype Decision = Skip | Partial | Full

  /** The branch taken for a submission occupying [startEID, rootEventID]
      when the replay target is `lastEventID`. */
  function Decide(lastEventID: nat, startEID: nat, rootEventID: nat): (r: Decision)
    ensures r == Skip <==> lastEventID == startEID
    ensures r == Partial ==> startEID < lastEventID < rootEventID
    ensures r == Full <==> lastEventID != startEID && (lastEventID < startEID || rootEventID <= lastEventID)
  {
    if lastEventID == startEID then Skip
    else if lastEventID > startEID && lastEventID < rootEventID then Partial
    else Full
  }

  /** What a partial replay does with one command buffer. */
  datatype Fate = Substitute | Keep | Omit

  /** A buffer whose virtual event is the partial-replay base event is
      replaced by the partial command buffer; otherwise it is kept whole if
      the target is at or after its last event, and dropped if not. */
  function FateOf(eid: nat, eventCount: nat, baseEvent: nat, lastEventID: nat): (r: Fate)
    ensures r == Omit <==> eid != baseEvent && lastEventID < eid + eventCount
    ensures r == Keep ==> eid + eventCount <= lastEventID
  {
    if eid == baseEvent then Substitute
    else if lastEventID >= eid + eventCount then Keep
    else Omit
  }

  /** The trimmed list: each item is replaced by `partial`, kept, or dropped,
      as FateOf decides for the buffer starting at `eid`. A trim never
      lengthens the list. */
  function TrimFrom<T>(items: seq<T>, counts: seq<nat>, eid: nat, baseEvent: nat, lastEventID: nat, partial: T): (r: seq<T>)
    requires |items| == |counts|
    ensures |r| <= |items|
  {
    if items == [] then []
    else Outcome(FateOf(eid, counts[0], baseEvent, lastEventID), items[0], partial)
         + TrimFrom(items[1..], counts[1..], eid + 1 + counts[0], baseEvent, lastEventID, partial)
  }

  /** What one buffer contributes to the trimmed list. */
  function Outcome<T>(fate: Fate, item: T, partial: T): seq<T> {
    match fate
    case Substitute => [partial]
    case Keep => [item]
    case Omit => []
  }

  /** The indices of the buffers a trim does not drop, in increasing order. */
  function KeptIndices(counts: seq<nat>, eid: nat, baseEvent: nat, lastEventID: nat): seq<nat> {
    if counts == [] then []
    else
      (if FateOf(eid, counts[0], baseEvent, lastEventID) == Omit then [] else [0])
      + Shift1(KeptIndices(counts[1..], eid + 1 + counts[0], baseEvent, lastEventID))
  }

  function Shift1(xs: seq<nat>): seq<nat> {
    seq(|xs|, i requires 0 <= i < |xs| => xs[i] + 1)
  }

  /** The loop of the partial-replay branch: one pass over the submission
      that fills the trimmed id list and the trimmed handle list together. */
  method TrimSubmission(cmdIds: seq<ResourceId>, cmds: seq<Option<Handle>>, counts: seq<nat>,
                        startEID: nat, baseEvent: nat, lastEventID: nat,
                        partialId: ResourceId, partialCmd: Handle)
    returns (trimmedCmdIds: seq<ResourceId>, trimmedCmds: seq<Option<Handle>>)
    requires |cmdIds| == |cmds| == |counts|
    ensures trimmedCmdIds == TrimFrom(cmdIds, counts, startEID, baseEvent, lastEventID, partialId)
    ensures trimmedCmds == TrimFrom(cmds, counts, startEID, baseEvent, lastEventID, Some(partialCmd))
    ensures |trimmedCmdIds| == |trimmedCmds| <= |cmdIds|
  {
    var eid := startEID;
    trimmedCmdIds, trimmedCmds := [], [];
    var c := 0;
    assert cmdIds[0..] == cmdIds && cmds[0..] == cmds && counts[0..] == counts;
    while c < |cmdIds|
      invariant 0 <= c <= |cmdIds|
      invariant trimmedCmdIds + TrimFrom(cmdIds[c..], counts[c..], eid, baseEvent, lastEventID, partialId)
                == TrimFrom(cmdIds, counts, startEID, baseEvent, lastEventID, partialId)
      invariant trimmedCmds + TrimFrom(cmds[c..], counts[c..], eid, baseEvent, lastEventID, Some(partialCmd))
                == TrimFrom(cmds, counts, startEID, baseEvent, lastEventID, Some(partialCmd))
      invariant |trimmedCmdIds| == |trimmedCmds| <= c
    {
      ghost var fate := FateOf(eid, counts[c], baseEvent, lastEventID);
      TrimUnfold(cmdIds, counts, c, eid, baseEvent, lastEventID, partialId);
      TrimUnfold(cmds, counts, c, eid, baseEvent, lastEventID, Some(partialCmd));
      ghost var restIds := TrimFrom(cmdIds[c + 1..], counts[c + 1..], eid + 1 + counts[c], baseEvent, lastEventID, partialId);
      ghost var restCmds := TrimFrom(cmds[c + 1..], counts[c + 1..], eid + 1 + counts[c], baseEvent, lastEventID, Some(partialCmd));
      AppendAssoc(trimmedCmdIds, Outcome(fate, cmdIds[c], partialId), restIds);
      AppendAssoc(trimmedCmds, Outcome(fate, cmds[c], Some(partialCmd)), restCmds);
      trimmedCmdIds, trimmedCmds := TrimStep(trimmedCmdIds, trimmedCmds, cmdIds[c], cmds[c], eid, counts[c],
                                             baseEvent, lastEventID, partialId, partialCmd);
      assert trimmedCmdIds + restIds == TrimFrom(cmdIds, counts, startEID, baseEvent, lastEventID, partialId);
      assert trimmedCmds + restCmds == TrimFrom(cmds, counts, startEID, baseEvent, lastEventID, Some(partialCmd));
      eid := eid + 1 + counts[c];
      c := c + 1;
      assert TrimFrom(cmdIds[c..], counts[c..], eid, baseEvent, lastEventID, partialId) == restIds;
      assert TrimFrom(cmds[c..], counts[c..], eid, baseEvent, lastEventID, Some(partialCmd)) == restCmds;
    }
    assert cmdIds[c..] == [] && cmds[c..] == [];
  }

  /** One buffer of the partial-replay loop: append the partial command
      buffer, the buffer itself, or nothing, as FateOf decides. */
  method TrimStep(ids: seq<ResourceId>, cmds: seq<Option<Handle>>, id: ResourceId, cmd: Option<Handle>,
                  eid: nat, eventCount: nat, baseEvent: nat, lastEventID: nat, partialId: ResourceId, partialCmd: Handle)
    returns (ids': seq<ResourceId>, cmds': seq<Option<Handle>>)
    ensures ids' == ids + Outcome(FateOf(eid, eventCount, baseEvent, lastEventID), id, partialId)
    ensures cmds' == cmds + Outcome(FateOf(eid, eventCount, baseEvent, lastEventID), cmd, Some(partialCmd))
    ensures |ids'| - |ids| == |cmds'| - |cmds| <= 1
  {
    var end := eid + eventCount;
    if eid == baseEvent {
      ids', cmds' := ids + [partialId], cmds + [Some(partialCmd)];
    } else if lastEventID >= end {
      ids', cmds' := ids + [id], cmds + [cmd];
    } else {
      ids', cmds' := ids, cmds;
    }
  }

  /** One step of the trim walk, at position c. */
  lemma TrimUnfold<T>(items: seq<T>, counts: seq<nat>, c: nat, eid: nat, baseEvent: nat, lastEventID: nat, partial: T)
    requires |items| == |counts| && c < |items|
    ensures TrimFrom(items[c..], counts[c..], eid, baseEvent, lastEventID, partial)
            == Outcome(FateOf(eid, counts[c], baseEvent, lastEventID), items[c], partial)
               + TrimFrom(items[c + 1..], counts[c + 1..], eid + 1 + counts[c], baseEvent, lastEventID, partial)
  {
    assert items[c..][1..] == items[c + 1..] && counts[c..][1..] == counts[c + 1..];
  }

  lemma Shift1Member(xs: seq<nat>, c: nat)
    ensures c in Shift1(xs) <==> c >= 1 && (c - 1) in xs
  {
    if c in Shift1(xs) {
      var j :| 0 <= j < |xs| && Shift1(xs)[j] == c;
    }
    if c >= 1 && (c - 1) in xs {
      var j :| 0 <= j < |xs| && xs[j] == c - 1;
      assert Shift1(xs)[j] == c;
    }
  }

  /** Strictly increasing positions below n. */
  predicate SortedBelow(k: seq<nat>, n: nat) {
    && (forall j :: 0 <= j < |k| ==> k[j] < n)
    && (forall i, j :: 0 <= i < j < |k| ==> k[i] < k[j])
  }

  /** Shifting sorted positions by one and putting position 0 in front keeps
      them sorted. */
  lemma Shift1Sorted(head: seq<nat>, k: seq<nat>, n: nat)
    requires head == [] || head == [0]
    requires SortedBelow(k, n)
    ensures SortedBelow(head + Shift1(k), n + 1)
  {
    var r := head + Shift1(k);
    var h := |head|;
    forall j | h <= j < |r| ensures r[j] == k[j - h] + 1 {
      IndexRight(head, Shift1(k), j);
    }
  }

  /** The kept indices are strictly increasing positions of the submission. */
  lemma {:induction false} KeptIndicesSorted(counts: seq<nat>, eid: nat, baseEvent: nat, lastEventID: nat)
    ensures SortedBelow(KeptIndices(counts, eid, baseEvent, lastEventID), |counts|)
    decreases counts
  {
    if counts != [] {
      var eid' := eid + 1 + counts[0];
      KeptIndicesSorted(counts[1..], eid', baseEvent, lastEventID);
      var head: seq<nat> := if FateOf(eid, counts[0], baseEvent, lastEventID) == Omit then [] else [0];
      Shift1Sorted(head, KeptIndices(counts[1..], eid', baseEvent, lastEventID), |counts| - 1);
    }
  }

  /** Buffer c is among the kept indices exactly when its fate is not Omit. */
  lemma {:induction false} KeptIndicesMember(counts: seq<nat>, eid: nat, baseEvent: nat, lastEventID: nat, c: nat)
    requires c < |counts|
    ensures c in KeptIndices(counts, eid, baseEvent, lastEventID)
            <==> FateOf(Starts(eid, counts)[c], counts[c], baseEvent, lastEventID) != Omit
    decreases counts
  {
    var eid' := eid + 1 + counts[0];
    var k' := KeptIndices(counts[1..], eid', baseEvent, lastEventID);
    var head: seq<nat> := if FateOf(eid, counts[0], baseEvent, lastEventID) == Omit then [] else [0];
    assert KeptIndices(counts, eid, baseEvent, lastEventID) == head + Shift1(k');
    Shift1Member(k', c);
    if c > 0 {
      KeptIndicesMember(counts[1..], eid', baseEvent, lastEventID, c - 1);
    }
  }

  /** `t` lists the items at positions `k`, in that order, each replaced by
      `partial` when its buffer starts (per `ss`) at the base event. */
  ghost predicate PicksAt<T>(items: seq<T>, ss: seq<nat>, k: seq<nat>, t: seq<T>, baseEvent: nat, partial: T)
    requires |ss| == |items|
  {
    && |k| == |t|
    && forall j :: 0 <= j < |k| ==>
         k[j] < |items| && t[j] == (if ss[k[j]] == baseEvent then partial else items[k[j]])
  }

  /** One more item in front: it is picked (as position 0) or not, and every
      later pick moves one position up. */
  lemma PicksCons<T>(x: T, rest: seq<T>, s0: nat, ss: seq<nat>, k: seq<nat>, t: seq<T>, baseEvent: nat, partial: T, keep: bool)
    requires |ss| == |rest|
    requires PicksAt(rest, ss, k, t, baseEvent, partial)
    ensures PicksAt([x] + rest, [s0] + ss,
                    (if keep then [0] else []) + Shift1(k),
                    (if keep then [if s0 == baseEvent then partial else x] else []) + t,
                    baseEvent, partial)
  {
    var head: seq<nat> := if keep then [0] else [];
    var top: seq<T> := if keep then [if s0 == baseEvent then partial else x] else [];
    var k', t' := head + Shift1(k), top + t;
    var h := |head|;
    forall j | h <= j < |k'|
      ensures k'[j] < |rest| + 1 && t'[j] == (if ([s0] + ss)[k'[j]] == baseEvent then partial else ([x] + rest)[k'[j]])
    {
      IndexRight(head, Shift1(k), j);
      IndexRight(top, t, j);
      var i := k[j - h];
      IndexRight([s0], ss, i + 1);
      IndexRight([x], rest, i + 1);
    }
  }

  /** The trimmed list keeps the original order: its j-th entry comes from
      buffer KeptIndices[j] (KeptIndicesMember says which buffers those are),
      replaced by the partial command buffer when that buffer starts at the
      base event. */
  lemma {:induction false} TrimKeepsOrder<T>(items: seq<T>, counts: seq<nat>, eid: nat, baseEvent: nat, lastEventID: nat, partial: T)
    requires |items| == |counts|
    ensures PicksAt(items, Starts(eid, counts), KeptIndices(counts, eid, baseEvent, lastEventID),
                    TrimFrom(items, counts, eid, baseEvent, lastEventID, partial), baseEvent, partial)
  {
    if items != [] {
      var eid' := eid + 1 + counts[0];
      TrimKeepsOrder(items[1..], counts[1..], eid', baseEvent, lastEventID, partial);
      var fate := FateOf(eid, counts[0], baseEvent, lastEventID);
      PicksCons(items[0], items[1..], eid, Starts(eid', counts[1..]), KeptIndices(counts[1..], eid', baseEvent, lastEventID),
                TrimFrom(items[1..], counts[1..], eid', baseEvent, lastEventID, partial), baseEvent, partial, fate != Omit);
      assert [items[0]] + items[1..] == items;
    }
  }

  /** Increasing the target never drops a buffer from a trim. */
  lemma {:induction false} TrimMonotone<T>(items: seq<T>, counts: seq<nat>, eid: nat, baseEvent: nat, last1: nat, last2: nat, partial: T)
    requires |items| == |counts|
    requires last1 <= last2
    ensures forall c :: c in KeptIndices(counts, eid, baseEvent, last1) ==> c in KeptIndices(counts, eid, baseEvent, last2)
    ensures |TrimFrom(items, counts, eid, baseEvent, last1, partial)| <= |TrimFrom(items, counts, eid, baseEvent, last2, partial)|
  {
    KeptIndicesSorted(counts, eid, baseEvent, last1);
    forall c | c in KeptIndices(counts, eid, baseEvent, last1)
      ensures c in KeptIndices(counts, eid, baseEvent, last2)
    {
      KeptIndicesMember(counts, eid, baseEvent, last1, c);
      KeptIndicesMember(counts, eid, baseEvent, last2, c);
    }
    if items != [] {
      TrimMonotone(items[1..], counts[1..], eid + 1 + counts[0], baseEvent, last1, last2, partial);
    }
  }

  /** Once the walk is past both the target and the base event, every
      remaining buffer is dropped. */
  lemma {:induction false} TrimPastTarget<T>(items: seq<T>, counts: seq<nat>, eid: nat, baseEvent: nat, lastEventID: nat, partial: T)
    requires |items| == |counts|
    requires eid > lastEventID && eid > baseEvent
    ensures TrimFrom(items, counts, eid, baseEvent, lastEventID, partial) == []
  {
    if items != [] {
      TrimPastTarget(items[1..], counts[1..], eid + 1 + counts[0], baseEvent, lastEventID, partial);
    }
  }

  /** With a consistent cursor (the base event is the start of buffer c and
      the target lies in buffer c's range), the trim submits the buffers
      before c whole, then the partial command buffer, and nothing after. In
      particular the trimmed list is never empty. */
  lemma {:induction false} TrimConsistentCursor<T>(items: seq<T>, counts: seq<nat>, eid: nat, baseEvent: nat, lastEventID: nat, partial: T, c: nat)
    requires |items| == |counts| && c < |items|
    requires Starts(eid, counts)[c] == baseEvent
    requires baseEvent <= lastEventID <= baseEvent + counts[c]
    ensures TrimFrom(items, counts, eid, baseEvent, lastEventID, partial) == items[..c] + [partial]
  {
    var eid' := eid + 1 + counts[0];
    if c == 0 {
      if |items| > 1 {
        StartsLowerBound(eid', counts[1..], 0);
      }
      TrimPastTarget(items[1..], counts[1..], eid', baseEvent, lastEventID, partial);
    } else {
      StartsIncreasing(eid, counts, 0, c);
      TrimConsistentCursor(items[1..], counts[1..], eid', baseEvent, lastEventID, partial, c - 1);
      assert items[..c] == [items[0]] + items[1..][..c - 1];
    }
  }

  /** If some buffer starts at the base event, the trim is not empty. */
  lemma {:induction false} TrimNonEmptyOnBaseHit<T>(items: seq<T>, counts: seq<nat>, eid: nat, baseEvent: nat, lastEventID: nat, partial: T, c: nat)
    requires |items| == |counts| && c < |items|
    requires Starts(eid, counts)[c] == baseEvent
    ensures partial in TrimFrom(items, counts, eid, baseEvent, lastEventID, partial)
  {
    if c > 0 && eid != baseEvent {
      TrimNonEmptyOnBaseHit(items[1..], counts[1..], eid + 1 + counts[0], baseEvent, lastEventID, partial, c - 1);
    }
  }

  /** The number of command buffers a replayed submission hands to the
      driver, by branch. */
  function SubmittedCount(counts: seq<nat>, startEID: nat, rootEventID: nat, baseEvent: nat, lastEventID: nat): nat {
    match Decide(lastEventID, startEID, rootEventID)
    case Skip => 0
    case Partial => |TrimFrom(counts, counts, startEID, baseEvent, lastEventID, 0)|
    case Full => |counts|
  }

  /** From the submission's start event on, moving the target later never
      submits fewer command buffers. */
  lemma SubmittedCountMonotone(counts: seq<nat>, startEID: nat, rootEventID: nat, baseEvent: nat, last1: nat, last2: nat)
    requires startEID <= last1 <= last2
    ensures SubmittedCount(counts, startEID, rootEventID, baseEvent, last1) <= SubmittedCount(counts, startEID, rootEventID, baseEvent, last2)
  {
    TrimMonotone(counts, counts, startEID, baseEvent, last1, last2, 0);
  }

  /** Below the submission's start event the branches are not monotone: a
      target one event before the start submits everything, a target at the
      start submits nothing. */
  lemma BelowStartSubmitsAll()
    ensures SubmittedCount([5, 3], 11, 20, 0, 10) == 2
    ensures SubmittedCount([5, 3], 11, 20, 0, 11) == 0
  {
  }
}

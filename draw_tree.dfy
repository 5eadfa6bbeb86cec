/** The drawcall tree of a baked command buffer and its renumbering.
    Every time a baked command buffer is attached to a submission while a
    capture is read, a copy of its tree is renumbered: each node's event id
    and each contained API event's id gain the submission's base event id,
    each node's drawcall id gains the base drawcall id. This module gives the
    result of that walk as a function (`Refreshed`) and the list of events it
    emits (`Events`), and proves what the renumbering preserves. */
module DrawTree {

  /** One API call inside a drawcall (FetchAPIEvent): its event id and the
      rest of its payload, which renumbering never touches. */
  datatype APIEvent = APIEvent(eventID: nat, desc: string)

  /** The drawcall data of a tree node (FetchDrawcall). */
  datatype Drawcall = Drawcall(eventID: nat, drawcallID: nat, name: string, events: seq<APIEvent>)

  /** A node of the drawcall tree (DrawcallTreeNode). */
  datatype DrawNode = DrawNode(draw: Drawcall, children: seq<DrawNode>)

  function ShiftEvents(es: seq<APIEvent>, baseEventID: nat): seq<APIEvent> {
    seq(|es|, i requires 0 <= i < |es| => es[i].(eventID := es[i].eventID + baseEventID))
  }

  function ShiftDraw(d: Drawcall, baseEventID: nat, baseDrawID: nat): Drawcall {
    d.(eventID := d.eventID + baseEventID,
       drawcallID := d.drawcallID + baseDrawID,
       events := ShiftEvents(d.events, baseEventID))
  }

  /** The nodes after `RefreshIDs(nodes, baseEventID, baseDrawID)`. */
  function Refreshed(ns: seq<DrawNode>, baseEventID: nat, baseDrawID: nat): (r: seq<DrawNode>)
    ensures |r| == |ns|
  {
    if ns == [] then []
    else [DrawNode(ShiftDraw(ns[0].draw, baseEventID, baseDrawID), Refreshed(ns[0].children, baseEventID, baseDrawID))]
         + Refreshed(ns[1..], baseEventID, baseDrawID)
  }

  /** The API events of a forest in the order the walk visits them: a node's
      own events, then those of its children, then the next sibling. */
  function Events(ns: seq<DrawNode>): seq<APIEvent> {
    if ns == [] then [] else ns[0].draw.events + Events(ns[0].children) + Events(ns[1..])
  }

  /** The node event ids of a forest, in pre-order. */
  function NodeEventIDs(ns: seq<DrawNode>): seq<nat> {
    if ns == [] then [] else [ns[0].draw.eventID] + NodeEventIDs(ns[0].children) + NodeEventIDs(ns[1..])
  }

  /** The node drawcall ids of a forest, in pre-order. */
  function NodeDrawIDs(ns: seq<DrawNode>): seq<nat> {
    if ns == [] then [] else [ns[0].draw.drawcallID] + NodeDrawIDs(ns[0].children) + NodeDrawIDs(ns[1..])
  }

  function AddToAll(xs: seq<nat>, k: nat): seq<nat> {
    seq(|xs|, i requires 0 <= i < |xs| => xs[i] + k)
  }

  /** The forest with every id erased: what is left is the structure (node
      count, parent/child relation, names and event payloads). */
  function EraseDraw(d: Drawcall): Drawcall {
    d.(eventID := 0, drawcallID := 0,
       events := seq(|d.events|, i requires 0 <= i < |d.events| => d.events[i].(eventID := 0)))
  }

  function Shape(ns: seq<DrawNode>): seq<DrawNode> {
    if ns == [] then [] else [DrawNode(EraseDraw(ns[0].draw), Shape(ns[0].children))] + Shape(ns[1..])
  }

  function NodeCount(ns: seq<DrawNode>): nat {
    if ns == [] then 0 else 1 + NodeCount(ns[0].children) + NodeCount(ns[1..])
  }

  lemma ShiftEventsAppend(a: seq<APIEvent>, b: seq<APIEvent>, k: nat)
    ensures ShiftEvents(a + b, k) == ShiftEvents(a, k) + ShiftEvents(b, k)
  {
  }

  lemma AddToAllAppend(a: seq<nat>, b: seq<nat>, k: nat)
    ensures AddToAll(a + b, k) == AddToAll(a, k) + AddToAll(b, k)
  {
  }

  lemma {:induction false} RefreshedAppend(a: seq<DrawNode>, b: seq<DrawNode>, baseEventID: nat, baseDrawID: nat)
    ensures Refreshed(a + b, baseEventID, baseDrawID) == Refreshed(a, baseEventID, baseDrawID) + Refreshed(b, baseEventID, baseDrawID)
  {
    if a == [] {
      assert a + b == b;
    } else {
      assert (a + b)[0] == a[0] && (a + b)[1..] == a[1..] + b;
      RefreshedAppend(a[1..], b, baseEventID, baseDrawID);
    }
  }

  lemma {:induction false} EventsAppend(a: seq<DrawNode>, b: seq<DrawNode>)
    ensures Events(a + b) == Events(a) + Events(b)
  {
    if a == [] {
      assert a + b == b;
    } else {
      assert (a + b)[0] == a[0] && (a + b)[1..] == a[1..] + b;
      EventsAppend(a[1..], b);
    }
  }

  /** Renumbering a forest with one more node at the end. */
  lemma RefreshedSnoc(ns: seq<DrawNode>, n: DrawNode, baseEventID: nat, baseDrawID: nat)
    ensures Refreshed(ns + [n], baseEventID, baseDrawID)
            == Refreshed(ns, baseEventID, baseDrawID)
               + [DrawNode(ShiftDraw(n.draw, baseEventID, baseDrawID), Refreshed(n.children, baseEventID, baseDrawID))]
  {
    RefreshedAppend(ns, [n], baseEventID, baseDrawID);
    assert [n][1..] == [];
  }

  /** The events of a forest with one more node at the end. */
  lemma EventsSnoc(ns: seq<DrawNode>, n: DrawNode)
    ensures Events(ns + [n]) == Events(ns) + (n.draw.events + Events(n.children))
  {
    EventsAppend(ns, [n]);
    assert [n][1..] == [];
  }

  /** Renumbering never changes the structure of the tree. */
  lemma {:induction false} RefreshedShape(ns: seq<DrawNode>, baseEventID: nat, baseDrawID: nat)
    ensures Shape(Refreshed(ns, baseEventID, baseDrawID)) == Shape(ns)
    ensures NodeCount(Refreshed(ns, baseEventID, baseDrawID)) == NodeCount(ns)
    ensures |Refreshed(ns, baseEventID, baseDrawID)| == |ns|
  {
    if ns != [] {
      RefreshedShape(ns[0].children, baseEventID, baseDrawID);
      RefreshedShape(ns[1..], baseEventID, baseDrawID);
      var d := ns[0].draw;
      assert EraseDraw(ShiftDraw(d, baseEventID, baseDrawID)) == EraseDraw(d);
    }
  }

  /** Every node's event id gains `baseEventID`, at every depth. */
  lemma {:induction false} RefreshedNodeEventIDs(ns: seq<DrawNode>, baseEventID: nat, baseDrawID: nat)
    ensures NodeEventIDs(Refreshed(ns, baseEventID, baseDrawID)) == AddToAll(NodeEventIDs(ns), baseEventID)
  {
    if ns != [] {
      RefreshedNodeEventIDs(ns[0].children, baseEventID, baseDrawID);
      RefreshedNodeEventIDs(ns[1..], baseEventID, baseDrawID);
      AddToAllAppend([ns[0].draw.eventID] + NodeEventIDs(ns[0].children), NodeEventIDs(ns[1..]), baseEventID);
      AddToAllAppend([ns[0].draw.eventID], NodeEventIDs(ns[0].children), baseEventID);
    }
  }

  /** Every node's drawcall id gains `baseDrawID`, at every depth. */
  lemma {:induction false} RefreshedNodeDrawIDs(ns: seq<DrawNode>, baseEventID: nat, baseDrawID: nat)
    ensures NodeDrawIDs(Refreshed(ns, baseEventID, baseDrawID)) == AddToAll(NodeDrawIDs(ns), baseDrawID)
  {
    if ns != [] {
      RefreshedNodeDrawIDs(ns[0].children, baseEventID, baseDrawID);
      RefreshedNodeDrawIDs(ns[1..], baseEventID, baseDrawID);
      AddToAllAppend([ns[0].draw.drawcallID] + NodeDrawIDs(ns[0].children), NodeDrawIDs(ns[1..]), baseDrawID);
      AddToAllAppend([ns[0].draw.drawcallID], NodeDrawIDs(ns[0].children), baseDrawID);
    }
  }

  /** The events of the renumbered forest are the original events, in the
      same order, each with `baseEventID` added. */
  lemma {:induction false} RefreshedEvents(ns: seq<DrawNode>, baseEventID: nat, baseDrawID: nat)
    ensures Events(Refreshed(ns, baseEventID, baseDrawID)) == ShiftEvents(Events(ns), baseEventID)
  {
    if ns != [] {
      RefreshedEvents(ns[0].children, baseEventID, baseDrawID);
      RefreshedEvents(ns[1..], baseEventID, baseDrawID);
      ShiftEventsAppend(ns[0].draw.events + Events(ns[0].children), Events(ns[1..]), baseEventID);
      ShiftEventsAppend(ns[0].draw.events, Events(ns[0].children), baseEventID);
    }
  }

  /** Renumbering by (a, b) and then by (c, d) is renumbering by (a+c, b+d). */
  lemma {:induction false} RefreshedCompose(ns: seq<DrawNode>, a: nat, b: nat, c: nat, d: nat)
    ensures Refreshed(Refreshed(ns, a, b), c, d) == Refreshed(ns, a + c, b + d)
  {
    if ns != [] {
      RefreshedCompose(ns[0].children, a, b, c, d);
      RefreshedCompose(ns[1..], a, b, c, d);
      var r := Refreshed(ns, a, b);
      assert r[0].children == Refreshed(ns[0].children, a, b);
      assert r[1..] == Refreshed(ns[1..], a, b);
      var dc := ns[0].draw;
      assert ShiftEvents(ShiftEvents(dc.events, a), c) == ShiftEvents(dc.events, a + c);
      assert ShiftDraw(ShiftDraw(dc, a, b), c, d) == ShiftDraw(dc, a + c, b + d);
    }
  }

  /** Renumbering by (0, 0) leaves the forest as it was. */
  lemma {:induction false} RefreshedZero(ns: seq<DrawNode>)
    ensures Refreshed(ns, 0, 0) == ns
  {
    if ns != [] {
      RefreshedZero(ns[0].children);
      RefreshedZero(ns[1..]);
      assert ShiftEvents(ns[0].draw.events, 0) == ns[0].draw.events;
      assert [ns[0]] + ns[1..] == ns;
    }
  }

  /** Two forests that renumber to the same forest were the same forest: the
      renumbering loses nothing. */
  lemma {:induction false} RefreshedInjective(ns: seq<DrawNode>, ms: seq<DrawNode>, baseEventID: nat, baseDrawID: nat)
    requires Refreshed(ns, baseEventID, baseDrawID) == Refreshed(ms, baseEventID, baseDrawID)
    ensures ns == ms
  {
    RefreshedShape(ns, baseEventID, baseDrawID);
    RefreshedShape(ms, baseEventID, baseDrawID);
    if ns != [] {
      var rn := Refreshed(ns, baseEventID, baseDrawID);
      var rm := Refreshed(ms, baseEventID, baseDrawID);
      assert rn[0] == rm[0] && rn[1..] == rm[1..];
      RefreshedInjective(ns[0].children, ms[0].children, baseEventID, baseDrawID);
      RefreshedInjective(ns[1..], ms[1..], baseEventID, baseDrawID);
      var en, em := ns[0].draw.events, ms[0].draw.events;
      assert |en| == |em|;
      forall i | 0 <= i < |en| ensures en[i] == em[i] {
        assert ShiftEvents(en, baseEventID)[i] == ShiftEvents(em, baseEventID)[i];
      }
      assert ns[0] == ms[0];
      assert ns == [ns[0]] + ns[1..] && ms == [ms[0]] + ms[1..];
    }
  }
}

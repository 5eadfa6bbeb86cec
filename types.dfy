/** Shared vocabulary of the queue-submission model: resource ids, the
    capture/replay state, 32- and 64-bit unsigned ranges and the error kinds. */
module Types {

  /** A logical resource id. The default-constructed id (ResourceId()) is 0
      and stands for "no resource". */
  type ResourceId = nat

  const EmptyId: ResourceId := 0

  /** A real driver handle, as the driver returns it. */
  type Handle = nat

  const Pow32: int := 0x1_0000_0000
  const Pow64: int := 0x1_0000_0000_0000_0000

  /** uint32_t, the width of chunk counts and of queue family/index values. */
  newtype u32 = x: int | 0 <= x < 0x1_0000_0000

  /** The process-wide LogState, in the order of its declaration: the replay
      states come first, so `m_State >= WRITING` means "a capture state". */
  datatype LogState = READING | EXECUTING | WRITING | WRITING_IDLE | WRITING_CAPFRAME
  {
    function Ordinal(): nat {
      match this
      case READING => 0
      case EXECUTING => 1
      case WRITING => 2
      case WRITING_IDLE => 3
      case WRITING_CAPFRAME => 4
    }

    /** `m_State >= WRITING` */
    predicate IsWriting() {
      Ordinal() >= WRITING.Ordinal()
    }

    /** `m_State >= WRITING_CAPFRAME` */
    predicate InCapFrame() {
      Ordinal() >= WRITING_CAPFRAME.Ordinal()
    }
  }

  datatype Error =
    | UnknownResource(id: ResourceId)   // an id with no live resource in this session
    | MalformedChunk                    // a chunk whose fields do not follow the expected order
    | EmptyPartialSubmission            // a partial replay trimmed a submission to nothing

  datatype Option<+T> = None | Some(value: T)

  datatype Result<+T> = Ok(value: T) | Err(error: Error)

  /** An image memory barrier recorded in a command buffer. Applying it to
      the tracked image layouts (ApplyBarriers) is not modelled: the model
      records which barrier lists were applied, in order. */
  datatype ImageBarrier = ImageBarrier(image: ResourceId, oldLayout: nat, newLayout: nat)

  /** A call made into the driver. The driver is outside the model: its calls
      are only recorded, in order, in a ghost log. A submitted command buffer
      is None for a null handle. */
  datatype DriverCall =
    | QueueSubmit(queue: Handle, batches: seq<seq<Option<Handle>>>, fence: Option<Handle>)
    | QueueWaitIdle(queue: Handle)
    | GetDeviceQueue(device: Handle, queueFamilyIndex: u32, queueIndex: u32)
    | FlushMappedMemoryRanges(memory: ResourceId, offset: nat, size: nat)
    | SubmitCmds

  /** Look up a key in a map, falling back to a default as `std::map::operator[]`
      does for a key that is missing. */
  function GetOr<K, V>(m: map<K, V>, k: K, default: V): V {
    if k in m then m[k] else default
  }

  /** Modular reduction to 64 bits, for VkDeviceSize and size_t arithmetic. */
  function Wrap64(x: int): (r: nat)
    ensures r < Pow64
    ensures 0 <= x < Pow64 ==> r == x
  {
    x % Pow64
  }

  /** The elements of a sequence, as a set. */
  function Elems<T>(s: seq<T>): set<T> {
    set x | x in s
  }

  lemma ElemsSnoc<T>(s: seq<T>, x: T)
    ensures Elems(s + [x]) == Elems(s) + {x}
  {
  }

  /** The concatenation of a list of sequences, in order. */
  function Concat<T>(parts: seq<seq<T>>): seq<T> {
    if parts == [] then [] else Concat(parts[..|parts| - 1]) + parts[|parts| - 1]
  }

  /** The union of a list of sets. */
  function UnionOf<T>(parts: seq<set<T>>): set<T> {
    if parts == [] then {} else UnionOf(parts[..|parts| - 1]) + parts[|parts| - 1]
  }

  lemma {:induction false} UnionOfMember<T>(parts: seq<set<T>>, x: T)
    ensures x in UnionOf(parts) <==> exists i :: 0 <= i < |parts| && x in parts[i]
  {
    if parts != [] {
      var n := |parts| - 1;
      UnionOfMember(parts[..n], x);
      assert forall i | 0 <= i < n :: parts[..n][i] == parts[i];
    }
  }

  /** A suffix `parts[c..]` of a growing list, where `c` may move only when
      the suffix was empty: the last part joins the suffix iff `inFrame`.
      This is the step shared by the "from the first marked element on"
      accumulations, stated once for sequences and once for sets. */
  predicate SuffixStep(n: nat, c': nat, c: nat, inFrame: bool) {
    && c' <= n
    && (c' < n ==> c == c' && inFrame)
    && (c' == n ==> inFrame == (c == n) && (c == n || c == n + 1))
  }

  lemma ConcatKeptSnoc<T>(base: seq<T>, prev: seq<T>, r: seq<T>, parts: seq<seq<T>>, c': nat, c: nat, inFrame: bool)
    requires parts != [] && SuffixStep(|parts| - 1, c', c, inFrame)
    requires prev == base + Concat(parts[..|parts| - 1][c'..])
    requires r == if inFrame then prev + parts[|parts| - 1] else prev
    ensures c <= |parts| && r == base + Concat(parts[c..])
  {
    var n := |parts| - 1;
    if inFrame {
      assert parts[c..][..|parts[c..]| - 1] == parts[..n][c'..];
      AppendAssoc(base, Concat(parts[..n][c'..]), parts[n]);
    } else {
      assert parts[..n][c'..] == [] && parts[c..] == [];
    }
  }

  lemma UnionKeptSnoc<T>(base: set<T>, prev: set<T>, r: set<T>, parts: seq<set<T>>, c': nat, c: nat, inFrame: bool)
    requires parts != [] && SuffixStep(|parts| - 1, c', c, inFrame)
    requires prev == base + UnionOf(parts[..|parts| - 1][c'..])
    requires r == if inFrame then prev + parts[|parts| - 1] else prev
    ensures c <= |parts| && r == base + UnionOf(parts[c..])
  {
    var n := |parts| - 1;
    if inFrame {
      assert parts[c..][..|parts[c..]| - 1] == parts[..n][c'..];
    } else {
      assert parts[..n][c'..] == [] && parts[c..] == [];
    }
  }

  /** The resources a command buffer in the captured frame marks, in the
      order it marks them, regrouped as the union of its parts. */
  lemma FrameUnion<T>(f0: set<T>, sets: set<T>, bound: set<T>, refs: set<T>, self: set<T>,
                      subRefs: set<T>, subs: set<T>, queue: set<T>, fence: set<T>)
    ensures f0 + sets + bound + refs + self + subRefs + subs + queue + fence
            == f0 + (sets + (bound + refs + subRefs) + self + subs + queue + fence)
  {
  }

  /** Adding two parts to two accumulated unions. */
  lemma UnionRegroup<T>(f0: set<T>, a: set<T>, b: set<T>, c: set<T>, d: set<T>)
    ensures f0 + a + b + c + d == f0 + (a + c) + (b + d)
  {
  }

  lemma AppendAssoc<T>(a: seq<T>, b: seq<T>, c: seq<T>)
    ensures (a + b) + c == a + (b + c)
  {
  }

  /** An index past the left part of a concatenation reads the right part. */
  lemma IndexRight<T>(a: seq<T>, b: seq<T>, j: nat)
    requires |a| <= j < |a| + |b|
    ensures (a + b)[j] == b[j - |a|]
  {
  }

  /** Taking one more element of a sequence appends that element. */
  lemma TakeSnoc<T>(s: seq<T>, c: nat)
    requires c < |s|
    ensures s[..c + 1] == s[..c] + [s[c]]
  {
  }
}

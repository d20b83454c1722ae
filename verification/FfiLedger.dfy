/**
 What the native library allocates and the Go wrapper gives back: handles, strings and byte buffers,
 over any sequence of wrapper calls, Closes and finalizer runs.
 */
module FfiLedger {
  import opened Prelude
  import opened FfiStrings

  datatype Block = RuntimeBox | EngineBox | OwnedText(memory: string) | OwnedBytes(bytes: Bytes, capacity: nat)

  /** Blocks by the number of their allocation; `misused` is set by a release that matches no live block. */
  datatype Heap = Heap(next: nat, live: map<nat, Block>, released: seq<nat>, misused: bool)

  /** The buffer struct that crosses the boundary. */
  datatype ByteBuffer = ByteBuffer(data: Option<nat>, len: nat, cap: nat)

  /** A Rust vector never has less capacity than elements. */
  datatype VecBytes = VecBytes(bytes: Bytes, capacity: nat)

  type GoodVec = v: VecBytes | |v.bytes| <= v.capacity witness VecBytes([], 0)

  // ---------------------------------------------------------------- the native side

  function Allocate(h: Heap, b: Block): Heap {
    h.(next := h.next + 1, live := h.live[h.next := b])
  }

  /** Gives block `ptr` back as the block `b`; anything but that very live block is a misuse. */
  function ReleaseAs(h: Heap, ptr: nat, fits: bool): Heap {
    if fits then h.(live := h.live - {ptr}, released := h.released + [ptr]) else h.(misused := true)
  }

  function AllocateByteBuffer(h: Heap, v: GoodVec): (Heap, ByteBuffer) {
    if v.bytes == [] then (h, ByteBuffer(None, 0, 0))
    else (Allocate(h, OwnedBytes(v.bytes, v.capacity)), ByteBuffer(Some(h.next), |v.bytes|, v.capacity))
  }

  function BytesFree(h: Heap, buffer: ByteBuffer): Heap {
    if buffer.data.None? || buffer.cap == 0 then h
    else
      var ptr := buffer.data.value;
      ReleaseAs(h, ptr, ptr in h.live && h.live[ptr].OwnedBytes?
                        && |h.live[ptr].bytes| == buffer.len && h.live[ptr].capacity == buffer.cap)
  }

  function StringFree(h: Heap, ptr: Option<nat>): Heap {
    if ptr.None? then h
    else ReleaseAs(h, ptr.value, ptr.value in h.live && h.live[ptr.value].OwnedText?)
  }

  function RuntimeDestroy(h: Heap, ptr: Option<nat>): Heap {
    if ptr.None? then h
    else ReleaseAs(h, ptr.value, ptr.value in h.live && h.live[ptr.value].RuntimeBox?)
  }

  function EngineDestroy(h: Heap, ptr: Option<nat>): Heap {
    if ptr.None? then h
    else ReleaseAs(h, ptr.value, ptr.value in h.live && h.live[ptr.value].EngineBox?)
  }

  /** Reading through a pointer is only possible while its block is live. */
  function BytesAt(h: Heap, buffer: ByteBuffer): Option<Bytes> {
    if buffer.data.None? || buffer.len == 0 then None
    else if buffer.data.value in h.live && h.live[buffer.data.value].OwnedBytes?
            && buffer.len <= |h.live[buffer.data.value].bytes|
    then Some(h.live[buffer.data.value].bytes[..buffer.len])
    else None
  }

  function TextAt(h: Heap, ptr: nat): Option<string> {
    if ptr in h.live && h.live[ptr].OwnedText? && NUL in h.live[ptr].memory
    then Some(UntilNul(h.live[ptr].memory))
    else None
  }

  // ---------------------------------------------------------------- the Go side

  /** A Go `Runtime` or `Engine`: its handle, nil once closed, and whether a finalizer is still set. */
  datatype GoObject = GoObject(handle: Option<nat>, finalizer: bool)

  const CLOSED: GoObject := GoObject(None, false)

  datatype World = World(heap: Heap, runtimes: seq<GoObject>, engines: seq<GoObject>)

  /** What the native call inside a wrapper call comes to is part of the operation. */
  datatype Op =
    | CreateRuntime(succeeds: bool)
    | CloseRuntime(i: nat)
    | FinalizeRuntime(i: nat)
    | OpenEngine(i: nat, succeeds: bool)
    | CloseEngine(i: nat)
    | FinalizeEngine(i: nat)
    | PathFor(i: nat, text: Option<string>)
    | CreateTable(i: nat, text: Option<string>)
    | VectorSearch(i: nat, found: Option<GoodVec>)

  const INITIAL: World := World(Heap(0, map[], [], false), [], [])

  predicate Enabled(w: World, op: Op) {
    match op
    case CreateRuntime(_) => true
    case CloseRuntime(i) => i < |w.runtimes|
    case FinalizeRuntime(i) => i < |w.runtimes| && w.runtimes[i].finalizer
    case OpenEngine(i, _) => i < |w.runtimes|
    case CloseEngine(i) => i < |w.engines|
    case FinalizeEngine(i) => i < |w.engines| && w.engines[i].finalizer
    case PathFor(i, _) => i < |w.runtimes|
    case CreateTable(i, _) => i < |w.engines|
    case VectorSearch(i, _) => i < |w.engines|
  }

  /** `Runtime.Close`, which a finalizer runs as well. */
  function CloseRuntimeAt(w: World, i: nat): World
    requires i < |w.runtimes|
  {
    if w.runtimes[i].handle.None? then w
    else w.(heap := RuntimeDestroy(w.heap, w.runtimes[i].handle), runtimes := w.runtimes[i := CLOSED])
  }

  function CloseEngineAt(w: World, i: nat): World
    requires i < |w.engines|
  {
    if w.engines[i].handle.None? then w
    else w.(heap := EngineDestroy(w.heap, w.engines[i].handle), engines := w.engines[i := CLOSED])
  }

  /** `takeOwnedString`: read the string the native call returned, then free it. */
  function TakeOwnedString(h: Heap, text: Option<string>): (Heap, Option<string>) {
    if text.None? || StringIntoRaw(text.value).None? then (h, None)
    else
      var made := Allocate(h, OwnedText(StringIntoRaw(text.value).value));
      (StringFree(made, Some(h.next)), TextAt(made, h.next))
  }

  /** `VectorSearchF32` from the native reply on: copy the bytes out, then free the buffer as it came. */
  function TakeBytes(h: Heap, v: GoodVec): (Heap, Option<Bytes>) {
    var (made, buffer) := AllocateByteBuffer(h, v);
    (BytesFree(made, buffer), BytesAt(made, buffer))
  }

  function Apply(w: World, op: Op): World
    requires Enabled(w, op)
  {
    match op
    case CreateRuntime(succeeds) =>
      if !succeeds then w
      else w.(heap := Allocate(w.heap, RuntimeBox), runtimes := w.runtimes + [GoObject(Some(w.heap.next), true)])
    case CloseRuntime(i) => CloseRuntimeAt(w, i)
    case FinalizeRuntime(i) => CloseRuntimeAt(w.(runtimes := w.runtimes[i := w.runtimes[i].(finalizer := false)]), i)
    case OpenEngine(i, succeeds) =>
      if w.runtimes[i].handle.None? || !succeeds then w
      else w.(heap := Allocate(w.heap, EngineBox), engines := w.engines + [GoObject(Some(w.heap.next), true)])
    case CloseEngine(i) => CloseEngineAt(w, i)
    case FinalizeEngine(i) => CloseEngineAt(w.(engines := w.engines[i := w.engines[i].(finalizer := false)]), i)
    case PathFor(i, text) =>
      if w.runtimes[i].handle.None? then w else w.(heap := TakeOwnedString(w.heap, text).0)
    case CreateTable(i, text) =>
      if w.engines[i].handle.None? then w else w.(heap := TakeOwnedString(w.heap, text).0)
    case VectorSearch(i, found) =>
      if w.engines[i].handle.None? || found.None? then w else w.(heap := TakeBytes(w.heap, found.value).0)
  }

  ghost predicate Behaviour(worlds: seq<World>, ops: seq<Op>) {
    && |worlds| == |ops| + 1 && worlds[0] == INITIAL
    && forall i :: 0 <= i < |ops| ==> Enabled(worlds[i], ops[i]) && worlds[i + 1] == Apply(worlds[i], ops[i])
  }

  // ---------------------------------------------------------------- what every call keeps

  /** Each block ever allocated is live or was released once; no release ever missed. */
  ghost predicate HeapInv(h: Heap) {
    && !h.misused
    && (forall i, j :: 0 <= i < j < |h.released| ==> h.released[i] != h.released[j])
    && (forall ptr :: ptr in h.live ==> ptr < h.next && ptr !in h.released)
    && (forall i :: 0 <= i < |h.released| ==> h.released[i] < h.next)
    && (forall ptr: nat :: ptr < h.next ==> ptr in h.live || ptr in h.released)
  }

  /** The object's handle, if not nil, is a live block of the right kind. */
  ghost predicate Backed(h: Heap, o: GoObject, kind: Block) {
    (o.handle.Some? ==> Lookup(h.live, o.handle.value) == Some(kind)) && (o.finalizer ==> o.handle.Some?)
  }

  ghost predicate AllBacked(h: Heap, objects: seq<GoObject>, kind: Block) {
    && (forall i :: 0 <= i < |objects| ==> Backed(h, objects[i], kind))
    && (forall i, j :: 0 <= i < j < |objects| && objects[i].handle.Some? ==> objects[i].handle != objects[j].handle)
  }

  predicate HeldBy(objects: seq<GoObject>, ptr: nat) {
    exists i :: 0 <= i < |objects| && objects[i].handle == Some(ptr)
  }

  ghost predicate Inv(w: World) {
    && HeapInv(w.heap)
    && AllBacked(w.heap, w.runtimes, RuntimeBox)
    && AllBacked(w.heap, w.engines, EngineBox)
    && (forall ptr :: ptr in w.heap.live ==> HeldBy(w.runtimes, ptr) || HeldBy(w.engines, ptr))
  }

  lemma AllocateKeeps(h: Heap, b: Block)
    requires HeapInv(h)
    ensures HeapInv(Allocate(h, b))
    ensures h.next !in h.live
  {
  }

  lemma ReleaseKeeps(h: Heap, ptr: nat)
    requires HeapInv(h) && ptr in h.live
    ensures HeapInv(ReleaseAs(h, ptr, true))
  {
    var h' := ReleaseAs(h, ptr, true);
    assert h'.released[|h.released|] == ptr;
    forall q: nat | q < h'.next
      ensures q in h'.live || q in h'.released
    {
      if q in h.released {
        var i :| 0 <= i < |h.released| && h.released[i] == q;
        assert h'.released[i] == q;
      }
    }
  }

  /** A string or buffer call leaves exactly the blocks that were live before. */
  lemma TransientKeeps(h: Heap, b: Block)
    requires HeapInv(h)
    ensures HeapInv(ReleaseAs(Allocate(h, b), h.next, true))
    ensures ReleaseAs(Allocate(h, b), h.next, true).live == h.live
  {
    AllocateKeeps(h, b);
    ReleaseKeeps(Allocate(h, b), h.next);
    assert h.live[h.next := b] - {h.next} == h.live;
  }

  /** The caller gets the sanitised text, and the string is freed once. */
  lemma StringIsCopiedThenFreed(h: Heap, text: string)
    requires HeapInv(h)
    ensures var (after, got) := TakeOwnedString(h, Some(text));
            && got == Some(Sanitize(text))
            && HeapInv(after) && after.live == h.live && after.released == h.released + [h.next]
  {
    OwnedStringReadsBack(text);
    TransientKeeps(h, OwnedText(StringIntoRaw(text).value));
  }

  /** The caller gets all the bytes, and the buffer is freed once, as it was made; an empty reply frees nothing. */
  lemma BytesAreCopiedThenFreed(h: Heap, v: GoodVec)
    requires HeapInv(h)
    ensures var (after, got) := TakeBytes(h, v);
            && got == (if v.bytes == [] then None else Some(v.bytes))
            && HeapInv(after) && after.live == h.live
            && after.released == h.released + (if v.bytes == [] then [] else [h.next])
  {
    if v.bytes != [] {
      assert v.bytes[..|v.bytes|] == v.bytes;
      TransientKeeps(h, OwnedBytes(v.bytes, v.capacity));
    }
  }

  lemma OpenKeepsBacked(h: Heap, objects: seq<GoObject>, kind: Block, b: Block)
    requires HeapInv(h) && AllBacked(h, objects, kind)
    ensures AllBacked(Allocate(h, b), objects, kind)
    ensures b == kind ==> AllBacked(Allocate(h, b), objects + [GoObject(Some(h.next), true)], kind)
  {
    AllocateKeeps(h, b);
    forall i | 0 <= i < |objects|
      ensures Backed(Allocate(h, b), objects[i], kind)
    {
      assert Backed(h, objects[i], kind);
    }
  }

  lemma HeldStays(objects: seq<GoObject>, more: seq<GoObject>, ptr: nat)
    requires HeldBy(objects, ptr)
    ensures HeldBy(objects + more, ptr)
  {
    var i :| 0 <= i < |objects| && objects[i].handle == Some(ptr);
    assert (objects + more)[i].handle == Some(ptr);
  }

  lemma OpenKeeps(w: World, w': World, engine: bool)
    requires Inv(w)
    requires var o := GoObject(Some(w.heap.next), true);
             w' == if engine then w.(heap := Allocate(w.heap, EngineBox), engines := w.engines + [o])
                   else w.(heap := Allocate(w.heap, RuntimeBox), runtimes := w.runtimes + [o])
    ensures Inv(w')
  {
    var b := if engine then EngineBox else RuntimeBox;
    AllocateKeeps(w.heap, b);
    OpenKeepsBacked(w.heap, w.runtimes, RuntimeBox, b);
    OpenKeepsBacked(w.heap, w.engines, EngineBox, b);
    var o := GoObject(Some(w.heap.next), true);
    forall ptr | ptr in w'.heap.live
      ensures HeldBy(w'.runtimes, ptr) || HeldBy(w'.engines, ptr)
    {
      if ptr == w.heap.next {
        if engine {
          assert w'.engines[|w.engines|].handle == Some(ptr);
        } else {
          assert w'.runtimes[|w.runtimes|].handle == Some(ptr);
        }
      } else if HeldBy(w.runtimes, ptr) {
        HeldStays(w.runtimes, [o], ptr);
      } else {
        HeldStays(w.engines, [o], ptr);
      }
    }
  }

  lemma CloseKeepsBacked(h: Heap, objects: seq<GoObject>, kind: Block, i: nat)
    requires AllBacked(h, objects, kind) && i < |objects| && objects[i].handle.Some?
    ensures AllBacked(ReleaseAs(h, objects[i].handle.value, true), objects[i := CLOSED], kind)
  {
    var h' := ReleaseAs(h, objects[i].handle.value, true);
    var after := objects[i := CLOSED];
    forall j | 0 <= j < |after|
      ensures Backed(h', after[j], kind)
    {
      assert Backed(h, objects[j], kind);
    }
  }

  lemma OtherKindKeepsBacked(h: Heap, objects: seq<GoObject>, kind: Block, ptr: nat)
    requires AllBacked(h, objects, kind) && Lookup(h.live, ptr).Some? && h.live[ptr] != kind
    ensures AllBacked(ReleaseAs(h, ptr, true), objects, kind)
  {
    forall j | 0 <= j < |objects|
      ensures Backed(ReleaseAs(h, ptr, true), objects[j], kind)
    {
      assert Backed(h, objects[j], kind);
    }
  }

  lemma HeldWithout(objects: seq<GoObject>, i: nat, ptr: nat)
    requires i < |objects| && HeldBy(objects, ptr) && objects[i].handle != Some(ptr)
    ensures HeldBy(objects[i := CLOSED], ptr)
  {
    var j :| 0 <= j < |objects| && objects[j].handle == Some(ptr);
    assert objects[i := CLOSED][j].handle == Some(ptr);
  }

  lemma CloseRuntimeKeeps(w: World, i: nat)
    requires Inv(w) && i < |w.runtimes|
    ensures Inv(CloseRuntimeAt(w, i))
  {
    var w' := CloseRuntimeAt(w, i);
    assert Backed(w.heap, w.runtimes[i], RuntimeBox);
    if w.runtimes[i].handle.Some? {
      var handle := w.runtimes[i].handle.value;
      ReleaseKeeps(w.heap, handle);
      CloseKeepsBacked(w.heap, w.runtimes, RuntimeBox, i);
      OtherKindKeepsBacked(w.heap, w.engines, EngineBox, handle);
      forall ptr | ptr in w'.heap.live
        ensures HeldBy(w'.runtimes, ptr) || HeldBy(w'.engines, ptr)
      {
        if HeldBy(w.runtimes, ptr) { HeldWithout(w.runtimes, i, ptr); }
      }
    }
  }

  lemma CloseEngineKeeps(w: World, i: nat)
    requires Inv(w) && i < |w.engines|
    ensures Inv(CloseEngineAt(w, i))
  {
    var w' := CloseEngineAt(w, i);
    assert Backed(w.heap, w.engines[i], EngineBox);
    if w.engines[i].handle.Some? {
      var handle := w.engines[i].handle.value;
      ReleaseKeeps(w.heap, handle);
      CloseKeepsBacked(w.heap, w.engines, EngineBox, i);
      OtherKindKeepsBacked(w.heap, w.runtimes, RuntimeBox, handle);
      forall ptr | ptr in w'.heap.live
        ensures HeldBy(w'.runtimes, ptr) || HeldBy(w'.engines, ptr)
      {
        if HeldBy(w.engines, ptr) { HeldWithout(w.engines, i, ptr); }
      }
    }
  }

  /** Taking the finalizer off an object that is about to be closed changes nothing else. */
  lemma FinalizedIsClosed(w: World, i: nat)
    ensures i < |w.runtimes| && w.runtimes[i].handle.Some? ==>
              CloseRuntimeAt(w.(runtimes := w.runtimes[i := w.runtimes[i].(finalizer := false)]), i)
                == CloseRuntimeAt(w, i)
    ensures i < |w.engines| && w.engines[i].handle.Some? ==>
              CloseEngineAt(w.(engines := w.engines[i := w.engines[i].(finalizer := false)]), i)
                == CloseEngineAt(w, i)
  {
    if i < |w.runtimes| {
      assert w.runtimes[i := w.runtimes[i].(finalizer := false)][i := CLOSED] == w.runtimes[i := CLOSED];
    }
    if i < |w.engines| {
      assert w.engines[i := w.engines[i].(finalizer := false)][i := CLOSED] == w.engines[i := CLOSED];
    }
  }

  lemma TransientCallKeeps(w: World, h: Heap)
    requires Inv(w) && HeapInv(h) && h.live == w.heap.live
    ensures Inv(w.(heap := h))
  {
    forall i | 0 <= i < |w.runtimes| ensures Backed(h, w.runtimes[i], RuntimeBox) {
      assert Backed(w.heap, w.runtimes[i], RuntimeBox);
    }
    forall i | 0 <= i < |w.engines| ensures Backed(h, w.engines[i], EngineBox) {
      assert Backed(w.heap, w.engines[i], EngineBox);
    }
  }

  lemma StepKeeps(w: World, op: Op)
    requires Inv(w) && Enabled(w, op)
    ensures Inv(Apply(w, op))
  {
    match op
    case CreateRuntime(succeeds) => if succeeds { OpenKeeps(w, Apply(w, op), false); }
    case OpenEngine(i, succeeds) => if Apply(w, op) != w { OpenKeeps(w, Apply(w, op), true); }
    case CloseRuntime(i) => CloseRuntimeKeeps(w, i);
    case CloseEngine(i) => CloseEngineKeeps(w, i);
    case FinalizeRuntime(i) =>
      assert Backed(w.heap, w.runtimes[i], RuntimeBox);
      FinalizedIsClosed(w, i);
      CloseRuntimeKeeps(w, i);
    case FinalizeEngine(i) =>
      assert Backed(w.heap, w.engines[i], EngineBox);
      FinalizedIsClosed(w, i);
      CloseEngineKeeps(w, i);
    case PathFor(_, text) =>
      if text.Some? {
        StringIsCopiedThenFreed(w.heap, text.value);
        TransientCallKeeps(w, TakeOwnedString(w.heap, text).0);
      }
    case CreateTable(_, text) =>
      if text.Some? {
        StringIsCopiedThenFreed(w.heap, text.value);
        TransientCallKeeps(w, TakeOwnedString(w.heap, text).0);
      }
    case VectorSearch(_, found) =>
      if found.Some? {
        BytesAreCopiedThenFreed(w.heap, found.value);
        TransientCallKeeps(w, TakeBytes(w.heap, found.value).0);
      }
  }

  /** Object `i` was open and is closed now, without a finalizer; the others are as before. */
  ghost predicate ClosedAt(before: seq<GoObject>, after: seq<GoObject>, i: nat) {
    && i < |before| == |after|
    && after[i].handle.None? && !after[i].finalizer
    && forall j :: 0 <= j < |before| && j != i ==> after[j] == before[j]
  }

  /** The block of the handle, and no other, is released; for a nil handle nothing is. */
  ghost predicate ReleasedHandle(before: Heap, after: Heap, handle: Option<nat>) {
    && after.next == before.next
    && match handle
       case None => after == before
       case Some(ptr) =>
         && ptr in before.live && ptr !in after.live
         && (forall q :: q != ptr ==> Lookup(after.live, q) == Lookup(before.live, q))
         && after.released == before.released + [ptr]
  }

  /** Closing, by the caller or by a finalizer, closes that object and releases its block, once. */
  lemma CloseEffect(w: World, op: Op)
    requires Inv(w) && Enabled(w, op)
    ensures op.CloseRuntime? || op.FinalizeRuntime? ==>
              && ClosedAt(w.runtimes, Apply(w, op).runtimes, op.i) && Apply(w, op).engines == w.engines
              && ReleasedHandle(w.heap, Apply(w, op).heap, w.runtimes[op.i].handle)
    ensures op.CloseEngine? || op.FinalizeEngine? ==>
              && ClosedAt(w.engines, Apply(w, op).engines, op.i) && Apply(w, op).runtimes == w.runtimes
              && ReleasedHandle(w.heap, Apply(w, op).heap, w.engines[op.i].handle)
  {
    if op.CloseRuntime? || op.FinalizeRuntime? { assert Backed(w.heap, w.runtimes[op.i], RuntimeBox); }
    if op.CloseEngine? || op.FinalizeEngine? { assert Backed(w.heap, w.engines[op.i], EngineBox); }
  }

  /** The last object is new, open, holds the block just made, and will be finalized; the others are as before. */
  ghost predicate OpenedLast(before: seq<GoObject>, after: seq<GoObject>, h: Heap, kind: Block, ptr: nat) {
    && |after| == |before| + 1 && after[..|before|] == before
    && after[|before|].handle == Some(ptr) && after[|before|].finalizer
    && ptr in h.live && h.live[ptr] == kind
  }

  /** A call that opens something adds one object for one new block, or nothing when it fails. */
  lemma OpenEffect(w: World, op: Op)
    requires Inv(w) && Enabled(w, op)
    ensures op.CreateRuntime? ==>
              if op.succeeds then
                && OpenedLast(w.runtimes, Apply(w, op).runtimes, Apply(w, op).heap, RuntimeBox, w.heap.next)
                && Apply(w, op).engines == w.engines && Apply(w, op).heap.released == w.heap.released
              else Apply(w, op) == w
    ensures op.OpenEngine? ==>
              if op.succeeds && w.runtimes[op.i].handle.Some? then
                && OpenedLast(w.engines, Apply(w, op).engines, Apply(w, op).heap, EngineBox, w.heap.next)
                && Apply(w, op).runtimes == w.runtimes && Apply(w, op).heap.released == w.heap.released
              else Apply(w, op) == w
  {
  }

  lemma {:induction false} BehaviourKeeps(worlds: seq<World>, ops: seq<Op>, i: nat)
    requires Behaviour(worlds, ops) && i <= |ops|
    ensures Inv(worlds[i])
  {
    if i > 0 {
      BehaviourKeeps(worlds, ops, i - 1);
      StepKeeps(worlds[i - 1], ops[i - 1]);
    }
  }

  // ---------------------------------------------------------------- the books

  /**
   After any sequence of calls no release has missed, no block has been released twice, every block
   ever allocated was released or is the handle of an open object, and with all objects closed
   nothing is left.
   */
  lemma BooksBalance(worlds: seq<World>, ops: seq<Op>, i: nat)
    requires Behaviour(worlds, ops) && i <= |ops|
    ensures var w := worlds[i];
            && !w.heap.misused
            && Distinct(w.heap.released)
            && (forall ptr: nat :: ptr < w.heap.next <==> ptr in w.heap.live || ptr in w.heap.released)
            && (forall ptr :: ptr in w.heap.live ==> ptr !in w.heap.released)
            && (forall ptr :: ptr in w.heap.live <==> HeldBy(w.runtimes, ptr) || HeldBy(w.engines, ptr))
  {
    BehaviourKeeps(worlds, ops, i);
    var w := worlds[i];
    forall ptr | HeldBy(w.runtimes, ptr) || HeldBy(w.engines, ptr)
      ensures ptr in w.heap.live
    {
      if HeldBy(w.runtimes, ptr) {
        var k :| 0 <= k < |w.runtimes| && w.runtimes[k].handle == Some(ptr);
        assert Backed(w.heap, w.runtimes[k], RuntimeBox);
      } else {
        var k :| 0 <= k < |w.engines| && w.engines[k].handle == Some(ptr);
        assert Backed(w.heap, w.engines[k], EngineBox);
      }
    }
  }

  lemma NothingLeaksOnceClosed(worlds: seq<World>, ops: seq<Op>)
    requires Behaviour(worlds, ops)
    requires var w := worlds[|ops|];
             && (forall i :: 0 <= i < |w.runtimes| ==> w.runtimes[i].handle.None?)
             && (forall i :: 0 <= i < |w.engines| ==> w.engines[i].handle.None?)
    ensures worlds[|ops|].heap.live == map[]
  {
    BooksBalance(worlds, ops, |ops|);
  }

  // ---------------------------------------------------------------- the objects themselves

  /** The library as the Go side holds it: the native heap behind it. */
  class Library {
    var heap: Heap

    constructor ()
      ensures heap == INITIAL.heap
    {
      heap := INITIAL.heap;
    }

    method CreateRuntime() returns (rt: Runtime)
      requires HeapInv(heap)
      modifies this
      ensures HeapInv(heap) && fresh(rt) && rt.lib == this && rt.finalizer
      ensures rt.handle == Some(old(heap).next) && heap == Allocate(old(heap), RuntimeBox)
    {
      AllocateKeeps(heap, RuntimeBox);
      rt := new Runtime(this, heap.next);
      heap := Allocate(heap, RuntimeBox);
    }

    /** Copies the bytes of a search reply out and gives its buffer back. */
    method TakeSearchBytes(v: GoodVec) returns (payload: Bytes)
      requires HeapInv(heap)
      modifies this
      ensures HeapInv(heap) && payload == v.bytes && heap.live == old(heap).live
      ensures heap.released == old(heap).released + (if v.bytes == [] then [] else [old(heap).next])
    {
      BytesAreCopiedThenFreed(heap, v);
      var (made, buffer) := AllocateByteBuffer(heap, v);
      heap := made;
      payload := [];
      if buffer.data.Some? && buffer.len > 0 {
        payload := BytesAt(heap, buffer).value;
      }
      heap := BytesFree(heap, buffer);
    }
  }

  class Runtime {
    const lib: Library
    var handle: Option<nat>
    var finalizer: bool

    constructor (lib: Library, ptr: nat)
      ensures this.lib == lib && handle == Some(ptr) && finalizer
    {
      this.lib := lib;
      handle := Some(ptr);
      finalizer := true;
    }

    /** Closing, again or by finalizer, destroys the native runtime the first time and does nothing after. */
    method Close()
      requires HeapInv(lib.heap)
      requires handle.Some? ==> Lookup(lib.heap.live, handle.value) == Some(RuntimeBox)
      modifies this, lib
      ensures HeapInv(lib.heap) && handle.None?
      ensures old(handle).Some? ==>
                && lib.heap.live == old(lib.heap).live - {old(handle).value}
                && lib.heap.released == old(lib.heap).released + [old(handle).value]
                && !finalizer
      ensures old(handle).None? ==> lib.heap == old(lib.heap) && finalizer == old(finalizer)
    {
      if handle.None? {
        return;
      }
      ReleaseKeeps(lib.heap, handle.value);
      lib.heap := RuntimeDestroy(lib.heap, handle);
      handle := None;
      finalizer := false;
    }
  }
}

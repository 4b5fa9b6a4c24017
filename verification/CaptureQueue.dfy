/**
  The sender's capture queue (`sender/src/main.rs`): an audio callback that may never block or
  allocate fills recycled buffers, a consumer takes them and gives them back. Each step below is
  one critical section under the queue's mutex, so a run is any interleaving of the two threads.
 */
module CaptureQueue {
  import opened Wrappers
  import opened Numbers
  import opened Audio
  import opened Subsequences

  const POOL_SPARE_CHUNKS: nat := 2

  datatype Mode = Latest | Fifo

  type Frames = seq<StereoFrame>

  /** A vector of frames and the room it was allocated with. */
  datatype Buffer = Buffer(frames: Frames, capacity: nat)

  datatype Limits = Limits(capacity: nat, mode: Mode, frameCapacity: nat) {
    predicate Valid() {
      capacity > 0 && frameCapacity > 0
    }

    function PoolCapacity(): nat {
      capacity + POOL_SPARE_CHUNKS
    }
  }

  /** What happened so far: chunks the device offered, those that entered the queue, those the consumer took. */
  datatype History = History(offered: seq<Frames>, accepted: seq<Frames>, delivered: seq<Frames>)

  datatype State = State(
    chunks: seq<Buffer>,
    free: seq<Buffer>,
    held: seq<Buffer>,
    droppedChunks: nat,
    droppedFrames: nat,
    lockMisses: nat,
    history: History)
  {
    function Drop(frames: nat): State {
      this.(droppedChunks := droppedChunks + 1, droppedFrames := droppedFrames + frames)
    }
  }

  // ----- the steps

  /** The stereo frames of an interleaved input slice, clamped; a mono input fills both sides. */
  function Captured(data: seq<real>, channels: nat): (frames: Frames)
    requires channels > 0
    decreases |data|
  {
    if |data| < channels then []
    else
      var left := Clamp(data[0], -1.0, 1.0);
      var right := if channels > 1 then Clamp(data[1], -1.0, 1.0) else left;
      [StereoFrame(left, right)] + Captured(data[channels..], channels)
  }

  /** The callback's step; `locked` says whether `try_lock` got the mutex. */
  function Offer(q: Limits, s: State, frames: Frames, locked: bool): State {
    if frames == [] then s
    else
      var s0 := s.(history := s.history.(offered := s.history.offered + [frames]));
      var n := |frames|;
      if n > q.frameCapacity then s0.Drop(n)
      else if !locked then s0.Drop(n).(lockMisses := s.lockMisses + 1)
      else if |s.chunks| >= q.capacity then
        match q.mode
        case Fifo => s0.Drop(n)
        case Latest =>
          if s.chunks == [] then s0.Drop(n)
          else Fill(q, s0.(chunks := s.chunks[1..]).Drop(|s.chunks[0].frames|), s.chunks[0], frames)
      else if s.free == [] then s0.Drop(n)
      else Fill(q, s0.(free := s.free[..|s.free| - 1]), s.free[|s.free| - 1], frames)
  }

  /** Fills a buffer and queues it, unless the frames do not fit without reallocating. */
  function Fill(q: Limits, s: State, buffer: Buffer, frames: Frames): State {
    if buffer.capacity < |frames| then GiveBack(q, s.Drop(|frames|), buffer)
    else
      s.(chunks := s.chunks + [Buffer(frames, buffer.capacity)],
         history := s.history.(accepted := s.history.accepted + [frames]))
  }

  /** `return_free_locked`, and what dropping a chunk does. */
  function GiveBack(q: Limits, s: State, buffer: Buffer): State {
    if buffer.capacity >= q.frameCapacity && |s.free| < q.PoolCapacity() then
      s.(free := s.free + [Buffer([], buffer.capacity)])
    else s
  }

  /** The consumer's step: the oldest chunk, or nothing when the queue is empty after waiting. */
  function Receive(s: State): State {
    if s.chunks == [] then s
    else
      s.(chunks := s.chunks[1..],
         held := s.held + [s.chunks[0]],
         history := s.history.(delivered := s.history.delivered + [s.chunks[0].frames]))
  }

  /** The consumer lets go of one of its chunks. */
  function Release(q: Limits, s: State, i: nat): State
    requires i < |s.held|
  {
    GiveBack(q, s.(held := s.held[..i] + s.held[i + 1..]), s.held[i])
  }

  datatype Event =
    | OfferEvent(frames: Frames, locked: bool)
    | ReceiveEvent
    | ReleaseEvent(i: nat)

  function Step(q: Limits, s: State, e: Event): State {
    match e
    case OfferEvent(frames, locked) => Offer(q, s, frames, locked)
    case ReceiveEvent => Receive(s)
    case ReleaseEvent(i) => if i < |s.held| then Release(q, s, i) else s
  }

  function Initial(q: Limits): State {
    State([], seq(q.PoolCapacity(), _ => Buffer([], q.frameCapacity)), [], 0, 0, 0, History([], [], []))
  }

  function Run(q: Limits, events: seq<Event>): State {
    if events == [] then Initial(q)
    else Step(q, Run(q, events[..|events| - 1]), events[|events| - 1])
  }

  // ----- invariants

  predicate Roomy(buffers: seq<Buffer>, frameCapacity: nat) {
    forall i :: 0 <= i < |buffers| ==> frameCapacity <= buffers[i].capacity
  }

  predicate Fitting(buffers: seq<Buffer>) {
    forall i :: 0 <= i < |buffers| ==> |buffers[i].frames| <= buffers[i].capacity
  }

  /** No buffer is lost or made, each keeps the room a full callback needs, and the queue stays within its length. */
  predicate PoolInv(q: Limits, s: State) {
    && |s.chunks| + |s.free| + |s.held| == q.PoolCapacity()
    && |s.chunks| <= q.capacity
    && Roomy(s.chunks, q.frameCapacity) && Roomy(s.free, q.frameCapacity) && Roomy(s.held, q.frameCapacity)
    && Fitting(s.chunks)
  }

  function Total(chunks: seq<Frames>): nat {
    if chunks == [] then 0 else Total(chunks[..|chunks| - 1]) + |chunks[|chunks| - 1]|
  }

  function Contents(buffers: seq<Buffer>): (chunks: seq<Frames>)
    ensures |chunks| == |buffers|
  {
    seq(|buffers|, i requires 0 <= i < |buffers| => buffers[i].frames)
  }

  /** Every offered frame is dropped, delivered or queued. */
  predicate FrameInv(s: State) {
    Total(s.history.offered) == s.droppedFrames + Total(s.history.delivered) + Total(Contents(s.chunks))
  }

  /**
    The queue holds the newest accepted chunks; the older ones were delivered in order, all of
    them in first-in-first-out mode.
   */
  predicate OrderInv(q: Limits, s: State) {
    var h := s.history;
    var gone := |h.accepted| - |s.chunks|;
    && 0 <= gone
    && Contents(s.chunks) == h.accepted[gone..]
    && Subsequence(h.delivered, h.accepted[..gone])
    && (q.mode.Fifo? ==> h.delivered == h.accepted[..gone])
    && Subsequence(h.accepted, h.offered)
  }

  predicate Inv(q: Limits, s: State) {
    PoolInv(q, s) && FrameInv(s) && OrderInv(q, s)
  }

  lemma TotalNext(chunks: seq<Frames>, chunk: Frames)
    ensures Total(chunks + [chunk]) == Total(chunks) + |chunk|
  {
    assert (chunks + [chunk])[..|chunks|] == chunks;
  }

  lemma {:induction false} TotalFront(chunks: seq<Frames>)
    requires chunks != []
    ensures Total(chunks) == |chunks[0]| + Total(chunks[1..])
  {
    if |chunks| > 1 {
      TotalFront(chunks[..|chunks| - 1]);
      assert chunks[..|chunks| - 1][1..] == chunks[1..][..|chunks| - 2];
    } else {
      assert chunks[1..] == [] && chunks[..0] == [];
    }
  }

  /** Taking the front chunk, with or without delivering it, keeps the order. */
  lemma FrontTaken(q: Limits, s: State, delivered: bool)
    requires OrderInv(q, s) && s.chunks != [] && (q.mode.Fifo? ==> delivered)
    ensures var front := s.chunks[0].frames;
      var h := if delivered then s.history.(delivered := s.history.delivered + [front]) else s.history;
      OrderInv(q, s.(chunks := s.chunks[1..], history := h))
  {
    hide Subsequence;
    var h := s.history;
    var gone := |h.accepted| - |s.chunks|;
    var front := s.chunks[0].frames;
    assert Contents(s.chunks)[0] == front;
    assert h.accepted[gone] == front;
    assert h.accepted[..gone + 1] == h.accepted[..gone] + [front];
    assert Contents(s.chunks[1..]) == h.accepted[gone + 1..];
    if delivered {
      Take(h.delivered, h.accepted[..gone], front);
    } else {
      Skip(h.delivered, h.accepted[..gone], front);
    }
  }

  /** A buffer that is neither queued, free nor held, about to be filled or given back. */
  predicate PoolInvWith(q: Limits, s: State, buffer: Buffer) {
    && |s.chunks| + |s.free| + |s.held| + 1 == q.PoolCapacity()
    && |s.chunks| < q.capacity
    && q.frameCapacity <= buffer.capacity
    && Roomy(s.chunks, q.frameCapacity) && Roomy(s.free, q.frameCapacity) && Roomy(s.held, q.frameCapacity)
    && Fitting(s.chunks)
  }

  /** Filling never reallocates and never drops: every buffer in the pool has room for what the callback offers. */
  lemma FillKeeps(q: Limits, s: State, buffer: Buffer, frames: Frames)
    requires PoolInvWith(q, s, buffer) && |frames| <= q.frameCapacity && OrderInv(q, s)
    requires Subsequence(s.history.accepted + [frames], s.history.offered)
    ensures var t := Fill(q, s, buffer, frames);
      && PoolInv(q, t) && OrderInv(q, t)
      && t == s.(chunks := s.chunks + [Buffer(frames, buffer.capacity)],
                 history := s.history.(accepted := s.history.accepted + [frames]))
  {
    hide Subsequence;
    var t := Fill(q, s, buffer, frames);
    var h, gone := s.history, |s.history.accepted| - |s.chunks|;
    assert Contents(t.chunks) == Contents(s.chunks) + [frames];
    assert t.history.accepted[..gone] == h.accepted[..gone];
    assert t.history.accepted[gone..] == h.accepted[gone..] + [frames];
  }

  lemma ContentsFront(buffers: seq<Buffer>)
    requires buffers != []
    ensures Contents(buffers[1..]) == Contents(buffers)[1..]
  {
  }

  lemma ContentsNext(buffers: seq<Buffer>, b: Buffer)
    ensures Contents(buffers + [b]) == Contents(buffers) + [b.frames]
  {
  }

  /** A chunk that enters through a free buffer. */
  lemma OfferToFreeKeeps(q: Limits, s: State, frames: Frames)
    requires PoolInv(q, s) && OrderInv(q, s) && |frames| <= q.frameCapacity
    requires |s.chunks| < q.capacity && s.free != []
    requires Subsequence(s.history.accepted + [frames], s.history.offered)
    ensures var t := Fill(q, s.(free := s.free[..|s.free| - 1]), s.free[|s.free| - 1], frames);
      && PoolInv(q, t) && OrderInv(q, t)
      && t.droppedFrames == s.droppedFrames && t.history.offered == s.history.offered
      && t.history.delivered == s.history.delivered
      && Total(Contents(t.chunks)) == Total(Contents(s.chunks)) + |frames|
  {
    hide Total, Subsequence;
    var last := s.free[|s.free| - 1];
    FillKeeps(q, s.(free := s.free[..|s.free| - 1]), last, frames);
    ContentsNext(s.chunks, Buffer(frames, last.capacity));
    TotalNext(Contents(s.chunks), frames);
  }

  /** A chunk that enters by replacing the oldest queued one, which is dropped. */
  lemma OfferToFullKeeps(q: Limits, s: State, frames: Frames)
    requires PoolInv(q, s) && OrderInv(q, s) && |frames| <= q.frameCapacity
    requires q.mode.Latest? && s.chunks != []
    requires Subsequence(s.history.accepted + [frames], s.history.offered)
    ensures
      var t := Fill(q, s.(chunks := s.chunks[1..]).Drop(|s.chunks[0].frames|), s.chunks[0], frames);
      && PoolInv(q, t) && OrderInv(q, t)
      && t.history.offered == s.history.offered && t.history.delivered == s.history.delivered
      && t.droppedFrames + Total(Contents(t.chunks)) == s.droppedFrames + Total(Contents(s.chunks)) + |frames|
  {
    hide Total, Subsequence;
    var oldest := s.chunks[0];
    FrontTaken(q, s, false);
    FillKeeps(q, s.(chunks := s.chunks[1..]).Drop(|oldest.frames|), oldest, frames);
    TotalFront(Contents(s.chunks));
    ContentsFront(s.chunks);
    ContentsNext(s.chunks[1..], Buffer(frames, oldest.capacity));
    TotalNext(Contents(s.chunks[1..]), frames);
  }

  lemma OfferKeepsFrames(q: Limits, s: State, frames: Frames, locked: bool)
    requires q.Valid() && Inv(q, s)
    ensures FrameInv(Offer(q, s, frames, locked))
  {
    hide Total, Subsequence, Fill, Contents, PoolInv, OrderInv;
    if frames != [] {
      var s0 := s.(history := s.history.(offered := s.history.offered + [frames]));
      OfferedInv(q, s, frames);
      TotalNext(s.history.offered, frames);
      if |frames| <= q.frameCapacity && locked {
        if |s.chunks| >= q.capacity {
          if q.mode.Latest? && s.chunks != [] {
            OfferToFullKeeps(q, s0, frames);
          }
        } else if s.free != [] {
          OfferToFreeKeeps(q, s0, frames);
        }
      }
    }
  }

  /** Being offered changes neither the pool nor the order; the chunk may enter. */
  lemma OfferedInv(q: Limits, s: State, frames: Frames)
    requires PoolInv(q, s) && OrderInv(q, s)
    ensures var t := s.(history := s.history.(offered := s.history.offered + [frames]));
      && PoolInv(q, t) && OrderInv(q, t)
      && Subsequence(t.history.accepted + [frames], t.history.offered)
  {
    Skip(s.history.accepted, s.history.offered, frames);
    Take(s.history.accepted, s.history.offered, frames);
  }

  lemma OfferKeepsOrder(q: Limits, s: State, frames: Frames, locked: bool)
    requires q.Valid() && PoolInv(q, s) && OrderInv(q, s)
    ensures PoolInv(q, Offer(q, s, frames, locked)) && OrderInv(q, Offer(q, s, frames, locked))
  {
    hide Total, Subsequence, Fill, Contents, Roomy, Fitting;
    if frames != [] {
      var s0 := s.(history := s.history.(offered := s.history.offered + [frames]));
      OfferedInv(q, s, frames);
      if |frames| <= q.frameCapacity && locked {
        if |s.chunks| >= q.capacity {
          if q.mode.Latest? {
            OfferToFullKeeps(q, s0, frames);
          }
        } else if s.free != [] {
          OfferToFreeKeeps(q, s0, frames);
        }
      }
    }
  }

  lemma OfferKeeps(q: Limits, s: State, frames: Frames, locked: bool)
    requires q.Valid() && Inv(q, s)
    ensures Inv(q, Offer(q, s, frames, locked))
  {
    hide Offer, PoolInv, FrameInv, OrderInv;
    OfferKeepsFrames(q, s, frames, locked);
    OfferKeepsOrder(q, s, frames, locked);
  }

  lemma ReceiveKeeps(q: Limits, s: State)
    requires q.Valid() && Inv(q, s)
    ensures Inv(q, Receive(s))
  {
    hide Total, Subsequence;
    if s.chunks != [] {
      FrontTaken(q, s, true);
      TotalFront(Contents(s.chunks));
      ContentsFront(s.chunks);
      TotalNext(s.history.delivered, s.chunks[0].frames);
    }
  }

  /** A released buffer always goes back: the pool has room for it and it kept its capacity. */
  lemma ReleaseKeeps(q: Limits, s: State, i: nat)
    requires q.Valid() && Inv(q, s) && i < |s.held|
    ensures var t := Release(q, s, i);
      && Inv(q, t)
      && t.free == s.free + [Buffer([], s.held[i].capacity)]
      && |t.held| == |s.held| - 1
  {
    hide Total, Subsequence;
  }

  lemma InitialKeeps(q: Limits)
    requires q.Valid()
    ensures Inv(q, Initial(q))
  {
    assert Contents([]) == [];
  }

  lemma StepKeeps(q: Limits, s: State, e: Event)
    requires q.Valid() && Inv(q, s)
    ensures Inv(q, Step(q, s, e))
  {
    hide Inv;
    match e
    case OfferEvent(frames, locked) => OfferKeeps(q, s, frames, locked);
    case ReceiveEvent => ReceiveKeeps(q, s);
    case ReleaseEvent(i) =>
      if i < |s.held| {
        ReleaseKeeps(q, s, i);
      }
  }

  /** Whatever the two threads do, and in whatever order. */
  lemma {:induction false} RunKeeps(q: Limits, events: seq<Event>)
    requires q.Valid()
    ensures Inv(q, Run(q, events))
  {
    hide Inv;
    if events != [] {
      RunKeeps(q, events[..|events| - 1]);
      StepKeeps(q, Run(q, events[..|events| - 1]), events[|events| - 1]);
    } else {
      InitialKeeps(q);
    }
  }

  // ----- consequences

  /** What is delivered and still queued, in this order, is an in-order part of what the device offered. */
  lemma DeliveryInOrder(q: Limits, s: State)
    requires OrderInv(q, s)
    ensures Subsequence(s.history.delivered + Contents(s.chunks), s.history.offered)
  {
    var h, gone := s.history, |s.history.accepted| - |s.chunks|;
    CommonSuffix(h.delivered, h.accepted[..gone], Contents(s.chunks));
    assert h.accepted == h.accepted[..gone] + Contents(s.chunks);
    Transitive(h.delivered + Contents(s.chunks), h.accepted, h.offered);
  }

  /** First-in-first-out discards no chunk it has accepted. */
  lemma FifoKeepsAccepted(q: Limits, s: State)
    requires OrderInv(q, s) && q.mode.Fifo?
    ensures s.history.accepted == s.history.delivered + Contents(s.chunks)
  {
  }

  /** The pool runs dry exactly when the consumer holds two chunks and one for each free slot of the queue. */
  lemma PoolDryOnlyWhenHeld(q: Limits, s: State)
    requires PoolInv(q, s)
    ensures s.free == [] <==> |s.held| == 2 + (q.capacity - |s.chunks|)
  {
  }

  /**
    When an offer is taken: it has frames and fits a buffer, the lock is free, and either the queue
    is full in latest mode, or it is not full and the pool is not dry.
   */
  lemma AcceptedIff(q: Limits, s: State, frames: Frames, locked: bool)
    requires q.Valid() && Inv(q, s)
    ensures Offer(q, s, frames, locked).history.accepted ==
      if frames != [] && |frames| <= q.frameCapacity && locked
         && (if |s.chunks| >= q.capacity then q.mode.Latest? else s.free != [])
      then s.history.accepted + [frames] else s.history.accepted
  {
  }

  /** An offer that finds the lock taken, and would have fitted, is the one thing that counts as a miss. */
  lemma MissesAreLocked(q: Limits, s: State, frames: Frames, locked: bool)
    ensures Offer(q, s, frames, locked).lockMisses ==
      s.lockMisses + (if frames != [] && |frames| <= q.frameCapacity && !locked then 1 else 0)
  {
  }

  /** Every offered chunk is counted as dropped, was delivered or is queued. */
  ghost predicate ChunksAccounted(s: State) {
    |s.history.offered| == s.droppedChunks + |s.history.delivered| + |s.chunks|
  }

  lemma StepAccounts(q: Limits, s: State, e: Event)
    requires ChunksAccounted(s)
    ensures ChunksAccounted(Step(q, s, e))
  {
  }

  lemma {:induction false} RunAccounts(q: Limits, events: seq<Event>)
    ensures ChunksAccounted(Run(q, events))
  {
    hide ChunksAccounted, Step;
    if events == [] {
      assert ChunksAccounted(Initial(q)) by { InitialAccounts(q); }
    } else {
      RunAccounts(q, events[..|events| - 1]);
      StepAccounts(q, Run(q, events[..|events| - 1]), events[|events| - 1]);
    }
  }

  lemma InitialAccounts(q: Limits)
    ensures ChunksAccounted(Initial(q))
  {
  }

  /** Frame `k` of a slice is its `k`-th group of samples: the first on the left, the second, if any, on the right. */
  lemma {:induction false} CapturedAt(data: seq<real>, channels: nat, k: nat)
    requires channels > 0 && k < |Captured(data, channels)|
    ensures var at := Offset(k, channels);
      && at + channels <= |data|
      && Captured(data, channels)[k].left == Clamp(data[at], -1.0, 1.0)
      && Captured(data, channels)[k].right == Clamp(data[if channels == 1 then at else at + 1], -1.0, 1.0)
    decreases k
  {
    hide Clamp;
    if k > 0 {
      CapturedAt(data[channels..], channels, k - 1);
    }
  }

  // ----- the queue itself

  lemma {:induction false} CapturedLength(data: seq<real>, channels: nat)
    requires channels > 0
    ensures |Captured(data, channels)| == |data| / channels
    decreases |data|
  {
    if |data| >= channels {
      CapturedLength(data[channels..], channels);
      DivStep(|data|, channels);
    }
  }

  lemma DivStep(n: nat, d: nat)
    requires 0 < d <= n
    ensures n / d == (n - d) / d + 1
  {
    var quotient := (n - d) / d;
    assert n == (quotient + 1) * d + (n - d) % d;
    DivUnique(n, d, quotient + 1, (n - d) % d);
  }

  lemma CapturedSplits(data: seq<real>, channels: nat, at: nat)
    requires channels > 0 && at + channels <= |data|
    ensures var left := Clamp(data[at], -1.0, 1.0);
      var right := if channels > 1 then Clamp(data[at + 1], -1.0, 1.0) else left;
      Captured(data[at..], channels) == [StereoFrame(left, right)] + Captured(data[at + channels..], channels)
  {
    assert data[at..][channels..] == data[at + channels..];
  }

  /** Clamps and pairs the samples of whole frames; a mono input fills both sides. */
  method ReadFrames(data: seq<real>, width: nat) returns (frames: Frames)
    requires width > 0
    ensures frames == Captured(data, width)
  {
    frames := [];
    var at := 0;
    assert data[0..] == data;
    while at + width <= |data|
      invariant at <= |data|
      invariant frames + Captured(data[at..], width) == Captured(data, width)
      decreases |data| - at
    {
      CapturedSplits(data, width, at);
      var left := Clamp(data[at], -1.0, 1.0);
      var right := if width > 1 then Clamp(data[at + 1], -1.0, 1.0) else left;
      frames := frames + [StereoFrame(left, right)];
      at := at + width;
    }
    assert Captured(data[at..], width) == [];
  }

  class CaptureQueue {
    const limits: Limits
    var chunks: seq<Buffer>
    var free: seq<Buffer>
    var droppedChunks: nat
    var droppedFrames: nat
    var lockMisses: nat
    ghost var held: seq<Buffer>
    ghost var history: History

    ghost function View(): State
      reads this
    {
      State(chunks, free, held, droppedChunks, droppedFrames, lockMisses, history)
    }

    constructor (limits: Limits)
      requires limits.Valid()
      ensures this.limits == limits && View() == Initial(limits)
    {
      this.limits := limits;
      chunks := [];
      free := seq(limits.PoolCapacity(), _ => Buffer([], limits.frameCapacity));
      droppedChunks, droppedFrames, lockMisses := 0, 0, 0;
      held := [];
      history := History([], [], []);
    }

    method RecordDroppedChunk(frames: nat)
      modifies this`droppedChunks, this`droppedFrames
      ensures View() == old(View()).Drop(frames)
    {
      droppedChunks := droppedChunks + 1;
      droppedFrames := droppedFrames + frames;
    }

    method ReturnFree(buffer: Buffer)
      modifies this`free
      ensures View() == GiveBack(limits, old(View()), buffer)
    {
      var cleared := buffer.(frames := []);
      if cleared.capacity >= limits.frameCapacity && |free| < limits.PoolCapacity() {
        free := free + [cleared];
      }
    }

    /** The audio callback's critical section; without the lock it only counts. */
    method PushInputRealtime(data: seq<real>, channels: nat, locked: bool)
      modifies this
      ensures View() == Offer(limits, old(View()), Captured(data, Max(channels, 1)), locked)
    {
      var width: nat := Max(channels, 1);
      var n := |data| / width;
      ghost var frames := Captured(data, width);
      CapturedLength(data, width);
      if n == 0 {
        return;
      }
      history := history.(offered := history.offered + [frames]);
      if n > limits.frameCapacity {
        RecordDroppedChunk(n);
        return;
      }
      if !locked {
        RecordDroppedChunk(n);
        lockMisses := lockMisses + 1;
        return;
      }
      var buffer;
      if |chunks| >= limits.capacity {
        match limits.mode {
          case Latest =>
            if chunks == [] {
              RecordDroppedChunk(n);
              return;
            }
            buffer := chunks[0];
            chunks := chunks[1..];
            RecordDroppedChunk(|buffer.frames|);
          case Fifo =>
            RecordDroppedChunk(n);
            return;
        }
      } else {
        if free == [] {
          RecordDroppedChunk(n);
          return;
        }
        buffer := free[|free| - 1];
        free := free[..|free| - 1];
      }
      FillAndQueue(buffer, data, width);
    }

    method FillAndQueue(buffer: Buffer, data: seq<real>, width: nat)
      requires width > 0
      modifies this
      ensures View() == Fill(limits, old(View()), buffer, Captured(data, width))
    {
      CapturedLength(data, width);
      var n := |data| / width;
      if buffer.capacity < n {
        RecordDroppedChunk(n);
        ReturnFree(buffer);
        return;
      }
      var frames := ReadFrames(data, width);
      chunks := chunks + [Buffer(frames, buffer.capacity)];
      history := history.(accepted := history.accepted + [frames]);
    }

    /** The consumer's critical section, after any wait. */
    method RecvTimeout() returns (chunk: Option<Buffer>)
      modifies this
      ensures View() == Receive(old(View()))
      ensures chunk == if old(chunks) == [] then None else Some(old(chunks)[0])
    {
      if chunks == [] {
        return None;
      }
      var front := chunks[0];
      chunks := chunks[1..];
      held := held + [front];
      history := history.(delivered := history.delivered + [front.frames]);
      return Some(front);
    }

    /** Dropping a chunk the consumer holds. */
    method DropChunk(buffer: Buffer, ghost i: nat)
      requires i < |held| && held[i] == buffer
      modifies this
      ensures View() == Release(limits, old(View()), i)
    {
      held := held[..i] + held[i + 1..];
      ReturnFree(buffer);
    }
  }
}

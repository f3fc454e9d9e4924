/** The lock-free capture ring (internal/abllink/capture.c): one producer thread, one consumer thread, interleaved at
    every single access. Each side may read a stale value of the other's index; slots are copied word by word. */
module CaptureRing {
  import opened Common
  import opened Interval

  /** What accompanies a buffer; `tag` stands for the fields the ring only copies. */
  datatype Info = Info(numFrames: nat, numChannels: nat, tag: int)

  /** A buffer handed to the source callback; its sample pointer may be null. */
  datatype Buffer = Buffer(info: Info, samples: Option<seq<int>>)

  /** One slot of the parallel arrays. */
  datatype Slot = Slot(info: Info, count: nat, words: seq<int>)

  /** A buffer as the ring holds it. */
  datatype Entry = Entry(info: Info, samples: seq<int>)

  /** The next access the callback will make. */
  datatype Producer = Resting | PutInfo(e: Entry, copies: bool) | PutCount(e: Entry, copies: bool) | PutWord(e: Entry, i: nat)
    | PublishWrite(e: Entry)

  /** The next access pop will make, with what it has copied out so far. */
  datatype Consumer = Waiting | GetCount(cap: nat) | GetInfo(cap: nat, n: nat) | GetWord(cap: nat, n: nat, info: Info, got: seq<int>)
    | PublishRead(cap: nat, info: Info, got: seq<int>)

  datatype Ring = Ring(
    maxSamples: nat, slots: seq<Slot>, write: nat, read: nat, dropped: nat,
    producer: Producer, consumer: Consumer,
    seenRead: nat, seenWrite: nat)

  /** A ring with its history: buffers handed to the callback, those it accepted, and what pop returned. */
  datatype World = World(r: Ring, produced: nat, accepted: seq<Entry>, popped: seq<(Entry, nat)>)

  function SlotIndex(r: Ring, index: nat): (k: nat)
    requires r.slots != []
    ensures k < |r.slots|
  {
    index % |r.slots|
  }

  /** What a buffer leaves in a slot: clipped to the slot, and with a null pointer whatever the slot held. */
  function EntryOf(r: Ring, b: Buffer, slot: Slot): Entry
    requires |slot.words| == r.maxSamples
    requires b.samples.Some? ==> |b.samples.value| >= b.info.numFrames * b.info.numChannels
  {
    var n := Min(b.info.numFrames * b.info.numChannels, r.maxSamples);
    Entry(b.info, if b.samples.Some? then b.samples.value[..n] else slot.words[..n])
  }

  // ---------------------------------------------------------------- accesses

  /** The callback is entered: it loads both indices, the consumer's possibly stale, and drops or starts writing. */
  function Enter(w: World, b: Buffer, seen: nat): World
    requires ShapeOk(w.r) && w.r.producer.Resting? && BufferOk(b) && w.r.seenRead <= seen <= w.r.read <= w.r.write
  {
    var r := w.r;
    if r.write - seen >= |r.slots| then
      w.(r := r.(dropped := r.dropped + 1, seenRead := seen), produced := w.produced + 1)
    else
      var e := EntryOf(r, b, r.slots[SlotIndex(r, r.write)]);
      w.(r := r.(producer := PutInfo(e, b.samples.Some?), seenRead := seen), produced := w.produced + 1, accepted := w.accepted + [e])
  }

  predicate BufferOk(b: Buffer) {
    b.samples.Some? ==> |b.samples.value| >= b.info.numFrames * b.info.numChannels
  }

  predicate ShapeOk(r: Ring) {
    r.slots != [] && forall s <- r.slots :: |s.words| == r.maxSamples
  }

  /** The callback's next access to the slot, or the release store of the write index. */
  function Produce(r: Ring): Ring
    requires ShapeOk(r)
  {
    var k := SlotIndex(r, r.write);
    var s := r.slots[k];
    match r.producer
    case Resting => r
    case PutInfo(e, copies) => r.(slots := r.slots[k := s.(info := e.info)], producer := PutCount(e, copies))
    case PutCount(e, copies) =>
      r.(slots := r.slots[k := s.(count := |e.samples|)], producer := if copies && |e.samples| > 0 then PutWord(e, 0) else PublishWrite(e))
    case PutWord(e, i) =>
      if i < |e.samples| && i < |s.words| then
        r.(slots := r.slots[k := s.(words := s.words[i := e.samples[i]])],
           producer := if i + 1 < |e.samples| then PutWord(e, i + 1) else PublishWrite(e))
      else r
    case PublishWrite(e) => r.(write := r.write + 1, producer := Resting)
  }

  /** Pop is entered with room for `cap` samples: it loads both indices, the producer's possibly stale. */
  function Poll(r: Ring, cap: nat, seen: nat): Ring
    requires r.consumer.Waiting? && r.seenWrite <= seen <= r.write
  {
    if r.read == seen then r.(seenWrite := seen) else r.(consumer := GetCount(cap), seenWrite := seen)
  }

  /** Pop's next access to the slot, or the release store of the read index. */
  function Consume(w: World): World
    requires ShapeOk(w.r)
  {
    var r := w.r;
    var s := r.slots[SlotIndex(r, r.read)];
    match r.consumer
    case Waiting => w
    case GetCount(cap) => w.(r := r.(consumer := GetInfo(cap, Min(s.count, cap))))
    case GetInfo(cap, n) => w.(r := r.(consumer := if n > 0 then GetWord(cap, n, s.info, []) else PublishRead(cap, s.info, [])))
    case GetWord(cap, n, info, got) =>
      if |got| < |s.words| then
        var more := got + [s.words[|got|]];
        w.(r := r.(consumer := if |more| < n then GetWord(cap, n, info, more) else PublishRead(cap, info, more)))
      else w
    case PublishRead(cap, info, got) =>
      w.(r := r.(read := r.read + 1, consumer := Waiting), popped := w.popped + [(Entry(info, got), cap)])
  }

  datatype Access = Enters(b: Buffer, seen: nat) | Produces | Polls(cap: nat, seen: nat) | Consumes

  /** Each thread is one thread; a stale index is one that was published, and never older than one already seen. */
  predicate Possible(w: World, a: Access) {
    match a
    case Enters(b, seen) => w.r.producer.Resting? && BufferOk(b) && w.r.seenRead <= seen <= w.r.read
    case Polls(cap, seen) => w.r.consumer.Waiting? && w.r.seenWrite <= seen <= w.r.write
    case _ => true
  }

  // ---------------------------------------------------------------- the invariant

  predicate HoldsEntry(s: Slot, e: Entry) {
    s.info == e.info && s.count == |e.samples| <= |s.words| && s.words[..|e.samples|] == e.samples
  }

  /** What a slot being written already holds of its entry. */
  predicate Writing(s: Slot, p: Producer) {
    match p
    case Resting => true
    case PutInfo(e, copies) => |e.samples| <= |s.words| && (!copies ==> s.words[..|e.samples|] == e.samples)
    case PutCount(e, copies) => s.info == e.info && |e.samples| <= |s.words| && (!copies ==> s.words[..|e.samples|] == e.samples)
    case PutWord(e, i) =>
      s.info == e.info && s.count == |e.samples| <= |s.words| && i < |e.samples| && s.words[..i] == e.samples[..i]
    case PublishWrite(e) => HoldsEntry(s, e)
  }

  /** What pop has copied out of its slot so far. */
  predicate Reading(e: Entry, c: Consumer) {
    match c
    case Waiting => true
    case GetCount(cap) => true
    case GetInfo(cap, n) => n == Min(|e.samples|, cap)
    case GetWord(cap, n, info, got) => n == Min(|e.samples|, cap) && info == e.info && |got| < n && got == e.samples[..|got|]
    case PublishRead(cap, info, got) => info == e.info && got == e.samples[..Min(|e.samples|, cap)]
  }

  predicate ProducerOk(w: World) {
    var r := w.r;
    r.producer.Resting? || (|w.accepted| == r.write + 1 && w.accepted[r.write] == r.producer.e && r.write - r.read < |r.slots|)
  }

  ghost predicate Inv(w: World) {
    var r := w.r;
    && ShapeOk(r)
    && r.seenRead <= r.read <= r.seenWrite <= r.write <= r.read + |r.slots|
    && |w.accepted| == r.write + (if r.producer.Resting? then 0 else 1)
    && |w.popped| == r.read && w.produced == |w.accepted| + r.dropped
    && ProducerOk(w) && Writing(r.slots[SlotIndex(r, r.write)], r.producer)
    && (forall j :: r.read <= j < r.write ==> HoldsEntry(r.slots[SlotIndex(r, j)], w.accepted[j]))
    && (!r.consumer.Waiting? ==> r.read < r.seenWrite && Reading(w.accepted[r.read], r.consumer))
    && FifoPrefix(w.popped, w.accepted)
  }

  /** What was popped is, in order, what was accepted, each cut to the room its caller gave. */
  predicate FifoPrefix(popped: seq<(Entry, nat)>, accepted: seq<Entry>) {
    && |popped| <= |accepted|
    && forall i :: 0 <= i < |popped| ==> popped[i].0 == Clipped(accepted[i], popped[i].1)
  }

  function Clipped(e: Entry, cap: nat): Entry {
    Entry(e.info, e.samples[..Min(|e.samples|, cap)])
  }

  /** A new ring: slots zeroed, nothing in it. */
  function Created(numSlots: nat, maxSamples: nat): World {
    World(Ring(maxSamples, seq(numSlots, _ => Slot(Info(0, 0, 0), 0, seq(maxSamples, _ => 0))), 0, 0, 0, Resting, Waiting, 0, 0), 0, [], [])
  }

  lemma CreatedInv(numSlots: nat, maxSamples: nat)
    requires numSlots > 0
    ensures Inv(Created(numSlots, maxSamples))
  {
  }

  /** Indices less than a whole ring apart lie in different slots. */
  lemma SlotsDiffer(i: nat, j: nat, n: nat)
    requires n > 0 && i < j < i + n
    ensures i % n != j % n
  {
    if i % n == j % n {
      var p, q := i / n, j / n;
      assert j - i == (q - p) * n;
      if q - p >= 1 {
        MulIncreasing(1, q - p, n);
      } else {
        MulIncreasing(q - p, 0, n);
      }
    }
  }

  /** The slot being written is none of those that hold an entry. */
  lemma OccupiedElsewhere(r: Ring, j: nat)
    requires r.slots != [] && r.read <= j < r.write && r.write - r.read < |r.slots|
    ensures SlotIndex(r, j) != SlotIndex(r, r.write)
  {
    SlotsDiffer(j, r.write, |r.slots|);
  }

  lemma EnterKeeps(w: World, b: Buffer, seen: nat)
    requires Inv(w) && Possible(w, Enters(b, seen))
    ensures Inv(Enter(w, b, seen))
  {
    hide EntryOf;
    if w.r.write - seen < |w.r.slots| {
      EntryFits(w.r, b, w.r.slots[SlotIndex(w.r, w.r.write)]);
    }
  }

  lemma EntryFits(r: Ring, b: Buffer, s: Slot)
    requires |s.words| == r.maxSamples && BufferOk(b)
    ensures var e := EntryOf(r, b, s);
            |e.samples| <= |s.words| && (b.samples.None? ==> s.words[..|e.samples|] == e.samples)
  {
  }

  /** A write to the producer's own slot disturbs no entry. */
  lemma ProduceKeeps(w: World)
    requires Inv(w)
    ensures Inv(w.(r := Produce(w.r)))
  {
    hide FifoPrefix, Reading;
    var r, t := w.r, Produce(w.r);
    if !r.producer.Resting? {
      var k := SlotIndex(r, r.write);
      ProduceWrites(r);
      forall j | r.read <= j < r.write
        ensures t.slots[SlotIndex(t, j)] == r.slots[SlotIndex(r, j)]
      {
        OccupiedElsewhere(r, j);
      }
    }
  }

  lemma ProduceWrites(r: Ring)
    requires ShapeOk(r) && !r.producer.Resting? && Writing(r.slots[SlotIndex(r, r.write)], r.producer)
    ensures var t := Produce(r); var k := SlotIndex(r, r.write);
            && |t.slots| == |r.slots| && ShapeOk(t)
            && (forall m :: 0 <= m < |r.slots| && m != k ==> t.slots[m] == r.slots[m])
            && (r.producer.PublishWrite? ==> t == r.(write := r.write + 1, producer := Resting) && HoldsEntry(t.slots[k], r.producer.e))
            && (!r.producer.PublishWrite? ==>
                  t == r.(slots := t.slots, producer := t.producer) && !t.producer.Resting? && t.producer.e == r.producer.e
                  && Writing(t.slots[k], t.producer))
  {
    var t, k := Produce(r), SlotIndex(r, r.write);
    if r.producer.PutWord? {
      var i, e, s := r.producer.i, r.producer.e, r.slots[k];
      assert t.slots[k].words[..i + 1] == s.words[..i] + [e.samples[i]];
      assert e.samples[..i + 1] == e.samples[..i] + [e.samples[i]];
      assert e.samples[..|e.samples|] == e.samples;
    }
  }

  lemma ConsumeKeeps(w: World)
    requires Inv(w)
    ensures Inv(Consume(w))
  {
    hide Writing, FifoPrefix;
    var r := w.r;
    if !r.consumer.Waiting? {
      var s, e := r.slots[SlotIndex(r, r.read)], w.accepted[r.read];
      assert HoldsEntry(s, e);
      ConsumeReads(w, s, e);
      if r.consumer.PublishRead? {
        PopsNext(w.popped, w.accepted, r.consumer.cap);
      }
    }
  }

  lemma PopsNext(popped: seq<(Entry, nat)>, accepted: seq<Entry>, cap: nat)
    requires FifoPrefix(popped, accepted) && |popped| < |accepted|
    ensures FifoPrefix(popped + [(Clipped(accepted[|popped|], cap), cap)], accepted)
  {
  }

  lemma ConsumeReads(w: World, s: Slot, e: Entry)
    requires ShapeOk(w.r) && !w.r.consumer.Waiting? && s == w.r.slots[SlotIndex(w.r, w.r.read)]
    requires HoldsEntry(s, e) && Reading(e, w.r.consumer)
    ensures var t := Consume(w); var c := w.r.consumer;
            && (c.PublishRead? ==>
                  t == w.(r := w.r.(read := w.r.read + 1, consumer := Waiting), popped := w.popped + [(Clipped(e, c.cap), c.cap)]))
            && (!c.PublishRead? ==> t == w.(r := w.r.(consumer := t.r.consumer)) && !t.r.consumer.Waiting? && Reading(e, t.r.consumer))
  {
    if w.r.consumer.GetWord? {
      var got := w.r.consumer.got;
      assert e.samples[|got|] == s.words[..|e.samples|][|got|];
      assert e.samples[..|got| + 1] == e.samples[..|got|] + [e.samples[|got|]];
    }
  }

  function Step(w: World, a: Access): World
    requires Possible(w, a) && ShapeOk(w.r) && w.r.read <= w.r.write
  {
    match a
    case Enters(b, seen) => Enter(w, b, seen)
    case Produces => w.(r := Produce(w.r))
    case Polls(cap, seen) => w.(r := Poll(w.r, cap, seen))
    case Consumes => Consume(w)
  }

  lemma StepKeepsInv(w: World, a: Access)
    requires Inv(w) && Possible(w, a)
    ensures Inv(Step(w, a))
  {
    match a {
      case Enters(b, seen) => EnterKeeps(w, b, seen);
      case Produces => ProduceKeeps(w);
      case Polls(cap, seen) => PollKeeps(w, cap, seen);
      case Consumes => ConsumeKeeps(w);
    }
  }

  lemma PollKeeps(w: World, cap: nat, seen: nat)
    requires Inv(w) && Possible(w, Polls(cap, seen))
    ensures Inv(w.(r := Poll(w.r, cap, seen)))
  {
    hide Writing, FifoPrefix, HoldsEntry;
  }

  // ---------------------------------------------------------------- runs

  predicate PossibleRun(w: World, run: seq<Access>)
    requires ShapeOk(w.r) && w.r.read <= w.r.write
    decreases |run|
  {
    run == [] || (Possible(w, run[0]) && ShapeOk(Step(w, run[0]).r) && Step(w, run[0]).r.read <= Step(w, run[0]).r.write
                  && PossibleRun(Step(w, run[0]), run[1..]))
  }

  function Run(w: World, run: seq<Access>): World
    requires ShapeOk(w.r) && w.r.read <= w.r.write && PossibleRun(w, run)
    decreases |run|
  {
    if run == [] then w else Run(Step(w, run[0]), run[1..])
  }

  lemma {:induction false} RunKeepsInv(w: World, run: seq<Access>)
    requires Inv(w) && PossibleRun(w, run)
    ensures Inv(Run(w, run))
    decreases |run|
  {
    hide Inv, Step, Possible;
    InvShape(w);
    if run != [] {
      StepKeepsInv(w, run[0]);
      RunKeepsInv(Step(w, run[0]), run[1..]);
    }
  }

  lemma InvShape(w: World)
    requires Inv(w)
    ensures ShapeOk(w.r) && w.r.read <= w.r.write
  {
  }

  /** The slot an access would write, and the one it would read. */
  function Writes(r: Ring): Option<nat>
    requires r.slots != []
  {
    match r.producer
    case Resting => None
    case PublishWrite(_) => None
    case _ => Some(SlotIndex(r, r.write))
  }

  function Reads(r: Ring): Option<nat>
    requires r.slots != []
  {
    match r.consumer
    case Waiting => None
    case PublishRead(_, _, _) => None
    case _ => Some(SlotIndex(r, r.read))
  }

  /** Buffers published and not yet released, plus one being written. */
  function InRing(r: Ring): int {
    r.write - r.read + if r.producer.Resting? then 0 else 1
  }

  lemma NoClash(w: World)
    requires Inv(w)
    ensures Writes(w.r).Some? ==> Reads(w.r) != Writes(w.r)
  {
    if Writes(w.r).Some? && Reads(w.r).Some? {
      OccupiedElsewhere(w.r, w.r.read);
    }
  }

  /** THE RING. Under every interleaving of the two threads' single accesses, each reading the other's index as stale
      as it likes: what pop has returned is a prefix of what was accepted, in order and untorn; every buffer handed
      in has been popped, is still in the ring, or was counted as dropped, the ring never holding more than its slots;
      and no access touches a slot the other thread's next access writes. */
  lemma RingIsSafe(numSlots: nat, maxSamples: nat, run: seq<Access>)
    requires numSlots > 0 && PossibleRun(Created(numSlots, maxSamples), run)
    ensures var w := Run(Created(numSlots, maxSamples), run);
            && FifoPrefix(w.popped, w.accepted)
            && w.produced == |w.popped| + InRing(w.r) + w.r.dropped && 0 <= InRing(w.r) <= |w.r.slots|
            && w.r.slots != [] && (Writes(w.r).Some? ==> Reads(w.r) != Writes(w.r))
  {
    CreatedInv(numSlots, maxSamples);
    RunKeepsInv(Created(numSlots, maxSamples), run);
    NoClash(Run(Created(numSlots, maxSamples), run));
  }

  /** A buffer is dropped only when, as far as the callback can see, the ring is full; and it can see no more free
      slots than there are. */
  lemma DropsOnlyWhenFull(w: World, b: Buffer, seen: nat)
    requires Inv(w) && Possible(w, Enters(b, seen))
    ensures Enter(w, b, seen).r.dropped == w.r.dropped + (if w.r.write - seen >= |w.r.slots| then 1 else 0)
    ensures w.r.write - w.r.read >= |w.r.slots| ==> Enter(w, b, seen).r.dropped == w.r.dropped + 1
    ensures seen == w.r.read && w.r.write - w.r.read < |w.r.slots| && b.samples.Some?
            ==> var n := Min(b.info.numFrames * b.info.numChannels, w.r.maxSamples);
                Enter(w, b, seen).accepted == w.accepted + [Entry(b.info, b.samples.value[..n])]
  {
  }

  // ---------------------------------------------------------------- progress

  /** How many accesses a pop, and a callback, still have before them. */
  function PopLeft(r: Ring): nat {
    match r.consumer
    case Waiting => 0
    case GetCount(_) => r.maxSamples + 3
    case GetInfo(_, n) => n + 2
    case GetWord(_, n, _, got) => if n > |got| then n - |got| + 1 else 1
    case PublishRead(_, _, _) => 1
  }

  function PushLeft(r: Ring): nat {
    match r.producer
    case Resting => 0
    case PutInfo(e, _) => |e.samples| + 3
    case PutCount(e, _) => |e.samples| + 2
    case PutWord(e, i) => if |e.samples| > i then |e.samples| - i + 1 else 1
    case PublishWrite(_) => 1
  }

  /** A POP SUCCEEDS if and only if it sees a buffer: it is under way once the index it loads is ahead of its own, with at
      most as many accesses to make as a slot has samples and three. */
  lemma PopStartsIff(w: World, cap: nat, seen: nat)
    requires Inv(w) && Possible(w, Polls(cap, seen))
    ensures var v := Step(w, Polls(cap, seen));
            && (v.r.consumer.Waiting? <==> seen == w.r.read)
            && PopLeft(v.r) <= w.r.maxSamples + 3
            && v == w.(r := w.r.(consumer := v.r.consumer, seenWrite := seen))
  {
  }

  /** Each of its accesses leaves fewer; the last hands over the oldest buffer in the ring, cut to the caller's room, and frees
      its slot. What the callback does meanwhile takes nothing from it. */
  lemma PopFinishes(w: World)
    requires Inv(w) && !w.r.consumer.Waiting?
    ensures var v := Step(w, Consumes); var r, c := w.r, w.r.consumer;
            && PopLeft(v.r) < PopLeft(r)
            && (if v.r.consumer.Waiting? then
                  v.popped == w.popped + [(Clipped(w.accepted[|w.popped|], c.cap), c.cap)] && v.r.read == r.read + 1
                else v.popped == w.popped && v.r.read == r.read && v.r.consumer.cap == c.cap)
    ensures PopLeft(Produce(w.r)) == PopLeft(w.r)
  {
    hide Writing, FifoPrefix;
    var r := w.r;
    var s, e := r.slots[SlotIndex(r, r.read)], w.accepted[r.read];
    assert HoldsEntry(s, e);
    ConsumeReads(w, s, e);
  }

  /** A callback that is not turned away publishes its buffer likewise. */
  lemma PushFinishes(w: World)
    requires Inv(w) && !w.r.producer.Resting?
    ensures var v := Step(w, Produces);
            && PushLeft(v.r) < PushLeft(w.r) && v.accepted == w.accepted
            && v.r.write == w.r.write + (if v.r.producer.Resting? then 1 else 0)
  {
    hide FifoPrefix, Reading, HoldsEntry;
  }
}

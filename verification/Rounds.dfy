/** One sender's rounds at the receiver (audio_engine_real.go: senderRounds, the placement half of HandleRemoteAudio,
    onBoundary, sweepRetiredLocked): frames of all its streams buffer under one cursor, boundaries release rounds,
    idle streams retire. A sender's state is keyed by its identity, so no two senders share any of it. */
module Rounds {
  import opened Common
  import opened Audio
  import opened Interval
  import opened PacedReader
  import opened FeederModel
  import opened FeederRuns
  import opened Reassembly
  import opened Playout

  /** One published stream. `born` tells a stream from a later one minted under the same key. `missedAtPlay` counts the
      frames that played as silence, `incomplete` the rounds released before all of theirs had arrived. */
  datatype Stream = Stream(born: nat, rounds: map<int, Partial>, feeder: FeederModel.Feeder, lastFrameAt: int, missedAtPlay: nat,
                           incomplete: nat)

  /** What the sender last said it publishes: nothing yet, that it left, or the streams it still sends. */
  datatype Intent = NoNews | Gone | Keep(streams: set<nat>)

  datatype Sender = Sender(cursor: Cursor, firstSeen: map<int, int>, streams: map<nat, Stream>, intent: Intent, births: nat)

  const NOBODY := Sender(Cursor(None, None), map[], map[], NoNews, 0)

  /** Samples in one 20 ms frame at the engine's 48 kHz. */
  const WINDOW := 960

  /** What a local boundary hands to every stream: its index and beats, and the round length at the room tempo. */
  datatype Local = Local(boundary: int, startBeat: real, endBeat: real, tempo: real, totalFrames: nat, paddedFrames: nat, rate: nat)

  /** How long an unclaimed stream stays: after its sender dropped it, and after its sender left. */
  datatype Graces = Graces(dropped: int, gone: int)

  predicate StreamsOk(s: Sender) {
    forall k <- s.streams :: FeederModel.Ok(s.streams[k].feeder)
  }

  // ---------------------------------------------------------------- frames

  function Noted(firstSeen: map<int, int>, idx: int, mark: int): map<int, int> {
    if idx in firstSeen then firstSeen else firstSeen[idx := mark]
  }

  /** A frame for one of the sender's rounds: too late, or placed, a future round being marked with the boundary
      count at which it was first seen. */
  function PlaceOne(s: Sender, k: nat, mark: int, round: int, a: Arrival): Sender
    requires k in s.streams
  {
    var d := OnFrame(s.cursor, round);
    if d == TooLate then s else
      var st := s.streams[k];
      s.(firstSeen := if d == Buffer then Noted(s.firstSeen, round, mark) else s.firstSeen,
         streams := s.streams[k := st.(rounds := st.rounds[round := Reassembly.Apply(PartialAt(st.rounds, round), WINDOW, a)])])
  }

  /** Several, in order. */
  function PlaceAll(s: Sender, k: nat, mark: int, frames: seq<(int, Arrival)>): Sender
    requires k in s.streams
    decreases |frames|
  {
    if frames == [] then s else PlaceAll(PlaceOne(s, k, mark, frames[0].0, frames[0].1), k, mark, frames[1..])
  }

  /** The first half of receiving a frame: publish the stream if it is new, and restart its idle clock. */
  function Minted(s: Sender, k: nat, now: int, cushionFrames: int, chunkFrames: int): Sender {
    if k in s.streams then
      s.(streams := s.streams[k := s.streams[k].(lastFrameAt := now)])
    else
      s.(streams := s.streams[k := Stream(s.births, map[], NewFeeder(cushionFrames, chunkFrames), now, 0, 0)], births := s.births + 1)
  }

  /** The second half, once decoded: dropped if the stream has been retired in between. */
  function Received(s: Sender, k: nat, born: nat, mark: int, frames: seq<(int, Arrival)>): Sender {
    if k in s.streams && s.streams[k].born == born then PlaceAll(s, k, mark, frames) else s
  }

  // ---------------------------------------------------------------- retirement

  /** The sender has stopped claiming the stream, for longer than the grace. */
  predicate Unclaimed(s: Sender, k: nat, now: int, g: Graces)
    requires k in s.streams
  {
    match s.intent
    case NoNews => false
    case Gone => now - s.streams[k].lastFrameAt >= g.gone
    case Keep(own) => k !in own && now - s.streams[k].lastFrameAt >= g.dropped
  }

  /** It still holds audio due at the speakers. */
  predicate Due(s: Sender, k: nat)
    requires k in s.streams
  {
    s.streams[k].rounds != map[]
    && (s.cursor.playing.None? || exists r <- s.streams[k].rounds :: r > s.cursor.playing.value)
  }

  predicate Retires(s: Sender, k: nat, now: int, g: Graces)
    requires k in s.streams
  {
    Unclaimed(s, k, now, g) && !Due(s, k)
  }

  /** The boundary sweep: idle unclaimed streams with nothing due are closed; a sender with nothing left is forgotten. */
  function Swept(s: Sender, now: int, g: Graces): Sender {
    var left := map k | k in s.streams && !Retires(s, k, now, g) :: s.streams[k];
    if left == map[] then NOBODY.(births := s.births) else s.(streams := left)
  }

  // ---------------------------------------------------------------- boundaries

  /** Some stream holds frames of the round. */
  predicate Buffered(s: Sender, r: int) {
    exists k <- s.streams :: r in s.streams[k].rounds
  }

  ghost function BufferedRounds(s: Sender): (rs: set<int>)
    ensures forall r :: r in rs <==> Buffered(s, r)
  {
    set k, r | k in s.streams && r in s.streams[k].rounds :: r
  }

  /** Complete only if every stream holding it has all of it. */
  predicate RoundDone(s: Sender, r: int) {
    forall k <- s.streams :: r in s.streams[k].rounds ==> Complete(s.streams[k].rounds[r])
  }

  function StateOf(s: Sender, r: int, boundary: int): RoundState {
    RoundState(r, RoundDone(s, r), if r in s.firstSeen then s.firstSeen[r] else boundary)
  }

  /** What the cursor chooses from. */
  ghost function StatesOf(s: Sender, boundary: int): (qs: set<RoundState>)
    ensures forall q :: q in qs <==> Buffered(s, q.index) && q == StateOf(s, q.index, boundary)
  {
    set r | r in BufferedRounds(s) :: StateOf(s, r, boundary)
  }

  function HandedOver(f: FeederModel.Feeder, idx: int, l: Local): (g: FeederModel.Feeder)
    requires FeederModel.Ok(f)
  {
    var h := Handoff(idx, l.totalFrames, l.paddedFrames, l.rate, l.tempo, l.endBeat);
    if Promotes(f, idx) then Adopted(f, idx, h)
    else SetCurrent(f, idx, New(l.rate, l.tempo, l.startBeat, l.totalFrames), Some(h))
  }

  /** The rounds a stream keeps once `idx` is released: those from it on, and after a re-pin only it. */
  predicate Kept(r: int, idx: int, repin: bool) {
    r >= idx && !(repin && r > idx)
  }

  /** The slots of the round just played that never held anything. A round of an old era is taken out before it is
      asked about. */
  function Unheard(st: Stream, prev: Option<int>, idx: int, repin: bool): nat {
    if prev.Some? && prev.value in st.rounds && !(repin && prev.value > idx)
    then var p := st.rounds[prev.value]; Reassembly.Holes(p, Reassembly.Frames(p))
    else 0
  }

  /** One stream at a release: the round just played is measured, what lies below the release is dropped, and the
      reader handed over. */
  function Released(st: Stream, prev: Option<int>, idx: int, repin: bool, l: Local): Stream
    requires FeederModel.Ok(st.feeder)
  {
    st.(rounds := map r | r in st.rounds && Kept(r, idx, repin) :: st.rounds[r],
        missedAtPlay := st.missedAtPlay + Unheard(st, prev, idx, repin),
        incomplete := st.incomplete + (if idx in st.rounds && Complete(st.rounds[idx]) then 0 else 1),
        feeder := HandedOver(st.feeder, idx, l))
  }

  /** A release lowers the cursor. */
  predicate Repins(c: Cursor, idx: int) {
    c.playing.Some? && idx < c.playing.value
  }

  ghost function AtBoundary(s: Sender, l: Local): Sender
    requires StreamsOk(s)
  {
    if s.streams == map[] then s else
      var o := Outcome(s.cursor, l.boundary, StatesOf(s, l.boundary));
      var c := Moved(s.cursor, l.boundary, o);
      if o.None? then s.(cursor := c) else
        var repin := Repins(s.cursor, o.value);
        s.(cursor := c,
           firstSeen := map r | r in s.firstSeen && r > o.value && !(repin && Buffered(s, r)) :: s.firstSeen[r],
           streams := map k | k in s.streams :: Released(s.streams[k], s.cursor.playing, o.value, repin, l))
  }

  // ---------------------------------------------------------------- steps

  datatype Event =
    | Mint(k: nat, now: int, cushion: int, chunk: int)
    | Frames(k: nat, born: nat, mark: int, frames: seq<(int, Arrival)>)
    | Boundary(l: Local, now: int, graces: Graces)
    | TopUp(beat: real)
    | Announce(intent: Intent)

  function StoreOf(st: Stream): Store {
    map r | r in st.rounds :: Sized(st.rounds[r], WINDOW)
  }

  function ToppedUp(st: Stream, beat: real): Stream
    requires FeederModel.Ok(st.feeder)
  {
    st.(feeder := Advance(st.feeder, beat, StoreOf(st)).0)
  }

  ghost function Step(s: Sender, e: Event): Sender
    requires StreamsOk(s) && (e.Boundary? ==> e.l.rate > 0)
  {
    match e
    case Mint(k, now, cushion, chunk) => Minted(s, k, now, cushion, chunk)
    case Frames(k, born, mark, frames) => Received(s, k, born, mark, frames)
    case Boundary(l, now, graces) => AtBoundary(Swept(s, now, graces), l)
    case TopUp(beat) => s.(streams := map k | k in s.streams :: ToppedUp(s.streams[k], beat))
    case Announce(intent) => s.(intent := intent)
  }

  // ---------------------------------------------------------------- the invariant

  /** Every buffered round but the playing one carries a first-seen mark. */
  ghost predicate Marked(s: Sender) {
    forall r :: Buffered(s, r) ==> s.cursor.playing == Some(r) || r in s.firstSeen
  }

  /** No buffered round lies in the gap where stragglers are dropped. */
  ghost predicate NoStragglers(s: Sender) {
    s.cursor.playing.Some? ==>
      forall r :: Buffered(s, r) ==> !(s.cursor.playing.value - RESTART_GAP < r < s.cursor.playing.value)
  }

  /** Every installed feeder plays the cursor's round. */
  ghost predicate InStep(s: Sender) {
    forall k <- s.streams :: s.streams[k].feeder.cur.Some? ==> s.cursor.playing == Some(s.streams[k].feeder.curIdx)
  }

  ghost predicate Inv(s: Sender) {
    StreamsOk(s) && Marked(s) && NoStragglers(s) && InStep(s)
  }

  lemma NobodyInv()
    ensures Inv(NOBODY)
  {
  }

  lemma MintKeeps(s: Sender, k: nat, now: int, cushion: int, chunk: int)
    requires Inv(s)
    ensures Inv(Minted(s, k, now, cushion, chunk))
    ensures forall r :: Buffered(Minted(s, k, now, cushion, chunk), r) <==> Buffered(s, r)
  {
    var t := Minted(s, k, now, cushion, chunk);
    forall r
      ensures Buffered(t, r) <==> Buffered(s, r)
    {
      if j :| j in s.streams && r in s.streams[j].rounds {
        assert r in t.streams[j].rounds;
      }
      if j :| j in t.streams && r in t.streams[j].rounds {
        assert j in s.streams && r in s.streams[j].rounds;
      }
    }
  }

  lemma PlaceOneKeeps(s: Sender, k: nat, mark: int, round: int, a: Arrival)
    requires Inv(s) && k in s.streams
    ensures var t := PlaceOne(s, k, mark, round, a);
            && Inv(t) && k in t.streams && t.cursor == s.cursor && t.streams.Keys == s.streams.Keys
            && (forall r :: Buffered(s, r) ==> Buffered(t, r))
            && (forall r <- s.firstSeen :: r in t.firstSeen && t.firstSeen[r] == s.firstSeen[r])
  {
    hide FeederModel.Ok, Reassembly.Apply;
    var t := PlaceOne(s, k, mark, round, a);
    forall r
      ensures Buffered(t, r) <==> Buffered(s, r) || (r == round && OnFrame(s.cursor, round) != TooLate)
    {
      if j :| j in s.streams && r in s.streams[j].rounds {
        assert r in t.streams[j].rounds;
      }
      if j :| j in t.streams && r in t.streams[j].rounds {
        assert r == round || r in s.streams[j].rounds;
      }
      if OnFrame(s.cursor, round) != TooLate {
        assert round in t.streams[k].rounds;
      }
    }
  }

  lemma {:induction false} PlaceAllKeeps(s: Sender, k: nat, mark: int, frames: seq<(int, Arrival)>)
    requires Inv(s) && k in s.streams
    ensures var t := PlaceAll(s, k, mark, frames);
            && Inv(t) && t.cursor == s.cursor && t.streams.Keys == s.streams.Keys
            && (forall r :: Buffered(s, r) ==> Buffered(t, r))
            && (forall r <- s.firstSeen :: r in t.firstSeen && t.firstSeen[r] == s.firstSeen[r])
    decreases |frames|
  {
    hide Inv, PlaceOne, Buffered;
    if frames != [] {
      PlaceOneKeeps(s, k, mark, frames[0].0, frames[0].1);
      PlaceAllKeeps(PlaceOne(s, k, mark, frames[0].0, frames[0].1), k, mark, frames[1..]);
    }
  }

  /** Retirement never discards a round above the cursor, and never a stream whose sender has made no statement. */
  lemma SweepSparesWhatIsDue(s: Sender, now: int, g: Graces)
    requires Inv(s)
    ensures var t := Swept(s, now, g);
            && Inv(t)
            && (forall k <- s.streams :: k !in t.streams ==>
                  && s.intent != NoNews
                  && forall r <- s.streams[k].rounds :: s.cursor.playing.Some? && r <= s.cursor.playing.value)
            && (forall k <- t.streams :: k in s.streams && t.streams[k] == s.streams[k])
            && (t.streams != map[] ==> t == s.(streams := t.streams))
            && (t.streams == map[] ==> t == NOBODY.(births := s.births))
  {
    var t := Swept(s, now, g);
    hide FeederModel.Ok;
    forall r | Buffered(t, r)
      ensures Buffered(s, r)
    {
      var k :| k in t.streams && r in t.streams[k].rounds;
      assert k in s.streams && r in s.streams[k].rounds;
    }
  }

  lemma HandoverPlays(f: FeederModel.Feeder, idx: int, l: Local)
    requires FeederModel.Ok(f) && l.rate > 0
    ensures var g := HandedOver(f, idx, l); FeederModel.Ok(g) && g.cur.Some? && g.curIdx == idx
  {
    hide Reader.BeatAt;
  }

  /** What is buffered after a release: of what was, the kept rounds. */
  lemma BufferedAfter(s: Sender, l: Local)
    requires StreamsOk(s) && s.streams != map[] && Outcome(s.cursor, l.boundary, StatesOf(s, l.boundary)).Some?
    ensures var idx := Outcome(s.cursor, l.boundary, StatesOf(s, l.boundary)).value;
            forall r :: Buffered(AtBoundary(s, l), r) <==> Buffered(s, r) && Kept(r, idx, Repins(s.cursor, idx))
  {
    hide FeederModel.Ok, HandedOver;
    var idx := Outcome(s.cursor, l.boundary, StatesOf(s, l.boundary)).value;
    var t := AtBoundary(s, l);
    forall r
      ensures Buffered(t, r) <==> Buffered(s, r) && Kept(r, idx, Repins(s.cursor, idx))
    {
      if k :| k in t.streams && r in t.streams[k].rounds {
        assert k in s.streams && r in s.streams[k].rounds;
      }
      if k :| k in s.streams && r in s.streams[k].rounds && Kept(r, idx, Repins(s.cursor, idx)) {
        assert k in t.streams && r in t.streams[k].rounds;
      }
    }
  }

  lemma ReleaseMarks(s: Sender, t: Sender, idx: int)
    requires Marked(s) && t.cursor.playing == Some(idx)
    requires forall r :: Buffered(t, r) ==> Buffered(s, r) && Kept(r, idx, Repins(s.cursor, idx))
    requires forall r :: r in s.firstSeen && r > idx && !(Repins(s.cursor, idx) && Buffered(s, r)) ==> r in t.firstSeen
    ensures Marked(t) && NoStragglers(t)
  {
    hide Buffered;
  }

  lemma ReleaseFeeders(s: Sender, l: Local)
    requires StreamsOk(s) && s.streams != map[] && l.rate > 0 && Outcome(s.cursor, l.boundary, StatesOf(s, l.boundary)).Some?
    ensures StreamsOk(AtBoundary(s, l)) && InStep(AtBoundary(s, l))
    ensures forall k <- AtBoundary(s, l).streams :: AtBoundary(s, l).streams[k].feeder.cur.Some?
  {
    hide FeederModel.Ok, HandedOver, Outcome, StatesOf;
    var o := Outcome(s.cursor, l.boundary, StatesOf(s, l.boundary));
    forall k | k in s.streams
      ensures var g := HandedOver(s.streams[k].feeder, o.value, l);
              FeederModel.Ok(g) && g.cur.Some? && g.curIdx == o.value
    {
      HandoverPlays(s.streams[k].feeder, o.value, l);
    }
  }

  /** What a release counts as unheard: every slot still empty in the round that was playing, in every stream; but
      nothing at all when the sender has restarted, whose old round is gone before it is measured. */
  lemma UnheardIsCountedUnlessRestarted(s: Sender, l: Local)
    requires Inv(s) && s.streams != map[] && Outcome(s.cursor, l.boundary, StatesOf(s, l.boundary)).Some?
    ensures var t := AtBoundary(s, l); var prev := s.cursor.playing;
            && t.streams.Keys == s.streams.Keys && t.cursor.playing.Some?
            && forall k <- s.streams ::
                 t.streams[k].missedAtPlay - s.streams[k].missedAtPlay
                 == (if prev.Some? && t.cursor.playing.value > prev.value && prev.value in s.streams[k].rounds
                     then var p := s.streams[k].rounds[prev.value]; Reassembly.Holes(p, Reassembly.Frames(p)) else 0)
  {
    hide FeederModel.Ok, HandedOver, StatesOf, Candidate, NothingAbove;
    if s.cursor.playing.Some? {
      ReleaseMovesLawfully(s.cursor, l.boundary, StatesOf(s, l.boundary));
    }
  }

  lemma BoundaryKeeps(s: Sender, l: Local)
    requires Inv(s) && l.rate > 0
    ensures Inv(AtBoundary(s, l))
  {
    hide FeederModel.Ok, Released, Outcome, StatesOf, Buffered, BufferedRounds;
    var o := Outcome(s.cursor, l.boundary, StatesOf(s, l.boundary));
    var t := AtBoundary(s, l);
    if s.streams != map[] && o.Some? {
      BufferedAfter(s, l);
      ReleaseFeeders(s, l);
      ReleaseMarks(s, t, o.value);
    } else {
      assert t.streams == s.streams && t.firstSeen == s.firstSeen && t.cursor.playing == s.cursor.playing;
      SameBuffered(s, t);
    }
  }

  lemma SameBuffered(s: Sender, t: Sender)
    requires t.streams == s.streams
    ensures forall r :: Buffered(t, r) <==> Buffered(s, r)
  {
  }

  lemma TopUpKeeps(s: Sender, beat: real)
    requires Inv(s)
    ensures Inv(Step(s, TopUp(beat)))
    ensures forall r :: Buffered(Step(s, TopUp(beat)), r) <==> Buffered(s, r)
  {
    hide Advance, FeederModel.Ok;
    var t := Step(s, TopUp(beat));
    forall k | k in s.streams
      ensures var f1 := Advance(s.streams[k].feeder, beat, StoreOf(s.streams[k])).0;
              FeederModel.Ok(f1) && (f1.cur.Some? <==> s.streams[k].feeder.cur.Some?) && f1.curIdx == s.streams[k].feeder.curIdx
    {
      AdvanceKeepsRound(s.streams[k].feeder, beat, StoreOf(s.streams[k]));
    }
    forall r
      ensures Buffered(t, r) <==> Buffered(s, r)
    {
      if j :| j in s.streams && r in s.streams[j].rounds {
        assert r in t.streams[j].rounds;
      }
      if j :| j in t.streams && r in t.streams[j].rounds {
        assert r in s.streams[j].rounds;
      }
    }
  }

  lemma AdvanceKeepsRound(f: FeederModel.Feeder, beat: real, store: Store)
    requires FeederModel.Ok(f)
    ensures var f1 := Advance(f, beat, store).0; FeederModel.Ok(f1) && (f1.cur.Some? <==> f.cur.Some?) && f1.curIdx == f.curIdx
  {
    hide PadCarriesAudio, Chunks, Reader.FrameAtBeat;
  }

  /** Every step keeps the invariant. */
  lemma StepKeepsInv(s: Sender, e: Event)
    requires Inv(s) && (e.Boundary? ==> e.l.rate > 0)
    ensures Inv(Step(s, e))
  {
    hide Inv, AtBoundary, Minted, PlaceAll, Swept;
    match e {
      case Mint(k, now, cushion, chunk) => MintKeeps(s, k, now, cushion, chunk);
      case Frames(k, born, mark, frames) =>
        if k in s.streams {
          PlaceAllKeeps(s, k, mark, frames);
        }
      case Boundary(l, now, graces) =>
        SweepSparesWhatIsDue(s, now, graces);
        BoundaryKeeps(Swept(s, now, graces), l);
      case TopUp(beat) => TopUpKeeps(s, beat);
      case Announce(intent) => IntentKeeps(s, intent);
    }
  }

  lemma IntentKeeps(s: Sender, intent: Intent)
    requires Inv(s)
    ensures Inv(s.(intent := intent))
  {
    SameBuffered(s, s.(intent := intent));
  }
}

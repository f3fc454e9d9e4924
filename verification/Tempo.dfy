/** The room's tempo (protocol.go, session.go): declarations stamped with an origin time and an owner, sent over a
    network that may reorder and repeat them, arbitrated by every peer alone. */
module Tempo {
  import opened Common

  /** The priority stamp of a declaration. */
  datatype Stamp = Stamp(origin: int, owner: string)

  datatype Decl = Decl(bpm: real, stamp: Stamp)

  /** What a peer holds before any declaration. */
  const UNSTAMPED := Stamp(0, "")

  const TOLERANCE := 0.01

  // ---------------------------------------------------------------- the arbitration rule

  /** Go's order on strings. */
  predicate LexLess(a: string, b: string)
    decreases |a|
  {
    b != "" && (a == "" || a[0] < b[0] || (a[0] == b[0] && LexLess(a[1..], b[1..])))
  }

  /** tempoDeclareAdopts: m is adopted over c. */
  predicate Adopts(m: Stamp, c: Stamp) {
    if m.origin != c.origin then m.origin > c.origin
    else if c.owner == "" then m.owner != ""
    else m.owner != "" && LexLess(m.owner, c.owner)
  }

  lemma {:induction false} LexTrichotomy(a: string, b: string)
    ensures a == b || LexLess(a, b) || LexLess(b, a)
    ensures !(LexLess(a, b) && LexLess(b, a)) && !LexLess(a, a)
    decreases |a|
  {
    if a != "" {
      LexIrreflexive(a);
      if b != "" {
        LexTrichotomy(a[1..], b[1..]);
        if a[0] == b[0] && a[1..] == b[1..] {
          assert a == [a[0]] + a[1..] && b == [b[0]] + b[1..];
        }
      }
    }
  }

  lemma {:induction false} LexIrreflexive(a: string)
    ensures !LexLess(a, a)
    decreases |a|
  {
    if a != "" {
      LexIrreflexive(a[1..]);
    }
  }

  lemma {:induction false} LexTransitive(a: string, b: string, c: string)
    requires LexLess(a, b) && LexLess(b, c)
    ensures LexLess(a, c)
    decreases |a|
  {
    if a != "" && a[0] == b[0] == c[0] {
      LexTransitive(a[1..], b[1..], c[1..]);
    }
  }

  /** a comes first: where the two first differ it has the lower character, or it has ended. */
  predicate Earlier(a: string, b: string) {
    exists k :: 0 <= k <= |a| && k < |b| && a[..k] == b[..k] && (k == |a| || a[k] < b[k])
  }

  lemma {:induction false} LexLessIsEarlier(a: string, b: string)
    ensures LexLess(a, b) <==> Earlier(a, b)
    decreases |a|
  {
    SameHeads(a, b);
    if a != "" && b != "" && a[0] == b[0] {
      LexLessIsEarlier(a[1..], b[1..]);
      if k :| 0 <= k <= |a| && k < |b| && a[..k] == b[..k] && (k == |a| || a[k] < b[k]) {
        assert a[1..][..k - 1] == a[..k][1..] && b[1..][..k - 1] == b[..k][1..];
      }
      if k :| 0 <= k <= |a[1..]| && k < |b[1..]| && a[1..][..k] == b[1..][..k] && (k == |a[1..]| || a[1..][k] < b[1..][k]) {
        assert a[..k + 1] == [a[0]] + a[1..][..k] && b[..k + 1] == [b[0]] + b[1..][..k];
      }
    } else if b != "" && (a == "" || a[0] < b[0]) {
      assert a[..0] == b[..0];
    }
  }

  lemma SameHeads(a: string, b: string)
    ensures forall k :: 0 < k <= |a| && k <= |b| && a[..k] == b[..k] ==> a[0] == b[0]
  {
    forall k | 0 < k <= |a| && k <= |b| && a[..k] == b[..k]
      ensures a[0] == b[0]
    {
      assert a[..k][0] == b[..k][0];
    }
  }

  /** THE LATER DECLARATION WINS; of two of the same moment, one that names its owner over one that does not, then the one whose
      owner comes first. */
  lemma LaterWins(m: Stamp, c: Stamp)
    ensures Adopts(m, c)
            <==> m.origin > c.origin
                 || (m.origin == c.origin && m.owner != "" && (c.owner == "" || Earlier(m.owner, c.owner)))
  {
    LexLessIsEarlier(m.owner, c.owner);
  }

  /** The rule is a strict total order on stamps. */
  lemma ArbitrationIsTotal(x: Stamp, y: Stamp)
    ensures !Adopts(x, x)
    ensures !(Adopts(x, y) && Adopts(y, x))
    ensures x == y || Adopts(x, y) || Adopts(y, x)
  {
    LexTrichotomy(x.owner, y.owner);
    LexIrreflexive(x.owner);
  }

  lemma ArbitrationIsTransitive(x: Stamp, y: Stamp, z: Stamp)
    requires Adopts(x, y) && Adopts(y, z)
    ensures Adopts(x, z)
  {
    if x.origin == y.origin == z.origin && z.owner != "" {
      LexTransitive(x.owner, y.owner, z.owner);
    }
  }

  predicate AtLeast(x: Stamp, y: Stamp) {
    x == y || Adopts(x, y)
  }

  lemma AtLeastTransitive(x: Stamp, y: Stamp, z: Stamp)
    requires AtLeast(x, y) && AtLeast(y, z)
    ensures AtLeast(x, z)
  {
    if x != y && y != z {
      ArbitrationIsTransitive(x, y, z);
    }
  }

  // ---------------------------------------------------------------- one peer

  datatype Peer = Peer(stamp: Stamp, bpm: real)

  predicate Near(a: real, b: real) {
    -TOLERANCE <= a - b <= TOLERANCE
  }

  /** The stamp of a new declaration: the clock, or just past the stamp held. */
  function NextOrigin(p: Peer, now: int): int {
    if now <= p.stamp.origin then p.stamp.origin + 1 else now
  }

  function Declared(p: Peer, id: string, bpm: real, now: int): (Peer, Decl) {
    var s := Stamp(NextOrigin(p, now), id);
    (Peer(s, bpm), Decl(bpm, s))
  }

  /** The tempo observed in the local session has moved. */
  function Observed(p: Peer, id: string, bpm: real, now: int): (Peer, Option<Decl>) {
    if Near(bpm, p.bpm) then (p, None) else
      var (q, d) := Declared(p, id, bpm, now);
      (q, Some(d))
  }

  function Heard(p: Peer, m: Decl): Peer {
    if Adopts(m.stamp, p.stamp) then Peer(m.stamp, if Near(m.bpm, p.bpm) then p.bpm else m.bpm) else p
  }

  /** d is a fresh declaration of bpm by id, whose stamp was `held`: the earliest stamp that is neither before the clock
      nor one the held stamp could beat. */
  predicate Announces(d: Decl, held: Stamp, id: string, bpm: real, now: int) {
    && d.bpm == bpm && d.stamp.owner == id && Adopts(d.stamp, held)
    && d.stamp.origin >= now && d.stamp.origin > held.origin && (d.stamp.origin == now || d.stamp.origin == held.origin + 1)
  }

  /** A change of tempo worth telling the room. */
  predicate Moved(bpm: real, held: real) {
    bpm - held > TOLERANCE || held - bpm > TOLERANCE
  }

  /** The session's event loop, as far as tempo goes. */
  class Session {
    const identity: string
    var tempoOrigin: int
    var tempoOwner: string
    var currentBPM: real

    ghost function Value(): Peer
      reads this
    {
      Peer(Stamp(tempoOrigin, tempoOwner), currentBPM)
    }

    constructor (identity: string, bpm: real)
      ensures this.identity == identity && Value() == Peer(UNSTAMPED, bpm)
    {
      this.identity := identity;
      tempoOrigin, tempoOwner, currentBPM := 0, "", bpm;
    }

    method DeclareTempo(bpm: real, now: int) returns (m: Decl)
      modifies this`tempoOrigin, this`tempoOwner
      ensures m == Declared(old(Value()), identity, bpm, now).1 && Value() == Peer(m.stamp, old(currentBPM))
      ensures Announces(m, old(Value()).stamp, identity, bpm, now)
    {
      var origin := now;
      if origin <= tempoOrigin {
        origin := tempoOrigin + 1;
      }
      tempoOrigin, tempoOwner := origin, identity;
      m := Decl(bpm, Stamp(origin, identity));
    }

    method ChangeBpm(bpm: real, now: int) returns (m: Decl)
      modifies this
      ensures (Value(), m) == Declared(old(Value()), identity, bpm, now)
      ensures Announces(m, old(Value()).stamp, identity, bpm, now) && Value() == Peer(m.stamp, bpm)
    {
      currentBPM := bpm;
      m := DeclareTempo(bpm, now);
    }

    method LinkTempoChanged(bpm: real, now: int) returns (m: Option<Decl>)
      modifies this
      ensures (Value(), m) == Observed(old(Value()), identity, bpm, now)
      ensures m.Some? <==> Moved(bpm, old(currentBPM))
      ensures if m.Some? then Announces(m.value, old(Value()).stamp, identity, bpm, now) && Value() == Peer(m.value.stamp, bpm)
              else Value() == old(Value())
    {
      m := None;
      if bpm - currentBPM > TOLERANCE || currentBPM - bpm > TOLERANCE {
        var d := DeclareTempo(bpm, now);
        currentBPM := bpm;
        m := Some(d);
      }
    }

    method TempoDeclare(m: Decl)
      modifies this
      ensures Value() == Heard(old(Value()), m)
      ensures if Adopts(m.stamp, old(Value()).stamp)
              then Value().stamp == m.stamp && currentBPM == if Moved(m.bpm, old(currentBPM)) then m.bpm else old(currentBPM)
              else Value() == old(Value())
    {
      if Adopts(m.stamp, Stamp(tempoOrigin, tempoOwner)) {
        tempoOrigin, tempoOwner := m.stamp.origin, m.stamp.owner;
        if m.bpm - currentBPM > TOLERANCE || currentBPM - m.bpm > TOLERANCE {
          currentBPM := m.bpm;
        }
      }
    }
  }

  // ---------------------------------------------------------------- the room

  /** Peers by identity, every declaration ever sent, and which of them each peer has made or been handed. */
  datatype Room = Room(peers: map<string, Peer>, sent: set<Decl>, known: map<string, set<Decl>>)

  datatype Event =
    | Change(id: string, bpm: real, now: int)
    | Observe(id: string, bpm: real, now: int)
    | Deliver(id: string, m: Decl)

  /** The network only delivers what was sent; it may do so in any order, late, and any number of times. */
  predicate Possible(w: Room, e: Event) {
    e.id in w.peers && (e.Deliver? ==> e.m in w.sent)
  }

  function With(w: Room, id: string, p: Peer, sent: set<Decl>, known: set<Decl>): Room {
    Room(w.peers[id := p], w.sent + sent, w.known[id := (if id in w.known then w.known[id] else {}) + known])
  }

  function Step(w: Room, e: Event): Room
    requires Possible(w, e)
  {
    var p := w.peers[e.id];
    match e
    case Change(id, bpm, now) =>
      var (q, d) := Declared(p, id, bpm, now);
      With(w, id, q, {d}, {d})
    case Observe(id, bpm, now) =>
      var (q, o) := Observed(p, id, bpm, now);
      var ds := if o.Some? then {o.value} else {};
      With(w, id, q, ds, ds)
    case Deliver(id, m) =>
      With(w, id, Heard(p, m), {}, {m})
  }

  /** A room no one has declared a tempo in. */
  predicate Quiet(w: Room) {
    w.sent == {} && w.known.Keys == w.peers.Keys
    && (forall id <- w.peers :: w.peers[id].stamp == UNSTAMPED && w.known[id] == {})
  }

  /** A peer's stamp is the maximum of what it knows, and its tempo that declaration's, within the tolerance. */
  predicate HoldsMaximum(p: Peer, known: set<Decl>) {
    && (forall m <- known :: AtLeast(p.stamp, m.stamp))
    && (if known == {} then p.stamp == UNSTAMPED
        else exists m <- known :: m.stamp == p.stamp && Near(m.bpm, p.bpm))
  }

  /** No two declarations share a stamp. */
  predicate Unique(ds: set<Decl>) {
    forall d <- ds, e <- ds :: d.stamp == e.stamp ==> d == e
  }

  ghost predicate Inv(w: Room) {
    && w.known.Keys == w.peers.Keys
    && (forall id <- w.peers :: HoldsMaximum(w.peers[id], w.known[id]) && w.known[id] <= w.sent)
    && (forall m <- w.sent :: m.stamp.origin > 0 && m.stamp.owner in w.peers && m in w.known[m.stamp.owner])
    && Unique(w.sent)
  }

  lemma QuietInv(w: Room)
    requires Quiet(w)
    ensures Inv(w)
  {
  }

  /** A new stamp beats everything its owner knows; no declaration ever made carries it. */
  lemma NewStampIsNew(w: Room, id: string, bpm: real, now: int)
    requires Inv(w) && id in w.peers
    ensures var d := Declared(w.peers[id], id, bpm, now).1;
            && Adopts(d.stamp, w.peers[id].stamp) && d.stamp.origin > 0
            && (forall m <- w.sent :: m.stamp != d.stamp)
            && (forall m <- w.known[id] :: Adopts(d.stamp, m.stamp))
  {
    var p := w.peers[id];
    assert p.stamp.origin >= 0;
    var d := Declared(p, id, bpm, now).1;
    assert forall m <- w.known[id] :: AtLeast(p.stamp, m.stamp) && m.stamp.origin <= p.stamp.origin < d.stamp.origin;
    forall m | m in w.sent
      ensures m.stamp != d.stamp
    {
      if m.stamp.owner == id {
        assert m in w.known[id];
      }
    }
  }

  /** What it takes for one peer's update to keep the room's invariant. */
  lemma UpdateKeeps(w: Room, id: string, q: Peer, sent: set<Decl>, known: set<Decl>)
    requires Inv(w) && id in w.peers
    requires HoldsMaximum(q, w.known[id] + known) && known <= w.sent + sent && sent <= known
    requires forall d <- sent :: d.stamp.origin > 0 && d.stamp.owner == id
    requires Unique(w.sent + sent)
    ensures Inv(With(w, id, q, sent, known))
  {
    hide HoldsMaximum, Unique;
    var v := With(w, id, q, sent, known);
    forall m | m in v.sent
      ensures m.stamp.origin > 0 && m.stamp.owner in v.peers && m in v.known[m.stamp.owner]
    {
    }
  }

  lemma StillUnique(ds: set<Decl>, d: Decl)
    requires Unique(ds) && forall m <- ds :: m.stamp != d.stamp
    ensures Unique(ds + {d})
  {
  }

  lemma DeclareKeeps(w: Room, id: string, bpm: real, now: int)
    requires Inv(w) && id in w.peers
    ensures var (q, d) := Declared(w.peers[id], id, bpm, now); Inv(With(w, id, q, {d}, {d}))
  {
    NewStampIsNew(w, id, bpm, now);
    var (q, d) := Declared(w.peers[id], id, bpm, now);
    StillUnique(w.sent, d);
    NewIsMaximum(q, w.known[id], d);
    UpdateKeeps(w, id, q, {d}, {d});
  }

  lemma NewIsMaximum(q: Peer, known: set<Decl>, d: Decl)
    requires q == Peer(d.stamp, d.bpm) && forall m <- known :: Adopts(d.stamp, m.stamp)
    ensures HoldsMaximum(q, known + {d})
  {
    hide Adopts;
    assert d in known + {d};
  }

  lemma DeliverKeeps(w: Room, id: string, m: Decl)
    requires Inv(w) && id in w.peers && m in w.sent
    ensures Inv(With(w, id, Heard(w.peers[id], m), {}, {m}))
  {
    HeardIsMaximum(w.peers[id], w.known[id], m);
    assert w.sent + {} == w.sent;
    UpdateKeeps(w, id, Heard(w.peers[id], m), {}, {m});
  }

  lemma HeardIsMaximum(p: Peer, known: set<Decl>, m: Decl)
    requires HoldsMaximum(p, known) && m.stamp.origin > 0
    ensures HoldsMaximum(Heard(p, m), known + {m})
  {
    var q := Heard(p, m);
    ArbitrationIsTotal(m.stamp, p.stamp);
    UnstampedIsLowest(m.stamp);
    hide LexLess, Adopts;
    HeardMaximum(p, known, m);
    forall x | x in known + {m}
      ensures AtLeast(q.stamp, x.stamp)
    {
      if Adopts(m.stamp, p.stamp) && x in known {
        AtLeastTransitive(m.stamp, p.stamp, x.stamp);
      }
    }
  }

  lemma UnstampedIsLowest(s: Stamp)
    ensures s.origin > 0 ==> Adopts(s, UNSTAMPED)
  {
  }

  lemma HeardMaximum(p: Peer, known: set<Decl>, m: Decl)
    requires HoldsMaximum(p, known) && (known == {} ==> Adopts(m.stamp, p.stamp))
    ensures exists x <- known + {m} :: x.stamp == Heard(p, m).stamp && Near(x.bpm, Heard(p, m).bpm)
  {
    hide LexLess, Adopts;
    if Adopts(m.stamp, p.stamp) {
      assert m in known + {m};
    } else {
      var x :| x in known && x.stamp == p.stamp && Near(x.bpm, p.bpm);
      assert x in known + {m};
    }
  }

  /** Nothing else a peer does touches its stamp. */
  lemma StepKeepsInv(w: Room, e: Event)
    requires Inv(w) && Possible(w, e)
    ensures Inv(Step(w, e))
  {
    hide Inv, LexLess, Adopts;
    match e {
      case Change(id, bpm, now) => DeclareKeeps(w, id, bpm, now);
      case Observe(id, bpm, now) =>
        if Near(bpm, w.peers[id].bpm) {
          NothingNew(w, id);
        } else {
          DeclareKeeps(w, id, bpm, now);
        }
      case Deliver(id, m) => DeliverKeeps(w, id, m);
    }
  }

  lemma NothingNew(w: Room, id: string)
    requires Inv(w) && id in w.peers
    ensures Inv(With(w, id, w.peers[id], {}, {}))
    ensures With(w, id, w.peers[id], {}, {}) == w
  {
    KnownKeys(w);
    hide Inv;
    NothingAdded(w, id);
  }

  lemma KnownKeys(w: Room)
    requires Inv(w)
    ensures w.known.Keys == w.peers.Keys
  {
    hide HoldsMaximum, Unique;
  }

  lemma NothingAdded(w: Room, id: string)
    requires id in w.peers && id in w.known
    ensures With(w, id, w.peers[id], {}, {}) == w
  {
    assert w.peers[id := w.peers[id]] == w.peers;
    assert w.known[id] + {} == w.known[id];
    assert w.known[id := w.known[id]] == w.known;
    assert w.sent + {} == w.sent;
  }

  /** Stamps only ever climb. */
  lemma StampsClimb(w: Room, e: Event, id: string)
    requires Inv(w) && Possible(w, e) && id in w.peers
    ensures id in Step(w, e).peers && AtLeast(Step(w, e).peers[id].stamp, w.peers[id].stamp)
  {
    if e.Change? {
      NewStampIsNew(w, e.id, e.bpm, e.now);
    } else if e.Observe? {
      NewStampIsNew(w, e.id, e.bpm, e.now);
    }
  }

  /** A repeated or echoed declaration is inert. */
  lemma EchoIsInert(w: Room, id: string, m: Decl)
    requires Inv(w) && id in w.peers && id in w.known && m in w.known[id]
    ensures m in w.sent && Step(w, Deliver(id, m)) == w
  {
    hide Inv, Adopts, HoldsMaximum;
    KnownIsSent(w, id, m);
    ArbitrationIsTotal(m.stamp, w.peers[id].stamp);
    NothingNew(w, id);
    assert w.known[id] + {m} == w.known[id] + {};
    assert Heard(w.peers[id], m) == w.peers[id];
  }

  lemma KnownIsSent(w: Room, id: string, m: Decl)
    requires Inv(w) && id in w.peers && id in w.known && m in w.known[id]
    ensures m in w.sent && AtLeast(w.peers[id].stamp, m.stamp)
  {
    hide Adopts, Unique;
  }

  // ---------------------------------------------------------------- runs

  predicate PossibleRun(w: Room, es: seq<Event>)
    decreases |es|
  {
    es == [] || (Possible(w, es[0]) && PossibleRun(Step(w, es[0]), es[1..]))
  }

  function Run(w: Room, es: seq<Event>): Room
    requires PossibleRun(w, es)
    decreases |es|
  {
    if es == [] then w else Run(Step(w, es[0]), es[1..])
  }

  lemma {:induction false} RunKeepsInv(w: Room, es: seq<Event>, id: string)
    requires Inv(w) && PossibleRun(w, es) && id in w.peers
    ensures Inv(Run(w, es)) && Run(w, es).peers.Keys == w.peers.Keys
    ensures AtLeast(Run(w, es).peers[id].stamp, w.peers[id].stamp)
    decreases |es|
  {
    hide Inv, AtLeast, Adopts;
    if es == [] {
      SelfAtLeast(w.peers[id].stamp);
    } else {
      var w1 := Step(w, es[0]);
      StepKeepsInv(w, es[0]);
      StampsClimb(w, es[0], id);
      SamePeers(w, es[0]);
      RunKeepsInv(w1, es[1..], id);
      AtLeastTransitive(Run(w, es).peers[id].stamp, w1.peers[id].stamp, w.peers[id].stamp);
    }
  }

  lemma SelfAtLeast(s: Stamp)
    ensures AtLeast(s, s)
  {
  }

  lemma SamePeers(w: Room, e: Event)
    requires Possible(w, e)
    ensures Step(w, e).peers.Keys == w.peers.Keys
  {
    hide Adopts;
  }

  /** Everything sent has reached everyone. */
  predicate AllDelivered(w: Room) {
    w.known.Keys == w.peers.Keys && forall id <- w.peers :: w.known[id] == w.sent
  }

  /** TEMPO CONVERGENCE. From a quiet room, after any run of tempo changes and deliveries in which, by the end,
      every declaration has reached every peer at least once, all peers hold the same stamp: that of the one
      declaration no other beats. Every peer's tempo is within 0.01 BPM of it. */
  lemma RoomsConverge(w: Room, es: seq<Event>) returns (winner: Decl)
    requires Quiet(w) && PossibleRun(w, es) && AllDelivered(Run(w, es)) && Run(w, es).sent != {} && w.peers != map[]
    ensures var v := Run(w, es);
            && winner in v.sent
            && (forall m <- v.sent :: m == winner || Adopts(winner.stamp, m.stamp))
            && (forall id <- v.peers :: v.peers[id].stamp == winner.stamp && Near(v.peers[id].bpm, winner.bpm))
  {
    hide AtLeast, Quiet, Inv, Run, Unique, AllDelivered, HoldsMaximum, Near;
    QuietInv(w);
    var id :| id in w.peers;
    RunKeepsInv(w, es, id);
    var v := Run(w, es);
    winner := Best(v, id);
    forall j | j in v.peers
      ensures v.peers[j].stamp == winner.stamp && Near(v.peers[j].bpm, winner.bpm)
    {
      var x := Best(v, j);
      SameMaximum(winner, x, v.sent);
    }
    forall m | m in v.sent
      ensures m == winner || Adopts(winner.stamp, m.stamp)
    {
      AtLeastOnly(winner, m, v.sent);
    }
  }

  lemma AtLeastOnly(x: Decl, y: Decl, ds: set<Decl>)
    requires x in ds && y in ds && Unique(ds) && AtLeast(x.stamp, y.stamp)
    ensures y == x || Adopts(x.stamp, y.stamp)
  {
  }

  /** The declaration a peer that has heard everything stands by. */
  lemma Best(v: Room, id: string) returns (best: Decl)
    requires Inv(v) && AllDelivered(v) && v.sent != {} && id in v.peers
    ensures best in v.sent && best.stamp == v.peers[id].stamp && Near(v.peers[id].bpm, best.bpm)
    ensures Unique(v.sent) && forall m <- v.sent :: AtLeast(best.stamp, m.stamp)
  {
    hide Inv, AtLeast, Unique, Near;
    InvPeer(v, id);
    assert v.known[id] == v.sent;
    hide AllDelivered;
    best :| best in v.sent && best.stamp == v.peers[id].stamp && Near(best.bpm, v.peers[id].bpm);
    NearBack(best.bpm, v.peers[id].bpm);
  }

  lemma InvPeer(v: Room, id: string)
    requires Inv(v) && id in v.peers
    ensures id in v.known && HoldsMaximum(v.peers[id], v.known[id]) && Unique(v.sent)
  {
    hide HoldsMaximum, Unique;
  }

  lemma NearBack(a: real, b: real)
    ensures Near(a, b) <==> Near(b, a)
  {
  }

  lemma SameMaximum(x: Decl, y: Decl, ds: set<Decl>)
    requires x in ds && y in ds && Unique(ds)
    requires forall m <- ds :: AtLeast(x.stamp, m.stamp) && AtLeast(y.stamp, m.stamp)
    ensures x == y
  {
    ArbitrationIsTotal(x.stamp, y.stamp);
    hide Adopts;
  }

  // ---------------------------------------------------------------- a musician's change reaches the room

  /** The peer's own change: a new tempo set in WAIL, or one seen in the local session that has really moved. */
  predicate LocalChange(w: Room, e: Event) {
    e.id in w.peers && (e.Change? || (e.Observe? && Moved(e.bpm, w.peers[e.id].bpm)))
  }

  /** It is sent to the room and adopted by its maker, and beats everything the maker knew; a tempo seen that has not
      moved changes nothing. */
  lemma ChangeIsDeclared(w: Room, e: Event)
    requires Inv(w) && Possible(w, e) && !e.Deliver?
    ensures LocalChange(w, e) ==>
              exists d <- Step(w, e).sent - w.sent ::
                && Announces(d, w.peers[e.id].stamp, e.id, e.bpm, e.now)
                && Step(w, e).sent == w.sent + {d} && Step(w, e).peers == w.peers[e.id := Peer(d.stamp, e.bpm)]
                && forall m <- w.known[e.id] :: Adopts(d.stamp, m.stamp)
    ensures !LocalChange(w, e) ==> Step(w, e) == w
  {
    hide Inv, LexLess, Adopts, HoldsMaximum, Unique;
    var d := Declared(w.peers[e.id], e.id, e.bpm, e.now).1;
    NewStampIsNew(w, e.id, e.bpm, e.now);
    KnownKeys(w);
    if LocalChange(w, e) {
      assert d in Step(w, e).sent - w.sent;
    } else {
      NothingNew(w, e.id);
    }
  }

  predicate OnlyDeliveries(es: seq<Event>) {
    forall e <- es :: e.Deliver?
  }

  lemma {:induction false} DeliveriesSendNothing(w: Room, es: seq<Event>)
    requires PossibleRun(w, es) && OnlyDeliveries(es)
    ensures Run(w, es).sent == w.sent
    decreases |es|
  {
    hide Adopts;
    if es != [] {
      assert es[0] in es && OnlyDeliveries(es[1..]);
      DeliveriesSendNothing(Step(w, es[0]), es[1..]);
    }
  }

  /** A LOCAL CHANGE REACHES THE ROOM. In a room where everyone has heard everything, once a peer's change has been
      delivered, every peer holds the stamp of that change and a tempo within 0.01 BPM of it. */
  lemma ChangeReachesEveryone(w: Room, e: Event, es: seq<Event>)
    requires Inv(w) && AllDelivered(w) && Possible(w, e) && LocalChange(w, e)
    requires PossibleRun(Step(w, e), es) && OnlyDeliveries(es) && AllDelivered(Run(Step(w, e), es))
    ensures var v := Run(Step(w, e), es);
            && v.peers.Keys == w.peers.Keys
            && exists s: Stamp :: s.owner == e.id && forall id <- v.peers :: v.peers[id].stamp == s && Near(v.peers[id].bpm, e.bpm)
  {
    hide Inv, Adopts, LexLess, HoldsMaximum, Unique, AtLeast, Near, Run, AllDelivered, LocalChange, Moved;
    var w1, v := Step(w, e), Run(Step(w, e), es);
    StepKeepsInv(w, e);
    SamePeers(w, e);
    RunKeepsInv(w1, es, e.id);
    DeliveriesSendNothing(w1, es);
    assert !e.Deliver? by {
      EventIsLocal(w, e);
    }
    ChangeIsDeclared(w, e);
    EveryoneKnows(w, e.id);
    var d :| d in w1.sent - w.sent && Announces(d, w.peers[e.id].stamp, e.id, e.bpm, e.now) && w1.sent == w.sent + {d}
             && forall m <- w.known[e.id] :: Adopts(d.stamp, m.stamp);
    forall m | m in v.sent
      ensures AtLeast(d.stamp, m.stamp)
    {
      IsAtLeast(d, m);
    }
    forall id | id in v.peers
      ensures v.peers[id].stamp == d.stamp && Near(v.peers[id].bpm, e.bpm)
    {
      var best := Best(v, id);
      SameMaximum(d, best, v.sent);
    }
  }

  lemma EventIsLocal(w: Room, e: Event)
    requires LocalChange(w, e)
    ensures !e.Deliver?
  {
  }

  lemma EveryoneKnows(w: Room, id: string)
    requires AllDelivered(w) && id in w.peers
    ensures id in w.known && w.known[id] == w.sent
  {
  }

  lemma IsAtLeast(d: Decl, m: Decl)
    requires m == d || Adopts(d.stamp, m.stamp)
    ensures AtLeast(d.stamp, m.stamp)
  {
  }
}

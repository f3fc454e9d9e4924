/** How a new channel gets a port of the Receive plugin (plugins/wail_recv.c). */
module SlotPorts {
  import opened SlotTable

  predicate Owned(slots: seq<Slot>, id: int) {
    exists s <- slots :: s.taken && s.id == id
  }

  /** Neither the channel nor its name has a port. */
  predicate Unknown(slots: seq<Slot>, c: Channel) {
    forall s <- slots :: s.taken ==> s.id != c.id && s.name != c.name
  }

  function Free(slots: seq<Slot>): nat
    decreases |slots|
  {
    if slots == [] then 0 else Free(slots[..|slots| - 1]) + if slots[|slots| - 1].taken then 0 else 1
  }

  lemma {:induction false} FreeSet(slots: seq<Slot>, i: nat, s: Slot)
    requires i < |slots|
    ensures Free(slots[i := s]) == Free(slots) + (if slots[i].taken then 1 else 0) - (if s.taken then 1 else 0)
    decreases |slots|
  {
    var n := |slots| - 1;
    if i < n {
      FreeSet(slots[..n], i, s);
      assert slots[i := s][..n] == slots[..n][i := s];
    } else {
      assert slots[i := s][..n] == slots[..n];
    }
  }

  lemma {:induction false} FreeHas(slots: seq<Slot>)
    ensures Free(slots) > 0 <==> exists i :: 0 <= i < |slots| && !slots[i].taken
    decreases |slots|
  {
    if slots != [] {
      var n := |slots| - 1;
      FreeHas(slots[..n]);
      if i :| 0 <= i < |slots| && !slots[i].taken {
        assert i < n ==> slots[..n][i] == slots[i];
      }
      if i :| 0 <= i < n && !slots[..n][i].taken {
        assert slots[i] == slots[..n][i];
      }
    }
  }

  lemma {:induction false} FreeGrows(u: seq<Slot>, v: seq<Slot>)
    requires |u| == |v| && forall i :: 0 <= i < |u| ==> v[i].taken ==> u[i].taken
    ensures Free(v) >= Free(u)
    decreases |u|
  {
    if u != [] {
      FreeGrows(u[..|u| - 1], v[..|v| - 1]);
    }
  }

  /** How many of the listed channels have no port yet. */
  function Newcomers(slots: seq<Slot>, chans: seq<Channel>): nat
    decreases |chans|
  {
    if chans == [] then 0 else
      Newcomers(slots, chans[..|chans| - 1]) + if Owned(slots, chans[|chans| - 1].id) then 0 else 1
  }

  /** A channel takes no more than one port, and none if it has one, is none of the room's, or its subscription fails. */
  lemma TakesOnePort(slots: seq<Slot>, c: Channel)
    ensures Free(Placed(slots, c)) >= Free(slots) - (if Owned(slots, c.id) then 0 else 1)
    ensures !c.opens || Owned(slots, c.id) ==> Free(Placed(slots, c)) == Free(slots)
    ensures !(ROOM_PREFIX <= c.name) ==> Placed(slots, c) == slots
  {
    var o := Owner(slots, c.id);
    if Owned(slots, c.id) {
      var s :| s in slots && s.taken && s.id == c.id;
      var i :| 0 <= i < |slots| && slots[i] == s;
      assert o < |slots|;
    }
    if o < |slots| {
      FreeSet(slots, o, slots[o].(name := c.name));
    }
    var f := FirstFree(slots);
    if f < |slots| {
      FreeSet(slots, f, Slot(c.opens, c.id, c.name));
    }
  }

  /** Placing others leaves an unknown channel unknown, and ports enough. */
  lemma {:induction false} OthersPlaced(slots: seq<Slot>, chans: seq<Channel>, c: Channel)
    requires forall d <- chans :: d.id != c.id && d.name != c.name
    ensures Unknown(slots, c) ==> Unknown(PlacedAll(slots, chans), c)
    ensures Free(PlacedAll(slots, chans)) >= Free(slots) - Newcomers(slots, chans)
    decreases |chans|
  {
    hide Placed, Unknown, Owned;
    if chans != [] {
      var n := |chans| - 1;
      var before, d := PlacedAll(slots, chans[..n]), chans[n];
      assert d in chans;
      assert forall e <- chans[..n] :: e in chans;
      OthersPlaced(slots, chans[..n], c);
      TakesOnePort(before, d);
      if Owned(slots, d.id) {
        OwnedStays(slots, chans[..n], d.id);
      }
      if Unknown(before, c) {
        UnknownStays(before, d, c);
      }
    }
  }

  lemma UnknownStays(slots: seq<Slot>, d: Channel, c: Channel)
    requires Unknown(slots, c) && d.id != c.id && d.name != c.name
    ensures Unknown(Placed(slots, d), c)
  {
    var r := Placed(slots, d);
    forall s | s in r && s.taken
      ensures s.id != c.id && s.name != c.name
    {
      var i :| 0 <= i < |r| && r[i] == s;
      assert slots[i] in slots;
    }
  }

  /** Slot f is the channel's, and no other bears its id or name. */
  predicate Has(slots: seq<Slot>, f: nat, c: Channel) {
    f < |slots| && slots[f] == Slot(true, c.id, c.name)
    && forall i :: 0 <= i < |slots| && i != f && slots[i].taken ==> slots[i].id != c.id && slots[i].name != c.name
  }

  lemma {:induction false} HasStays(slots: seq<Slot>, chans: seq<Channel>, f: nat, c: Channel)
    requires Has(slots, f, c) && forall d <- chans :: d.id != c.id && d.name != c.name
    ensures Has(PlacedAll(slots, chans), f, c)
    decreases |chans|
  {
    if chans != [] {
      var n := |chans| - 1;
      assert chans[n] in chans && forall e <- chans[..n] :: e in chans;
      HasStays(slots, chans[..n], f, c);
    }
  }

  lemma {:induction false} PlacedInTwo(slots: seq<Slot>, u: seq<Channel>, v: seq<Channel>)
    ensures PlacedAll(slots, u + v) == PlacedAll(PlacedAll(slots, u), v)
    decreases |v|
  {
    if v == [] {
      assert u + v == u;
    } else {
      var n := |v| - 1;
      PlacedInTwo(slots, u, v[..n]);
      assert (u + v)[..|u + v| - 1] == u + v[..n];
    }
  }

  /** A free port, an unknown channel in the room whose subscription succeeds: it gets the lowest one. */
  lemma GetsLowest(slots: seq<Slot>, c: Channel)
    requires Unknown(slots, c) && InRoom(c) && c.opens && Free(slots) > 0
    ensures exists f :: 0 <= f < |slots| && Has(Placed(slots, c), f, c) && forall i :: 0 <= i < f ==> slots[i].taken
  {
    FreeHas(slots);
    var f := FirstFree(slots);
    assert forall i :: 0 <= i < |slots| ==> slots[i] in slots && !(slots[i].taken && slots[i].id == c.id);
    assert Owner(slots, c.id) == |slots|;
    forall i | 0 <= i < |slots| && i != f && slots[i].taken
      ensures slots[i].id != c.id && slots[i].name != c.name
    {
      assert slots[i] in slots;
    }
    assert Has(Placed(slots, c), f, c);
  }

  /** A NEW CHANNEL GETS A PORT: a channel of the room, under an id and a name that no port and no other listed channel has,
      comes out of the poll with a port of its own, as long as its subscription succeeds and the free ports outnumber the
      newcomers listed before it; the first newcomer gets the lowest port that the first pass leaves free. */
  lemma NewChannelGetsAPort(t: Table, chans: seq<Channel>, k: nat)
    requires Inv(t) && k < |chans| && InRoom(chans[k]) && chans[k].opens && Unknown(t.slots, chans[k])
    requires forall j :: 0 <= j < |chans| && j != k ==> chans[j].id != chans[k].id && chans[j].name != chans[k].name
    requires Free(t.slots) > Newcomers(t.slots, chans[..k])
    ensures exists f :: 0 <= f < SLOTS && Has(Poll(t, chans).slots, f, chans[k])
                        && (Newcomers(t.slots, chans[..k]) == 0 ==> forall i :: 0 <= i < f ==> t.slots[i].taken && !Gone(t, chans, i))
  {
    hide PlacedAll, Placed, Has;
    var c, a := chans[k], Aged(t, chans).slots;
    var u, v := chans[..k], chans[k + 1..];
    assert chans == u + [c] + v;
    UnknownAged(t, chans, c);
    FreeGrows(t.slots, a);
    NewcomersAged(t, chans, u);
    var f := PlacedAmongOthers(a, u, c, v);
    HasSurvives(Assigned(t, chans), f, c);
    assert Has(Poll(t, chans).slots, f, c);
    assert Newcomers(t.slots, u) == 0 ==> forall i :: 0 <= i < f ==> t.slots[i].taken && !Gone(t, chans, i);
  }

  lemma UnknownAged(t: Table, chans: seq<Channel>, c: Channel)
    requires Sized(t) && Unknown(t.slots, c)
    ensures Unknown(Aged(t, chans).slots, c)
  {
    var a := Aged(t, chans).slots;
    forall s | s in a && s.taken
      ensures s.id != c.id && s.name != c.name
    {
      var i :| 0 <= i < |a| && a[i] == s;
      assert t.slots[i] in t.slots;
    }
  }

  /** No twin: the third pass lets it be. */
  lemma HasSurvives(t: Table, f: nat, c: Channel)
    requires Sized(t) && Has(t.slots, f, c)
    ensures f < SLOTS && Has(Deduped(t).slots, f, c)
  {
  }

  lemma PlacedAmongOthers(a: seq<Slot>, u: seq<Channel>, c: Channel, v: seq<Channel>) returns (f: nat)
    requires Unknown(a, c) && InRoom(c) && c.opens && Free(a) > Newcomers(a, u)
    requires forall d <- u + v :: d.id != c.id && d.name != c.name
    ensures Has(PlacedAll(a, u + [c] + v), f, c)
    ensures Newcomers(a, u) == 0 ==> forall i :: 0 <= i < f && i < |a| ==> a[i].taken
  {
    hide PlacedAll, Placed, Has;
    assert forall d <- u :: d in u + v;
    assert forall d <- v :: d in u + v;
    OthersPlaced(a, u, c);
    var m := PlacedAll(a, u);
    GetsLowest(m, c);
    f :| 0 <= f < |m| && Has(Placed(m, c), f, c) && forall i :: 0 <= i < f ==> m[i].taken;
    PlacedOne(m, c);
    PlacedInTwo(a, u, [c]);
    HasStays(Placed(m, c), v, f, c);
    PlacedInTwo(a, u + [c], v);
    if Newcomers(a, u) == 0 {
      NoneTaken(a, u);
    }
  }

  lemma PlacedOne(slots: seq<Slot>, c: Channel)
    ensures PlacedAll(slots, [c]) == Placed(slots, c)
  {
    assert [c][..0] == [] && PlacedAll(slots, []) == slots;
  }

  /** A listed channel's port is not let go in the first pass. */
  lemma {:induction false} NewcomersAged(t: Table, chans: seq<Channel>, u: seq<Channel>)
    requires Inv(t) && forall d <- u :: d in chans
    ensures Newcomers(Aged(t, chans).slots, u) == Newcomers(t.slots, u)
    decreases |u|
  {
    if u != [] {
      var n, a := |u| - 1, Aged(t, chans).slots;
      assert forall d <- u[..n] :: d in u;
      NewcomersAged(t, chans, u[..n]);
      var d := u[n];
      assert d in chans;
      assert Owned(a, d.id) <==> Owned(t.slots, d.id) by {
        if Owned(a, d.id) {
          var s :| s in a && s.taken && s.id == d.id;
          var i :| 0 <= i < |a| && a[i] == s;
          assert t.slots[i] in t.slots;
        }
        if Owned(t.slots, d.id) {
          var s :| s in t.slots && s.taken && s.id == d.id;
          var i :| 0 <= i < SLOTS && t.slots[i] == s;
          assert Listed(chans, s.id) && !Gone(t, chans, i);
          assert a[i] in a;
        }
      }
    }
  }

  /** Channels that have their ports take no other. */
  lemma {:induction false} NoneTaken(slots: seq<Slot>, chans: seq<Channel>)
    requires Newcomers(slots, chans) == 0
    ensures forall i :: 0 <= i < |slots| && PlacedAll(slots, chans)[i].taken ==> slots[i].taken
    decreases |chans|
  {
    if chans != [] {
      var n := |chans| - 1;
      NoneTaken(slots, chans[..n]);
      var before, d := PlacedAll(slots, chans[..n]), chans[n];
      OwnedStays(slots, chans[..n], d.id);
      var s :| s in before && s.taken && s.id == d.id;
      var i :| 0 <= i < |before| && before[i] == s;
      assert Owner(before, d.id) < |before|;
    }
  }

  lemma OwnedStays(slots: seq<Slot>, chans: seq<Channel>, id: int)
    requires Owned(slots, id)
    ensures Owned(PlacedAll(slots, chans), id)
  {
    var s :| s in slots && s.taken && s.id == id;
    var i :| 0 <= i < |slots| && slots[i] == s;
    TakenStaysTaken(slots, chans, i);
    assert PlacedAll(slots, chans)[i] in PlacedAll(slots, chans);
  }

  // ---------------------------------------------------------------- whose ports they are

  /** Every port taken carries a channel of the room. */
  predicate RoomOnly(slots: seq<Slot>) {
    forall s <- slots :: s.taken ==> ROOM_PREFIX <= s.name
  }

  lemma {:induction false} PlacedRoomOnly(slots: seq<Slot>, chans: seq<Channel>)
    requires RoomOnly(slots)
    ensures RoomOnly(PlacedAll(slots, chans))
    decreases |chans|
  {
    if chans != [] {
      var n := |chans| - 1;
      PlacedRoomOnly(slots, chans[..n]);
      var before, r := PlacedAll(slots, chans[..n]), PlacedAll(slots, chans);
      forall s | s in r && s.taken
        ensures ROOM_PREFIX <= s.name
      {
        var i :| 0 <= i < |r| && r[i] == s;
        assert before[i] in before;
      }
    }
  }

  /** ONLY THE ROOM'S CHANNELS ARE CARRIED, over any polls of a new manager. */
  lemma {:induction false} OnlyTheRoomIsCarried(polls: seq<seq<Channel>>)
    ensures RoomOnly(After(EMPTY, polls).slots)
    decreases |polls|
  {
    hide PlacedAll, RoomOnly;
    if polls == [] {
      NobodyIsRoomOnly();
    } else {
      var t, chans := After(EMPTY, polls[..|polls| - 1]), polls[|polls| - 1];
      OnlyTheRoomIsCarried(polls[..|polls| - 1]);
      FreedRoomOnly(t.slots, Aged(t, chans).slots);
      PlacedRoomOnly(Aged(t, chans).slots, chans);
      FreedRoomOnly(Assigned(t, chans).slots, Poll(t, chans).slots);
    }
  }

  lemma NobodyIsRoomOnly()
    ensures RoomOnly(EMPTY.slots)
  {
  }

  lemma FreedRoomOnly(slots: seq<Slot>, r: seq<Slot>)
    requires RoomOnly(slots) && |r| == |slots| && forall i :: 0 <= i < |r| ==> r[i] == slots[i] || r[i] == FREED
    ensures RoomOnly(r)
  {
    forall s | s in r && s.taken
      ensures ROOM_PREFIX <= s.name
    {
      var i :| 0 <= i < |r| && r[i] == s;
      assert slots[i] in slots;
    }
  }

  /** Slot i is the channel's, no other slot bears its name, and no claimant of the name has a slot. */
  predicate Holds(slots: seq<Slot>, i: nat, id: int, name: string, claimants: set<int>) {
    && i < |slots| && slots[i] == Slot(true, id, name)
    && forall j :: 0 <= j < |slots| && j != i && slots[j].taken ==> slots[j].name != name && slots[j].id !in claimants + {id}
  }

  /** The others that are listed under the name. */
  function Claimants(chans: seq<Channel>, id: int, name: string): set<int> {
    set c | c in chans && c.name == name && c.id != id :: c.id
  }

  lemma HoldsOn(slots: seq<Slot>, c: Channel, i: nat, id: int, name: string, claimants: set<int>)
    requires Holds(slots, i, id, name, claimants) && id !in claimants
    requires if c.id == id || c.id in claimants then c.name == name else c.name != name
    ensures Holds(Placed(slots, c), i, id, name, claimants)
  {
    var o := Owner(slots, c.id);
    assert slots[i] in slots;
    if c.id == id {
      assert o == i;
    } else if c.id in claimants {
      assert o == |slots|;
      assert Carried(slots, name);
    }
  }

  lemma {:induction false} AllHoldsOn(slots: seq<Slot>, chans: seq<Channel>, i: nat, id: int, name: string, claimants: set<int>)
    requires Holds(slots, i, id, name, claimants) && id !in claimants
    requires forall c <- chans :: if c.id == id || c.id in claimants then c.name == name else c.name != name
    ensures Holds(PlacedAll(slots, chans), i, id, name, claimants)
    decreases |chans|
  {
    hide Placed, Holds;
    if chans != [] {
      var n := |chans| - 1;
      assert chans[n] in chans && forall c <- chans[..n] :: c in chans;
      AllHoldsOn(slots, chans[..n], i, id, name, claimants);
      HoldsOn(PlacedAll(slots, chans[..n]), chans[n], i, id, name, claimants);
    }
  }

  /** FIRST COME, FIRST SERVED: a channel that carries its name and is still listed under it keeps its port, whatever newcomers
      are listed under the same name, and none of them gets one. */
  lemma FirstComeIsServed(t: Table, chans: seq<Channel>, i: nat)
    requires Inv(t) && DistinctNames(t.slots) && i < SLOTS && t.slots[i].taken
    requires UniquelyNamed(chans, t.slots[i].id, t.slots[i].name)
    requires forall d <- Claimants(chans, t.slots[i].id, t.slots[i].name) :: !Owned(t.slots, d) && NamedOnly(chans, d, t.slots[i].name)
    ensures var r := Poll(t, chans).slots;
            && r[i] == t.slots[i]
            && forall j :: 0 <= j < SLOTS && j != i && r[j].taken ==>
                 r[j].name != t.slots[i].name && r[j].id !in Claimants(chans, t.slots[i].id, t.slots[i].name)
  {
    hide PlacedAll, Placed;
    var id, name := t.slots[i].id, t.slots[i].name;
    var cs, a := Claimants(chans, id, name), Aged(t, chans).slots;
    assert !Gone(t, chans, i);
    assert Holds(a, i, id, name, cs) by {
      forall j | 0 <= j < |a| && j != i && a[j].taken
        ensures a[j].name != name && a[j].id !in cs + {id}
      {
        assert t.slots[j] in t.slots;
      }
    }
    AllHoldsOn(a, chans, i, id, name, cs);
    var b := Assigned(t, chans).slots;
    assert !Twin(b, i);
  }

  /** Listed, and under no other name. */
  predicate UniquelyNamed(chans: seq<Channel>, id: int, name: string) {
    Listed(chans, id) && NamedOnly(chans, id, name)
  }

  predicate NamedOnly(chans: seq<Channel>, id: int, name: string) {
    forall c <- chans :: c.id == id ==> c.name == name
  }
}

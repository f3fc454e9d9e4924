/** The Receive plugin's ports (plugins/wail_recv.c, mgr_main): which Link Audio channel each of its slots carries, over
    any sequence of discovery polls. */
module SlotTable {
  const SLOTS := 16
  const GONE_POLLS := 6
  const ROOM_PREFIX := "WAIL \U{00B7} "

  /** A discovered channel; `opens` says whether subscribing to it would succeed just now. */
  datatype Channel = Channel(id: int, name: string, opens: bool)

  datatype Slot = Slot(taken: bool, id: int, name: string)

  const FREED := Slot(false, 0, "")

  datatype Table = Table(slots: seq<Slot>, miss: seq<nat>)

  predicate InRoom(c: Channel) {
    ROOM_PREFIX <= c.name
  }

  predicate Listed(chans: seq<Channel>, id: int) {
    exists c <- chans :: c.id == id
  }

  predicate Sized(t: Table) {
    |t.slots| == SLOTS && |t.miss| == SLOTS
  }

  // ---------------------------------------------------------------- the three passes of a poll

  function Missed(t: Table, chans: seq<Channel>, i: nat): nat
    requires i < |t.slots| && i < |t.miss|
  {
    if !t.slots[i].taken then t.miss[i] else if Listed(chans, t.slots[i].id) then 0 else t.miss[i] + 1
  }

  /** A slot's channel has been missing long enough. */
  predicate Gone(t: Table, chans: seq<Channel>, i: nat)
    requires i < |t.slots| && i < |t.miss|
  {
    t.slots[i].taken && Missed(t, chans, i) >= GONE_POLLS
  }

  /** First pass: free the slots whose channel is gone. */
  function Aged(t: Table, chans: seq<Channel>): (r: Table)
    requires Sized(t)
    ensures Sized(r)
    ensures forall i :: 0 <= i < SLOTS ==> r.slots[i] == if Gone(t, chans, i) then FREED else t.slots[i]
    ensures forall i :: 0 <= i < SLOTS ==> r.miss[i] == if Gone(t, chans, i) then 0 else Missed(t, chans, i)
  {
    Table(seq(SLOTS, i requires 0 <= i < SLOTS => if Gone(t, chans, i) then FREED else t.slots[i]),
          seq(SLOTS, i requires 0 <= i < SLOTS => if Gone(t, chans, i) then 0 else Missed(t, chans, i)))
  }

  /** The first slot from i on that satisfies a test. */
  function FirstFrom(slots: seq<Slot>, i: nat, want: Slot -> bool): (k: nat)
    requires i <= |slots|
    ensures i <= k <= |slots|
    ensures forall j :: i <= j < k ==> !want(slots[j])
    ensures k < |slots| ==> want(slots[k])
    decreases |slots| - i
  {
    if i == |slots| || want(slots[i]) then i else FirstFrom(slots, i + 1, want)
  }

  function Owner(slots: seq<Slot>, id: int): nat {
    FirstFrom(slots, 0, (s: Slot) => s.taken && s.id == id)
  }

  function FirstFree(slots: seq<Slot>): nat {
    FirstFrom(slots, 0, (s: Slot) => !s.taken)
  }

  predicate Carried(slots: seq<Slot>, name: string) {
    exists s <- slots :: s.taken && s.name == name
  }

  /** Second pass, one channel: relabel the slot that carries it, or give it the first free one unless its name is
      already carried. */
  function Placed(slots: seq<Slot>, c: Channel): (r: seq<Slot>)
    ensures |r| == |slots|
  {
    if !InRoom(c) then slots else
      var o := Owner(slots, c.id);
      if o < |slots| then slots[o := slots[o].(name := c.name)]
      else if Carried(slots, c.name) then slots
      else
        var f := FirstFree(slots);
        if f < |slots| then slots[f := Slot(c.opens, c.id, c.name)] else slots
  }

  function PlacedAll(slots: seq<Slot>, chans: seq<Channel>): (r: seq<Slot>)
    ensures |r| == |slots|
    decreases |chans|
  {
    if chans == [] then slots else Placed(PlacedAll(slots, chans[..|chans| - 1]), chans[|chans| - 1])
  }

  /** A lower slot carries the same name. */
  predicate Twin(slots: seq<Slot>, j: nat)
    requires j < |slots|
  {
    slots[j].taken && exists i :: 0 <= i < j && slots[i].taken && slots[i].name == slots[j].name
  }

  /** Third pass: first come, first served by name. */
  function Deduped(t: Table): (r: Table)
    requires Sized(t)
    ensures Sized(r)
    ensures forall i :: 0 <= i < SLOTS ==> r.slots[i] == if Twin(t.slots, i) then FREED else t.slots[i]
    ensures forall i :: 0 <= i < SLOTS ==> r.miss[i] == if Twin(t.slots, i) then 0 else t.miss[i]
  {
    Table(seq(SLOTS, i requires 0 <= i < SLOTS => if Twin(t.slots, i) then FREED else t.slots[i]),
          seq(SLOTS, i requires 0 <= i < SLOTS => if Twin(t.slots, i) then 0 else t.miss[i]))
  }

  /** The table once channels have been placed, before names are reconciled. */
  function Assigned(t: Table, chans: seq<Channel>): (r: Table)
    requires Sized(t)
    ensures Sized(r)
  {
    var a := Aged(t, chans);
    a.(slots := PlacedAll(a.slots, chans))
  }

  function Poll(t: Table, chans: seq<Channel>): (r: Table)
    requires Sized(t)
    ensures Sized(r)
  {
    Deduped(Assigned(t, chans))
  }

  // ---------------------------------------------------------------- the manager thread

  class Manager {
    const slots: array<Slot>
    const miss: array<nat>

    ghost predicate Valid()
      reads this
    {
      slots.Length == SLOTS && miss.Length == SLOTS
    }

    ghost function Value(): (t: Table)
      reads this, slots, miss
      requires Valid()
      ensures Sized(t)
    {
      Table(slots[..], miss[..])
    }

    constructor ()
      ensures Valid() && Value() == Table(seq(SLOTS, _ => FREED), seq(SLOTS, _ => 0))
      ensures fresh(slots) && fresh(miss)
    {
      slots := new Slot[SLOTS](_ => FREED);
      miss := new nat[SLOTS](_ => 0);
    }

    method FreeSlot(i: nat)
      requires Valid() && i < SLOTS
      modifies slots, miss
      ensures slots[..] == old(slots[..])[i := FREED] && miss[..] == old(miss[..])[i := 0]
    {
      slots[i] := FREED;
      miss[i] := 0;
    }

    method Seen(chans: seq<Channel>, id: int) returns (seen: bool)
      ensures seen <==> Listed(chans, id)
    {
      seen := false;
      for c := 0 to |chans|
        invariant seen <==> Listed(chans[..c], id)
      {
        if chans[c].id == id {
          seen := true;
        }
      }
      assert chans[..|chans|] == chans;
    }

    /** First pass: count another miss for every carried channel that is not listed, and let go of those missed long enough. */
    method Age(chans: seq<Channel>)
      requires Valid()
      modifies slots, miss
      ensures Value() == Aged(old(Value()), chans)
    {
      ghost var t := Value();
      for i := 0 to SLOTS
        invariant forall j :: 0 <= j < SLOTS ==> slots[j] == if j < i then Aged(t, chans).slots[j] else t.slots[j]
        invariant forall j :: 0 <= j < SLOTS ==> miss[j] == if j < i then Aged(t, chans).miss[j] else t.miss[j]
      {
        if slots[i].taken {
          var seen := Seen(chans, slots[i].id);
          miss[i] := if seen then 0 else miss[i] + 1;
          if miss[i] >= GONE_POLLS {
            FreeSlot(i);
          }
        }
      }
      assert slots[..] == Aged(t, chans).slots;
      assert miss[..] == Aged(t, chans).miss;
    }

    /** Place one channel. */
    method Assign(c: Channel)
      requires Valid()
      modifies slots
      ensures slots[..] == Placed(old(slots[..]), c)
    {
      if !(ROOM_PREFIX <= c.name) {
        return;
      }
      ghost var s := slots[..];
      var owner := 0;
      while owner < SLOTS && !(slots[owner].taken && slots[owner].id == c.id)
        invariant owner <= SLOTS && slots[..] == s
        invariant Owner(s, c.id) == FirstFrom(s, owner, (s: Slot) => s.taken && s.id == c.id)
      {
        owner := owner + 1;
      }
      if owner < SLOTS {
        if slots[owner].name != c.name {
          slots[owner] := slots[owner].(name := c.name);
        }
        assert slots[..] == s[owner := s[owner].(name := c.name)];
        return;
      }
      var dup := false;
      for i := 0 to SLOTS
        invariant slots[..] == s
        invariant dup <==> Carried(s[..i], c.name)
      {
        if slots[i].taken && slots[i].name == c.name {
          dup := true;
        }
      }
      assert s[..SLOTS] == s;
      if dup {
        return;
      }
      var f := 0;
      while f < SLOTS && slots[f].taken
        invariant f <= SLOTS && slots[..] == s
        invariant FirstFree(s) == FirstFrom(s, f, (s: Slot) => !s.taken)
      {
        f := f + 1;
      }
      if f < SLOTS {
        slots[f] := Slot(c.opens, c.id, c.name);
      }
    }

    /** Free the slots above i that carry its name. */
    method FreeTwins(i: nat)
      requires Valid() && i < SLOTS && slots[i].taken
      modifies slots, miss
      ensures forall j :: 0 <= j < SLOTS ==> slots[j] == if i < j && Same(old(slots[..]), i, j) then FREED else old(slots[j])
      ensures forall j :: 0 <= j < SLOTS ==> miss[j] == if i < j && Same(old(slots[..]), i, j) then 0 else old(miss[j])
    {
      ghost var s, m := slots[..], miss[..];
      for j := i + 1 to SLOTS
        invariant forall k :: 0 <= k < SLOTS ==> slots[k] == if i < k < j && Same(s, i, k) then FREED else s[k]
        invariant forall k :: 0 <= k < SLOTS ==> miss[k] == if i < k < j && Same(s, i, k) then 0 else m[k]
      {
        if slots[j].taken && slots[i].name == slots[j].name {
          FreeSlot(j);
        }
      }
    }

    /** Free every later duplicate of a name. */
    method Reconcile()
      requires Valid()
      modifies slots, miss
      ensures Value() == Deduped(old(Value()))
    {
      ghost var t := Value();
      for i := 0 to SLOTS
        invariant forall j :: 0 <= j < SLOTS ==> slots[j] == if TwinBelow(t.slots, j, i) then FREED else t.slots[j]
        invariant forall j :: 0 <= j < SLOTS ==> miss[j] == if TwinBelow(t.slots, j, i) then 0 else t.miss[j]
      {
        hide TwinBelow;
        ghost var s := slots[..];
        if slots[i].taken {
          FreeTwins(i);
        }
        forall j | 0 <= j < SLOTS
          ensures TwinBelow(t.slots, j, i + 1) <==> TwinBelow(t.slots, j, i) || (s[i].taken && i < j && Same(s, i, j))
        {
          OneMoreSlot(t.slots, s, j, i);
        }
      }
      assert slots[..] == Deduped(t).slots;
      assert miss[..] == Deduped(t).miss;
    }

    /** One discovery poll. */
    method PollOnce(chans: seq<Channel>)
      requires Valid()
      modifies slots, miss
      ensures Value() == Poll(old(Value()), chans)
    {
      Age(chans);
      ghost var a := Value();
      for c := 0 to |chans|
        invariant slots[..] == PlacedAll(a.slots, chans[..c]) && miss[..] == a.miss
      {
        Assign(chans[c]);
        assert chans[..c + 1][..c] == chans[..c];
      }
      assert chans[..|chans|] == chans;
      Reconcile();
    }
  }

  predicate Same(slots: seq<Slot>, i: nat, j: nat)
    requires i < |slots| && j < |slots|
  {
    slots[j].taken && slots[i].name == slots[j].name
  }

  /** Slot j has a twin below both slot i and itself. */
  predicate TwinBelow(slots: seq<Slot>, j: nat, i: nat)
    requires j < |slots|
  {
    slots[j].taken && exists m :: 0 <= m < i && m < j && slots[m].taken && slots[m].name == slots[j].name
  }

  lemma OneMoreSlot(t: seq<Slot>, s: seq<Slot>, j: nat, i: nat)
    requires |s| == |t| && j < |t| && i < |t|
    requires forall k :: 0 <= k < |t| ==> s[k] == if TwinBelow(t, k, i) then FREED else t[k]
    ensures TwinBelow(t, j, i + 1) <==> TwinBelow(t, j, i) || (s[i].taken && i < j && Same(s, i, j))
  {
  }

  // ---------------------------------------------------------------- what every poll keeps

  ghost predicate DistinctIds(slots: seq<Slot>) {
    forall i, j :: 0 <= i < j < |slots| && slots[i].taken && slots[j].taken ==> slots[i].id != slots[j].id
  }

  ghost predicate DistinctNames(slots: seq<Slot>) {
    forall i, j :: 0 <= i < j < |slots| && slots[i].taken && slots[j].taken ==> slots[i].name != slots[j].name
  }

  ghost predicate Inv(t: Table) {
    && Sized(t) && DistinctIds(t.slots)
    && forall i :: 0 <= i < SLOTS ==> t.miss[i] < GONE_POLLS && (!t.slots[i].taken ==> t.miss[i] == 0)
  }

  lemma PlacedKeepsIds(slots: seq<Slot>, c: Channel)
    requires DistinctIds(slots)
    ensures DistinctIds(Placed(slots, c))
  {
  }

  lemma {:induction false} PlacedAllKeepsIds(slots: seq<Slot>, chans: seq<Channel>)
    requires DistinctIds(slots)
    ensures DistinctIds(PlacedAll(slots, chans))
    decreases |chans|
  {
    hide Placed;
    if chans != [] {
      PlacedAllKeepsIds(slots, chans[..|chans| - 1]);
      PlacedKeepsIds(PlacedAll(slots, chans[..|chans| - 1]), chans[|chans| - 1]);
    }
  }

  lemma {:induction false} TakenStaysTaken(slots: seq<Slot>, chans: seq<Channel>, i: nat)
    requires i < |slots| && slots[i].taken
    ensures PlacedAll(slots, chans)[i].taken && PlacedAll(slots, chans)[i].id == slots[i].id
    decreases |chans|
  {
    if chans != [] {
      TakenStaysTaken(slots, chans[..|chans| - 1], i);
    }
  }

  /** Ids are always distinct; after every poll names are too. */
  lemma PollKeeps(t: Table, chans: seq<Channel>)
    requires Inv(t)
    ensures Inv(Poll(t, chans)) && DistinctNames(Poll(t, chans).slots)
  {
    hide PlacedAll;
    var a, b, p := Aged(t, chans), Assigned(t, chans), Poll(t, chans);
    assert DistinctIds(a.slots);
    PlacedAllKeepsIds(a.slots, chans);
    forall i | 0 <= i < SLOTS
      ensures p.miss[i] < GONE_POLLS && (!p.slots[i].taken ==> p.miss[i] == 0)
    {
      if a.slots[i].taken {
        TakenStaysTaken(a.slots, chans, i);
      }
    }
    forall i, j | 0 <= i < j < SLOTS && p.slots[i].taken && p.slots[j].taken
      ensures p.slots[i].name != p.slots[j].name
    {
      assert !Twin(b.slots, j) && b.slots[i].taken;
    }
  }

  /** A slot's channel counts as gone exactly at the sixth poll in a row that misses it. */
  lemma GoneAtSixth(t: Table, chans: seq<Channel>, i: nat)
    requires Inv(t) && i < SLOTS && t.slots[i].taken
    ensures Gone(t, chans, i) <==> !Listed(chans, t.slots[i].id) && t.miss[i] == GONE_POLLS - 1
  {
  }

  /** Otherwise the slot is freed exactly when a lower one has come to carry its name. */
  lemma KeptUnlessTwin(t: Table, chans: seq<Channel>, i: nat)
    requires Inv(t) && i < SLOTS && t.slots[i].taken && !Gone(t, chans, i)
    ensures var p := Poll(t, chans).slots[i];
            && (p.taken <==> !Twin(Assigned(t, chans).slots, i))
            && (p.taken ==> p.id == t.slots[i].id)
  {
    hide PlacedAll;
    TakenStaysTaken(Aged(t, chans).slots, chans, i);
  }

  // ---------------------------------------------------------------- runs of polls

  function After(t: Table, polls: seq<seq<Channel>>): (r: Table)
    requires Sized(t)
    ensures Sized(r)
    decreases |polls|
  {
    if polls == [] then t else Poll(After(t, polls[..|polls| - 1]), polls[|polls| - 1])
  }

  lemma {:induction false} RunKeeps(t: Table, polls: seq<seq<Channel>>)
    requires Inv(t)
    ensures Inv(After(t, polls)) && (polls != [] ==> DistinctNames(After(t, polls).slots))
    decreases |polls|
  {
    hide Poll, Inv;
    if polls != [] {
      InvSized(t);
      RunKeeps(t, polls[..|polls| - 1]);
      PollKeeps(After(t, polls[..|polls| - 1]), polls[|polls| - 1]);
    }
  }

  lemma InvSized(t: Table)
    requires Inv(t)
    ensures Sized(t)
  {
  }

  /** A new manager's table. */
  const EMPTY := Table(seq(SLOTS, _ => FREED), seq(SLOTS, _ => 0))

  /** The last k polls all missed an id. */
  predicate MissedBy(polls: seq<seq<Channel>>, k: nat, id: int) {
    k <= |polls| && forall m :: |polls| - k <= m < |polls| ==> !Listed(polls[m], id)
  }

  /** A slot that a poll newly fills carries a channel the poll lists. */
  lemma {:induction false} NewIsListed(slots: seq<Slot>, chans: seq<Channel>, i: nat)
    requires i < |slots| && !slots[i].taken && PlacedAll(slots, chans)[i].taken
    ensures Listed(chans, PlacedAll(slots, chans)[i].id)
    decreases |chans|
  {
    var before, c := chans[..|chans| - 1], chans[|chans| - 1];
    if PlacedAll(slots, before)[i].taken {
      NewIsListed(slots, before, i);
      assert PlacedAll(slots, chans)[i].id == PlacedAll(slots, before)[i].id;
      assert forall d <- before :: d in chans;
    } else {
      assert c in chans && PlacedAll(slots, chans)[i].id == c.id;
    }
  }

  lemma MissStep(b: Table, chans: seq<Channel>, i: nat)
    requires Inv(b) && i < SLOTS && Poll(b, chans).slots[i].taken
    ensures var a := Poll(b, chans);
            || (a.miss[i] == 0 && Listed(chans, a.slots[i].id))
            || (b.slots[i].taken && a.slots[i].id == b.slots[i].id && a.miss[i] == b.miss[i] + 1 && !Listed(chans, b.slots[i].id))
  {
    hide PlacedAll, Listed;
    if b.slots[i].taken && !Gone(b, chans, i) {
      TakenStaysTaken(Aged(b, chans).slots, chans, i);
    } else {
      NewIsListed(Aged(b, chans).slots, chans, i);
    }
  }

  /** The miss counter of a slot is the number of latest polls in a row that missed its channel: those did, and the one
      before them listed it. */
  lemma {:induction false} MissesAreAStreak(polls: seq<seq<Channel>>, i: nat)
    requires i < SLOTS && After(EMPTY, polls).slots[i].taken
    ensures var n, id := After(EMPTY, polls).miss[i], After(EMPTY, polls).slots[i].id;
            n < |polls| && MissedBy(polls, n, id) && Listed(polls[|polls| - 1 - n], id)
    decreases |polls|
  {
    hide Poll, Inv;
    if polls != [] {
      EmptyInv();
      var before, last := polls[..|polls| - 1], polls[|polls| - 1];
      RunKeeps(EMPTY, before);
      var b, a := After(EMPTY, before), After(EMPTY, polls);
      MissStep(b, last, i);
      if a.miss[i] != 0 {
        MissesAreAStreak(before, i);
      }
    }
  }

  lemma EmptyInv()
    ensures Inv(EMPTY)
  {
  }

  /** THE SLOT TABLE. Over any sequence of polls, ids of taken slots are distinct and so, after every poll, are names;
      and a slot that loses its channel does so either after six polls in a row without it, or because a lower slot
      carries the same name. */
  lemma ChannelsAreDroppedForCause(polls: seq<seq<Channel>>, i: nat)
    requires polls != [] && i < SLOTS
    ensures var t := After(EMPTY, polls); DistinctIds(t.slots) && DistinctNames(t.slots)
    ensures var before, last := polls[..|polls| - 1], polls[|polls| - 1];
            var b, a := After(EMPTY, before), After(EMPTY, polls);
            b.slots[i].taken && !(a.slots[i].taken && a.slots[i].id == b.slots[i].id)
            ==> MissedBy(polls, GONE_POLLS, b.slots[i].id) || Twin(Assigned(b, last).slots, i)
  {
    hide Poll;
    EmptyInv();
    var before, last := polls[..|polls| - 1], polls[|polls| - 1];
    RunKeeps(EMPTY, polls);
    RunKeeps(EMPTY, before);
    var b := After(EMPTY, before);
    if b.slots[i].taken {
      GoneAtSixth(b, last, i);
      if Gone(b, last, i) {
        MissesAreAStreak(before, i);
        assert MissedBy(before, GONE_POLLS - 1, b.slots[i].id);
      } else {
        KeptUnlessTwin(b, last, i);
      }
    }
  }

  // ---------------------------------------------------------------- a live channel keeps its port

  /** Link lists each channel once. */
  predicate IdsOnce(chans: seq<Channel>) {
    forall c, d :: 0 <= c < d < |chans| ==> chans[c].id != chans[d].id
  }

  predicate ListedAs(chans: seq<Channel>, id: int, name: string) {
    exists c <- chans :: c.id == id && c.name == name && InRoom(c)
  }

  predicate InRoomById(chans: seq<Channel>, id: int) {
    exists c <- chans :: c.id == id && InRoom(c)
  }

  /** Where each slot's label comes from after the second pass: the list, or, if the list does not have its channel,
      the slot itself as it was. */
  ghost predicate Labelled(s: seq<Slot>, chans: seq<Channel>, r: seq<Slot>, i: nat)
    requires i < |s| == |r|
  {
    r[i].taken ==>
      if InRoomById(chans, r[i].id) then ListedAs(chans, r[i].id, r[i].name) else s[i].taken && r[i] == s[i]
  }

  lemma PlacedLabels(s: seq<Slot>, m: seq<Slot>, chans: seq<Channel>, c: Channel, i: nat)
    requires |m| == |s| && i < |s| && Labelled(s, chans, m, i) && !Listed(chans, c.id) && DistinctIds(m)
    ensures Labelled(s, chans + [c], Placed(m, c), i)
  {
    var all, r := chans + [c], Placed(m, c);
    assert c in all && forall d <- chans :: d in all;
    if r[i].taken {
      if r[i].id == c.id && InRoom(c) {
        assert ListedAs(all, c.id, c.name);
        assert r[i].name == c.name;
      } else {
        assert r[i] == m[i];
        InRoomAppend(chans, c, m[i].id);
        if InRoomById(chans, m[i].id) {
          var d :| d in chans && d.id == m[i].id && d.name == m[i].name && InRoom(d);
          assert d in all;
        }
      }
    }
  }

  lemma InRoomAppend(chans: seq<Channel>, c: Channel, id: int)
    ensures InRoomById(chans + [c], id) <==> InRoomById(chans, id) || (c.id == id && InRoom(c))
  {
    assert c in chans + [c] && forall d <- chans :: d in chans + [c];
  }

  lemma {:induction false} AllLabels(s: seq<Slot>, chans: seq<Channel>, i: nat)
    requires DistinctIds(s) && IdsOnce(chans) && i < |s|
    ensures Labelled(s, chans, PlacedAll(s, chans), i)
    decreases |chans|
  {
    hide Placed;
    if chans != [] {
      var before, c := chans[..|chans| - 1], chans[|chans| - 1];
      AllLabels(s, before, i);
      PlacedAllKeepsIds(s, before);
      PlacedLabels(s, PlacedAll(s, before), before, c, i);
      assert before + [c] == chans;
    }
  }

  /** The listing gives `name` to this one channel. */
  ghost predicate UniquelyListed(chans: seq<Channel>, id: int, name: string) {
    IdsOnce(chans) && ListedAs(chans, id, name) && forall c <- chans :: c.name == name ==> c.id == id
  }

  /** A lower slot still carries `name` for a channel that the listing no longer relabels, and does not age out in this
      very poll. */
  ghost predicate StaleHolder(t: Table, chans: seq<Channel>, i: nat, name: string)
    requires Sized(t) && i < SLOTS
  {
    exists j :: 0 <= j < i && HoldsStale(t, chans, j, name)
  }

  predicate HoldsStale(t: Table, chans: seq<Channel>, j: nat, name: string)
    requires Sized(t) && j < SLOTS
  {
    t.slots[j].taken && t.slots[j].name == name && !InRoomById(chans, t.slots[j].id) && !Gone(t, chans, j)
  }

  /** PORTS ACROSS RENAMES. A live channel listed under a name no other has keeps its port and takes that name, whatever
      it was called before and whatever the others are renamed to (two channels may swap names), if and only if no
      lower slot is left holding that name for a channel that is not listed in the room any more. */
  lemma KeepsPortIff(t: Table, chans: seq<Channel>, i: nat, name: string)
    requires Inv(t) && i < SLOTS && t.slots[i].taken && UniquelyListed(chans, t.slots[i].id, name)
    ensures Sized(t)
    ensures Poll(t, chans).slots[i] == Slot(true, t.slots[i].id, name) <==> !StaleHolder(t, chans, i, name)
    ensures StaleHolder(t, chans, i, name) ==> Poll(t, chans).slots[i] == FREED
  {
    hide PlacedAll, Inv, Gone, Missed, InRoomById, ListedAs;
    InvSized(t);
    var id := t.slots[i].id;
    NotGone(t, chans, i, name);
    var a, b := Aged(t, chans), Assigned(t, chans);
    AgedIds(t, chans);
    AllLabels(a.slots, chans, i);
    TakenStaysTaken(a.slots, chans, i);
    ListedInRoom(chans, id, name);
    OneName(chans, id, b.slots[i].name, name);
    if j :| 0 <= j < i && HoldsStale(t, chans, j, name) {
      TakenStaysTaken(a.slots, chans, j);
      AllLabels(a.slots, chans, j);
      assert Twin(b.slots, i);
    }
    forall j | 0 <= j < i && b.slots[j].taken && b.slots[j].name == name
      ensures HoldsStale(t, chans, j, name)
    {
      AllLabels(a.slots, chans, j);
      PlacedAllKeepsIds(a.slots, chans);
      if InRoomById(chans, b.slots[j].id) {
        NameIsTheChannels(chans, b.slots[j].id, name);
      }
    }
  }

  lemma ListedInRoom(chans: seq<Channel>, id: int, name: string)
    requires ListedAs(chans, id, name)
    ensures InRoomById(chans, id)
  {
  }

  lemma NameIsTheChannels(chans: seq<Channel>, id: int, name: string)
    requires ListedAs(chans, id, name)
    ensures exists c <- chans :: c.id == id && c.name == name
  {
  }

  lemma NotGone(t: Table, chans: seq<Channel>, i: nat, name: string)
    requires Sized(t) && i < SLOTS && ListedAs(chans, t.slots[i].id, name)
    ensures !Gone(t, chans, i)
  {
    var c :| c in chans && c.id == t.slots[i].id && c.name == name;
    assert Listed(chans, t.slots[i].id);
  }

  /** At every poll of the run the channel is listed under a name of its own. */
  ghost predicate StaysListed(polls: seq<seq<Channel>>, id: int, names: seq<string>) {
    |names| == |polls| && forall k :: 0 <= k < |polls| ==> UniquelyListed(polls[k], id, names[k])
  }

  /** Slot i carries the channel after each of the first n polls, under the name it was listed by. */
  ghost predicate CarriesThrough(t: Table, polls: seq<seq<Channel>>, i: nat, id: int, names: seq<string>, n: nat)
    requires Sized(t) && i < SLOTS && n <= |polls| == |names|
  {
    forall k :: 0 <= k < n ==> CarriedAfter(t, polls, i, id, names, k)
  }

  predicate CarriedAfter(t: Table, polls: seq<seq<Channel>>, i: nat, id: int, names: seq<string>, k: nat)
    requires Sized(t) && i < SLOTS && k < |polls| == |names|
  {
    After(t, polls[..k + 1]).slots[i] == Slot(true, id, names[k])
  }

  ghost predicate NeverStale(t: Table, polls: seq<seq<Channel>>, i: nat, names: seq<string>, n: nat)
    requires Sized(t) && i < SLOTS && n <= |polls| == |names|
  {
    forall k :: 0 <= k < n ==> !StaleAt(t, polls, i, names, k)
  }

  ghost predicate StaleAt(t: Table, polls: seq<seq<Channel>>, i: nat, names: seq<string>, k: nat)
    requires Sized(t) && i < SLOTS && k < |polls| == |names|
  {
    StaleHolder(After(t, polls[..k]), polls[k], i, names[k])
  }

  lemma CarriesLast(t: Table, polls: seq<seq<Channel>>, i: nat, id: int, names: seq<string>, n: nat)
    requires Sized(t) && i < SLOTS && n <= |polls| == |names| && t.slots[i].taken && t.slots[i].id == id
    requires CarriesThrough(t, polls, i, id, names, n)
    ensures After(t, polls[..n]).slots[i].taken && After(t, polls[..n]).slots[i].id == id
  {
    hide After;
    if n == 0 {
      NoPolls(t);
      assert polls[..0] == [];
    } else {
      assert CarriedAfter(t, polls, i, id, names, n - 1);
    }
  }

  lemma NoPolls(t: Table)
    requires Sized(t)
    ensures After(t, []) == t
  {
  }

  lemma AfterOne(t: Table, polls: seq<seq<Channel>>, n: nat)
    requires Sized(t) && 0 < n <= |polls|
    ensures After(t, polls[..n]) == Poll(After(t, polls[..n - 1]), polls[n - 1])
  {
    assert polls[..n][..n - 1] == polls[..n - 1];
  }

  lemma OneMorePoll(t: Table, polls: seq<seq<Channel>>, i: nat, id: int, names: seq<string>, n: nat)
    requires Sized(t) && i < SLOTS && 0 < n <= |polls| == |names|
    ensures NeverStale(t, polls, i, names, n) <==> NeverStale(t, polls, i, names, n - 1) && !StaleAt(t, polls, i, names, n - 1)
    ensures CarriesThrough(t, polls, i, id, names, n)
        <==> CarriesThrough(t, polls, i, id, names, n - 1) && CarriedAfter(t, polls, i, id, names, n - 1)
  {
    hide StaleAt, CarriedAfter;
  }

  /** Over a whole run: the channel keeps its port through all its polls and renames if and only if none of them finds
      a lower slot holding its new name for a channel that is gone. */
  lemma {:induction false} PortSurvivesRenamesIff(t: Table, polls: seq<seq<Channel>>, i: nat, names: seq<string>, n: nat)
    requires Inv(t) && i < SLOTS && t.slots[i].taken && StaysListed(polls, t.slots[i].id, names) && n <= |polls|
    ensures Sized(t)
    ensures CarriesThrough(t, polls, i, t.slots[i].id, names, n) <==> NeverStale(t, polls, i, names, n)
    decreases n
  {
    InvSized(t);
    if n > 0 {
      hide Poll, Inv, UniquelyListed, StaleHolder, After;
      var id := t.slots[i].id;
      PortSurvivesRenamesIff(t, polls, i, names, n - 1);
      OneMorePoll(t, polls, i, id, names, n);
      hide CarriesThrough, NeverStale;
      if CarriesThrough(t, polls, i, id, names, n - 1) {
        RunKeeps(t, polls[..n - 1]);
        AfterOne(t, polls, n);
        CarriesLast(t, polls, i, id, names, n - 1);
        KeepsPortIff(After(t, polls[..n - 1]), polls[n - 1], i, names[n - 1]);
      }
    }
  }

  // ---------------------------------------------------------------- the promise the code does not keep

  /** Two polls: both channels are there; then the first one is missing and the second one has taken its name. */
  const NAME_X := ROOM_PREFIX + "x"
  const NAME_Y := ROOM_PREFIX + "y"
  const BOTH := [Channel(1, NAME_X, true), Channel(2, NAME_Y, true)]
  const RENAMED := [Channel(2, NAME_X, true)]

  lemma FirstPoll()
    ensures var t := After(EMPTY, [BOTH]);
            t.slots[0] == Slot(true, 1, NAME_X) && t.slots[1] == Slot(true, 2, NAME_Y) && t.miss[0] == 0
  {
    assert NAME_X[|ROOM_PREFIX|] != NAME_Y[|ROOM_PREFIX|];
    assert [BOTH][..0] == [] && After(EMPTY, [BOTH]) == Poll(EMPTY, BOTH);
    var a := Aged(EMPTY, BOTH).slots;
    assert a == EMPTY.slots;
    assert BOTH[..1] == [BOTH[0]] && BOTH[..1][..0] == [];
    var one := PlacedAll(a, BOTH[..1]);
    assert PlacedAll(a, []) == a;
    assert one == Placed(a, BOTH[0]);
    assert one == a[0 := Slot(true, 1, NAME_X)];
    assert PlacedAll(a, BOTH) == Placed(one, BOTH[1]);
    assert one[1] == FREED && !Carried(one, NAME_Y) && Owner(one, 2) == SLOTS;
    assert FirstFree(one) == 1;
    assert PlacedAll(a, BOTH) == one[1 := Slot(true, 2, NAME_Y)];
  }

  /** The live channel of the name loses its port to a slot whose channel has been missing for one poll. */
  lemma StaleNameFreesTheLiveChannel()
    ensures var t := After(EMPTY, [BOTH]); var u := Poll(t, RENAMED);
            && Inv(t) && t.slots[1] == Slot(true, 2, NAME_Y) && UniquelyListed(RENAMED, 2, NAME_X)
            && u.slots[1] == FREED && u.slots[0] == Slot(true, 1, NAME_X) && !Listed(RENAMED, 1)
  {
    EmptyInv();
    RunKeeps(EMPTY, [BOTH]);
    FirstPoll();
    var t := After(EMPTY, [BOTH]);
    assert RENAMED[0] in RENAMED;
    assert HoldsStale(t, RENAMED, 0, NAME_X);
    KeepsPortIff(t, RENAMED, 1, NAME_X);
    KeptUnlessTwin(t, RENAMED, 0);
    AgedIds(t, RENAMED);
    AllLabels(Aged(t, RENAMED).slots, RENAMED, 0);
    TakenStaysTaken(Aged(t, RENAMED).slots, RENAMED, 0);
  }

  lemma AgedIds(t: Table, chans: seq<Channel>)
    requires Inv(t)
    ensures DistinctIds(Aged(t, chans).slots)
  {
  }

  lemma OneName(chans: seq<Channel>, id: int, x: string, y: string)
    requires IdsOnce(chans) && ListedAs(chans, id, x) && ListedAs(chans, id, y)
    ensures x == y
  {
    var c, d :| 0 <= c < |chans| && 0 <= d < |chans| && chans[c].id == id && chans[c].name == x && chans[d].id == id && chans[d].name == y;
    assert c == d;
  }
}

/** What the transitions of the Trent-selection step promise, round by round,
    and what follows from the way the source resets the step. */
module TrentProperties {
  import opened Options
  import opened Commitment
  import opened AckTable
  import opened Candidates
  import opened TrentSelection

  // ---------------------------------------------------------------------------
  // Round 0

  /** A round-0 message only narrows the list: the new list is the old one with
      elements deleted, holding exactly the old candidates the sender offered.
      The sender's cell is set and a secret drawn earlier is kept. */
  lemma ListRoundNarrows(s: State, c: Roster, keys: seq<nat>, j: nat, secret: nat)
    requires Wf(s, c) && j < |c.parties|
    ensures var r := OnList(s, c, keys, j, secret);
      && IsSubsequence(r.list, s.list)
      && (forall x :: x in r.list <==> x in s.list && x in keys)
      && r.hasSent[0][j]
      && (s.ra.Some? ==> r.ra == s.ra && r.finalNumber == s.finalNumber)
  {
    RetainIsSubsequence(s.list, keys);
  }

  /** Row 0 closes exactly when the sender's cell was the last party cell
      missing; only then are the aggregate cell and the own cell of row 1 set
      and G^ra mod P broadcast under round "1". */
  lemma ListRoundCloses(s: State, c: Roster, keys: seq<nat>, j: nat, secret: nat)
    requires Wf(s, c) && j < |c.parties|
    ensures var r := OnList(s, c, keys, j, secret);
      var n := |c.parties|;
      var row := s.hasSent[0][j := true];
      && (ReadyToClose(row, n) ==>
            && r.hasSent == Mark(Mark(Mark(s.hasSent, 0, j), 0, n), 1, c.self)
            && r.ra.Some?
            && r.outbox == s.outbox + [Commit(ModPow(G, r.ra.value, P))])
      && (!ReadyToClose(row, n) ==> r.hasSent == Mark(s.hasSent, 0, j) && r.outbox == s.outbox)
  {
    ClosesIff(s.hasSent[0][j := true], |c.parties|);
  }

  /** The same list from the same sender a second time changes nothing: the
      intersection is idempotent and the cell is already set. */
  lemma ListRepeatHarmless(s: State, c: Roster, keys: seq<nat>, j: nat, x: nat, y: nat)
    requires Wf(s, c) && j < |c.parties|
    ensures var r := OnList(s, c, keys, j, x);
      OnList(r, c, keys, j, y) == r
  {
    var n := |c.parties|;
    var r := OnList(s, c, keys, j, x);
    ListRoundNarrows(s, c, keys, j, x);
    ListRoundCloses(s, c, keys, j, x);
    RetainIdempotent(s.list, keys);
    if ReadyToClose(s.hasSent[0][j := true], n) {
      assert r.hasSent[0][n];
    }
    ClosesIff(r.hasSent[0], n);
    ListRoundFixedPoint(r, c, keys, j, y);
  }

  lemma ListRoundFixedPoint(r: State, c: Roster, keys: seq<nat>, j: nat, y: nat)
    requires Wf(r, c) && j < |c.parties| && r.ra.Some?
    requires Retain(r.list, keys) == r.list && r.hasSent[0][j]
    requires IndexOfUnset(r.hasSent[0]) != |c.parties|
    ensures OnList(r, c, keys, j, y) == r
  {
    assert Draw(r, y) == r;
    assert r.hasSent[0][j := true] == r.hasSent[0];
    assert Mark(r.hasSent, 0, j) == r.hasSent;
  }

  // ---------------------------------------------------------------------------
  // Round 1

  /** A commitment is recorded only from a sender not heard before in this
      round, overwriting the one kept so far. Row 1 closes exactly when the
      sender's cell was the last party cell missing; then grba is the kept
      commitment raised to ra and ra is broadcast under round "2", unless one
      of the two is missing. */
  lemma CommitRound(s: State, c: Roster, v: nat, j: nat)
    requires Wf(s, c) && j < |c.parties|
    ensures var r := OnCommit(s, c, v, j);
      var grb := if s.hasSent[1][j] then s.grb else Some(v);
      var closes := ReadyToClose(s.hasSent[1][j := true], |c.parties|);
      && r.0.grb == grb && r.0.hasSent[1][j]
      && (!closes ==> r.1 == Ok && r.0.outbox == s.outbox && r.0.grba == s.grba)
      && (closes ==> |c.parties| < |r.0.hasSent[1]| && r.0.hasSent[1][|c.parties|])
      && (closes && grb.Some? && s.ra.Some? ==>
            && r.1 == Ok
            && r.0.grba == Some(ModPow(grb.value, s.ra.value, P))
            && r.0.hasSent[2][c.self]
            && r.0.outbox == s.outbox + [Reveal(s.ra.value)])
      && (closes && (grb.None? || s.ra.None?) ==> r.1 == MissingValue && r.0.outbox == s.outbox)
  {
    var row := s.hasSent[1][j := true];
    ClosesIff(row, |c.parties|);
    if s.hasSent[1][j] {
      assert row == s.hasSent[1];
    }
  }

  // ---------------------------------------------------------------------------
  // Round 2

  /** A revealed secret is used only from a sender not heard before in this
      round: grab becomes gra raised to it and finalNumber becomes ra plus it,
      overwriting any earlier sum. Without gra the call fails after setting the
      cell. While row 2 does not close nothing is broadcast. */
  lemma RevealRound(s: State, c: Roster, rb: nat, j: nat, secret: nat)
    requires Wf(s, c) && j < |c.parties|
    ensures var r := OnReveal(s, c, rb, j, secret);
      var n := |c.parties|;
      && (!s.hasSent[2][j] && s.gra.None? ==>
            r.1 == MissingValue && r.0.hasSent[2][j] && r.0.outbox == s.outbox && r.0.grab == s.grab)
      && (!s.hasSent[2][j] && s.gra.Some? ==>
            r.0.grab == Some(ModPow(s.gra.value, rb, P)) && r.0.finalNumber == Some(s.ra.value + rb))
      && (s.hasSent[2][j] ==> r.0.grab == s.grab && r.0.finalNumber == s.finalNumber)
      && ((s.hasSent[2][j] || s.gra.Some?) && !ReadyToClose(s.hasSent[2][j := true], n) ==>
            r.1 == Ok && r.0.outbox == s.outbox && r.0.list == s.list)
  {
    var row := s.hasSent[2][j := true];
    ClosesIff(row, |c.parties|);
    if s.hasSent[2][j] {
      assert row == s.hasSent[2];
    }
  }

  /** When the counterpart committed to G^b mod P and then reveals b, the two
      shared values the step compares at the end of round 2 agree. */
  lemma HonestRevealMatches(s: State, c: Roster, b: nat, j: nat, secret: nat)
    requires Wf(s, c) && j < |c.parties| && !s.hasSent[2][j]
    requires s.ra.Some? && s.grba == Some(ModPow(ModPow(G, b, P), s.ra.value, P))
    ensures var r := OnReveal(s, c, b, j, secret);
      r.0.grab.Some? && r.0.grab == r.0.grba
  {
    SharedValueAgrees(s.ra.value, b);
  }

  /** The end of round 2 when the shared values agree and a candidate is left:
      the list is sorted by key, the candidate at finalNumber mod |list| is
      picked and broadcast under round "3". The Trent held so far is adopted if
      there is none; if it differs from the pick the step resets. */
  lemma TrentChosen(s: State, c: Roster, secret: nat)
    requires Wf(s, c) && Width(s) == |c.parties| + 1
    requires s.grab.Some? && s.grab == s.grba && s.list != []
    ensures var r := CloseReveal(s, c, secret);
      var sorted := SortedKeys(s.list);
      && |sorted| == |s.list| && s.finalNumber.Some?
      && var pick := sorted[s.finalNumber.value % |s.list|];
      && pick in s.list && Ascending(sorted) && r.1 == Ok
      && (s.trent.None? || s.trent == Some(pick) ==>
            && r.0.trent == Some(pick) && r.0.list == sorted
            && r.0.hasSent == Mark(Mark(s.hasSent, 2, |c.parties|), 3, c.self)
            && r.0.outbox == s.outbox + [Confirm(pick)])
      && (s.trent.Some? && s.trent != Some(pick) ==>
            && r.0.trent == None && r.0.list == sorted
            && r.0.hasSent == Mark(Cleared(|c.parties|), 0, c.self)
            && r.0.outbox == s.outbox + [Confirm(pick), Lists(sorted)])
  {
    var sorted := SortedKeys(s.list);
    assert |sorted| == |multiset(sorted)| == |multiset(s.list)| == |s.list|;
    SortedSameKeys(s.list);
  }

  /** Shared values that disagree reset the step; the secret and the (now
      sorted) list survive and the list is broadcast again. */
  lemma MismatchRestarts(s: State, c: Roster, secret: nat)
    requires Wf(s, c) && Width(s) == |c.parties| + 1
    requires s.grab.Some? && s.grba.Some? && s.grab != s.grba
    ensures var r := CloseReveal(s, c, secret);
      && r.1 == Ok && r.0.trent == None && r.0.ra == s.ra
      && r.0.list == SortedKeys(s.list)
      && r.0.hasSent == Mark(Cleared(|c.parties|), 0, c.self)
      && r.0.outbox == s.outbox + [Lists(SortedKeys(s.list))]
  {
  }

  /** With no candidate left the step picks nothing: nothing is broadcast, row 3
      and the Trent held are untouched, and the step waits. */
  lemma EmptyListStalls(s: State, c: Roster, secret: nat)
    requires Wf(s, c) && Width(s) == |c.parties| + 1
    requires s.grab.Some? && s.grab == s.grba && s.list == []
    ensures var r := CloseReveal(s, c, secret);
      && r.1 == Ok && r.0.outbox == s.outbox && r.0.trent == s.trent
      && r.0.hasSent == Mark(s.hasSent, 2, |c.parties|)
  {
  }

  // ---------------------------------------------------------------------------
  // Round 3

  /** The first Trent reported is adopted with no further check; a report equal
      to the Trent held sets the sender's cell and completes the step exactly
      when that was the last party cell missing; a different report resets the
      step. Adopting or confirming never changes the round. */
  lemma ConfirmRound(s: State, c: Roster, key: nat, j: nat, secret: nat)
    requires Wf(s, c) && j < |c.parties|
    ensures var r := OnConfirm(s, c, key, j, secret);
      var n := |c.parties|;
      && (s.trent.None? ==>
            && r.trent == Some(key) && r.hasSent == Mark(s.hasSent, 3, j)
            && r.completed == s.completed && r.outbox == s.outbox)
      && (s.trent == Some(key) ==>
            && r.trent == s.trent && r.outbox == s.outbox && r.hasSent[3][j]
            && (r.completed <==> s.completed || ReadyToClose(s.hasSent[3][j := true], n)))
      && (s.trent.None? || s.trent == Some(key) ==> RoundOf(r.hasSent) == RoundOf(s.hasSent))
      && (s.trent.Some? && s.trent != Some(key) ==>
            && r.trent == None && r.hasSent == Mark(Cleared(n), 0, c.self)
            && r.completed == s.completed && r.outbox == s.outbox + [Lists(s.list)])
  {
    var r := OnConfirm(s, c, key, j, secret);
    ClosesIff(s.hasSent[3][j := true], |c.parties|);
    if s.trent.None? || s.trent == Some(key) {
      assert r.hasSent == s.hasSent[3 := r.hasSent[3]];
      RoundIgnoresRow3(s.hasSent, r.hasSent[3]);
    }
  }

  // ---------------------------------------------------------------------------
  // The listener

  /** A sender outside the contract is rejected without any change; a message
      whose round row is already full, or whose round no branch handles, is
      ignored. */
  lemma NotifyGuards(s: State, c: Roster, msg: Message, senderId: nat, secret: nat)
    requires Wf(s, c)
    ensures var r := OnMessage(s, c, msg, senderId, secret);
      && (r.1 == UnknownSender <==> senderId !in c.parties)
      && (senderId !in c.parties ==> r.0 == s)
      && (msg.Unrecognised? ==> r.0 == s && r.1 != MissingValue)
      && (Tag(msg) < 4 && Full(s.hasSent[Tag(msg)]) ==> r.0 == s && r.1 != MissingValue)
  {
  }

  // ---------------------------------------------------------------------------
  // Resets

  /** A reset leaves rows of N cells with only the own cell of row 0 set: the
      round is 0 again unless this is the only party. */
  lemma ResetRound(s: State, c: Roster, secret: nat)
    requires Wf(s, c)
    ensures var r := Restart(s, c, secret);
      && Width(r) == |c.parties|
      && (RoundOf(r.hasSent) == 0 <==> |c.parties| > 1)
  {
    var r := Restart(s, c, secret);
    if |c.parties| > 1 {
      var other := if c.self == 0 then 1 else 0;
      assert !r.hasSent[0][other];
    }
  }

  /** After a reset every row has N cells, so no round-completion test
      (`indexOf(null) == N`) can pass again: a message neither completes the
      step nor broadcasts anything but the candidate list. */
  lemma ShrunkRowsStall(s: State, c: Roster, msg: Message, senderId: nat, secret: nat)
    requires Wf(s, c) && Width(s) == |c.parties|
    ensures var r := OnMessage(s, c, msg, senderId, secret);
      && Width(r.0) == |c.parties| && r.0.completed == s.completed
      && (r.0.outbox == s.outbox || r.0.outbox == s.outbox + [Lists(s.list)])
  {
    match PartyIndex(c.parties, senderId)
    case None =>
    case Some(j) =>
      match msg
      case Lists(keys) => ShrunkListRound(s, c, keys, j, secret);
      case Commit(v) => ShrunkCommitRound(s, c, v, j);
      case Reveal(v) => ShrunkRevealRound(s, c, v, j, secret);
      case Confirm(key) => ShrunkConfirmRound(s, c, key, j, secret);
      case Unrecognised =>
  }

  lemma ShrunkListRound(s: State, c: Roster, keys: seq<nat>, j: nat, secret: nat)
    requires Wf(s, c) && Width(s) == |c.parties| && j < |c.parties|
    ensures var r := OnList(s, c, keys, j, secret);
      Width(r) == |c.parties| && r.completed == s.completed && r.outbox == s.outbox
  {
    var d := Draw(s, secret);
    ShrunkRowNeverCloses(Mark(d.hasSent, 0, j)[0], |c.parties|);
  }

  lemma ShrunkCommitRound(s: State, c: Roster, v: nat, j: nat)
    requires Wf(s, c) && Width(s) == |c.parties| && j < |c.parties|
    ensures var r := OnCommit(s, c, v, j);
      Width(r.0) == |c.parties| && r.0.completed == s.completed && r.0.outbox == s.outbox
  {
    var t := if s.hasSent[1][j] then s else s.(hasSent := Mark(s.hasSent, 1, j), grb := Some(v));
    ShrunkRowNeverCloses(t.hasSent[1], |c.parties|);
  }

  lemma ShrunkRevealRound(s: State, c: Roster, rb: nat, j: nat, secret: nat)
    requires Wf(s, c) && Width(s) == |c.parties| && j < |c.parties|
    ensures var r := OnReveal(s, c, rb, j, secret);
      Width(r.0) == |c.parties| && r.0.completed == s.completed && r.0.outbox == s.outbox
  {
    ShrunkRowNeverCloses(Mark(s.hasSent, 2, j)[2], |c.parties|);
    ShrunkRowNeverCloses(s.hasSent[2], |c.parties|);
  }

  lemma ShrunkConfirmRound(s: State, c: Roster, key: nat, j: nat, secret: nat)
    requires Wf(s, c) && Width(s) == |c.parties| && j < |c.parties|
    ensures var r := OnConfirm(s, c, key, j, secret);
      && Width(r) == |c.parties| && r.completed == s.completed
      && (r.outbox == s.outbox || r.outbox == s.outbox + [Lists(s.list)])
  {
    ShrunkRowNeverCloses(Mark(s.hasSent, 3, j)[3], |c.parties|);
  }

  /** One message delivered to the listener, with the secret a draw would
      produce at that moment. */
  datatype Delivery = Delivery(msg: Message, sender: nat, secret: nat)

  /** The state after the listener has handled `inbox` in order. */
  function Deliver(s: State, c: Roster, inbox: seq<Delivery>): (r: State)
    requires Wf(s, c)
    ensures Wf(r, c)
    decreases |inbox|
  {
    if inbox == [] then s
    else
      var d := inbox[0];
      Deliver(OnMessage(s, c, d.msg, d.sender, d.secret).0, c, inbox[1..])
  }

  /** Once reset, the step never completes, whatever arrives: the rows stay N
      wide and everything broadcast afterwards is a candidate list. */
  lemma {:induction false} StalledForever(s: State, c: Roster, inbox: seq<Delivery>)
    requires Wf(s, c) && Width(s) == |c.parties|
    ensures var r := Deliver(s, c, inbox);
      && Width(r) == |c.parties| && r.completed == s.completed
      && |s.outbox| <= |r.outbox| && r.outbox[..|s.outbox|] == s.outbox
      && (forall i :: |s.outbox| <= i < |r.outbox| ==> r.outbox[i].Lists?)
    decreases |inbox|
  {
    if inbox != [] {
      var d := inbox[0];
      var t := OnMessage(s, c, d.msg, d.sender, d.secret).0;
      ShrunkRowsStall(s, c, d.msg, d.sender, d.secret);
      StalledForever(t, c, inbox[1..]);
      var r := Deliver(t, c, inbox[1..]);
      assert r == Deliver(s, c, inbox);
      assert r.outbox[..|t.outbox|] == t.outbox;
      assert t.outbox[..|s.outbox|] == s.outbox;
      forall i | |s.outbox| <= i < |t.outbox|
        ensures r.outbox[i].Lists?
      {
        assert r.outbox[i] == t.outbox[i];
      }
    }
  }

  // ---------------------------------------------------------------------------
  // Two honest parties

  /** Row patterns of a two-party contract (three cells: two parties and the
      aggregate cell). */
  function OwnOnly(self: nat): seq<bool> { if self == 0 then [true, false, false] else [false, true, false] }
  function BothParties(): seq<bool> { [true, true, false] }
  function AllSet(): seq<bool> { [true, true, true] }
  function NoneSet(): seq<bool> { [false, false, false] }

  /** A list from a new sender that fills the last party cell of row 0, once
      the secret is drawn: the list is narrowed, row 0 closes and G^ra mod P is
      broadcast. */
  lemma ListCloses(s: State, c: Roster, keys: seq<nat>, j: nat, secret: nat)
    requires Wf(s, c) && j < |c.parties| && s.ra.Some?
    requires ReadyToClose(s.hasSent[0][j := true], |c.parties|)
    ensures OnList(s, c, keys, j, secret)
      == s.(list := Retain(s.list, keys),
            hasSent := Mark(Mark(Mark(s.hasSent, 0, j), 0, |c.parties|), 1, c.self),
            outbox := s.outbox + [Commit(s.gra.value)])
  {
    ClosesIff(s.hasSent[0][j := true], |c.parties|);
  }

  /** A commitment from a new sender that fills the last party cell of row 1:
      grb is the commitment, grba is it raised to ra, and ra is broadcast. */
  lemma CommitCloses(s: State, c: Roster, v: nat, j: nat)
    requires Wf(s, c) && j < |c.parties| && !s.hasSent[1][j] && s.ra.Some?
    requires ReadyToClose(s.hasSent[1][j := true], |c.parties|)
    ensures OnCommit(s, c, v, j)
      == (s.(grb := Some(v), grba := Some(ModPow(v, s.ra.value, P)),
             hasSent := Mark(Mark(Mark(s.hasSent, 1, j), 1, |c.parties|), 2, c.self),
             outbox := s.outbox + [Reveal(s.ra.value)]), Ok)
  {
    ClosesIff(s.hasSent[1][j := true], |c.parties|);
  }

  /** A confirmation of the Trent held, filling the last party cell of row 3:
      the step completes. */
  lemma ConfirmCloses(s: State, c: Roster, j: nat, z: nat)
    requires Wf(s, c) && j < |c.parties| && s.trent.Some?
    requires ReadyToClose(s.hasSent[3][j := true], |c.parties|)
    ensures OnConfirm(s, c, s.trent.value, j, z)
      == s.(hasSent := Mark(Mark(s.hasSent, 3, j), 3, |c.parties|), completed := true)
  {
    ClosesIff(s.hasSent[3][j := true], |c.parties|);
  }

  /** The counterpart's list arrives after this party sent its own: row 0
      closes and G^ra mod P is committed. */
  lemma PairListStage(s: State, c: Roster, lB: seq<nat>, z: nat)
    requires Wf(s, c) && PairRoster(c)
    requires s.hasSent == [OwnOnly(c.self), NoneSet(), NoneSet(), NoneSet()] && s.ra.Some?
    ensures OnMessage(s, c, Lists(lB), c.parties[1 - c.self], z)
      == (s.(list := Retain(s.list, lB), hasSent := [AllSet(), OwnOnly(c.self), NoneSet(), NoneSet()],
             outbox := s.outbox + [Commit(s.gra.value)]), Ok)
  {
    PairRouted(s, c, Lists(lB), z);
    ListRows(s.hasSent, c.self);
    ListCloses(s, c, lB, 1 - c.self, z);
  }

  lemma ListRows(rows: seq<seq<bool>>, self: nat)
    requires self < 2 && rows == [OwnOnly(self), NoneSet(), NoneSet(), NoneSet()]
    ensures rows[0][1 - self := true] == BothParties() && ReadyToClose(BothParties(), 2)
    ensures Mark(Mark(Mark(rows, 0, 1 - self), 0, 2), 1, self) == [AllSet(), OwnOnly(self), NoneSet(), NoneSet()]
  {
    PairRows(self);
    assert Mark(rows, 0, 1 - self) == [BothParties(), NoneSet(), NoneSet(), NoneSet()];
    assert Mark(Mark(rows, 0, 1 - self), 0, 2) == [AllSet(), NoneSet(), NoneSet(), NoneSet()];
  }

  /** The counterpart's commitment arrives: row 1 closes, grba is the
      commitment raised to ra and ra is revealed. */
  lemma PairCommitStage(s: State, c: Roster, v: nat, z: nat)
    requires Wf(s, c) && PairRoster(c)
    requires s.hasSent == [AllSet(), OwnOnly(c.self), NoneSet(), NoneSet()] && s.ra.Some?
    ensures OnMessage(s, c, Commit(v), c.parties[1 - c.self], z)
      == (s.(grb := Some(v), grba := Some(ModPow(v, s.ra.value, P)),
             hasSent := [AllSet(), AllSet(), OwnOnly(c.self), NoneSet()],
             outbox := s.outbox + [Reveal(s.ra.value)]), Ok)
  {
    PairRouted(s, c, Commit(v), z);
    CommitRows(s.hasSent, c.self);
    CommitCloses(s, c, v, 1 - c.self);
  }

  lemma CommitRows(rows: seq<seq<bool>>, self: nat)
    requires self < 2 && rows == [AllSet(), OwnOnly(self), NoneSet(), NoneSet()]
    ensures rows[1][1 - self := true] == BothParties() && ReadyToClose(BothParties(), 2)
    ensures Mark(Mark(Mark(rows, 1, 1 - self), 1, 2), 2, self) == [AllSet(), AllSet(), OwnOnly(self), NoneSet()]
  {
    PairRows(self);
    assert Mark(rows, 1, 1 - self) == [AllSet(), BothParties(), NoneSet(), NoneSet()];
    assert Mark(Mark(rows, 1, 1 - self), 1, 2) == [AllSet(), AllSet(), NoneSet(), NoneSet()];
  }

  /** In a two-party contract a message from the other party reaches the
      branch of its round while that round's row has its aggregate cell unset. */
  lemma PairRouted(s: State, c: Roster, msg: Message, z: nat)
    requires Wf(s, c) && PairRoster(c) && Tag(msg) < 4
    requires |s.hasSent[Tag(msg)]| == 3 && !s.hasSent[Tag(msg)][2]
    ensures var other := 1 - c.self;
      var r := OnMessage(s, c, msg, c.parties[other], z);
      && (msg.Lists? ==> r == (OnList(s, c, msg.keys, other, z), Ok))
      && (msg.Commit? ==> r == OnCommit(s, c, msg.value, other))
      && (msg.Reveal? ==> r == OnReveal(s, c, msg.value, other, z))
      && (msg.Confirm? ==> r == (OnConfirm(s, c, msg.key, other, z), Ok))
  {
    assert PartyIndex(c.parties, c.parties[1 - c.self]) == Some(1 - c.self);
    assert IndexOfUnset(s.hasSent[Tag(msg)]) != -1;
  }

  /** The row arithmetic of a two-party round: the other party's cell and then
      the aggregate cell fill a row holding only the own cell, and marking the
      own cell of an empty row gives a row holding only it. */
  lemma PairRows(self: nat)
    requires self < 2
    ensures OwnOnly(self)[1 - self := true] == BothParties()
    ensures BothParties()[2 := true] == AllSet()
    ensures NoneSet()[self := true] == OwnOnly(self)
  {
  }

  /** The counterpart's secret arrives: row 2 closes and, the shared values
      agreeing, the sorted list's candidate at (ra + rb) mod |list| becomes
      Trent and is broadcast. */
  lemma PairRevealStage(s: State, c: Roster, b: nat, z: nat, list: seq<nat>, fin: nat)
    requires Wf(s, c) && PairRoster(c)
    requires s.hasSent == [AllSet(), AllSet(), OwnOnly(c.self), NoneSet()] && s.ra.Some?
    requires s.grba == Some(ModPow(ModPow(G, b, P), s.ra.value, P))
    requires s.trent.None? && s.list == list && list != [] && fin == s.ra.value + b
    ensures var r := OnMessage(s, c, Reveal(b), c.parties[1 - c.self], z);
      var sorted := SortedKeys(list);
      && |sorted| == |list|
      && r.1 == Ok
      && r.0.hasSent == [AllSet(), AllSet(), AllSet(), OwnOnly(c.self)]
      && r.0.trent.Some? && r.0.trent.value == Pick(fin, sorted)
      && r.0.outbox == s.outbox + [Confirm(Pick(fin, sorted))]
      && r.0.completed == s.completed
  {
    var u := s.(hasSent := [AllSet(), AllSet(), BothParties(), NoneSet()],
                grab := s.grba, finalNumber := Some(s.ra.value + b));
    PairRevealOpens(s, c, b, z);
    PairCloseStage(u, c, z, list, fin);
  }

  lemma PairRevealOpens(s: State, c: Roster, b: nat, z: nat)
    requires Wf(s, c) && PairRoster(c)
    requires s.hasSent == [AllSet(), AllSet(), OwnOnly(c.self), NoneSet()] && s.ra.Some?
    requires s.grba == Some(ModPow(ModPow(G, b, P), s.ra.value, P))
    ensures var u := s.(hasSent := [AllSet(), AllSet(), BothParties(), NoneSet()],
                        grab := s.grba, finalNumber := Some(s.ra.value + b));
      && Wf(u, c) && Width(u) == 3
      && OnMessage(s, c, Reveal(b), c.parties[1 - c.self], z) == CloseReveal(u, c, z)
  {
    PairRouted(s, c, Reveal(b), z);
    RevealRows(s.hasSent, c.self);
    RevealCloses(s, c, b, 1 - c.self, z);
    SharedValueAgrees(s.ra.value, b);
  }

  lemma RevealRows(rows: seq<seq<bool>>, self: nat)
    requires self < 2 && rows == [AllSet(), AllSet(), OwnOnly(self), NoneSet()]
    ensures rows[2][1 - self := true] == BothParties() && ReadyToClose(BothParties(), 2)
    ensures Mark(rows, 2, 1 - self) == [AllSet(), AllSet(), BothParties(), NoneSet()]
  {
    PairRows(self);
  }

  /** A reveal from a new sender that fills the last party cell of row 2 hands
      over to the end of round 2. */
  lemma RevealCloses(s: State, c: Roster, rb: nat, j: nat, z: nat)
    requires Wf(s, c) && j < |c.parties| && !s.hasSent[2][j] && s.gra.Some?
    requires ReadyToClose(s.hasSent[2][j := true], |c.parties|)
    ensures var u := s.(hasSent := Mark(s.hasSent, 2, j),
                        grab := Some(ModPow(s.gra.value, rb, P)),
                        finalNumber := Some(s.ra.value + rb));
      && Wf(u, c) && Width(u) == |c.parties| + 1
      && OnReveal(s, c, rb, j, z) == CloseReveal(u, c, z)
  {
    var rows := Mark(s.hasSent, 2, j);
    assert rows[2] == s.hasSent[2][j := true];
    ClosesIff(rows[2], |c.parties|);
  }

  lemma PairCloseStage(u: State, c: Roster, z: nat, list: seq<nat>, fin: nat)
    requires Wf(u, c) && |c.parties| == 2
    requires u.hasSent == [AllSet(), AllSet(), BothParties(), NoneSet()]
    requires u.grab.Some? && u.grab == u.grba && u.trent.None?
    requires u.list == list && list != [] && u.finalNumber == Some(fin)
    ensures var r := CloseReveal(u, c, z);
      var sorted := SortedKeys(list);
      && |sorted| == |list|
      && r.1 == Ok
      && r.0.hasSent == [AllSet(), AllSet(), AllSet(), OwnOnly(c.self)]
      && r.0.trent.Some? && r.0.trent.value == Pick(fin, sorted)
      && r.0.outbox == u.outbox + [Confirm(Pick(fin, sorted))]
      && r.0.completed == u.completed
  {
    TrentChosen(u, c, z);
    PairRows(c.self);
  }

  /** The counterpart confirms the same Trent: row 3 closes and the step
      completes. */
  lemma PairConfirmStage(s: State, c: Roster, z: nat)
    requires Wf(s, c) && PairRoster(c)
    requires s.hasSent == [AllSet(), AllSet(), AllSet(), OwnOnly(c.self)] && s.trent.Some?
    ensures OnMessage(s, c, Confirm(s.trent.value), c.parties[1 - c.self], z)
      == (s.(hasSent := [AllSet(), AllSet(), AllSet(), AllSet()], completed := true), Ok)
  {
    PairRouted(s, c, Confirm(s.trent.value), z);
    ConfirmRows(s.hasSent, c.self);
    ConfirmCloses(s, c, 1 - c.self, z);
  }

  lemma ConfirmRows(rows: seq<seq<bool>>, self: nat)
    requires self < 2 && rows == [AllSet(), AllSet(), AllSet(), OwnOnly(self)]
    ensures rows[3][1 - self := true] == BothParties() && ReadyToClose(BothParties(), 2)
    ensures Mark(Mark(rows, 3, 1 - self), 3, 2) == [AllSet(), AllSet(), AllSet(), AllSet()]
  {
    PairRows(self);
    assert Mark(rows, 3, 1 - self) == [AllSet(), AllSet(), AllSet(), BothParties()];
  }

  /** What an honest other party sends in a two-party run: its list, its
      commitment G^b mod P and its secret b. */
  function HonestInbox(other: nat, offered: seq<nat>, b: nat, z: nat): seq<Delivery> {
    [Delivery(Lists(offered), other, z)] + ([Delivery(Commit(ModPow(G, b, P)), other, z)] + [Delivery(Reveal(b), other, z)])
  }

  /** A step holding the secret a, no Trent, and nothing from rounds 1 and 2. */
  function Holding(list: seq<nat>, a: nat, rows: seq<seq<bool>>, out: seq<Message>): State {
    State(list, Some(a), Some(ModPow(G, a, P)), None, None, None, Some(a), rows, None, out, false)
  }

  predicate PairRoster(c: Roster) {
    |c.parties| == 2 && c.parties[0] != c.parties[1] && c.self < 2
  }

  /** A two-party step that has broadcast its list, users minus signers, with
      the secret a drawn. */
  function Started(users: seq<nat>, c: Roster, a: nat): State
    requires c.self < 2
  {
    var l := Exclude(users, c.parties);
    Holding(l, a, [OwnOnly(c.self), NoneSet(), NoneSet(), NoneSet()], [Lists(l)])
  }

  /** Started is the state after the constructor and the step's own
      `sendMessage`. */
  lemma PairStart(users: seq<nat>, c: Roster, a: nat)
    requires PairRoster(c)
    ensures Send(Initial(users, c), c, a) == Started(users, c, a)
  {
    var none: seq<bool> := seq(3, _ => false);
    assert none == NoneSet();
    assert Cleared(3) == [none, none, none, none];
    PairRows(c.self);
  }

  lemma PairDeliverList(c: Roster, l: seq<nat>, a: nat, offered: seq<nat>, z: nat, rest: seq<Delivery>)
    requires PairRoster(c) && forall x :: x in l ==> x !in c.parties
    ensures var s := Holding(l, a, [OwnOnly(c.self), NoneSet(), NoneSet(), NoneSet()], [Lists(l)]);
      var t := Holding(Retain(l, offered), a, [AllSet(), OwnOnly(c.self), NoneSet(), NoneSet()],
                       [Lists(l), Commit(ModPow(G, a, P))]);
      && Wf(s, c) && Wf(t, c)
      && Deliver(s, c, [Delivery(Lists(offered), c.parties[1 - c.self], z)] + rest) == Deliver(t, c, rest)
  {
    var s := Holding(l, a, [OwnOnly(c.self), NoneSet(), NoneSet(), NoneSet()], [Lists(l)]);
    var t := Holding(Retain(l, offered), a, [AllSet(), OwnOnly(c.self), NoneSet(), NoneSet()],
                     [Lists(l), Commit(ModPow(G, a, P))]);
    var inbox := [Delivery(Lists(offered), c.parties[1 - c.self], z)] + rest;
    PairListStage(s, c, offered, z);
    assert OnMessage(s, c, Lists(offered), c.parties[1 - c.self], z).0 == t;
    assert inbox[0] == Delivery(Lists(offered), c.parties[1 - c.self], z) && inbox[1..] == rest;
  }

  /** The step in a two-party run once the other party's list and commitment
      are in, waiting for its secret. */
  function AwaitingReveal(c: Roster, k: seq<nat>, a: nat, b: nat, out: seq<Message>): State
    requires c.self < 2
  {
    var gb := ModPow(G, b, P);
    Holding(k, a, [AllSet(), AllSet(), OwnOnly(c.self), NoneSet()], out)
      .(grb := Some(gb), grba := Some(ModPow(gb, a, P)))
  }

  lemma PairDeliverCommit(c: Roster, l: seq<nat>, a: nat, b: nat, out: seq<Message>, z: nat, rest: seq<Delivery>)
    requires PairRoster(c) && forall x :: x in l ==> x !in c.parties
    ensures var s := Holding(l, a, [AllSet(), OwnOnly(c.self), NoneSet(), NoneSet()], out);
      var t := AwaitingReveal(c, l, a, b, out + [Reveal(a)]);
      && Wf(s, c) && Wf(t, c)
      && Deliver(s, c, [Delivery(Commit(ModPow(G, b, P)), c.parties[1 - c.self], z)] + rest) == Deliver(t, c, rest)
  {
    var s := Holding(l, a, [AllSet(), OwnOnly(c.self), NoneSet(), NoneSet()], out);
    PairCommitStage(s, c, ModPow(G, b, P), z);
    assert ([Delivery(Commit(ModPow(G, b, P)), c.parties[1 - c.self], z)] + rest)[1..] == rest;
  }

  lemma PairDeliverReveal(c: Roster, l: seq<nat>, a: nat, b: nat, out: seq<Message>, z: nat)
    requires PairRoster(c) && (forall x :: x in l ==> x !in c.parties) && l != []
    ensures var s := AwaitingReveal(c, l, a, b, out);
      var sorted := SortedKeys(l);
      && Wf(s, c) && |sorted| == |l|
      && var pick := Pick(a + b, sorted);
      && var r := Deliver(s, c, [Delivery(Reveal(b), c.parties[1 - c.self], z)]);
      && r.hasSent == [AllSet(), AllSet(), AllSet(), OwnOnly(c.self)]
      && r.trent == Some(pick) && r.outbox == out + [Confirm(pick)] && !r.completed
  {
    var s := AwaitingReveal(c, l, a, b, out);
    PairRevealStage(s, c, b, z, l, a + b);
    var d := [Delivery(Reveal(b), c.parties[1 - c.self], z)];
    assert Deliver(s, c, d) == OnMessage(s, c, Reveal(b), c.parties[1 - c.self], z).0 by {
      assert d[1..] == [];
    }
  }

  /** This party's state in an honest two-party run once it has sent its own
      list, drawing a, and received everything the other party sends before
      round 3. */
  function HonestRun(users: seq<nat>, c: Roster, offered: seq<nat>, a: nat, b: nat, z: nat): State
    requires PairRoster(c)
  {
    Deliver(Started(users, c, a), c, HonestInbox(c.parties[1 - c.self], offered, b, z))
  }

  /** Rounds 0 and 1 of an honest two-party run: the list is narrowed to the
      offered keys, and the step has broadcast its list, its commitment and its
      secret. */
  lemma HonestRunReachesReveal(users: seq<nat>, c: Roster, offered: seq<nat>, a: nat, b: nat, z: nat)
    requires PairRoster(c)
    ensures var l := Exclude(users, c.parties);
      HonestRun(users, c, offered, a, b, z)
        == Deliver(AwaitingReveal(c, Retain(l, offered), a, b, [Lists(l), Commit(ModPow(G, a, P))] + [Reveal(a)]),
                   c, [Delivery(Reveal(b), c.parties[1 - c.self], z)])
  {
    var other := c.parties[1 - c.self];
    var l := Exclude(users, c.parties);
    var k := Retain(l, offered);
    var ga, gb := ModPow(G, a, P), ModPow(G, b, P);
    var d1, d2, d3 := Delivery(Lists(offered), other, z), Delivery(Commit(gb), other, z), Delivery(Reveal(b), other, z);
    var s0 := Started(users, c, a);
    var s1 := Holding(k, a, [AllSet(), OwnOnly(c.self), NoneSet(), NoneSet()], [Lists(l), Commit(ga)]);
    var s2 := AwaitingReveal(c, k, a, b, [Lists(l), Commit(ga)] + [Reveal(a)]);
    assert Deliver(s0, c, [d1] + ([d2] + [d3])) == Deliver(s1, c, [d2] + [d3]) by {
      PairDeliverList(c, l, a, offered, z, [d2] + [d3]);
    }
    assert Deliver(s1, c, [d2] + [d3]) == Deliver(s2, c, [d3]) by {
      PairDeliverCommit(c, k, a, b, [Lists(l), Commit(ga)], z, [d3]);
    }
  }

  /** In an honest two-party run, once the other party's list, commitment and
      secret are in, the step holds as Trent the candidate at (a + b) mod |list|
      of the sorted intersection and has broadcast one message per round. */
  lemma HonestRunPicks(users: seq<nat>, c: Roster, offered: seq<nat>, a: nat, b: nat, z: nat)
    requires PairRoster(c)
    requires Retain(Exclude(users, c.parties), offered) != []
    ensures var s := HonestRun(users, c, offered, a, b, z);
      var kept := SortedKeys(Retain(Exclude(users, c.parties), offered));
      && |kept| > 0
      && s.hasSent == [AllSet(), AllSet(), AllSet(), OwnOnly(c.self)]
      && s.trent == Some(Pick(a + b, kept))
      && s.outbox == [Lists(Exclude(users, c.parties)), Commit(ModPow(G, a, P)), Reveal(a),
                      Confirm(Pick(a + b, kept))]
      && !s.completed
  {
    var l := Exclude(users, c.parties);
    var k := Retain(l, offered);
    HonestRunReachesReveal(users, c, offered, a, b, z);
    PairDeliverReveal(c, k, a, b, [Lists(l), Commit(ModPow(G, a, P))] + [Reveal(a)], z);
    OneMessagePerRound(l, ModPow(G, a, P), a, Pick(a + b, SortedKeys(k)));
  }

  lemma OneMessagePerRound(l: seq<nat>, ga: nat, a: nat, pick: nat)
    ensures [Lists(l), Commit(ga)] + [Reveal(a)] + [Confirm(pick)] == [Lists(l), Commit(ga), Reveal(a), Confirm(pick)]
  {
  }

  /** ... and the step completes when the other party confirms that Trent. */
  lemma HonestPairCompletes(users: seq<nat>, c: Roster, offered: seq<nat>, a: nat, b: nat, z: nat)
    requires PairRoster(c)
    requires Retain(Exclude(users, c.parties), offered) != []
    ensures var s := HonestRun(users, c, offered, a, b, z);
      && s.trent == Some(Pick(a + b, SortedKeys(Retain(Exclude(users, c.parties), offered))))
      && OnMessage(s, c, Confirm(s.trent.value), c.parties[1 - c.self], z).0.completed
  {
    HonestRunPicks(users, c, offered, a, b, z);
    PairConfirmStage(HonestRun(users, c, offered, a, b, z), c, z);
  }

  /** Two honest parties whose users lists have no repeated key, each starting
      from its own users minus the signers and offering that list to the
      other, pick the same Trent, and each completes on the other's
      confirmation. */
  lemma HonestPairAgrees(usersA: seq<nat>, usersB: seq<nat>, parties: seq<nat>, a: nat, b: nat, z: nat)
    requires |parties| == 2 && parties[0] != parties[1]
    requires Distinct(usersA) && Distinct(usersB)
    requires Retain(Exclude(usersA, parties), Exclude(usersB, parties)) != []
    ensures var cA := Roster(parties, 0);
      var cB := Roster(parties, 1);
      var sA := HonestRun(usersA, cA, Exclude(usersB, parties), a, b, z);
      var sB := HonestRun(usersB, cB, Exclude(usersA, parties), b, a, z);
      && sA.trent.Some? && sA.trent == sB.trent
      && OnMessage(sA, cA, Confirm(sB.trent.value), parties[1], z).0.completed
      && OnMessage(sB, cB, Confirm(sA.trent.value), parties[0], z).0.completed
  {
    assert Retain(Exclude(usersB, parties), Exclude(usersA, parties)) != [] by {
      CommonCandidateBothWays(Exclude(usersA, parties), Exclude(usersB, parties));
    }
    HonestPairCompletes(usersA, Roster(parties, 0), Exclude(usersB, parties), a, b, z);
    HonestPairCompletes(usersB, Roster(parties, 1), Exclude(usersA, parties), b, a, z);
    ExcludeDistinct(usersA, parties);
    ExcludeDistinct(usersB, parties);
    ExchangedListsAgree(Exclude(usersA, parties), Exclude(usersB, parties));
  }

  // ---------------------------------------------------------------------------
  // Two parties, the counterpart's commitment overtaking its list

  /** Row arithmetic when the other party's commitment comes first: its cell of
      row 1 is set alone, which leaves the own cell as the first unset one, and
      the own cell set at the close of row 0 then fills both party cells. */
  lemma EarlyRows(self: nat)
    requires self < 2
    ensures NoneSet()[1 - self := true] == OwnOnly(1 - self)
    ensures IndexOfUnset(OwnOnly(1 - self)) == self
    ensures OwnOnly(1 - self)[self := true] == BothParties()
    ensures Full(AllSet()) && !Full(BothParties())
  {
    assert !BothParties()[2];
  }

  /** The counterpart's commitment arrives before its list: grb is kept and
      its cell of row 1 set, and row 1 does not close. */
  lemma EarlyCommitStage(s: State, c: Roster, v: nat, z: nat)
    requires Wf(s, c) && PairRoster(c)
    requires s.hasSent == [OwnOnly(c.self), NoneSet(), NoneSet(), NoneSet()]
    ensures OnMessage(s, c, Commit(v), c.parties[1 - c.self], z)
      == (s.(hasSent := [OwnOnly(c.self), OwnOnly(1 - c.self), NoneSet(), NoneSet()], grb := Some(v)), Ok)
  {
    PairRouted(s, c, Commit(v), z);
    EarlyRows(c.self);
    assert Mark(s.hasSent, 1, 1 - c.self) == [OwnOnly(c.self), OwnOnly(1 - c.self), NoneSet(), NoneSet()];
  }

  lemma LateListRows(rows: seq<seq<bool>>, self: nat)
    requires self < 2 && rows == [OwnOnly(self), OwnOnly(1 - self), NoneSet(), NoneSet()]
    ensures rows[0][1 - self := true] == BothParties() && ReadyToClose(BothParties(), 2)
    ensures Mark(Mark(Mark(rows, 0, 1 - self), 0, 2), 1, self) == [AllSet(), BothParties(), NoneSet(), NoneSet()]
  {
    PairRows(self);
    EarlyRows(self);
    assert Mark(rows, 0, 1 - self) == [BothParties(), OwnOnly(1 - self), NoneSet(), NoneSet()];
    assert Mark(Mark(rows, 0, 1 - self), 0, 2) == [AllSet(), OwnOnly(1 - self), NoneSet(), NoneSet()];
  }

  /** The counterpart's list then closes row 0 and the commitment is
      broadcast; row 1 now holds both party cells but is not tested. */
  lemma LateListStage(s: State, c: Roster, keys: seq<nat>, z: nat)
    requires Wf(s, c) && PairRoster(c)
    requires s.hasSent == [OwnOnly(c.self), OwnOnly(1 - c.self), NoneSet(), NoneSet()] && s.ra.Some?
    ensures OnMessage(s, c, Lists(keys), c.parties[1 - c.self], z)
      == (s.(list := Retain(s.list, keys), hasSent := [AllSet(), BothParties(), NoneSet(), NoneSet()],
             outbox := s.outbox + [Commit(s.gra.value)]), Ok)
  {
    PairRouted(s, c, Lists(keys), z);
    LateListRows(s.hasSent, c.self);
    ListCloses(s, c, keys, 1 - c.self, z);
  }

  /** The counterpart's secret arrives while row 1 is still open: grab and
      finalNumber are recorded, and row 2, missing the own cell, does not
      close. */
  lemma StuckRevealStage(s: State, c: Roster, b: nat, z: nat)
    requires Wf(s, c) && PairRoster(c)
    requires s.hasSent == [AllSet(), BothParties(), NoneSet(), NoneSet()] && s.gra.Some?
    ensures OnMessage(s, c, Reveal(b), c.parties[1 - c.self], z)
      == (s.(hasSent := [AllSet(), BothParties(), OwnOnly(1 - c.self), NoneSet()],
             grab := Some(ModPow(s.gra.value, b, P)), finalNumber := Some(s.ra.value + b)), Ok)
  {
    PairRouted(s, c, Reveal(b), z);
    EarlyRows(c.self);
    assert Mark(s.hasSent, 2, 1 - c.self) == [AllSet(), BothParties(), OwnOnly(1 - c.self), NoneSet()];
  }

  /** The step once the other party's commitment gb is in but not its list. */
  function CommitFirst(c: Roster, l: seq<nat>, a: nat, gb: nat): State
    requires c.self < 2
  {
    Holding(l, a, [OwnOnly(c.self), OwnOnly(1 - c.self), NoneSet(), NoneSet()], [Lists(l)]).(grb := Some(gb))
  }

  /** ... and once the list has followed, narrowing l to k. */
  function ListAfterCommit(c: Roster, l: seq<nat>, k: seq<nat>, a: nat, gb: nat): State
    requires c.self < 2
  {
    Holding(k, a, [AllSet(), BothParties(), NoneSet(), NoneSet()], [Lists(l), Commit(ModPow(G, a, P))]).(grb := Some(gb))
  }

  lemma DeliverEarlyCommit(users: seq<nat>, c: Roster, a: nat, gb: nat, z: nat, rest: seq<Delivery>)
    requires PairRoster(c)
    ensures var l := Exclude(users, c.parties);
      && Wf(Started(users, c, a), c) && Wf(CommitFirst(c, l, a, gb), c)
      && Deliver(Started(users, c, a), c, [Delivery(Commit(gb), c.parties[1 - c.self], z)] + rest)
         == Deliver(CommitFirst(c, l, a, gb), c, rest)
  {
    PairStart(users, c, a);
    EarlyCommitStage(Started(users, c, a), c, gb, z);
    assert ([Delivery(Commit(gb), c.parties[1 - c.self], z)] + rest)[1..] == rest;
  }

  lemma DeliverLateList(c: Roster, l: seq<nat>, a: nat, gb: nat, offered: seq<nat>, z: nat, rest: seq<Delivery>)
    requires PairRoster(c) && forall x :: x in l ==> x !in c.parties
    ensures && Wf(CommitFirst(c, l, a, gb), c) && Wf(ListAfterCommit(c, l, Retain(l, offered), a, gb), c)
      && Deliver(CommitFirst(c, l, a, gb), c, [Delivery(Lists(offered), c.parties[1 - c.self], z)] + rest)
         == Deliver(ListAfterCommit(c, l, Retain(l, offered), a, gb), c, rest)
  {
    var s := CommitFirst(c, l, a, gb);
    var t := ListAfterCommit(c, l, Retain(l, offered), a, gb);
    var inbox := [Delivery(Lists(offered), c.parties[1 - c.self], z)] + rest;
    LateListStage(s, c, offered, z);
    assert OnMessage(s, c, Lists(offered), c.parties[1 - c.self], z).0 == t;
    assert inbox[0] == Delivery(Lists(offered), c.parties[1 - c.self], z) && inbox[1..] == rest;
  }

  lemma DeliverStuckReveal(c: Roster, l: seq<nat>, k: seq<nat>, a: nat, gb: nat, b: nat, z: nat)
    requires PairRoster(c) && forall x :: x in k ==> x !in c.parties
    ensures var s := ListAfterCommit(c, l, k, a, gb);
      && Wf(s, c)
      && var r := Deliver(s, c, [Delivery(Reveal(b), c.parties[1 - c.self], z)]);
      && r.hasSent == [AllSet(), BothParties(), OwnOnly(1 - c.self), NoneSet()]
      && r.outbox == [Lists(l), Commit(ModPow(G, a, P))] && r.trent.None? && !r.completed
  {
    var s := ListAfterCommit(c, l, k, a, gb);
    StuckRevealStage(s, c, b, z);
    assert [Delivery(Reveal(b), c.parties[1 - c.self], z)][1..] == [];
  }

  /** The honest counterpart's three messages with the commitment overtaking
      the list. Closing row 0 sets the own cell of row 1 without testing row 1
      again, and the counterpart sends no second commitment, so ra is never
      revealed: row 2 never closes and the step stays in round 1 with no
      Trent, although the counterpart has sent everything it sends before
      round 3. */
  lemma CommitBeforeListStalls(users: seq<nat>, c: Roster, offered: seq<nat>, a: nat, b: nat, z: nat)
    requires PairRoster(c)
    ensures var other := c.parties[1 - c.self];
      var l := Exclude(users, c.parties);
      var r := Deliver(Started(users, c, a), c,
                       [Delivery(Commit(ModPow(G, b, P)), other, z), Delivery(Lists(offered), other, z),
                        Delivery(Reveal(b), other, z)]);
      && r.hasSent == [AllSet(), BothParties(), OwnOnly(1 - c.self), NoneSet()]
      && r.outbox == [Lists(l), Commit(ModPow(G, a, P))]
      && RoundOf(r.hasSent) == 1 && r.trent.None? && !r.completed
  {
    var other := c.parties[1 - c.self];
    var l := Exclude(users, c.parties);
    var gb := ModPow(G, b, P);
    var d1, d2, d3 := Delivery(Commit(gb), other, z), Delivery(Lists(offered), other, z), Delivery(Reveal(b), other, z);
    assert [d1, d2, d3] == [d1] + ([d2] + [d3]);
    DeliverEarlyCommit(users, c, a, gb, z, [d2] + [d3]);
    DeliverLateList(c, l, a, gb, offered, z, [d3]);
    DeliverStuckReveal(c, l, Retain(l, offered), a, gb, b, z);
    EarlyRows(c.self);
  }

  /** A commitment from a sender already heard in round 1, when row 1 is
      ready to close: grb is not replaced, the row closes, grba is derived and
      ra is broadcast. */
  lemma RepeatCommitCloses(s: State, c: Roster, v: nat, j: nat)
    requires Wf(s, c) && j < |c.parties| && s.hasSent[1][j] && s.ra.Some? && s.grb.Some?
    requires ReadyToClose(s.hasSent[1], |c.parties|)
    ensures OnCommit(s, c, v, j)
      == (s.(grba := Some(ModPow(s.grb.value, s.ra.value, P)),
             hasSent := Mark(Mark(s.hasSent, 1, |c.parties|), 2, c.self),
             outbox := s.outbox + [Reveal(s.ra.value)]), Ok)
  {
    ClosesIff(s.hasSent[1], |c.parties|);
  }

  lemma SecondCommitRows(rows: seq<seq<bool>>, self: nat)
    requires self < 2 && rows == [AllSet(), BothParties(), NoneSet(), NoneSet()]
    ensures rows[1][1 - self] && ReadyToClose(rows[1], 2)
    ensures Mark(Mark(rows, 1, 2), 2, self) == [AllSet(), AllSet(), OwnOnly(self), NoneSet()]
  {
    PairRows(self);
    assert Mark(rows, 1, 2) == [AllSet(), AllSet(), NoneSet(), NoneSet()];
  }

  lemma ListAfterCommitWf(c: Roster, l: seq<nat>, k: seq<nat>, a: nat, gb: nat)
    requires PairRoster(c) && forall x :: x in k ==> x !in c.parties
    ensures Wf(ListAfterCommit(c, l, k, a, gb), c)
  {
  }

  /** The stall lasts only until another round-1 message arrives: row 1
      already passes the completion test, so a second delivery of the
      counterpart's commitment closes it and ra is revealed. */
  lemma SecondCommitReveals(c: Roster, l: seq<nat>, k: seq<nat>, a: nat, gb: nat, z: nat)
    requires PairRoster(c) && forall x :: x in k ==> x !in c.parties
    ensures var s := ListAfterCommit(c, l, k, a, gb);
      && Wf(s, c)
      && var r := OnMessage(s, c, Commit(gb), c.parties[1 - c.self], z);
      && r.1 == Ok
      && r.0.outbox == [Lists(l), Commit(ModPow(G, a, P)), Reveal(a)]
      && r.0.grba == Some(ModPow(gb, a, P))
      && r.0.hasSent == [AllSet(), AllSet(), OwnOnly(c.self), NoneSet()]
  {
    var s := ListAfterCommit(c, l, k, a, gb);
    ListAfterCommitWf(c, l, k, a, gb);
    PairRouted(s, c, Commit(gb), z);
    SecondCommitRows(s.hasSent, c.self);
    RepeatCommitCloses(s, c, gb, 1 - c.self);
  }
}

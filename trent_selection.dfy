/** The state machine of the Trent-selection step (ProtocolChooseTrent), as pure
    transitions over the step's state. The class in protocol_step.dfy performs the
    same transitions in place; each of its methods is proved equal to one of the
    functions below, and the lemmas here state what the transitions promise. */
module TrentSelection {
  import opened Options
  import opened Commitment
  import opened AckTable
  import opened Candidates

  /** A message of this step, already parsed from its `[round, body]` pair. */
  datatype Message =
    | Lists(keys: seq<nat>)  // round "0": the sender's candidate list
    | Commit(value: nat)     // round "1": the sender's G^r mod P
    | Reveal(value: nat)     // round "2": the sender's secret r
    | Confirm(key: nat)      // round "3": the public key of the sender's Trent
    | Unrecognised           // any other round tag: no branch of the listener matches

  /** The round tag of a message (4 for a tag no branch handles). */
  function Tag(m: Message): nat {
    match m
    case Lists(_) => 0
    case Commit(_) => 1
    case Reveal(_) => 2
    case Confirm(_) => 3
    case Unrecognised => 4
  }

  /** How a call ends: normally, on the sender lookup running off the party list,
      or on a NullPointerException because a number it needs was never set. */
  datatype Outcome = Ok | UnknownSender | MissingValue

  /** The contract's parties (public keys, in contract order) and this party's
      index among them (`senderKeyId`). */
  datatype Roster = Roster(parties: seq<nat>, self: nat)

  /** The fields of the step. `hasSent` cells are true where the source's are
      non-null; `trent` is the Trent key held by the establisher; `outbox` lists
      what was broadcast; `completed` records that `nextStep` was called. */
  datatype State = State(
    list: seq<nat>,
    ra: Option<nat>,
    gra: Option<nat>,
    grb: Option<nat>,
    grab: Option<nat>,
    grba: Option<nat>,
    finalNumber: Option<nat>,
    hasSent: seq<seq<bool>>,
    trent: Option<nat>,
    outbox: seq<Message>,
    completed: bool)

  function Width(s: State): nat
    requires |s.hasSent| == 4
  {
    |s.hasSent[0]|
  }

  /** What every reachable state satisfies: four rows of one width, N + 1 as
      allocated by the constructor or N as reallocated by a reset; gra and
      finalNumber exist exactly when ra does and gra is G^ra mod P; the values
      derived from ra exist only once ra does; no signer is a candidate. */
  ghost predicate Wf(s: State, c: Roster) {
    && c.self < |c.parties|
    && |s.hasSent| == 4
    && (forall k | 0 <= k < 4 :: |s.hasSent[k]| == |s.hasSent[0]|)
    && (|s.hasSent[0]| == |c.parties| + 1 || |s.hasSent[0]| == |c.parties|)
    && (s.ra.None? <==> s.gra.None?)
    && (s.ra.None? <==> s.finalNumber.None?)
    && (s.ra.Some? ==> s.gra == Some(ModPow(G, s.ra.value, P)))
    && (s.grab.Some? ==> s.ra.Some?)
    && (s.grba.Some? ==> s.ra.Some?)
    && (forall x :: x in s.list ==> x !in c.parties)
  }

  /** The sender lookup: the first index of `key` in the party list, None where
      the source's loop runs past the end of the list. */
  function PartyIndex(parties: seq<nat>, key: nat): (r: Option<nat>)
    ensures r.None? <==> key !in parties
    ensures r.Some? ==> r.value < |parties| && parties[r.value] == key
    ensures r.Some? ==> forall i :: 0 <= i < r.value ==> parties[i] != key
  {
    if parties == [] then None
    else if parties[0] == key then Some(0)
    else
      match PartyIndex(parties[1..], key)
      case None => None
      case Some(i) => Some(i + 1)
  }

  /** The main constructor: the users minus the signers, four rows of N + 1
      unset cells, no numbers and no Trent yet. */
  function Initial(users: seq<nat>, c: Roster): (s: State)
    requires c.self < |c.parties|
    ensures Wf(s, c)
    ensures forall x :: x in s.list <==> x in users && x !in c.parties
    ensures Width(s) == |c.parties| + 1 && RoundOf(s.hasSent) == 0
  {
    State(Exclude(users, c.parties), None, None, None, None, None, None,
          Cleared(|c.parties| + 1), None, [], false)
  }

  /** The `if (ra == null)` block: draw the secret once and derive gra. A
      secret already drawn is never replaced, and nothing else changes. */
  function Draw(s: State, secret: nat): (r: State)
    ensures r.ra.Some?
    ensures s.ra.Some? ==> r == s
    ensures s.ra.None? ==> r.ra == Some(secret) && r.finalNumber == Some(secret)
    ensures s.ra.None? ==> r.gra == Some(ModPow(G, secret, P))
    ensures r.(ra := s.ra, gra := s.gra, finalNumber := s.finalNumber) == s
  {
    if s.ra.None? then
      s.(ra := Some(secret), finalNumber := Some(secret), gra := Some(ModPow(G, secret, P)))
    else s
  }

  /** `sendMessage`: broadcast the list under round "0" and mark the own cell of
      row 0, drawing the secret first if there is none. */
  function Send(s: State, c: Roster, secret: nat): (r: State)
    requires Wf(s, c)
    ensures Wf(r, c)
    ensures s.ra.Some? ==> r.ra == s.ra && r.gra == s.gra && r.finalNumber == s.finalNumber
    ensures s.ra.None? ==> r.ra == Some(secret) && r.finalNumber == Some(secret)
    ensures s.ra.None? ==> r.gra == Some(ModPow(G, secret, P))
    ensures r.hasSent == Mark(s.hasSent, 0, c.self)
    ensures r.outbox == s.outbox + [Lists(s.list)]
    ensures r.list == s.list && r.grb == s.grb && r.grab == s.grab && r.grba == s.grba
    ensures r.trent == s.trent && r.completed == s.completed
  {
    var d := Draw(s, secret);
    d.(outbox := d.outbox + [Lists(d.list)], hasSent := Mark(d.hasSent, 0, c.self))
  }

  /** The reset: reallocate every row with N cells, drop the Trent key and call
      `sendMessage` again. The list and the secret survive it. */
  function Restart(s: State, c: Roster, secret: nat): (r: State)
    requires Wf(s, c)
    ensures Wf(r, c)
    ensures r.hasSent == Mark(Cleared(|c.parties|), 0, c.self)
    ensures r.trent == None
    ensures r.list == s.list && r.completed == s.completed
    ensures s.ra.Some? ==> r.ra == s.ra && r.gra == s.gra && r.finalNumber == s.finalNumber
    ensures s.ra.None? ==> r.ra == Some(secret) && r.finalNumber == Some(secret)
    ensures s.ra.None? ==> r.gra == Some(ModPow(G, secret, P))
    ensures r.grb == s.grb && r.grab == s.grab && r.grba == s.grba
    ensures r.outbox == s.outbox + [Lists(s.list)]
  {
    Send(s.(hasSent := Cleared(|c.parties|), trent := None), c, secret)
  }

  /** Round "0" from party j while row 0 has an unset cell. */
  function OnList(s: State, c: Roster, keys: seq<nat>, j: nat, secret: nat): (r: State)
    requires Wf(s, c) && j < |c.parties|
    ensures Wf(r, c)
  {
    var n := |c.parties|;
    var d := Draw(s, secret);
    var t := d.(list := Retain(d.list, keys), hasSent := Mark(d.hasSent, 0, j));
    if IndexOfUnset(t.hasSent[0]) == n then
      t.(hasSent := Mark(Mark(t.hasSent, 0, n), 1, c.self), outbox := t.outbox + [Commit(t.gra.value)])
    else t
  }

  /** Round "1" from party j while row 1 has an unset cell. */
  function OnCommit(s: State, c: Roster, v: nat, j: nat): (r: (State, Outcome))
    requires Wf(s, c) && j < |c.parties|
    ensures Wf(r.0, c) && r.1 != UnknownSender
  {
    var n := |c.parties|;
    var t := if s.hasSent[1][j] then s else s.(hasSent := Mark(s.hasSent, 1, j), grb := Some(v));
    if IndexOfUnset(t.hasSent[1]) != n then (t, Ok)
    else CloseCommit(t, c)
  }

  /** The end of round 1: set the aggregate cell, derive grba from the kept
      commitment and ra, and broadcast ra under round "2". */
  function CloseCommit(t: State, c: Roster): (r: (State, Outcome))
    requires Wf(t, c) && Width(t) == |c.parties| + 1
    ensures Wf(r.0, c) && r.1 != UnknownSender
  {
    var u := t.(hasSent := Mark(t.hasSent, 1, |c.parties|));
    if u.grb.None? || u.ra.None? then (u, MissingValue)
    else
      (u.(grba := Some(ModPow(u.grb.value, u.ra.value, P)),
          hasSent := Mark(u.hasSent, 2, c.self),
          outbox := u.outbox + [Reveal(u.ra.value)]), Ok)
  }

  /** Round "2" from party j while row 2 has an unset cell. */
  function OnReveal(s: State, c: Roster, rb: nat, j: nat, secret: nat): (r: (State, Outcome))
    requires Wf(s, c) && j < |c.parties|
    ensures Wf(r.0, c) && r.1 != UnknownSender
  {
    var n := |c.parties|;
    if !s.hasSent[2][j] && s.gra.None? then (s.(hasSent := Mark(s.hasSent, 2, j)), MissingValue)
    else
      var t := if s.hasSent[2][j] then s
               else s.(hasSent := Mark(s.hasSent, 2, j),
                       grab := Some(ModPow(s.gra.value, rb, P)),
                       finalNumber := Some(s.ra.value + rb));
      if IndexOfUnset(t.hasSent[2]) != n then (t, Ok)
      else CloseReveal(t, c, secret)
  }

  /** The end of round 2: set the aggregate cell, sort the list by key, check
      grab against grba, then pick and broadcast Trent. */
  function CloseReveal(s: State, c: Roster, secret: nat): (r: (State, Outcome))
    requires Wf(s, c) && Width(s) == |c.parties| + 1
    ensures Wf(r.0, c) && r.1 != UnknownSender
    ensures r.0.ra == s.ra && r.0.finalNumber == s.finalNumber
    ensures r.0.grab == s.grab && r.0.grba == s.grba
  {
    var n := |c.parties|;
    var t := s.(hasSent := Mark(s.hasSent, 2, n), list := SortedKeys(s.list));
    assert Wf(t, c) by { SortedSameKeys(s.list); }
    if t.grab.None? || t.grba.None? then (t, MissingValue)
    else if t.grab != t.grba then (Restart(t, c, secret), Ok)
    else if |t.list| == 0 then (t, Ok)
    else (PickTrent(t, c, secret), Ok)
  }

  /** The pick itself, once the shared values agree and the sorted list is not
      empty: the candidate at finalNumber mod |list| becomes Trent unless one
      is already held, is broadcast under round "3", and a held Trent that
      differs from it cancels the round. */
  function PickTrent(t: State, c: Roster, secret: nat): (r: State)
    requires Wf(t, c) && Width(t) == |c.parties| + 1 && t.list != [] && t.ra.Some?
    ensures Wf(r, c)
    ensures r.ra == t.ra && r.finalNumber == t.finalNumber && r.grab == t.grab && r.grba == t.grba
  {
    var pick := Pick(t.finalNumber.value, t.list);
    var u := t.(trent := if t.trent.None? then Some(pick) else t.trent,
                hasSent := Mark(t.hasSent, 3, c.self),
                outbox := t.outbox + [Confirm(pick)]);
    if u.trent.Some? && u.trent.value != pick then Restart(u, c, secret) else u
  }

  lemma SortedSameKeys(l: seq<nat>)
    ensures forall x :: x in SortedKeys(l) <==> x in l
  {
    forall x
      ensures x in SortedKeys(l) <==> x in l
    {
      assert x in SortedKeys(l) <==> x in multiset(SortedKeys(l));
      assert x in l <==> x in multiset(l);
    }
  }

  /** Round "3" from party j while row 3 has an unset cell. */
  function OnConfirm(s: State, c: Roster, key: nat, j: nat, secret: nat): (r: State)
    requires Wf(s, c) && j < |c.parties|
    ensures Wf(r, c)
  {
    var n := |c.parties|;
    if s.trent.None? then s.(trent := Some(key), hasSent := Mark(s.hasSent, 3, j))
    else if key == s.trent.value then
      var t := s.(hasSent := Mark(s.hasSent, 3, j));
      if IndexOfUnset(t.hasSent[3]) == n then t.(hasSent := Mark(t.hasSent, 3, n), completed := true)
      else t
    else Restart(s, c, secret)
  }

  /** The listener's `notify`: look the sender up, then run the branch of the
      message's round if that round's row still has an unset cell. */
  function OnMessage(s: State, c: Roster, msg: Message, senderId: nat, secret: nat): (r: (State, Outcome))
    requires Wf(s, c)
    ensures Wf(r.0, c)
  {
    match PartyIndex(c.parties, senderId)
    case None => (s, UnknownSender)
    case Some(j) =>
      match msg
      case Lists(keys) =>
        if IndexOfUnset(s.hasSent[0]) != -1 then (OnList(s, c, keys, j, secret), Ok) else (s, Ok)
      case Commit(v) =>
        if IndexOfUnset(s.hasSent[1]) != -1 then OnCommit(s, c, v, j) else (s, Ok)
      case Reveal(v) =>
        if IndexOfUnset(s.hasSent[2]) != -1 then OnReveal(s, c, v, j, secret) else (s, Ok)
      case Confirm(key) =>
        if IndexOfUnset(s.hasSent[3]) != -1 then (OnConfirm(s, c, key, j, secret), Ok) else (s, Ok)
      case Unrecognised => (s, Ok)
  }
}

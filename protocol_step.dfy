/** The step object itself: ProtocolChooseTrent with its fields updated in place.
    Every method is proved to leave the object in the state the matching
    transition of TrentSelection computes, so the lemmas about those transitions
    hold of the object. */
module ChooseTrentStep {
  import opened Options
  import opened Commitment
  import opened AckTable
  import opened Candidates
  import opened TrentSelection

  /** The self-index search of the constructor and the sender lookup of the
      listener: advance through the party list until the key matches. Where the
      source runs past the end of the list and throws, the result is None. */
  method FindParty(parties: seq<nat>, key: nat) returns (j: Option<nat>)
    ensures j == PartyIndex(parties, key)
  {
    var i := 0;
    while i < |parties| && parties[i] != key
      invariant 0 <= i <= |parties|
      invariant forall k :: 0 <= k < i ==> parties[k] != key
    {
      i := i + 1;
    }
    j := if i < |parties| then Some(i) else None;
  }

  /** The row allocation loop: four fresh rows of `width` unset cells. */
  method AllocateRows(width: nat) returns (rows: seq<seq<bool>>)
    ensures rows == Cleared(width)
  {
    rows := [[], [], [], []];
    for k := 0 to 4
      invariant |rows| == 4
      invariant forall i :: 0 <= i < k ==> rows[i] == seq(width, _ => false)
    {
      rows := rows[k := seq(width, _ => false)];
    }
  }

  class ProtocolChooseTrent {
    /** The public keys of the contract's parties, in contract order. */
    const parties: seq<nat>
    /** This party's public key and its index in `parties`. */
    const key: nat
    const senderKeyId: nat

    var list: seq<nat>
    var ra: Option<nat>
    var gra: Option<nat>
    var grb: Option<nat>
    var grab: Option<nat>
    var grba: Option<nat>
    var finalNumber: Option<nat>
    var hasSent: seq<seq<bool>>
    /** The Trent key the establisher holds (`getTrentKey` / `setTrent`). */
    var trent: Option<nat>
    /** Every message broadcast with `es.sendContract`, in order. */
    var outbox: seq<Message>
    /** Set once `nextStep` has been called. */
    var completed: bool

    function Seats(): Roster {
      Roster(parties, senderKeyId)
    }

    function Snapshot(): State
      reads this
    {
      State(list, ra, gra, grb, grab, grba, finalNumber, hasSent, trent, outbox, completed)
    }

    ghost predicate Valid()
      reads this
    {
      Wf(Snapshot(), Seats()) && parties[senderKeyId] == key
    }

    /** The main constructor. The source's self-index search throws when the
        signer key is not among the parties, hence the precondition. */
    constructor (users: seq<nat>, parties: seq<nat>, key: nat)
      requires key in parties
      ensures Valid()
      ensures this.parties == parties && this.key == key
      ensures PartyIndex(parties, key) == Some(senderKeyId)
      ensures Snapshot() == Initial(users, Seats())
    {
      var candidates := RemoveSigners(users, parties);
      var i := FindParty(parties, key);
      var rows := AllocateRows(|parties| + 1);
      this.parties := parties;
      this.key := key;
      list := candidates;
      hasSent := rows;
      senderKeyId := i.value;
      ra, gra, grb, grab, grba, finalNumber := None, None, None, None, None, None;
      trent := None;
      outbox := [];
      completed := false;
    }

    /** `getRound`: 0 while a list is missing, 1 while a commitment is, 2 while
        a secret is, and 3 once rows 0..2 are full, whatever row 3 holds. */
    function GetRound(): (r: nat)
      reads this
      requires Valid()
      ensures r <= 3
      ensures r == 0 <==> !Full(hasSent[0])
      ensures r == 1 <==> Full(hasSent[0]) && !Full(hasSent[1])
      ensures r == 2 <==> Full(hasSent[0]) && Full(hasSent[1]) && !Full(hasSent[2])
    {
      RoundOf(hasSent)
    }

    /** `sendMessage`, with the random draw passed in as `secret`. */
    method SendMessage(secret: nat)
      requires Valid()
      modifies this
      ensures Valid()
      ensures Snapshot() == Send(old(Snapshot()), Seats(), secret)
    {
      if ra.None? {
        ra := Some(secret);
        finalNumber := ra;
        gra := Some(ModPow(G, secret, P));
      }
      outbox := outbox + [Lists(list)];
      hasSent := hasSent[0 := hasSent[0][senderKeyId := true]];
    }

    /** The reset written out at the three places that cancel the round. */
    method Reset(secret: nat)
      requires Valid()
      modifies this
      ensures Valid()
      ensures Snapshot() == Restart(old(Snapshot()), Seats(), secret)
    {
      hasSent := AllocateRows(|parties|);
      trent := None;
      SendMessage(secret);
    }

    /** The listener's `notify`, with the random draw passed in as `secret`. */
    method Notify(msg: Message, senderId: nat, secret: nat) returns (outcome: Outcome)
      requires Valid()
      modifies this
      ensures Valid()
      ensures (Snapshot(), outcome) == OnMessage(old(Snapshot()), Seats(), msg, senderId, secret)
    {
      var found := FindParty(parties, senderId);
      if found.None? {
        return UnknownSender;
      }
      var j := found.value;
      outcome := Ok;
      match msg {
        case Lists(keys) =>
          if IndexOfUnset(hasSent[0]) != -1 {
            ListReceived(keys, j, secret);
          }
        case Commit(v) =>
          if IndexOfUnset(hasSent[1]) != -1 {
            outcome := CommitReceived(v, j);
          }
        case Reveal(v) =>
          if IndexOfUnset(hasSent[2]) != -1 {
            outcome := RevealReceived(v, j, secret);
          }
        case Confirm(k) =>
          if IndexOfUnset(hasSent[3]) != -1 {
            ConfirmReceived(k, j, secret);
          }
        case Unrecognised =>
      }
    }

    /** Round "0": intersect the list with the sender's, and once every party's
        list is in, broadcast gra under round "1". */
    method ListReceived(keys: seq<nat>, j: nat, secret: nat)
      requires Valid() && j < |parties|
      modifies this
      ensures Valid()
      ensures Snapshot() == OnList(old(Snapshot()), Seats(), keys, j, secret)
    {
      ghost var s := Snapshot();
      if ra.None? {
        ra := Some(secret);
        finalNumber := ra;
        gra := Some(ModPow(G, secret, P));
      }
      ghost var d := Snapshot();
      assert d == Draw(s, secret);
      list := KeepOffered(list, keys);
      hasSent := hasSent[0 := hasSent[0][j := true]];
      ghost var t := Snapshot();
      assert t == d.(list := Retain(d.list, keys), hasSent := Mark(d.hasSent, 0, j));
      if IndexOfUnset(hasSent[0]) == |parties| {
        hasSent := hasSent[0 := hasSent[0][|parties| := true]];
        hasSent := hasSent[1 := hasSent[1][senderKeyId := true]];
        outbox := outbox + [Commit(gra.value)];
        assert Snapshot() == t.(hasSent := Mark(Mark(t.hasSent, 0, |parties|), 1, senderKeyId),
                                outbox := t.outbox + [Commit(t.gra.value)]);
      }
      assert Snapshot() == OnList(s, Seats(), keys, j, secret);
    }

    /** Round "1": record the sender's commitment, and once every party's is in,
        compute grba and broadcast ra under round "2". */
    method CommitReceived(v: nat, j: nat) returns (outcome: Outcome)
      requires Valid() && j < |parties|
      modifies this
      ensures Valid()
      ensures (Snapshot(), outcome) == OnCommit(old(Snapshot()), Seats(), v, j)
    {
      ghost var s := Snapshot();
      outcome := Ok;
      if !hasSent[1][j] {
        hasSent := hasSent[1 := hasSent[1][j := true]];
        grb := Some(v);
      }
      if IndexOfUnset(hasSent[1]) == |parties| {
        outcome := CloseCommit();
      }
      assert (Snapshot(), outcome) == OnCommit(s, Seats(), v, j);
    }

    /** The end of round 1. */
    method CloseCommit() returns (outcome: Outcome)
      requires Valid() && |hasSent[0]| == |parties| + 1
      modifies this
      ensures Valid()
      ensures (Snapshot(), outcome) == TrentSelection.CloseCommit(old(Snapshot()), Seats())
    {
      ghost var s := Snapshot();
      hasSent := hasSent[1 := hasSent[1][|parties| := true]];
      if grb.None? || ra.None? {
        return MissingValue;
      }
      grba := Some(ModPow(grb.value, ra.value, P));
      hasSent := hasSent[2 := hasSent[2][senderKeyId := true]];
      outbox := outbox + [Reveal(ra.value)];
      outcome := Ok;
      assert (Snapshot(), outcome) == TrentSelection.CloseCommit(s, Seats());
    }

    /** Round "2": record the sender's secret, and once every party's is in,
        choose Trent. */
    method RevealReceived(rb: nat, j: nat, secret: nat) returns (outcome: Outcome)
      requires Valid() && j < |parties|
      modifies this
      ensures Valid()
      ensures (Snapshot(), outcome) == OnReveal(old(Snapshot()), Seats(), rb, j, secret)
    {
      ghost var s := Snapshot();
      outcome := Ok;
      if !hasSent[2][j] {
        hasSent := hasSent[2 := hasSent[2][j := true]];
        if gra.None? {
          assert (Snapshot(), MissingValue) == OnReveal(s, Seats(), rb, j, secret);
          return MissingValue;
        }
        grab := Some(ModPow(gra.value, rb, P));
        finalNumber := Some(ra.value + rb);
      }
      if IndexOfUnset(hasSent[2]) == |parties| {
        outcome := ChooseTrent(secret);
      }
      assert (Snapshot(), outcome) == OnReveal(s, Seats(), rb, j, secret);
    }

    /** The end of round 2: sort, check grab against grba, pick Trent and
        broadcast its key under round "3". */
    method ChooseTrent(secret: nat) returns (outcome: Outcome)
      requires Valid() && |hasSent[0]| == |parties| + 1
      modifies this
      ensures Valid()
      ensures (Snapshot(), outcome) == CloseReveal(old(Snapshot()), Seats(), secret)
    {
      ghost var s := Snapshot();
      MarkAndSort();
      ghost var t := Snapshot();
      if grab.None? || grba.None? {
        return MissingValue;
      }
      outcome := Ok;
      if grab != grba {
        Reset(secret);
        assert Snapshot() == Restart(t, Seats(), secret);
      } else if |list| == 0 {
      } else {
        PickTrent(secret);
      }
    }

    /** The first two steps of the end of round 2: set the aggregate cell of
        row 2 and sort the list by key. */
    method MarkAndSort()
      requires Valid() && |hasSent[0]| == |parties| + 1
      modifies this
      ensures Valid() && |hasSent[0]| == |parties| + 1
      ensures Snapshot() == old(Snapshot()).(hasSent := Mark(old(hasSent), 2, |parties|), list := SortedKeys(old(list)))
    {
      ghost var s := Snapshot();
      hasSent := hasSent[2 := hasSent[2][|parties| := true]];
      list := SortedKeys(list);
      assert Snapshot() == s.(hasSent := Mark(s.hasSent, 2, |parties|), list := SortedKeys(s.list));
      assert Valid() by { SortedSameKeys(s.list); }
    }

    /** The pick at the end of round 2. */
    method PickTrent(secret: nat)
      requires Valid() && |hasSent[0]| == |parties| + 1 && list != [] && ra.Some?
      modifies this
      ensures Valid()
      ensures Snapshot() == TrentSelection.PickTrent(old(Snapshot()), Seats(), secret)
    {
      ghost var t := Snapshot();
      var pick := list[finalNumber.value % |list|];
      assert pick == Pick(t.finalNumber.value, t.list);
      if trent.None? {
        trent := Some(pick);
      }
      hasSent := hasSent[3 := hasSent[3][senderKeyId := true]];
      outbox := outbox + [Confirm(pick)];
      ghost var u := Snapshot();
      assert u == t.(trent := if t.trent.None? then Some(pick) else t.trent,
                     hasSent := Mark(t.hasSent, 3, senderKeyId),
                     outbox := t.outbox + [Confirm(pick)]);
      if trent.Some? && trent.value != pick {
        Reset(secret);
        assert Snapshot() == Restart(u, Seats(), secret);
      }
    }

    /** Round "3": adopt, confirm or reject the sender's Trent. */
    method ConfirmReceived(k: nat, j: nat, secret: nat)
      requires Valid() && j < |parties|
      modifies this
      ensures Valid()
      ensures Snapshot() == OnConfirm(old(Snapshot()), Seats(), k, j, secret)
    {
      ghost var s := Snapshot();
      if trent.None? {
        trent := Some(k);
        hasSent := hasSent[3 := hasSent[3][j := true]];
      } else if k == trent.value {
        hasSent := hasSent[3 := hasSent[3][j := true]];
        if IndexOfUnset(hasSent[3]) == |parties| {
          hasSent := hasSent[3 := hasSent[3][|parties| := true]];
          completed := true;
        }
      } else {
        Reset(secret);
      }
      assert Snapshot() == OnConfirm(s, Seats(), k, j, secret);
    }
  }
}

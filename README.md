# Trent selection step of the SigmaSXP contract establisher

This project models `ProtocolChooseTrent`. It is the step of the Sigma contract-signing protocol in which the parties to a contract agree on a trusted third party, called Trent. The model and its proofs are in Dafny.

The step runs four rounds. Each round is tracked by one row of the acknowledgement table `hasSent`. Each row has one cell per contract party plus one aggregate cell.

- **Round "0".** Every party broadcasts its candidate list: the known users minus the contract's signers. Each party narrows its own list to the keys the others offered.
- **Round "1".** Every party commits to a secret `ra` by broadcasting `G^ra mod P`.
- **Round "2".** Every party reveals `ra`. A party first sorts the surviving candidates by public key. It then checks that `gra^rb` and `grb^ra` agree and picks the candidate at `(ra + rb) mod |list|`.
- **Round "3".** Parties exchange their picks. Once all of them confirm the Trent held, the step completes.

A mismatch anywhere resets the step and sends the list again.

The model has two layers.

- **Pure transitions.** `TrentSelection` describes the step's state as a datatype. Its pure transition functions are `Send`, `Restart`, `OnList`, `OnCommit`, `OnReveal`, `OnConfirm` and `OnMessage`.
- **The step object.** `ChooseTrentStep.ProtocolChooseTrent` is a class holding the source's fields. Its methods update those fields in place with the source's loops, except in round 0: there the loop is the corrected `KeepOffered` rather than the loop as written (see Findings). Each method is proved to leave the object in the state the matching transition function computes.

`TrentProperties` states, round by round, what those transitions promise. It also covers two whole runs:

- After a reset the step can never complete.
- In a two-party contract where each party receives the counterpart's list, commitment and secret in that order, two honest parties pick the same Trent and both complete. If a commitment overtakes its list, the step stays in round 1 until another round-1 message arrives, and an honest counterpart sends none.

Supporting modules:

- `Commitment`: P, G and modular exponentiation, with the Diffie-Hellman identity.
- `AckTable`: `indexOf(null)` and `getRound`.
- `Candidates`: the list filtering, sorting and pick.

Behaviour of the code that the model keeps as written:

- **Reset width.** A reset reallocates every row with N cells, not N + 1 (`ProtocolChooseTrent.java:288-289`, `:312-313`, `:340-341`). No completion test can pass again after a reset. `TrentProperties.StalledForever` proves this.
- **The secret after a reset.** A reset keeps `ra` and `finalNumber`: `sendMessage` draws a secret only when `ra` is null. Nothing is cleared or redrawn.
- **`finalNumber` and `grb`.** Both are overwritten by the last new sender: `finalNumber` becomes `ra + rb`, and `grb` is last-write-wins. Neither is summed.
- **An empty common list.** An empty list after round 0 does not stop round 1. The step stops only at the end of round 2, without broadcasting anything (`TrentProperties.EmptyListStalls`).
- **The round-0 loop.** The loop does not compute the intersection its comment describes (see Findings). The model's step uses the intended intersection.
- **Message order.** Row 1 is tested for closing only when a round-1 message arrives (`:246-254`), never when the close of row 0 sets the own row-1 cell (`:234-243`). In a two-party contract, if the counterpart's commitment overtakes its list, the step does not reveal `ra` and stays in round 1 until another round-1 message arrives (`TrentProperties.CommitBeforeListStalls`). An honest counterpart sends no second commitment. A repeated delivery of it, or the party's own commitment delivered back to it, would close row 1 and reveal `ra` (`TrentProperties.SecondCommitReveals`).

## Model

Source paths are relative to the repository root. Every cited line is in `src/main/java/protocol/impl/sigma/steps/ProtocolChooseTrent.java`.

| member | source | states |
|---|---|---|
| Commitment.ModPow | src/main/java/protocol/impl/sigma/steps/ProtocolChooseTrent.java:180 | the result is below the modulus and equals the plain power b^e reduced modulo m (`BigInteger.modPow`) |
| Commitment.SharedValueAgrees | src/main/java/protocol/impl/sigma/steps/ProtocolChooseTrent.java:286 | for all secrets a, b: (G^a mod P)^b mod P equals (G^b mod P)^a mod P, so an honest counterpart never triggers the grab/grba cancel branch |
| AckTable.IndexOfUnset | src/main/java/protocol/impl/sigma/steps/ProtocolChooseTrent.java:165 | `indexOf(null)`: -1 exactly when the row is full; otherwise the cell is unset and every earlier cell is set |
| AckTable.ClosesIff | src/main/java/protocol/impl/sigma/steps/ProtocolChooseTrent.java:234 | the completion test `indexOf(null) == N` holds exactly when cells 0..N-1 are set and cell N exists and is unset |
| AckTable.ShrunkRowNeverCloses | src/main/java/protocol/impl/sigma/steps/ProtocolChooseTrent.java:289 | a row of N cells, as reallocated by a reset, never passes the test `indexOf(null) == N` |
| AckTable.RoundOf | src/main/java/protocol/impl/sigma/steps/ProtocolChooseTrent.java:164-172 | `getRound` is 0, 1, 2 or 3: exactly the first of rows 0..2 with an unset cell, or 3 when all three rows are full |
| AckTable.RoundIgnoresRow3 | src/main/java/protocol/impl/sigma/steps/ProtocolChooseTrent.java:164-172 | `getRound` does not depend on row 3 |
| Candidates.Retain | src/main/java/protocol/impl/sigma/steps/ProtocolChooseTrent.java:220-231 | the intended round-0 filter: never longer than the list; holds exactly the candidates that are in the list and among the offered keys |
| Candidates.RetainIsSubsequence | src/main/java/protocol/impl/sigma/steps/ProtocolChooseTrent.java:220-231 | the filtered list is the old list with elements deleted and nothing reordered |
| Candidates.RetainOrderIndependent | src/main/java/protocol/impl/sigma/steps/ProtocolChooseTrent.java:220-231 | two offers give the same list in either order of arrival |
| Candidates.RetainIdempotent | src/main/java/protocol/impl/sigma/steps/ProtocolChooseTrent.java:220-231 | the same offer twice gives the list it gives once |
| Candidates.KeepOffered | src/main/java/protocol/impl/sigma/steps/ProtocolChooseTrent.java:222-231 | the iterator walk with in-place removal, corrected so that it asks whether each key occurs in the offered list; it computes `Retain` |
| Candidates.LiteralWalk | src/main/java/protocol/impl/sigma/steps/ProtocolChooseTrent.java:222-231 | the loop as written only removes candidates: the part already walked stays a prefix of the result, the result is never longer, and every key in it was in the list |
| Candidates.LiteralWalkSingleOffer | src/main/java/protocol/impl/sigma/steps/ProtocolChooseTrent.java:222-231 | with exactly one offered key, the loop as written agrees with the intended filter |
| Candidates.LiteralWalkDropsCommonCandidate | src/main/java/protocol/impl/sigma/steps/ProtocolChooseTrent.java:222-231 | with the list [1,2,3,4] and the offer [2,1], the loop as written leaves [1,3]; the intended result is [1,2] |
| Candidates.LiteralWalkRunsOffEnd | src/main/java/protocol/impl/sigma/steps/ProtocolChooseTrent.java:222-231 | with the list [5] and the offer [5,6], the loop as written throws, although 5 is common to both lists |
| Candidates.CommonCandidateBothWays | src/main/java/protocol/impl/sigma/steps/ProtocolChooseTrent.java:220-231 | both parties' filters keep exactly the same keys, so one keeps a candidate exactly when the other does |
| Candidates.Exclude | src/main/java/protocol/impl/sigma/steps/ProtocolChooseTrent.java:114-120 | the candidates of the users list are exactly the users that are not signers; the result is never longer than the users list |
| Candidates.ExcludeStep | src/main/java/protocol/impl/sigma/steps/ProtocolChooseTrent.java:115-120 | removing the signers one key at a time is the same as removing them all at once |
| Candidates.RemoveKey | src/main/java/protocol/impl/sigma/steps/ProtocolChooseTrent.java:116-119 | the inner iterator loop removes, in place, exactly the candidates carrying the signer's key |
| Candidates.RemoveSigners | src/main/java/protocol/impl/sigma/steps/ProtocolChooseTrent.java:115-120 | the constructor's loop over the parties leaves exactly the users minus the signers, in order |
| Candidates.SortedKeys | src/main/java/protocol/impl/sigma/steps/ProtocolChooseTrent.java:278-283 | the sort by public key gives an ascending permutation of the list |
| Candidates.SortedUnique | src/main/java/protocol/impl/sigma/steps/ProtocolChooseTrent.java:278-283 | two ascending permutations of one list are equal, so any correct sort gives the order `SortedKeys` gives |
| Candidates.Pick | src/main/java/protocol/impl/sigma/steps/ProtocolChooseTrent.java:298 | the candidate at `finalNumber mod size` (never negative) is one of the candidates |
| Candidates.ExchangedListsAgree | src/main/java/protocol/impl/sigma/steps/ProtocolChooseTrent.java:278-298 | two parties without repeated keys, each filtering by the other's list, hold the same sorted list, so one finalNumber picks the same candidate for both |
| Candidates.RepeatedKeyBreaksAgreement | src/main/java/protocol/impl/sigma/steps/ProtocolChooseTrent.java:278-298 | with a repeated key the two sorted lists differ ([7,7] against [7]) |
| TrentSelection.PartyIndex | src/main/java/protocol/impl/sigma/steps/ProtocolChooseTrent.java:209-210 | the sender lookup is None exactly when the key is not a party; otherwise it is the first index holding the key |
| TrentSelection.Initial | src/main/java/protocol/impl/sigma/steps/ProtocolChooseTrent.java:103-133 | the new step is well formed; its list holds exactly the users that are not signers; its rows are N + 1 wide; its round is 0 |
| TrentSelection.Draw | src/main/java/protocol/impl/sigma/steps/ProtocolChooseTrent.java:214-218 | afterwards a secret is held; a secret already drawn is never replaced; otherwise ra = finalNumber = the secret and gra = G^ra mod P; no other field changes |
| TrentSelection.Send | src/main/java/protocol/impl/sigma/steps/ProtocolChooseTrent.java:176-192 | a secret already drawn is kept with gra and finalNumber; otherwise ra = finalNumber = the secret and gra = G^ra mod P; the own row-0 cell is set; exactly the list is broadcast under "0"; nothing else changes |
| TrentSelection.Restart | src/main/java/protocol/impl/sigma/steps/ProtocolChooseTrent.java:288-291 | the reset leaves N-cell rows with only the own row-0 cell set and no Trent; list, grb, grab and grba survive, and so do ra, gra and finalNumber when a secret was already drawn; otherwise ra = finalNumber = the secret and gra = G^ra mod P; the list is broadcast again |
| TrentSelection.OnList | src/main/java/protocol/impl/sigma/steps/ProtocolChooseTrent.java:212-244 | round "0" preserves well-formedness, so no signer ever becomes a candidate (what it computes is stated by the ListRound lemmas) |
| TrentSelection.OnCommit | src/main/java/protocol/impl/sigma/steps/ProtocolChooseTrent.java:246-264 | round "1" preserves well-formedness and never reports an unknown sender |
| TrentSelection.CloseCommit | src/main/java/protocol/impl/sigma/steps/ProtocolChooseTrent.java:254-263 | the end of round 1 preserves well-formedness |
| TrentSelection.OnReveal | src/main/java/protocol/impl/sigma/steps/ProtocolChooseTrent.java:266-275 | round "2" preserves well-formedness and never reports an unknown sender |
| TrentSelection.CloseReveal | src/main/java/protocol/impl/sigma/steps/ProtocolChooseTrent.java:276-318 | the end of round 2 preserves well-formedness and leaves ra, finalNumber, grab and grba as they were |
| TrentSelection.PickTrent | src/main/java/protocol/impl/sigma/steps/ProtocolChooseTrent.java:297-317 | the pick preserves well-formedness and leaves ra, finalNumber, grab and grba as they were |
| TrentSelection.SortedSameKeys | src/main/java/protocol/impl/sigma/steps/ProtocolChooseTrent.java:278-283 | sorting keeps exactly the same keys |
| TrentSelection.OnConfirm | src/main/java/protocol/impl/sigma/steps/ProtocolChooseTrent.java:321-345 | round "3" preserves well-formedness |
| TrentSelection.OnMessage | src/main/java/protocol/impl/sigma/steps/ProtocolChooseTrent.java:206-346 | the listener preserves well-formedness for any message from any sender |
| TrentProperties.ListRoundNarrows | src/main/java/protocol/impl/sigma/steps/ProtocolChooseTrent.java:212-232 | the new list is a subsequence of the old one and holds exactly the old candidates the sender offered; the sender's row-0 cell is set; a secret drawn earlier is kept |
| TrentProperties.ListRoundCloses | src/main/java/protocol/impl/sigma/steps/ProtocolChooseTrent.java:232-243 | row 0 closes exactly when the sender filled the last missing party cell; then the aggregate cell and the own row-1 cell are set and G^ra mod P is broadcast once; otherwise only the sender's cell changes and nothing is broadcast |
| TrentProperties.ListRepeatHarmless | src/main/java/protocol/impl/sigma/steps/ProtocolChooseTrent.java:212-244 | the same list from the same sender a second time leaves the state unchanged |
| TrentProperties.ListRoundFixedPoint | src/main/java/protocol/impl/sigma/steps/ProtocolChooseTrent.java:212-244 | a list that removes nothing, from a sender already marked, while row 0 does not close, changes nothing |
| TrentProperties.CommitRound | src/main/java/protocol/impl/sigma/steps/ProtocolChooseTrent.java:246-264 | grb changes only for a new sender (last write wins); row 1 closes exactly when the last party cell fills; then the aggregate cell is set and grba = grb^ra mod P, the own row-2 cell is set and ra is broadcast, or the call fails with a missing value |
| TrentProperties.RevealRound | src/main/java/protocol/impl/sigma/steps/ProtocolChooseTrent.java:266-275 | for a new sender, grab = gra^rb mod P and finalNumber = ra + rb (overwritten); a repeat changes neither; a missing gra fails after setting the cell; no broadcast before row 2 closes |
| TrentProperties.HonestRevealMatches | src/main/java/protocol/impl/sigma/steps/ProtocolChooseTrent.java:272 | a counterpart that committed to G^b and reveals b makes grab equal grba |
| TrentProperties.TrentChosen | src/main/java/protocol/impl/sigma/steps/ProtocolChooseTrent.java:276-317 | the list is sorted; the candidate at finalNumber mod size is broadcast under "3" with the own row-3 cell set; it is adopted if no Trent is held; a differing held Trent resets the step |
| TrentProperties.MismatchRestarts | src/main/java/protocol/impl/sigma/steps/ProtocolChooseTrent.java:286-292 | grab different from grba resets the step: no Trent, fresh rows, ra and the sorted list kept, the list broadcast again |
| TrentProperties.EmptyListStalls | src/main/java/protocol/impl/sigma/steps/ProtocolChooseTrent.java:293-295 | with no candidate left only the aggregate cell of row 2 is set; nothing is broadcast and the Trent held is unchanged |
| TrentProperties.ConfirmRound | src/main/java/protocol/impl/sigma/steps/ProtocolChooseTrent.java:321-345 | the first report is adopted without the completion test; a matching report completes exactly when it fills the last party cell; a different report resets; adopting or matching never changes the round |
| TrentProperties.NotifyGuards | src/main/java/protocol/impl/sigma/steps/ProtocolChooseTrent.java:206-212 | an unknown sender is reported exactly when the key is not a party, and changes nothing; a message whose row is full, or whose tag no branch handles, is ignored |
| TrentProperties.ResetRound | src/main/java/protocol/impl/sigma/steps/ProtocolChooseTrent.java:288-291 | after a reset the rows are N wide and the round is 0 exactly when there is more than one party |
| TrentProperties.ShrunkRowsStall | src/main/java/protocol/impl/sigma/steps/ProtocolChooseTrent.java:234 | with N-wide rows, no message completes the step, and at most a candidate list is broadcast |
| TrentProperties.Deliver | src/main/java/protocol/impl/sigma/steps/ProtocolChooseTrent.java:206-346 | handling a sequence of messages in order preserves well-formedness |
| TrentProperties.StalledForever | src/main/java/protocol/impl/sigma/steps/ProtocolChooseTrent.java:288-289 | once reset, whatever arrives, the step never completes and broadcasts nothing but candidate lists |
| TrentProperties.ListCloses | src/main/java/protocol/impl/sigma/steps/ProtocolChooseTrent.java:232-243 | the whole new state when a list fills the last party cell of row 0 |
| TrentProperties.CommitCloses | src/main/java/protocol/impl/sigma/steps/ProtocolChooseTrent.java:248-263 | the whole new state when a commitment fills the last party cell of row 1 |
| TrentProperties.RevealCloses | src/main/java/protocol/impl/sigma/steps/ProtocolChooseTrent.java:268-277 | a reveal that fills the last party cell of row 2 records grab and finalNumber, then hands over to the end of round 2 |
| TrentProperties.ConfirmCloses | src/main/java/protocol/impl/sigma/steps/ProtocolChooseTrent.java:329-335 | a confirmation of the Trent held that fills the last party cell of row 3 completes the step |
| TrentProperties.PairRouted | src/main/java/protocol/impl/sigma/steps/ProtocolChooseTrent.java:209-212 | in a two-party contract, a message from the other party reaches its round's branch while that row's aggregate cell is unset |
| TrentProperties.PairListStage | src/main/java/protocol/impl/sigma/steps/ProtocolChooseTrent.java:212-244 | two parties, round 0: the counterpart's list closes row 0 and the commitment is broadcast |
| TrentProperties.PairCommitStage | src/main/java/protocol/impl/sigma/steps/ProtocolChooseTrent.java:246-264 | two parties, round 1: the counterpart's commitment closes row 1, grba is derived and ra is revealed |
| TrentProperties.PairRevealOpens | src/main/java/protocol/impl/sigma/steps/ProtocolChooseTrent.java:266-277 | two parties, round 2: the honest reveal records grab equal to grba and hands over to the end of round 2 |
| TrentProperties.PairCloseStage | src/main/java/protocol/impl/sigma/steps/ProtocolChooseTrent.java:276-309 | two parties, end of round 2: the pick at finalNumber mod size becomes Trent and is broadcast |
| TrentProperties.PairRevealStage | src/main/java/protocol/impl/sigma/steps/ProtocolChooseTrent.java:266-309 | two parties, round 2 whole: the honest reveal leads to the pick at (ra + rb) mod size, adopted and broadcast |
| TrentProperties.PairConfirmStage | src/main/java/protocol/impl/sigma/steps/ProtocolChooseTrent.java:329-335 | two parties, round 3: the counterpart confirming the Trent held completes the step |
| TrentProperties.PairStart | src/main/java/protocol/impl/sigma/steps/ProtocolChooseTrent.java:176-192 | the constructor followed by `sendMessage` gives the started two-party state |
| TrentProperties.PairDeliverList | src/main/java/protocol/impl/sigma/steps/ProtocolChooseTrent.java:212-244 | delivering the counterpart's list to a started step reaches the state after round 0 |
| TrentProperties.PairDeliverCommit | src/main/java/protocol/impl/sigma/steps/ProtocolChooseTrent.java:246-264 | delivering the counterpart's commitment reaches the state awaiting the reveal |
| TrentProperties.PairDeliverReveal | src/main/java/protocol/impl/sigma/steps/ProtocolChooseTrent.java:266-309 | delivering the counterpart's secret picks the candidate at (a + b) mod size of the sorted list and broadcasts it |
| TrentProperties.HonestRunReachesReveal | src/main/java/protocol/impl/sigma/steps/ProtocolChooseTrent.java:212-264 | rounds 0 and 1 of an honest two-party run narrow the list to the offered keys and broadcast the list, the commitment and the secret |
| TrentProperties.HonestRunPicks | src/main/java/protocol/impl/sigma/steps/ProtocolChooseTrent.java:212-309 | an honest two-party run holds as Trent the pick at (a + b) mod size of the sorted intersection and has broadcast exactly one message per round |
| TrentProperties.HonestPairCompletes | src/main/java/protocol/impl/sigma/steps/ProtocolChooseTrent.java:329-335 | in that run the step completes when the counterpart confirms the same Trent |
| TrentProperties.HonestPairAgrees | src/main/java/protocol/impl/sigma/steps/ProtocolChooseTrent.java:276-335 | two honest parties without repeated keys pick the same Trent, and each completes on the other's confirmation |
| TrentProperties.EarlyCommitStage | src/main/java/protocol/impl/sigma/steps/ProtocolChooseTrent.java:246-254 | two parties: a commitment arriving before the list is kept and its cell set, and row 1 does not close |
| TrentProperties.LateListStage | src/main/java/protocol/impl/sigma/steps/ProtocolChooseTrent.java:232-243 | two parties: the list arriving after the commitment closes row 0 and broadcasts the commitment; row 1 then holds both party cells and is not tested |
| TrentProperties.StuckRevealStage | src/main/java/protocol/impl/sigma/steps/ProtocolChooseTrent.java:266-276 | two parties, row 1 still open: the reveal records grab and finalNumber, and row 2, missing the own cell, does not close |
| TrentProperties.DeliverEarlyCommit | src/main/java/protocol/impl/sigma/steps/ProtocolChooseTrent.java:246-254 | delivering the commitment first to a started step reaches the state with only the commitment in |
| TrentProperties.DeliverLateList | src/main/java/protocol/impl/sigma/steps/ProtocolChooseTrent.java:212-244 | delivering the list next narrows it and broadcasts the commitment, with row 1 left open |
| TrentProperties.DeliverStuckReveal | src/main/java/protocol/impl/sigma/steps/ProtocolChooseTrent.java:266-276 | delivering the secret then broadcasts nothing, picks no Trent and does not complete |
| TrentProperties.CommitBeforeListStalls | src/main/java/protocol/impl/sigma/steps/ProtocolChooseTrent.java:234-254 | with the counterpart's commitment ahead of its list, after all it sends before round 3 the step has broadcast only its list and commitment, holds no Trent, has not completed and is in round 1 |
| TrentProperties.RepeatCommitCloses | src/main/java/protocol/impl/sigma/steps/ProtocolChooseTrent.java:246-263 | a round-1 message from a sender already heard keeps the stored grb; once row 1 passes the completion test it closes, grba = grb^ra mod P, the own row-2 cell is set and ra is appended to the outbox, nothing else changes |
| TrentProperties.SecondCommitReveals | src/main/java/protocol/impl/sigma/steps/ProtocolChooseTrent.java:246-263 | in that stalled state a second round-1 message from the counterpart closes row 1, derives grba and broadcasts ra |
| ChooseTrentStep.FindParty | src/main/java/protocol/impl/sigma/steps/ProtocolChooseTrent.java:124-126 | the search loop finds the first index of the key, or reports that the key is not a party |
| ChooseTrentStep.AllocateRows | src/main/java/protocol/impl/sigma/steps/ProtocolChooseTrent.java:127-128 | the allocation loop gives four rows of unset cells of the given width |
| ChooseTrentStep.ProtocolChooseTrent.constructor | src/main/java/protocol/impl/sigma/steps/ProtocolChooseTrent.java:103-133 | the object holds `Initial(users, ...)`, and senderKeyId is the signer's first index among the parties |
| ChooseTrentStep.ProtocolChooseTrent.GetRound | src/main/java/protocol/impl/sigma/steps/ProtocolChooseTrent.java:164-172 | at most 3; 0 exactly while row 0 has an unset cell, 1 exactly while row 0 is full and row 1 is not, 2 exactly while rows 0 and 1 are full and row 2 is not |
| ChooseTrentStep.ProtocolChooseTrent.SendMessage | src/main/java/protocol/impl/sigma/steps/ProtocolChooseTrent.java:176-192 | the fields become `Send` of the old fields |
| ChooseTrentStep.ProtocolChooseTrent.Reset | src/main/java/protocol/impl/sigma/steps/ProtocolChooseTrent.java:288-291 | the fields become `Restart` of the old fields |
| ChooseTrentStep.ProtocolChooseTrent.Notify | src/main/java/protocol/impl/sigma/steps/ProtocolChooseTrent.java:206-346 | the fields and the outcome become `OnMessage` of the old fields |
| ChooseTrentStep.ProtocolChooseTrent.ListReceived | src/main/java/protocol/impl/sigma/steps/ProtocolChooseTrent.java:214-243 | the fields become `OnList` of the old fields |
| ChooseTrentStep.ProtocolChooseTrent.CommitReceived | src/main/java/protocol/impl/sigma/steps/ProtocolChooseTrent.java:248-263 | the fields and the outcome become `OnCommit` of the old fields |
| ChooseTrentStep.ProtocolChooseTrent.CloseCommit | src/main/java/protocol/impl/sigma/steps/ProtocolChooseTrent.java:254-263 | the fields and the outcome become `CloseCommit` of the old fields |
| ChooseTrentStep.ProtocolChooseTrent.RevealReceived | src/main/java/protocol/impl/sigma/steps/ProtocolChooseTrent.java:268-318 | the fields and the outcome become `OnReveal` of the old fields |
| ChooseTrentStep.ProtocolChooseTrent.ChooseTrent | src/main/java/protocol/impl/sigma/steps/ProtocolChooseTrent.java:276-318 | the fields and the outcome become `CloseReveal` of the old fields |
| ChooseTrentStep.ProtocolChooseTrent.PickTrent | src/main/java/protocol/impl/sigma/steps/ProtocolChooseTrent.java:297-317 | the fields become `PickTrent` of the old fields |
| ChooseTrentStep.ProtocolChooseTrent.ConfirmReceived | src/main/java/protocol/impl/sigma/steps/ProtocolChooseTrent.java:322-345 | the fields become `OnConfirm` of the old fields |

## Findings

| source | as written | input that shows it | evidently intended | confidence | as-written member | corrected member |
|---|---|---|---|---|---|---|
| src/main/java/protocol/impl/sigma/steps/ProtocolChooseTrent.java:222-231 | the inner `for` over the offered list calls `it.next()` once per offered key, so it compares the i-th offered key with a different local candidate each time and removes the last candidate reached | local list [1,2,3,4], offered [2,1]: the loop leaves [1,3], dropping 2 (held by both) and keeping 3 (offered by no one); local [5], offered [5,6]: the loop throws NoSuchElementException | keep exactly the local candidates whose key is among the offered keys: [1,2] and [5] | high (follows from the loop's text and the comment "remove the users who are not in common list"; not executed) | Candidates.LiteralWalkDropsCommonCandidate | Candidates.KeepOffered |

## Left out

- Networking. `es.sendContract` is an append to the `outbox` field. `setListener`, `removeListener`, `stop` and `restore` only bind the step to the network and have no behaviour to verify.
- JSON and XML parsing. A message arrives already parsed as a `Message` value. A body that fails to parse (NumberFormatException) is not modelled.
- `SecureRandom`. The 100-bit draw is a `secret` parameter, and the model does not bound it to 100 bits.
- `new Users().get()`. The users list is a constructor argument.
- P and G. They are the source's literal values, but no proof evaluates an exponentiation with them.
- ElGamal keys. A party or a candidate is its public-key number. Round "3" compares the reported key as a number, where the source compares its decimal text; the two agree for the keys `toString` produces.
- The `@JsonCreator` resume constructor. It reads `contract` before assigning it, so it fails on every call.
- `println` logging.
- Concurrent delivery. Listener calls are a sequence of method calls.
- The establisher's Trent key. The step holds it in its `trent` field rather than in `SigmaEstablisher`. It starts out empty.
- `nextStep`. It is the `completed` flag; the hand-over to `setListenerOnTrent` is not modelled.
- Java's sort. `list.sort` is modelled by `Candidates.SortedKeys`. `Candidates.SortedUnique` shows that every correct sort gives the same list, so the choice of algorithm does not change the model.
- Memory layout. `hasSent` is a sequence of sequences reassigned by value, not an array of arrays. Aliasing between rows is not modelled, and the source creates none.
- ChooseTrentStep.ProtocolChooseTrent.constructor: requires the signer's key to be among the parties. When it is not, the source's search loop runs off the party list and throws.
- The round-0 loop. The step uses the intended filter `Retain`, not the loop as written; see Findings.
- Candidates.ExchangedListsAgree: assumes no key is repeated within a party's users list, because with a repeated key agreement fails (`Candidates.RepeatedKeyBreaksAgreement`).
- TrentProperties.HonestPairAgrees: covers two-party contracts only, and one delivery order: each party sends its list first, then receives the counterpart's list, commitment and secret in that order. With more parties, grb and finalNumber keep only the last sender's values. With the commitment ahead of the list the step stays in round 1 until another round-1 message arrives, and an honest counterpart sends none (`TrentProperties.CommitBeforeListStalls`). Other orders are not covered.
- Negative numbers. Commitments, secrets and keys in peer messages are naturals. The source parses any BigInteger, so a negative secret (a modular inverse in `gra.modPow(rb, P)`, a possibly negative `ra + rb`) and negative commitments or keys are not modelled.

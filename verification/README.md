# Threshold signing: signup, rounds, algebra

A Dafny model of a threshold-signature client and of the manager that coordinates its parties, with
proofs that span the three parts of the program.

**Signup.** `SigningRooms` and `Managers` hold the manager's objects and handlers in imperative form,
each method tied to a function on values. `RoomRuns` proves what one room keeps over arbitrary
sequences of requests. `SignupSystem` puts all clients and the whole store together as a state
machine: new signups, polls, clients that give up, stray requests, clock ticks, expiry of any entry,
writes by other handlers. A ghost ledger records which uuids were drawn for what. `KeygenSignups` does
the same for the group counter of key generation; `SignupInstances` holds short runs of signups.

**Rounds.** `StoreKeys` shows that the flat string store refines one mailbox per (from, to, round,
session). `RoundExchange` is an n-party machine over that store, generic in the protocol: every party
sends, polls in index order and puts its own value back, in any interleaving, while entries expire and
anybody else writes under keys of its own, be it another session or a member of the same room whose number
is past n; between the rounds it goes through its assertions, before each message it prepares it, and it
halts for good when either fails. Its theorem is a refinement: what a party holds after r rounds is what a
lock-step execution gives it, and it has halted exactly when that execution fails it there. `RoundProgress`
shows that while nothing of the session expires nothing but such a failure stops the parties: every run that
neglects nobody for long enough comes to the end, and a protocol that can fail has a run in which it does.
`Reassembly` holds the polling loops and those that put one's own value back.

**Algebra.** Scalars are integers modulo an arbitrary prime q; a point is its exponent of the
generator, and where the Edwards curve's torsion matters a point is an element of Z_l x Z_8. `Modular`,
`Sums` and `Shamir` build this up to Lagrange interpolation, which is proved, not assumed. `HdKeys` is
the path derivation, `Bytes` and `PairwiseKeys` the sealing of shares. `Keygen`, `EcdsaSigner` and
`EddsaSigner` are instances of `RoundExchange` (`Keygen` covers both curves, whose programs differ in the
padding of the pairwise keys): their message functions say what a party sends given what it gathered,
their `Checks` what it asserts. `EcdsaRuns`, `EcdsaVerification` and `EddsaRuns` prove that the pieces
fit and who passes which assertion. `EcdsaLoops` and `EddsaLoops` hold the signers' loops, whose counters
skip one's own number. `Verifiability` says what the assertions rule out when the others send anything.

**Together.** `Enrolment`, `Seating`, `KeyCeremonies`, `EcdsaEndToEnd` and `EddsaEndToEnd` join all three.
The requests that were given one uuid by the group counter carry out one key generation, each under its own
number, and groups do not disturb each other. For signing, take any clients of any signup run that returned
from one room under the numbers 1..n, each told n. Signing runs over just these n, each with the file its
party saved in some key generation run; the room may have more members, and these may write under their own
numbers as they like. The theorems say when none of the n can ever panic, that whoever comes to the end
holds the one signature of the run and when it verifies, and that in a run that neglects nobody, while
nothing of it expires, all of them come to the end.

## Conditions

Where a property fails in some case, the exact condition is proved.

- A full room takes one more number if and only if some member has gone silent
  (`RoomRuns.FullRoomGrowsIff`); `SignupInstances.RoomCanGrow` is a run that leaves a room of two with
  three members. It stays within its size when every new signup arrives while all present members are
  active (`RoomRuns.SizeBound`).
- Clients of one room can be told different totals, because a closed room no longer refreshes pings
  (the run in `SignupInstances.TotalsCanDiffer`). A client is told the whole membership if and only if it
  hears its answer no later than the oldest frozen ping plus the timeout (`SignupSystem.TotalsAgree`).
  So fewer clients than members may sign together, and two of three do in
  `SignupInstances.TwoOfThreeSign`; all members do under that condition (`Seating.WholeRoomJoins`).
- A client can return with a number greater than the total it is told, and the ECDSA program then indexes
  its vector of signers past the end (src/protocols/ecdsa/signer.rs:144). `SignupInstances.NumberPastTotal`
  is such a run. A number is within its total if and only if no more pings had aged when the answer came
  than there are members after that number (`Seating.NumberWithinTotalIff`), as for every client that heard
  its answer in time (`Seating.InTimeIsSeated`). Signing sessions are made up of clients whose numbers are 1..n of n.
- A closed room that everybody has left is replaced if and only if a new signup finds it so; a request
  with an unknown uuid gets an error and nothing is stored, and a member's own poll still gets the old
  room's answer (`RoomRuns.ClosedRoomIsFrozen`).
- ECDSA key generation does not pad the x-coordinate it uses as an AES key. Every party encrypts for the
  others in turn, and stops at the first whose key does not have 32 bytes. Some run of honest dealers
  makes one of them panic if and only if some pair's key does not have 32 bytes (`Keygen.PanicsIff`),
  that is, if the program does not pad and that pair's x-coordinate is below 2^248
  (`Keygen.KeysFitIff`). Dealers with nonzero secrets for which this happens exist if and only if some
  point of the group other than the identity has such an x-coordinate (`Keygen.UnpaddedFailsIff`).
- Path derivation takes the chain code's bytes through a big integer. Bytes that do not start with zero
  decode to the same point (`HdKeys.SurvivorsDecode`); with a decoder that rejects short input,
  derivation panics if and only if the path is empty or the bytes do start with zero
  (`HdKeys.PanicsIff`; a five-element curve on which it always does in `HdKeys.DerivationCanPanic`). Which
  decoders reject short input is a matter of the curve library, which is not part of this model. Compressed
  points of secp256k1 start with 2 or 3, so there the bytes never start with zero; whether the Edwards curve
  of the program has a chain code that fails is not settled here.
- EdDSA signing indexes a vector of t + 1 party numbers by the numbers of the room, so its loops get
  through if and only if the room counted exactly t + 1 parties (`EddsaLoops.EphemeralRounds`). Then no
  honest signer ever panics (`EddsaRuns.NeverPanics`).
- ECDSA signing along a path takes the second commitment scheme off the file, which is there if and only
  if key generation had a second party (`EcdsaRuns.CanAdjustIff`; a lone party's session in
  `EcdsaVerification.AloneAtPath`).
- Some run of honest ECDSA signers makes one of them panic if and only if its inputs are not usable
  (`EcdsaVerification.PanicsIff`): a path without a second scheme, a sum of the k or of the gammas that
  is zero, m + r(x + f) zero, or, if the library's verification turns down an r of zero, an x-coordinate of
  G over the sum of the k that is zero modulo q. If the library does not look at r, such a signature is put
  out although it does not verify by SEC 1; otherwise what is put out verifies.

The comment in the code calls number 1 of the room the leader and adjusts its `u`, while the commitment
adjusted is that of party 1 of the key generation; the two need not be the same party, and the shares and
their sums do not depend on it.

## Model

| member | source | states |
|---|---|---|
| SigningRooms.SigningRoom.AddParty | src/common/signing_room.rs:56-67 | the new member gets the next order, and nobody else changes |
| SigningRooms.SigningRoom.ReplaceParty | src/common/signing_room.rs:69-79 | the uuid and ping are renewed, the order is kept |
| SigningRooms.SigningRoom.CloseSignupWindow | src/common/signing_room.rs:108-113 | the stage becomes terminated exactly when enough members are active |
| SigningRooms.SigningRoom.UpdatePing | src/common/signing_room.rs:99-106 | the ping is refreshed, the room closed if that completes it, and the answer read off the result |
| Managers.Manager.Set | src/common/manager.rs:87-92 | the entry is overwritten and no other changes |
| Managers.MailboxesApart | src/common/manager.rs:64-92 | after a set, a get finds the new value under the cell's own key and the former one under every other cell's |
| Managers.Manager.SignupKeygen | src/common/manager.rs:95-128 | the handler answers with the next number below the size asked for or with the first of a new group, on its own entry, and changes no other |
| Managers.Manager.SignupSign | src/common/manager.rs:131-204 | the handler, with all its early returns, is the function that the run theorems are about, on the whole store |
| RoomRuns.ServeKeepsRoomOk | src/common/manager.rs:145-202 | every request keeps: orders a permutation of 1..members, distinct party uuids, closed implies full |
| RoomRuns.ClosedRoomIsFrozen | src/common/manager.rs:150-169 | a closed room stays while one ping is recent and is replaced, by a room of one, exactly by a new signup that finds all pings older than the timeout; members are told uuid, order and the number of recent pings, everybody else gets the error of the code |
| RoomRuns.OpenRoomRefuses | src/common/manager.rs:171-192 | when an open room answers with which error, in terms of pings; and then nothing is written |
| RoomRuns.OpenRoomAnswers | src/common/manager.rs:178-203 | otherwise exactly the requester's record changes, and the answer and the closing are as stated, in terms of pings |
| RoomRuns.PlaceTakenIffTimedOut | src/common/manager.rs:188-199 | a member loses its place exactly to a new signup under its number after it timed out |
| RoomRuns.ActiveMemberKeepsPlace | src/common/signing_room.rs:47-106 | over any run, a member that never times out keeps order and uuid until the room has closed |
| RoomRuns.FullRoomGrowsIff | src/common/manager.rs:171-198 | a full room, at its size or past it, takes one more number exactly when some member is inactive |
| RoomRuns.SizeBound | src/common/manager.rs:171-198 | over any run where new signups find everybody active, the room never exceeds its size |
| RoomRuns.WindowCloses | src/common/signing_room.rs:99-139 | enough distinct numbers joining within one timeout, among any requests in any order, and then one poll: the room is closed and everybody counted |
| RoomRuns.TotalJoined | src/common/signing_room.rs:120-139 | the reported count is everybody exactly while the oldest frozen ping is recent, and never rises later |
| SignupSystem.Signup | src/common/mod.rs:274-335 | the client loop returns what the fold over its answers gives, or panics |
| SignupSystem.SignupAgreement | src/common/mod.rs:274-335 | in every reachable state two sessions that returned one room uuid have different numbers within 1..members |
| SignupSystem.ReturnedIsMember | src/common/manager.rs:150-185 | a returned session is a member of the closed room on record, with its own uuid and number |
| SignupSystem.ReplacedNeverReturns | src/common/signing_room.rs:69-79 | a session whose party was replaced never gets a room uuid |
| SignupSystem.ReplacementIsRecorded | src/common/manager.rs:188-195 | taking over a timed-out number puts the former uuid among the replaced |
| SignupSystem.ClosedForever | src/common/manager.rs:150-169 | the members, orders and uuids with which a room closed never change, through expiry and renewal |
| SignupSystem.StoreHoldsRecord | src/common/manager.rs:145-202 | a closed room in the store is the one on record under its uuid |
| SignupSystem.TotalsAgree | src/common/signing_room.rs:125-139 | a session is told the whole membership exactly when it heard its answer in time |
| SignupSystem.StoredRoomsOk | src/common/manager.rs:131-204 | in every reachable state every stored room satisfies the room invariant |
| SignupSystem.SettledForever | src/common/mod.rs:274-335 | a session that has returned or panicked stays as it is, through every later event |
| SignupSystem.GivenUpNeverReturns | src/common/mod.rs:274-335 | a client whose patience ended never returns |
| SignupSystem.ExpiryStartsOver | src/common/manager.rs:145-148 | after a room's entry has expired the next signup starts a room of one under number 1 |
| SignupSystem.SignupsLeaveOthers | src/common/manager.rs:131-204 | what other handlers keep in the store no signup touches |
| SignupSystem.StrayTakesNumber | src/common/manager.rs:196-203 | a signup whose answer is lost takes a number all the same |
| SignupInstances.TotalsCanDiffer | src/common/manager.rs:150-153 | a run in which two sessions return from one room, one told two and the other told none |
| SignupInstances.NumberPastTotal | src/protocols/ecdsa/signer.rs:142-147 | a run in which a client returns with number 3, told a total of two |
| SignupInstances.RoomCanGrow | src/common/manager.rs:171-198 | a run that leaves a room of two with three members, two of whom return told two |
| KeygenSignups.EachGroupCounts | src/common/manager.rs:104-126 | over any run with any sizes and expiry, each uuid's numbers come out as 1,2,..,k |
| KeygenSignups.NumberFitsSize | src/common/manager.rs:104-126 | over any run with any sizes and expiry, a request gets a number within the size it asks for; it stays in the last group exactly when the counter is there and below that size, else it starts one under a new uuid |
| KeygenSignups.NoRepeats | src/common/manager.rs:104-126 | no pair of number and uuid is handed out twice |
| KeygenSignups.EachNumberOnce | src/common/manager.rs:104-126 | each of the numbers 1..k of a uuid went to exactly one request |
| KeygenSignups.SteadyGroups | src/common/manager.rs:112-124 | with constant n and no expiry the i-th request gets i mod n + 1 in group i div n |
| StoreKeys.KeysInjective | src/common/mod.rs:150-167 | broadcast, peer-to-peer and signup keys never collide, and each determines its mailbox |
| StoreKeys.DecimalReads | src/common/mod.rs:150-167 | the party numbers in the keys are in decimal, without leading zeros |
| StoreKeys.KeysLookLike | src/common/mod.rs:150-167 | what a broadcast key and a peer-to-peer key look like |
| Reassembly.ExchangeVector | src/protocols/eddsa/signer.rs:402-415 | the j-counter loop is insertion at one's own index, undone by removal |
| Reassembly.FormatVecFromReads | src/protocols/ecdsa/signer.rs:586-602 | the appended elements are the same insertion |
| Reassembly.InsertRemove | src/protocols/ecdsa/keygen.rs:77-82 | removing one's own index gives back the polled answers |
| Reassembly.RemoveInsert | src/protocols/ecdsa/signer.rs:345-346 | removing one's own element and inserting it again is the identity |
| Reassembly.Poll | src/common/mod.rs:178-262 | the polling loops succeed exactly when for every other party an answer comes before an empty reply past the timeout, and file the first answer of each, one's own index skipped |
| RoundExchange.RunsRefineSync | src/common/mod.rs:143-262 | under any interleaving, any expiry and any writes of anybody else, other members of the room among them, what a party holds is what the lock-step execution gives it |
| RoundExchange.OthersMayWrite | src/common/mod.rs:143-168 | whoever is not one of the n parties, or belongs to another session, may write in any of its mailboxes: the machine takes the write |
| RoundExchange.SessionsApart | src/common/mod.rs:150-167 | sessions with different uuids write under no common key |
| RoundExchange.HaltsAsInSync | src/protocols/ecdsa/signer.rs:188-285 | a party has passed its assertions of all rounds behind it, has halted exactly when the lock-step execution fails it on its assertions or on its next message, and leaves no round in which that execution fails it |
| RoundExchange.Barrier | src/common/mod.rs:178-262 | whoever finished round r, everybody wrote round r; nobody is more than one round ahead |
| RoundExchange.VectorAgreement | src/protocols/eddsa/signer.rs:381-416 | after a broadcast round all parties hold one vector, party i's datum at i - 1 |
| RoundProgress.NoDeadlock | src/common/mod.rs:178-262 | without expiry, and as long as no assertion fails, some unfinished party can always move |
| RoundProgress.CanReach | src/common/mod.rs:178-262 | without expiry every reachable state extends to one where all parties have any given number of rounds behind them, if no assertion before that fails |
| RoundProgress.FairRunsFinish | src/common/mod.rs:178-262 | without expiry and failing assertions, every run in which everybody acts once in each of more stretches than there are actions to take comes to the end, whatever the order and whatever others write |
| RoundProgress.LostForGood | src/common/mod.rs:178-262 | a message that expires before its reader has polled it is never written again, and the reader stays in that round for good |
| RoundProgress.SomebodyHalts | src/protocols/ecdsa/signer.rs:188-285 | a protocol in which some assertion fails in lock-step has a run, even without expiry, that halts a party |
| Shamir.Interpolation | src/protocols/ecdsa/signer.rs:142-147 | the Lagrange coefficients at zero of distinct nonzero points recover any polynomial's constant term |
| Shamir.CoefsSumToOne | src/protocols/ecdsa/signer.rs:137-147 | the coefficients add up to one |
| Shamir.SharesReconstruct | src/protocols/eddsa/signer.rs:133-134 | values congruent to a polynomial's at enough points reconstruct its secret |
| Shamir.ShareMatchesCommitment | src/protocols/ecdsa/keygen.rs:206-214 | the commitments evaluated at a point are G times the share there |
| Bytes.PadKey | src/protocols/eddsa/keygen.rs:105-109 | the padding fails exactly on more than 32 bytes; otherwise 32 bytes of the same value |
| Bytes.PaddedKey | src/protocols/eddsa/keygen.rs:105-109 | any value below 2^256 pads to exactly 32 bytes of that value |
| Bytes.UnpaddedKey | src/protocols/ecdsa/keygen.rs:134 | without padding there are 32 bytes exactly from 2^248 on |
| Bytes.RoundTrip | src/common/hd_keys.rs:22-52 | bytes survive the way through a big integer exactly when they do not start with zero |
| HdKeys.FirstLevelIsFold | src/common/hd_keys.rs:40-74 | when the chain code decodes to itself the hand-unrolled first level is the uniform fold, for every nonempty path |
| HdKeys.OneLevel | src/common/hd_keys.rs:40-55 | one level spelled out: what is hashed, that the upper 256 bits of the hash move the key and are the tweak, and that the lower 256 multiply the decoded chain code |
| HdKeys.OneLevelMore | src/common/hd_keys.rs:60-74 | the same step from any path to the path with one more index, the tweaks adding up |
| HdKeys.SurvivorsDecode | src/common/hd_keys.rs:52-53 | a chain code whose bytes do not start with zero decodes to itself |
| HdKeys.PanicsIff | src/common/hd_keys.rs:40-53 | with a decoder that rejects short bytes, derivation panics exactly on the empty path and on a leading zero byte |
| HdKeys.DerivationCanPanic | src/common/hd_keys.rs:52-53 | a curve and a chain code with which every derivation panics |
| HdKeys.ChildKeyIsTweaked | src/common/hd_keys.rs:47-74 | whatever the chain code decodes to the result is Y + G·f; and f is the sum of the levels' left halves when it decodes to itself |
| HdKeys.DerivationComposes | src/common/hd_keys.rs:31-75 | deriving p1 and then p2 is deriving p1 followed by p2, and the tweaks add up, when both chain codes decode to themselves |
| PairwiseKeys.PairPointSymmetric | src/protocols/ecdsa/keygen.rs:114 | two parties compute the same common point |
| PairwiseKeys.KeyLength | src/protocols/ecdsa/keygen.rs:134-166 | a pairwise key has 32 bytes exactly when padded or of full length |
| PairwiseKeys.KeyValue | src/protocols/eddsa/keygen.rs:105-109 | padded or not, the key's bytes are the x-coordinate of the common point, big-endian |
| PairwiseKeys.ShareArrives | src/protocols/ecdsa/keygen.rs:134-169 | sealing works exactly on 32-byte keys; what is sealed is the share's own bytes, and it opens to the share under that key only |
| Keygen.GatherPoints | src/protocols/ecdsa/keygen.rs:102-117 | the points of all and the keys of the others, under the skipping counter; each key is the x-coordinate of that point times one's secret |
| Keygen.SumPoints | src/protocols/ecdsa/keygen.rs:119-120 | the fold from the head is the sum of all points |
| Keygen.SealShares | src/protocols/ecdsa/keygen.rs:130-148 | party i is sent share i under the key shared with party i |
| Keygen.SealedIsPayload | src/protocols/ecdsa/keygen.rs:130-148 | what the loops seal for a party is the protocol's message to it |
| Keygen.OpenShares | src/protocols/ecdsa/keygen.rs:159-174 | the opened vector holds one's own share and what the others' sealed shares open to |
| Keygen.OpenedIsKeyShare | src/protocols/ecdsa/keygen.rs:159-214 | the shares opened are the protocol's, whatever stands at one's own place |
| Keygen.KeygenCorrect | src/protocols/ecdsa/keygen.rs:102-260 | in every run, a party that finishes saved the sum of all polynomials at its index and the common vectors and key |
| Keygen.FeldmanChecksPass | src/protocols/ecdsa/keygen.rs:206-214 | the library's share checks accept honest dealers |
| Keygen.SoundIff | src/protocols/ecdsa/keygen.rs:122-214 | no honest dealer ever fails an assertion exactly when all pairwise keys fit |
| Keygen.PanicsIff | src/protocols/ecdsa/keygen.rs:134-214 | some run of honest dealers makes one panic exactly when some pairwise key does not have 32 bytes |
| Keygen.FinishedFits | src/protocols/ecdsa/keygen.rs:134-136 | whoever has come to the end, all pairwise keys fit |
| Keygen.ProofsShown | src/protocols/ecdsa/keygen.rs:216-247 | whoever has come to the end was shown a proof for every part of the chain code and for every share saved |
| Keygen.KeysFitIff | src/protocols/ecdsa/keygen.rs:114-136 | all keys fit exactly when padded or every common x-coordinate is at least 2^248 |
| Keygen.UnpaddedFailsIff | src/protocols/ecdsa/keygen.rs:114-136 | for every unpadded suite, honest dealers with nonzero secrets whose keys do not fit exist exactly when some other point than the identity has an x-coordinate below 2^248 |
| Keygen.AnyQuorumReconstructs | src/protocols/ecdsa/keygen.rs:206-214 | any t + 1 saved shares interpolate to the discrete logarithm of the saved public key |
| Keygen.PublicKeyIsJoint | src/protocols/ecdsa/keygen.rs:119-120 | the saved public key is G times the sum of the secrets |
| ShareConversion.ConversionSums | src/protocols/ecdsa/signer.rs:190-292 | the converted shares of any number of parties add up to the product of the two sums, whatever masks were drawn |
| ShareConversion.MasksCancel | src/protocols/ecdsa/signer.rs:198-211 | the masks drawn and received cancel over all pairs |
| EcdsaSigner.LocalKeys.ApplyPath | src/protocols/ecdsa/signer.rs:99-140 | it fails exactly where an index or iterator runs out; else scheme 0 gets its first commitment moved and no other changes, the share moves by f, u only at number 1 |
| EcdsaLoops.GatherSigners | src/protocols/ecdsa/signer.rs:87-97 | the index vector holds everybody's party number less one, in order |
| EcdsaLoops.GatherPhase1 | src/protocols/ecdsa/signer.rs:169-187 | the commitments of all and the ciphertexts of the others |
| EcdsaLoops.RespondToAll | src/protocols/ecdsa/signer.rs:191-218 | the answers and masks are those of the full vectors with one's own place removed |
| EcdsaLoops.SendAnswers | src/protocols/ecdsa/signer.rs:220-235 | signer i is sent the answers to its own ciphertext |
| EcdsaLoops.SentIsAnswer | src/protocols/ecdsa/signer.rs:195-235 | what the two loops together send to a signer is the protocol's message to it |
| EcdsaLoops.DecryptAnswers | src/protocols/ecdsa/signer.rs:258-289 | the loop succeeds exactly when every answer opens and every point matches, and yields the decrypted values with one's own place removed |
| EcdsaRuns.CanAdjustIff | src/protocols/ecdsa/signer.rs:103-126 | honest files can be adjusted for a path exactly when key generation had two parties |
| EcdsaRuns.AdditiveKeysSum | src/protocols/ecdsa/signer.rs:99-147 | for every signer set the adjusted additive keys add up to the private key plus the tweak |
| EcdsaRuns.CommitmentCheckPasses | src/protocols/ecdsa/signer.rs:261-285 | G times a signer's additive key is the point recomputed from the adjusted commitments |
| EcdsaRuns.ShareSums | src/protocols/ecdsa/signer.rs:190-292 | with the program's routing, the deltas sum to the product of the k and gamma sums, the sigmas to that of the k and key sums |
| EcdsaRuns.NonceOpeningsMatch | src/protocols/ecdsa/signer.rs:338-351 | once one's own are removed, the answers, openings and commitments agree place by place, and the place of a signer holds its own nonce point |
| EcdsaRuns.SameNonce | src/protocols/ecdsa/signer.rs:338-354 | every signer computes the same R, its own part added last |
| EcdsaRuns.SameOutput | src/protocols/ecdsa/signer.rs:535-546 | every signer outputs the same signature |
| EcdsaVerification.NonceOfRun | src/protocols/ecdsa/signer.rs:350-354 | R is G over the sum of the k |
| EcdsaVerification.SOfRun | src/protocols/ecdsa/signer.rs:362-363 | s is k(m + r(x + f)) |
| EcdsaVerification.EquationIff | src/protocols/ecdsa/signer.rs:543-556 | any signature satisfies the equation of section 4.1.4 of SEC 1 exactly when some nonce e has es = m + rY and the x-coordinate r |
| EcdsaVerification.LowSIs | src/protocols/ecdsa/signer.rs:543-546 | the s put out is s or its negation, whichever is at most half the order |
| EcdsaVerification.MessageKept | src/protocols/ecdsa/signer.rs:356-361 | of a message below 2^256 nothing is lost |
| EcdsaVerification.LowSVerifies | src/protocols/ecdsa/signer.rs:543-556 | the smaller of s and its negation satisfies the equation of section 4.1.4 of SEC 1 exactly when it is not zero, and passes that section exactly when r is not zero either |
| EcdsaVerification.HalvesIff | src/protocols/ecdsa/signer.rs:350-363 | neither half is zero exactly when the x-coordinate of G over the sum of the k and m + r(x + f) are not zero; likewise for those the library minds |
| EcdsaVerification.AnswerPassesCheck | src/protocols/ecdsa/signer.rs:266-285 | in an honest run every answer opens under one's own key and carries the recomputed point |
| EcdsaVerification.SoundIff | src/protocols/ecdsa/signer.rs:87-556 | no honest signer ever fails an assertion exactly when the inputs are usable |
| EcdsaVerification.PanicsIff | src/protocols/ecdsa/signer.rs:87-556 | some run of honest signers makes one panic exactly when the inputs are not usable |
| EcdsaVerification.AloneAtPath | src/protocols/ecdsa/signer.rs:109 | an honest signer alone since key generation that asks for a path, and a run in which it panics |
| EcdsaVerification.SignatureVerifies | src/protocols/ecdsa/signer.rs:543-556 | every signer with all rounds behind it, under any interleaving, holds the run's one signature, low in s, with r and the condition for it to verify for the message modulo 2^256 in terms of the inputs |
| EdwardsPoints.ClearTorsionProjects | src/protocols/eddsa/signer.rs:160-167 | clearing keeps the prime-order part and drops the torsion |
| EdwardsPoints.ClearTorsionIdempotent | src/protocols/eddsa/signer.rs:160-167 | it is idempotent, and the identity exactly on the prime-order subgroup |
| EdwardsPoints.AddIsGroup | src/protocols/eddsa/signer.rs:160-167 | the points are a commutative group |
| EdwardsPoints.MulIsRepeatedAdd | src/protocols/eddsa/signer.rs:160-167 | multiples are repeated sums |
| EddsaSigner.SignatureObject.Update | src/protocols/eddsa/signer.rs:147-158 | s grows by f times the challenge, R stays |
| EddsaLoops.GatherEphemerals | src/protocols/eddsa/signer.rs:190-247 | for a count n and t + 1 party numbers it succeeds exactly when n is t + 1; then it has the nonce points of all and each other signer's key under its party number, the x-coordinate of that signer's point times one's nonce |
| EddsaLoops.SealShares | src/protocols/eddsa/signer.rs:291-308 | signer i is sent share i under the key filed for its party number; it fails exactly where the vector of party numbers ends |
| EddsaLoops.OpenShares | src/protocols/eddsa/signer.rs:319-333 | the opened vector holds one's own share and what the others' sealed shares open to; it fails exactly where the vector of party numbers ends |
| EddsaLoops.EphemeralRounds | src/protocols/eddsa/signer.rs:185-333 | the three loops get through exactly when the room counted t + 1 parties, and then send and hold what the protocol has |
| EddsaRuns.LocalSigsAccepted | src/protocols/eddsa/signer.rs:121-128 | the check of local signatures accepts every honest one |
| EddsaRuns.SigmaInterpolates | src/protocols/eddsa/signer.rs:133-134 | the interpolated s is the nonce plus the challenge times the private key |
| EddsaRuns.SignatureEquation | src/protocols/eddsa/signer.rs:133-139 | after the update s is the nonce plus the challenge times (x + f) |
| EddsaRuns.EquationsIff | src/protocols/eddsa/signer.rs:136-144 | any signature with a nonce point and key of prime order satisfies section 5.1.7 of RFC 8032, and the library's check, exactly when s is R plus the challenge times the key |
| EddsaRuns.NonceAnnounced | src/protocols/eddsa/signer.rs:335-370 | what everybody announces after the ephemeral rounds is the one nonce point and its own share of the nonce |
| EddsaRuns.NeverPanics | src/protocols/eddsa/signer.rs:194-344 | in no run does an honest signer fail an assertion |
| EddsaRuns.SignatureVerifies | src/protocols/eddsa/signer.rs:75-144 | every signer with all rounds behind it holds the run's one signature; it satisfies section 5.1.7 of RFC 8032 under the path's key, and the library's own check |
| Verifiability.OpeningsChecked | src/protocols/ecdsa/keygen.rs:122-126 | whatever was sent, a dealer gets past round 2 exactly when every point shown is the one committed to |
| Verifiability.PacksChecked | src/protocols/ecdsa/keygen.rs:159-174 | it gets past round 3 exactly when every other's pack is sealed under the common key and that has 32 bytes |
| Verifiability.CheckedKeyShare | src/protocols/ecdsa/keygen.rs:206-214 | whoever gets past the share check holds a share that fits the added commitments, which commit to the public key it saves |
| Verifiability.CheckedNonceShare | src/protocols/eddsa/signer.rs:335-370 | the same of the share of the nonce |
| Verifiability.CheckedLocalSigs | src/protocols/eddsa/signer.rs:121-134 | local signatures that pass the check, whoever made them, interpolate to the committed nonce plus the challenge times the committed key |
| Verifiability.CheckedSignature | src/protocols/eddsa/signer.rs:121-144 | whoever gets through the last assertions has made that check and holds a signature the library accepts |
| Verifiability.CountChecked | src/protocols/eddsa/signer.rs:190-194 | a signer gets past round 0 exactly when it counted t + 1 signers, itself among them |
| Verifiability.NumbersChecked | src/protocols/ecdsa/signer.rs:87-147 | a signer gets past round 0 exactly when the party numbers are distinct and on file, and the file can be adjusted if there is a path |
| Verifiability.AnswersChecked | src/protocols/ecdsa/signer.rs:261-289 | a signer gets past round 2 exactly when every other's answers open under its own key and the second is about the recomputed point |
| Verifiability.NonceOpeningsChecked | src/protocols/ecdsa/signer.rs:338-351 | it gets past round 4 exactly when every other's nonce point is the one committed to and the one answered with |
| Verifiability.CheckedOutput | src/protocols/ecdsa/signer.rs:543-556 | whoever gets through the last assertion holds a signature some nonce could have made, which passes SEC 1 unless its r is zero |
| Seating.ReturnedClientHasSeat | src/protocols/ecdsa/signer.rs:57-97 | a client returned from signup sits, under its number, at the place of its own party number |
| Seating.ReturnedClientCountsSeats | src/common/mod.rs:327 | the total it returns with is the number of seats exactly when it heard its answer in time |
| Seating.PartiesDistinct | src/protocols/ecdsa/signer.rs:57-97 | clients returned from one room under the numbers 1..n, each told n, are distinct parties |
| Seating.WholeRoomJoins | src/common/mod.rs:327 | as many returned clients as members, all of whom heard in time, make up a signing session whose parties are the members |
| Enrolment.WholeGroupEnrols | src/common/manager.rs:104-126 | over any run, all the requests that were given one uuid make up one group, numbered 1..k |
| Enrolment.EnrolmentUnique | src/common/manager.rs:104-126 | two groups under one uuid have the same request at each number |
| Enrolment.SteadyGroupEnrols | src/common/manager.rs:112-124 | with constant n and no expiry each n requests in a row make up a group |
| Enrolment.CeremoniesApart | src/protocols/ecdsa/keygen.rs:42-148 | what one group's key generation writes is no message of another's |
| Enrolment.GroupSaves | src/protocols/ecdsa/keygen.rs:42-264 | a group that neglects nobody, without expiry and with keys that fit, ends with a file for every request under the number it was given, with the public key of the sum of the group's secrets |
| Seating.NumberWithinTotalIff | src/common/signing_room.rs:120-139 | a returned client's number is one of the members', and at most its total exactly when no more pings had aged than there are members after it |
| Seating.InTimeIsSeated | src/common/signing_room.rs:120-139 | whoever heard its answer in time is told the whole membership, sits at its number, and that is at most its total |
| KeyCeremonies.DerivedKey | src/protocols/eddsa/signer.rs:43-63 | every signer of a key generation derives the root key moved by the tweak |
| KeyCeremonies.AllCanSave | src/protocols/ecdsa/keygen.rs:59-264 | without expiry and with keys that fit, every reachable state of a key generation extends to one where everybody has saved its file |
| KeyCeremonies.FairRunsSave | src/protocols/ecdsa/keygen.rs:59-264 | and every key generation that neglects nobody for long enough gets there |
| SignupInstances.TwoOfThreeSign | src/common/mod.rs:327 | two clients of a room of three members make up a signing session |
| EcdsaEndToEnd.ClientsAreHonest | src/protocols/ecdsa/signer.rs:57-97 | clients of one room with a common count and their parties' files are distinct honest signers with the right key |
| EcdsaEndToEnd.ClientsSign | src/protocols/ecdsa/signer.rs:38-573 | for any such clients, in any run: no panic when the inputs are usable, a run with a panic when not, and whoever has all rounds behind it holds the one signature, which verifies under the path's key exactly when no half is zero |
| EcdsaEndToEnd.AllCanSign | src/protocols/ecdsa/signer.rs:69-556 | without expiry and with usable inputs every reachable state of honest signers extends to one where each holds the same signature without a panic, accepted, and verifying unless its r is zero |
| EcdsaEndToEnd.FairRunsSign | src/protocols/ecdsa/signer.rs:69-556 | and every run that neglects nobody for long enough ends like that |
| EddsaEndToEnd.ClientsAreHonest | src/protocols/eddsa/signer.rs:70-103 | t + 1 clients of one room, each told t + 1, are distinct honest signers, and the key is the derived one |
| EddsaEndToEnd.ClientsSign | src/protocols/eddsa/signer.rs:19-145 | for any such clients, in any run: no panic, and whoever has all rounds behind it holds the one signature, which satisfies the curve equation under the path's key |
| EddsaEndToEnd.AllCanSign | src/protocols/eddsa/signer.rs:79-144 | without expiry every reachable state of honest signers extends to one where each holds the same signature, satisfying the equation and without a panic |
| EddsaEndToEnd.FairRunsSign | src/protocols/eddsa/signer.rs:79-144 | and every run that neglects nobody for long enough ends like that |

## Left out

- HTTP, retries, sleeping, environment variables, files, command lines and printing.
- JSON: encoding and decoding are taken to be the identity; an entry of another kind under a signup key
  is the error the handler panics with.
- AES-GCM, HMAC, SHA, Paillier, zero-knowledge proofs and curve arithmetic are libraries. They appear
  by contract: sealing needs a 32-byte key and opens under that key only; the hashes and the
  x-coordinate are arbitrary functions (the latter even in the exponent where a negated nonce point
  is considered); answering a ciphertext gives product plus mask; honest proofs verify.
- Rounds 5 to 8 of ECDSA signing are exchanged, but their contents, commitments and proofs that the
  library checks, are placeholders without assertions. The recovery id is not computed.
- EcdsaVerification.SoundIff: speaks of the assertions of the model only, without those of rounds 5 to 8.
- EcdsaVerification.PanicsIff: the same. The library's `verify` is taken to be the equation of SEC 1 for an
  s with an inverse, with or without a check that r is not zero; its source is not part of this model.
- src/protocols/ecdsa/curv7_conversion.rs, `check_sig`, src/main.rs and the wrappers in
  src/protocols/ecdsa/mod.rs and src/protocols/eddsa/mod.rs: field-by-field conversion and wiring.
- `verify_dlog_proofs`: all proofs of an honest run verify, so nothing is left of it.
- u16 overflow (threshold + 1, the 65536th member, party number 0) and a clock before the timeout:
  numbers are unbounded, and `now - timeout` may be negative.
- Secrecy. Runs are those of honest parties, in which any entry may expire, any client may stop, and anybody
  else may write under keys of its own; `Verifiability` says of single parties what they cannot be sent
  without halting, not what a run with dishonest parties comes to.
- Requests are atomic, as the handlers hold the lock; time is read once in each.
- The path string is a sequence of numbers; parsing it is left out.
- Panics of the libraries that honest parties cannot cause (proofs that do not verify, malformed
  messages), and the x-coordinate of the identity, which is a value of the x-coordinate function.
- Reassembly.Poll: the replies are given with the time at which they come; the loops' own delays are not
  modelled, and a sequence of replies that ends before the timeout counts as a timeout.
- RoundProgress.CanReach: a party polls for as long as it takes; the timeout after which the program
  panics is not part of the machine.
- RoundProgress.FairRunsFinish: the same.
- Bytes.RoundTrip: the minimal bytes of zero are none at all; a library that writes one zero byte would let
  the one-byte string of a zero survive. Padding and the length check treat the two alike.
- EcdsaSigner.LocalKeys.ApplyPath: `u` is moved at number 1 but used by no later step of the model.
- EddsaRuns.NeverPanics: for exactly t + 1 signers; `EddsaLoops.EphemeralRounds` says what happens to others.
- EddsaEndToEnd.ClientsSign: signing with another count than t + 1, which cannot get past the ephemeral
  loops, is not modelled as a run.

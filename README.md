# EVoting blind-signature core in Dafny

This project models the protocol layer of a Chaum-style e-voting simulation
built on RSA blind signatures. It covers three parts:

- The central election commission (`Commission`). It keeps the candidate and
  voter registries, a status per voter, the tally and the append-only ballot
  log, and a completion flag. Its vote-acceptance pipeline checks five things
  in order: the voting is still open; the message decrypts and deserialises;
  the signature is authentic; the voter is registered and has not voted; the
  candidate is registered. Only then does it record the vote. The visible
  skeleton of batch checking is modelled too.
- The voter (`Voters`). It builds ten batches of masked ballots, one masked
  ballot per candidate. It then searches the blind signatures it gets back for
  the first one that opens to its own ballot for the chosen candidate, and
  encrypts that signed ballot.
- Ballot equality (`Ballots`), which the voter's search relies on.

All cryptography, serialisation and randomness are opaque. The RSA service,
the object serialiser and the random provider are records of functions passed
in by the caller (`Ports`). The properties assumed of them are named
predicates, such as the serialisation round trip, the encryption round trip
and the blind-signature law. Only the lemmas that need such a property take it
as a precondition. Calls that the source makes inside `Result.Try` may throw,
and return an `Attempt`.

`Protocol` connects the parts. Its main lemma proves that an honest round is
accepted: the voter masks, the commission blindly signs, and the voter
demasks, picks and encrypts. Its scenario methods state the completion lock,
the batch audit of a generated collection and the double-voting gap described
under Findings.

Files: `Common.dfy` (bytes, GUIDs, `Option`, `Attempt`, `Result`),
`Ballots.dfy`, `Entities.dfy`, `Ports.dfy`, `Voters.dfy`, `Commission.dfy`,
`Protocol.dfy`.

## Model

| member | source | states |
|---|---|---|
| Ballots.Equals | Modelling/Entities/Ballot.cs:19-27 | false for null; otherwise true exactly when both voter id and candidate id agree |
| Ballots.AsBallot | Modelling/Entities/Ballot.cs:16 | the conversion `obj as Ballot`: a ballot exactly for a Ballot object, holding that ballot, and null for null and for any other object |
| Ballots.EqualsObject | Modelling/Entities/Ballot.cs:14-17 | true exactly for a Ballot object equal to this one; false for null and for any non-Ballot object |
| Ballots.EqualityOperator | Modelling/Entities/Ballot.cs:29-41 | two nulls are equal, a null and a ballot are not, two ballots are equal iff their fields are |
| Ballots.InequalityOperator | Modelling/Entities/Ballot.cs:43 | exactly the negation of `==` |
| Ballots.EqualityOperatorIsEquivalence | Modelling/Entities/Ballot.cs:29-41 | `==` is reflexive, symmetric and transitive |
| Ballots.GetHashCode | Modelling/Entities/Ballot.cs:45-48 | the hash is the combiner applied to the voter id and the candidate id, the two fields Equals compares; the per-process combiner is a parameter |
| Ballots.EqualBallotsHaveEqualHashCodes | Modelling/Entities/Ballot.cs:45-48 | ballots that Equals relates have equal hash codes, whatever the combiner |
| Ports.NextItem | Algorithms/Abstractions/IRandomProvider.cs:4 | the random provider returns one of the given items |
| Entities.BallotBatch.constructor | Modelling/Entities/BallotBatch.cs:6-9 | a new batch object holding the given masked ballots |
| Voters.MaskBallot | Modelling/Entities/Voter.cs:47-49 | one masked ballot: the serialised Ballot masked under the public key with the multiplier |
| Voters.MaskedBallots | Modelling/Entities/Voter.cs:44-51 | the masked ballots of one batch, one per candidate id in order; its length is the number of candidate ids |
| Voters.MaskedBallotsAt | Modelling/Entities/Voter.cs:44-51 | a batch has one masked ballot per candidate id, in the same order, each masking a Ballot with the voter's own id |
| Voters.Recover | Modelling/Entities/Voter.cs:81-83 | DemaskSignature, Decrypt under the public key, then ReverseTransform: it returns iff none of the three throws, and then carries the demasked signature and the ballot (possibly null) deserialised from its decryption |
| Voters.IsMatch | Modelling/Entities/Voter.cs:85 | the search's test: a non-null ballot with this voter's id and the chosen candidate |
| Voters.IsMatchIsBallotEquality | Modelling/Entities/Voter.cs:85 | the search's test is Ballot equality with Ballot(voter id, chosen candidate) |
| Voters.FirstMatch | Modelling/Entities/Voter.cs:77-91 | the reference definition of the search: the first signature, in input order, that recovers a matching ballot, a failure on the first throw before one is found, and a failure for no match; a success always holds Ballot(voter id, candidate id), a failure is always the "wrong format" error, and an empty input fails as not found |
| Voters.FirstMatchIsFirst | Modelling/Entities/Voter.cs:79-88 | a successful search returns the voter's ballot for the chosen candidate from some signature i; every earlier signature recovered without throwing and did not match |
| Voters.FirstMatchAt | Modelling/Entities/Voter.cs:79-88 | conversely, the first matching signature, with no earlier throw, is the one returned, together with its demasked signature |
| Voters.FirstMatchNotFound | Modelling/Entities/Voter.cs:79-90 | the search fails with "not able to find the right ballot" iff every signature recovers without throwing and none matches |
| Voters.FirstMatchThrows | Modelling/Entities/Voter.cs:77-91 | an exception before any match becomes a failure, not a throw |
| Voters.EncryptSignedBallot | Modelling/Entities/Voter.cs:94-103 | encrypting a signed ballot always succeeds |
| Voters.Voter.constructor | Modelling/Entities/Voter.cs:14-18 | id and capability as given; no mask multiplier yet |
| Voters.Voter.IsAbleToVote | Modelling/Entities/Voter.cs:20-28 | fails iff the voter is not capable, with an error naming the voter |
| Voters.Voter.GenerateBallotBatches | Modelling/Entities/Voter.cs:30-56 | exactly 10 distinct fresh batches; each is MaskedBallots for the voter's id and the candidate ids in order; the stored multiplier and the collection's multiplier are both the one generated for this call |
| Voters.Voter.FindAndDemaskSignedBallot | Modelling/Entities/Voter.cs:70-92 | the loop returns what FirstMatch specifies: the first matching signature, a failure on a throw, a failure when nothing matches |
| Voters.Voter.CreateFinalBallot | Modelling/Entities/Voter.cs:58-68 | succeeds iff the search succeeds and keeps the search's error otherwise; on success it is Encrypt(Transform(found signed ballot), public key) |
| Commission.MessageIdentifiesError | Modelling/Entities/CentralElectionCommission.cs:90-142 | the six error texts of the acceptance steps are pairwise different, so the text tells which step rejected the vote |
| Commission.Ids | Modelling/Entities/CentralElectionCommission.cs:27-37 | the ids the two registration loops add, projected in list order (its length and each element); Create, RegisterCandidates and RegisterVoters state over it that construction fails iff it has a repeat |
| Commission.WithVote | Modelling/Entities/CentralElectionCommission.cs:144-151 | the voted candidate's count rises by one and no other count changes; the log gains one record with ballot number previous length + 1 |
| Commission.TotalVotesSplit | Modelling/Entities/CentralElectionCommission.cs:146 | the tally sum can be split at any candidate |
| Commission.TotalVotesOfFreshTally | Modelling/Entities/CentralElectionCommission.cs:30 | a tally of zero counts sums to zero |
| Commission.WithVoteCounts | Modelling/Entities/CentralElectionCommission.cs:146-148 | if every count equals the log records naming its candidate, that still holds after the vote |
| Commission.WithVoteTotal | Modelling/Entities/CentralElectionCommission.cs:146-148 | recording a vote raises the sum of all counts by exactly one |
| Commission.WithVotePreservesConsistency | Modelling/Entities/CentralElectionCommission.cs:144-151 | recording a vote keeps the results consistent: ballot numbers are 1, 2, 3, ...; each count equals the log records naming that candidate; the counts sum to the log length |
| Commission.FreshResultsAreConsistent | Modelling/Entities/CentralElectionCommission.cs:27-31 | zero counts with an empty log are consistent |
| Commission.AllExceptMembers | Modelling/Entities/CentralElectionCommission.cs:60-65 | the visited batches are exactly the batches other than the spared one |
| Commission.AllExceptCount | Modelling/Entities/CentralElectionCommission.cs:60-65 | with distinct batches that include the spared one, all but one batch is visited |
| Commission.AllExcept | Modelling/Entities/CentralElectionCommission.cs:60-65 | the batches visited by the skip loop, in order; none of them is the spared batch and there are no more of them than batches |
| Commission.CentralElectionCommission.constructor | Modelling/Entities/CentralElectionCommission.cs:23-40 | from candidate and voter registries each keyed by its entries' own ids, a zero count per candidate and a status per voter: those registries, statuses and keys, an empty log, voting open, and the invariant holds |
| Commission.CentralElectionCommission.Create | Modelling/Entities/CentralElectionCommission.cs:23-40 | fails iff a candidate id or a voter id repeats, naming a repeated id (candidates first); otherwise every candidate is registered with 0 votes, every voter is NotAttended, the log is empty, voting is open and the invariant holds |
| Commission.CentralElectionCommission.RegisterCandidates | Modelling/Entities/CentralElectionCommission.cs:27-31 | fails iff a candidate id repeats; otherwise the registry and a zero tally entry per candidate |
| Commission.CentralElectionCommission.RegisterVoters | Modelling/Entities/CentralElectionCommission.cs:33-37 | fails iff a voter id repeats; otherwise the registry and NotAttended for every voter |
| Commission.CentralElectionCommission.CheckIfVotingIsCompleted | Modelling/Entities/CentralElectionCommission.cs:90-93 | fails iff voting is completed, with "already completed" |
| Commission.CentralElectionCommission.DecryptSignedBallot | Modelling/Entities/CentralElectionCommission.cs:96-102 | succeeds iff decryption and deserialisation return a non-null signed ballot, which it returns; any other outcome is the "wrong format" error |
| Commission.CentralElectionCommission.VerifySignature | Modelling/Entities/CentralElectionCommission.cs:104-114 | succeeds with the ballot iff VerifyHash accepts the serialised ballot and signature under the public key; otherwise "not authentic" |
| Commission.CentralElectionCommission.VerifyVoterWhileVoting | Modelling/Entities/CentralElectionCommission.cs:116-131 | an unregistered voter gives "not found", a voter with status Voted gives "already casted", any other voter passes |
| Commission.CentralElectionCommission.VerifyCandidate | Modelling/Entities/CentralElectionCommission.cs:133-142 | passes iff the candidate is registered; otherwise "candidate not found" |
| Commission.CentralElectionCommission.Validate | Modelling/Entities/CentralElectionCommission.cs:80-87 | the checks run in order and the first failure decides; a message that does not decrypt fails with "wrong format" before the signature is looked at; success means every check passed |
| Commission.CentralElectionCommission.AddVote | Modelling/Entities/CentralElectionCommission.cs:144-151 | the results become WithVote of the old results; the ballot number is the old log length + 1; the invariant is kept |
| Commission.CentralElectionCommission.AcceptVote | Modelling/Entities/CentralElectionCommission.cs:80-88 | on any failed check, that check's error and no change at all; on success, the vote is added and its ballot number returned; statuses, registries and the flag never change |
| Commission.CentralElectionCommission.AcceptVoteMarkingVoted | Modelling/Entities/CentralElectionCommission.cs:144-151 | corrected AcceptVote: as AcceptVote, and on success the voter's status becomes Voted |
| Commission.CentralElectionCommission.CompleteVoting | Modelling/Entities/CentralElectionCommission.cs:153-156 | sets the completion flag and changes nothing else; the invariant is kept |
| Commission.CentralElectionCommission.CheckBatches | Modelling/Entities/CentralElectionCommission.cs:57-70 | the spared batch is the random provider's pick from the batches; the visited batches are all the others, in order |
| Protocol.RecoverBlindSignature | Modelling/Entities/Voter.cs:81-83 | a blindly signed masked ballot demasks, decrypts and deserialises back to that ballot |
| Protocol.SignedBatchYieldsChosenBallot | Modelling/Entities/Voter.cs:79-88 | over the blind signatures of its own batch, the search returns the chosen candidate's ballot, taken from that candidate's first position in the batch |
| Protocol.EncryptedBallotDecrypts | Modelling/Entities/CentralElectionCommission.cs:96-102 | under the encryption and serialisation round trips, the commission decrypts and deserialises exactly the signed ballot that EncryptSignedBallot encrypted |
| Protocol.FinalBallotIsAccepted | Modelling/Entities/CentralElectionCommission.cs:80-87 | the final ballot built from a successful search passes every check of an open commission when the voter and the candidate are registered and the voter has not voted |
| Protocol.HonestVoteIsAccepted | Modelling/Entities/Voter.cs:58-68 | an honest round is accepted: masking, blind signing, demasking, search and encryption lead to the voter's ballot for the chosen candidate |
| Protocol.AuditGeneratedBatches | Modelling/Entities/CentralElectionCommission.cs:59-65 | for a generated collection, exactly one batch is spared and the other nine are audited |
| Protocol.AcceptAfterCompletion | Modelling/Entities/CentralElectionCommission.cs:153-156 | after CompleteVoting every vote fails with "already completed", and the results and statuses do not change |
| Protocol.AcceptSameBallotTwice | Modelling/Entities/CentralElectionCommission.cs:144-151 | as written: the same final ballot is accepted twice, with ballot numbers n+1 and n+2, and counted twice |
| Protocol.RejectSameBallotTwice | Modelling/Entities/CentralElectionCommission.cs:116-131 | corrected: the second submission fails with "already casted", and the ballot is counted once |

## Left out

- AcceptBatches (Modelling/Entities/CentralElectionCommission.cs:42-47) and CheckBatch (Modelling/Entities/CentralElectionCommission.cs:72-78) are left out because they are unfinished and do not compile: AcceptBatches calls CheckBatches with no arguments and ends without a semicolon, and CheckBatch returns nothing. Nothing in them says what a batch check verifies.
- DecryptBallotBatchesCollection (Modelling/Entities/CentralElectionCommission.cs:49-55) is complete code, but it is left out because its only caller, AcceptBatches, is unfinished. It would follow the same pattern as DecryptSignedBallot.
- Commission.CentralElectionCommission.CheckBatches: it models only the visible skeleton. It returns the spared batch and the batches it visits, and does not return a `Result`.
- Commission.CentralElectionCommission.CheckBatches: it requires a non-empty collection, because what the random provider returns for no items is not visible.
- Protocol.SignAll is not code from the source. It describes the signatures the voter expects back from the unfinished AcceptBatches: each masked ballot signed with the private key, in order.
- Cryptography (Algorithms/RSA), key and mask-multiplier generation, binary serialisation and randomness are opaque functions passed as parameters. The generated mask multiplier is a parameter of GenerateBallotBatches, and the key pair is a parameter of Create.
- Voters.EncryptSignedBallot, Voters.Voter.GenerateBallotBatches and Commission.CentralElectionCommission.VerifySignature: Mask, Encrypt, Transform and VerifyHash are called outside `Result.Try`. The model treats them as total. An exception from them would escape the source's methods, and that is not modelled.
- Ballots.GetHashCode: `HashCode.Combine` is seeded per process, so the combiner is a parameter. Only its determinism is used.
- Commission.CentralElectionCommission.AddVote: `Votes++` and the ballot number are unbounded integers. The source's 32-bit `int` would wrap after 2^31 - 1 votes.
- Commission.CentralElectionCommission.AcceptVote: a deserialised SignedBallot whose Ballot is null is not modelled, because the SignedBallot datatype always holds a ballot. From the visible code, such a message would either fail with "The signature is not authentic." (if VerifyHash rejects it) or throw a NullReferenceException at CentralElectionCommission.cs:118 that escapes AcceptVote. Which one happens depends on the opaque serialiser and RSA service.
- Commission.CentralElectionCommission.AcceptVote: a deserialised SignedBallot whose Signature is null (SignedBallot.cs:6) is not modelled either, because `Bytes` is never null. What VerifyHash does with a null signature is not visible.
- Messages of errors caused by exceptions (`CausedBy`) are not modelled. A failure records only which step failed and, in the voter, whether a collaborator threw or no ballot matched.
- VotingResults.cs declares both collections as lists, and the second one is named `VoterResults`. The commission uses them as a dictionary keyed by candidate id and as a log named `VotersResults`, and the model follows the commission's usage. The results object is owned by the commission here, so outside code holding a reference to it is not modelled.
- Voters.Voter.GenerateBallotBatches: the mask multiplier is generated anew on every call, as the code does, not once per voter.
- Both search failures (a collaborator threw, or no ballot matched) carry the same "wrong format" message in the code, and the model keeps the two causes apart only as data.
- Concurrency is not modelled: the code is single-threaded. The demo program and the console printer are not modelled either.

## Findings

| source | as written | input that shows it | evidently intended | confidence | as-written member | corrected member |
|---|---|---|---|---|---|---|
| Modelling/Entities/CentralElectionCommission.cs:144-151 | AddVote updates the tally and the log but never sets the voter's status to Voted, so the check at CentralElectionCommission.cs:124-128 can never fire | the same accepted final ballot submitted twice to an open commission: both submissions succeed, with ballot numbers n+1 and n+2 | on success the voter becomes Voted, and a second ballot from that voter is rejected with "The voted has already casted a vote." | not executed | Protocol.AcceptSameBallotTwice | Protocol.RejectSameBallotTwice |

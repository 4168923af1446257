/** How the voter's and the commission's parts fit together: an honestly signed
    batch yields the voter's chosen ballot, the final ballot built from it is
    accepted, the completion lock, the batch audit of a generated collection,
    and the double-voting gap left by the missing status transition. */
module Protocol {
  import opened Common
  import opened Ballots
  import opened Entities
  import opened Ports
  import opened Voters
  import opened Commission

  /** The blind signatures of a batch: each masked ballot signed with the
      commission's private key, in order. The commission's side of this step
      (AcceptBatches) is unfinished in the source; this is what the voter's
      CreateFinalBallot expects to receive. */
  function SignAll(maskedBallots: seq<Bytes>, privateKey: RsaParameters, rsa: RsaService): (signed: seq<Bytes>)
    ensures |signed| == |maskedBallots|
    ensures forall k :: 0 <= k < |maskedBallots| ==> signed[k] == rsa.signHash(maskedBallots[k], privateKey)
  {
    seq(|maskedBallots|, k requires 0 <= k < |maskedBallots| => rsa.signHash(maskedBallots[k], privateKey))
  }

  /** Under the blind-signature law and the ballot round trip, the blind
      signature of a masked ballot recovers, with the voter's multiplier, to that
      ballot. */
  lemma RecoverBlindSignature(b: Ballot, keys: Keys, m: Bytes, rsa: RsaService, transformer: ObjectToByteArrayTransformer)
    requires BlindSignatureLaw(rsa, keys, m)
    requires BallotRoundTrip(transformer)
    ensures var signed := rsa.signHash(MaskBallot(b, keys.publicKey, m, rsa, transformer), keys.privateKey);
      Recover(signed, keys.publicKey, Some(m), rsa, transformer)
        == Returned(Recovered(rsa.demaskSignature(signed, keys.publicKey, Some(m)).value, Some(b)))
  {
    var data := transformer.ballotToBytes(b);
    assert rsa.demaskSignature(rsa.signHash(rsa.mask(data, keys.publicKey, m), keys.privateKey), keys.publicKey, Some(m)).Returned?;
    assert transformer.bytesToBallot(data) == Returned(Some(b));
  }

  /** The first position of a value that occurs in a sequence. */
  lemma FirstPosition(xs: seq<int>, x: int) returns (k: nat)
    requires x in xs
    ensures k < |xs| && xs[k] == x
    ensures forall j :: 0 <= j < k ==> xs[j] != x
  {
    k := 0;
    while xs[k] != x
      invariant k < |xs|
      invariant forall j :: 0 <= j < k ==> xs[j] != x
      decreases |xs| - k
    {
      k := k + 1;
    }
  }

  /** Every blind signature of a voter's batch recovers, with the voter's
      multiplier, to the voter's ballot for the candidate at that position. */
  lemma RecoverSignedBatch(voterId: Guid, candidatesIds: seq<int>, keys: Keys, m: Bytes,
                           rsa: RsaService, transformer: ObjectToByteArrayTransformer)
    requires BlindSignatureLaw(rsa, keys, m)
    requires BallotRoundTrip(transformer)
    ensures var signed := SignAll(MaskedBallots(voterId, candidatesIds, keys.publicKey, m, rsa, transformer), keys.privateKey, rsa);
      |signed| == |candidatesIds| &&
      forall j :: 0 <= j < |candidatesIds| ==>
        rsa.demaskSignature(signed[j], keys.publicKey, Some(m)).Returned? &&
        Recover(signed[j], keys.publicKey, Some(m), rsa, transformer)
          == Returned(Recovered(rsa.demaskSignature(signed[j], keys.publicKey, Some(m)).value, Some(Ballot(voterId, candidatesIds[j]))))
  {
    MaskedBallotsAt(voterId, candidatesIds, keys.publicKey, m, rsa, transformer);
    var signed := SignAll(MaskedBallots(voterId, candidatesIds, keys.publicKey, m, rsa, transformer), keys.privateKey, rsa);
    forall j | 0 <= j < |candidatesIds|
      ensures rsa.demaskSignature(signed[j], keys.publicKey, Some(m)).Returned?
      ensures Recover(signed[j], keys.publicKey, Some(m), rsa, transformer)
        == Returned(Recovered(rsa.demaskSignature(signed[j], keys.publicKey, Some(m)).value, Some(Ballot(voterId, candidatesIds[j]))))
    {
      RecoverBlindSignature(Ballot(voterId, candidatesIds[j]), keys, m, rsa, transformer);
    }
  }

  /** The voter's search over the blind signatures of its own batch finds the
      ballot for the chosen candidate: the one at the first position of that
      candidate in the batch. */
  lemma SignedBatchYieldsChosenBallot(voterId: Guid, candidatesIds: seq<int>, candidateId: int, keys: Keys, m: Bytes,
                                      rsa: RsaService, transformer: ObjectToByteArrayTransformer)
    returns (k: nat)
    requires candidateId in candidatesIds
    requires BlindSignatureLaw(rsa, keys, m)
    requires BallotRoundTrip(transformer)
    ensures k < |candidatesIds| && candidatesIds[k] == candidateId
    ensures forall j :: 0 <= j < k ==> candidatesIds[j] != candidateId
    ensures var signed := SignAll(MaskedBallots(voterId, candidatesIds, keys.publicKey, m, rsa, transformer), keys.privateKey, rsa);
      k < |signed| && rsa.demaskSignature(signed[k], keys.publicKey, Some(m)).Returned? &&
      FirstMatch(signed, voterId, candidateId, keys.publicKey, Some(m), rsa, transformer)
        == Success(SignedBallot(Ballot(voterId, candidateId), rsa.demaskSignature(signed[k], keys.publicKey, Some(m)).value))
  {
    k := FirstPosition(candidatesIds, candidateId);
    RecoverSignedBatch(voterId, candidatesIds, keys, m, rsa, transformer);
    var signed := SignAll(MaskedBallots(voterId, candidatesIds, keys.publicKey, m, rsa, transformer), keys.privateKey, rsa);
    FirstMatchAt(signed, k, voterId, candidateId, keys.publicKey, Some(m), rsa, transformer);
  }

  /** The commission reads back exactly the signed ballot the voter encrypted:
      decrypting with the private key and deserialising undo
      EncryptSignedBallot. */
  lemma EncryptedBallotDecrypts(c: CentralElectionCommission, signedBallot: SignedBallot,
                                rsa: RsaService, transformer: ObjectToByteArrayTransformer)
    requires EncryptionRoundTrip(rsa, Keys(c.publicKey, c.privateKey))
    requires SignedBallotRoundTrip(transformer)
    ensures c.DecryptSignedBallot(EncryptSignedBallot(signedBallot, c.publicKey, rsa, transformer).value, rsa, transformer)
      == Success(signedBallot)
  {
    var plain := transformer.signedBallotToBytes(signedBallot);
    assert rsa.decrypt(rsa.encrypt(plain, c.publicKey), c.privateKey) == Returned(plain);
  }

  /** A final ballot built from a successful search is accepted by the
      commission that signed it, provided the voting is open, the voter is
      registered and has not voted, and the candidate is registered: it
      decrypts and deserialises to the found signed ballot, and that ballot's
      signature verifies. */
  lemma FinalBallotIsAccepted(c: CentralElectionCommission, signedBallots: seq<Bytes>, voterId: Guid, candidateId: int,
                              maskMultiplier: Option<Bytes>, rsa: RsaService, transformer: ObjectToByteArrayTransformer)
    requires c.voters.Keys <= c.votersStatuses.Keys
    requires FirstMatch(signedBallots, voterId, candidateId, c.publicKey, maskMultiplier, rsa, transformer).Success?
    requires EncryptionRoundTrip(rsa, Keys(c.publicKey, c.privateKey))
    requires SignedBallotRoundTrip(transformer)
    requires OpenedSignaturesVerify(rsa, transformer, c.publicKey)
    requires !c.isVotingCompleted
    requires voterId in c.voters && c.votersStatuses[voterId] != Voted
    requires candidateId in c.candidates
    ensures var found := FirstMatch(signedBallots, voterId, candidateId, c.publicKey, maskMultiplier, rsa, transformer).value;
      c.Validate(EncryptSignedBallot(found, c.publicKey, rsa, transformer).value, rsa, transformer)
        == Success(Ballot(voterId, candidateId))
  {
    var found := FirstMatch(signedBallots, voterId, candidateId, c.publicKey, maskMultiplier, rsa, transformer).value;
    var i := FirstMatchIsFirst(signedBallots, voterId, candidateId, c.publicKey, maskMultiplier, rsa, transformer);
    var signature := rsa.demaskSignature(signedBallots[i], c.publicKey, maskMultiplier);
    var bytes := rsa.decrypt(signature.value, c.publicKey);
    assert transformer.bytesToBallot(bytes.value) == Returned(Some(found.ballot));
    assert rsa.verifyHash(transformer.ballotToBytes(found.ballot), found.signature, c.publicKey);
    EncryptedBallotDecrypts(c, found, rsa, transformer);
  }

  /** The whole honest round: the voter masks one ballot per candidate, the
      commission blindly signs the batch, the voter picks out the chosen
      candidate's signature and encrypts the signed ballot, and the commission
      accepts it as the ballot for that voter and candidate. */
  lemma HonestVoteIsAccepted(c: CentralElectionCommission, voterId: Guid, candidatesIds: seq<int>, candidateId: int,
                             m: Bytes, rsa: RsaService, transformer: ObjectToByteArrayTransformer)
    requires c.voters.Keys <= c.votersStatuses.Keys
    requires candidateId in candidatesIds
    requires BlindSignatureLaw(rsa, Keys(c.publicKey, c.privateKey), m)
    requires BallotRoundTrip(transformer) && SignedBallotRoundTrip(transformer)
    requires EncryptionRoundTrip(rsa, Keys(c.publicKey, c.privateKey))
    requires OpenedSignaturesVerify(rsa, transformer, c.publicKey)
    requires !c.isVotingCompleted
    requires voterId in c.voters && c.votersStatuses[voterId] != Voted
    requires candidateId in c.candidates
    ensures var signed := SignAll(MaskedBallots(voterId, candidatesIds, c.publicKey, m, rsa, transformer), c.privateKey, rsa);
      var found := FirstMatch(signed, voterId, candidateId, c.publicKey, Some(m), rsa, transformer);
      found.Success? &&
      c.Validate(EncryptSignedBallot(found.value, c.publicKey, rsa, transformer).value, rsa, transformer)
        == Success(Ballot(voterId, candidateId))
  {
    var keys := Keys(c.publicKey, c.privateKey);
    var signed := SignAll(MaskedBallots(voterId, candidatesIds, keys.publicKey, m, rsa, transformer), keys.privateKey, rsa);
    var _ := SignedBatchYieldsChosenBallot(voterId, candidatesIds, candidateId, keys, m, rsa, transformer);
    FinalBallotIsAccepted(c, signed, voterId, candidateId, Some(m), rsa, transformer);
  }

  /** A voter's ten generated batches are distinct objects, so batch checking
      spares exactly one of them and audits the other nine. */
  method AuditGeneratedBatches(voter: Voter, c: CentralElectionCommission, candidatesIds: seq<int>,
                               rsa: RsaService, transformer: ObjectToByteArrayTransformer,
                               generatedMultiplier: Bytes, random: RandomProvider)
    returns (spared: BallotBatch, audited: seq<BallotBatch>)
    modifies voter
    ensures |audited| == BatchesCount - 1
    ensures spared !in audited
    ensures forall b :: b in audited ==>
      b.maskedBallots == MaskedBallots(voter.id, candidatesIds, c.publicKey, generatedMultiplier, rsa, transformer)
  {
    var collection := voter.GenerateBallotBatches(candidatesIds, c.publicKey, rsa, transformer, generatedMultiplier);
    spared, audited := c.CheckBatches(collection, random);
    AllExceptCount(collection.batches, spared);
    AllExceptMembers(collection.batches, spared);
  }

  /** Once the voting is completed every vote is rejected as "already
      completed", and neither the results nor the statuses change. */
  method AcceptAfterCompletion(c: CentralElectionCommission, encryptedSignedBallot: Bytes,
                               rsa: RsaService, transformer: ObjectToByteArrayTransformer)
    returns (r: Result<int, CommissionError>)
    requires c.Valid()
    modifies c
    ensures r == Failure(VotingAlreadyCompleted)
    ensures c.isVotingCompleted
    ensures c.votingResults == old(c.votingResults) && c.votersStatuses == old(c.votersStatuses)
  {
    c.CompleteVoting();
    r := c.AcceptVote(encryptedSignedBallot, rsa, transformer);
  }

  /** As written: AddVote leaves the status alone, so the same accepted final
      ballot is accepted a second time, and the voter's one ballot is counted
      twice, under two ballot numbers. */
  method AcceptSameBallotTwice(c: CentralElectionCommission, encryptedSignedBallot: Bytes,
                               rsa: RsaService, transformer: ObjectToByteArrayTransformer)
    returns (first: Result<int, CommissionError>, second: Result<int, CommissionError>)
    requires c.Valid()
    requires c.Validate(encryptedSignedBallot, rsa, transformer).Success?
    modifies c
    ensures first == Success(old(|c.votingResults.votersResults|) + 1)
    ensures second == Success(old(|c.votingResults.votersResults|) + 2)
    ensures var ballot := old(c.Validate(encryptedSignedBallot, rsa, transformer)).value;
      c.votingResults == WithVote(WithVote(old(c.votingResults), ballot), ballot)
  {
    first := c.AcceptVote(encryptedSignedBallot, rsa, transformer);
    second := c.AcceptVote(encryptedSignedBallot, rsa, transformer);
  }

  /** Corrected: with the Voted transition the second submission of the same
      final ballot is rejected as "already casted", and the ballot is counted
      once. */
  method RejectSameBallotTwice(c: CentralElectionCommission, encryptedSignedBallot: Bytes,
                               rsa: RsaService, transformer: ObjectToByteArrayTransformer)
    returns (first: Result<int, CommissionError>, second: Result<int, CommissionError>)
    requires c.Valid()
    requires c.Validate(encryptedSignedBallot, rsa, transformer).Success?
    modifies c
    ensures first == Success(old(|c.votingResults.votersResults|) + 1)
    ensures second == Failure(VoterAlreadyVoted)
    ensures var ballot := old(c.Validate(encryptedSignedBallot, rsa, transformer)).value;
      c.votingResults == WithVote(old(c.votingResults), ballot) &&
      ballot.voterId in c.votersStatuses && c.votersStatuses[ballot.voterId] == Voted
  {
    first := c.AcceptVoteMarkingVoted(encryptedSignedBallot, rsa, transformer);
    second := c.AcceptVoteMarkingVoted(encryptedSignedBallot, rsa, transformer);
  }
}

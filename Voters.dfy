/** The voter's side of the protocol (Modelling/Entities/Voter.cs): building the
    masked ballot batches, and turning the commission's blind signatures into
    the encrypted final ballot. */
module Voters {
  import opened Common
  import opened Ballots
  import opened Entities
  import opened Ports

  /** The number of batches a voter builds for one voting attempt. */
  const BatchesCount: nat := 10

  /** Why a FindAndDemaskSignedBallot failed. Both causes surface as the same
      "Message has wrong format or was incorrectly encrypted." error, caused by
      the exception: one thrown by a collaborator, or the ArgumentException
      "Not able to find the right ballot." */
  datatype FailureCause = CollaboratorThrew | BallotNotFound

  datatype VoterError =
    | NotCapable(voterId: Guid)
    | WrongFormat(cause: FailureCause)

  // ---- Building the batches ----

  /** One masked ballot: the serialised Ballot masked under the commission's
      public key with the mask multiplier. */
  function MaskBallot(b: Ballot, publicKey: RsaParameters, m: Bytes,
                      rsa: RsaService, transformer: ObjectToByteArrayTransformer): Bytes
  {
    rsa.mask(transformer.ballotToBytes(b), publicKey, m)
  }

  /** The masked ballots of one batch, for the candidate ids in order. */
  function MaskedBallots(voterId: Guid, candidatesIds: seq<int>, publicKey: RsaParameters, m: Bytes,
                         rsa: RsaService, transformer: ObjectToByteArrayTransformer): (r: seq<Bytes>)
    ensures |r| == |candidatesIds|
  {
    if candidatesIds == [] then
      []
    else
      MaskedBallots(voterId, candidatesIds[..|candidatesIds| - 1], publicKey, m, rsa, transformer)
        + [MaskBallot(Ballot(voterId, candidatesIds[|candidatesIds| - 1]), publicKey, m, rsa, transformer)]
  }

  /** A batch holds exactly one masked ballot per candidate id, in the same
      order, and each one masks a Ballot carrying the voter's own id. */
  lemma {:induction false} MaskedBallotsAt(voterId: Guid, candidatesIds: seq<int>, publicKey: RsaParameters, m: Bytes,
                                           rsa: RsaService, transformer: ObjectToByteArrayTransformer)
    ensures |MaskedBallots(voterId, candidatesIds, publicKey, m, rsa, transformer)| == |candidatesIds|
    ensures forall k :: 0 <= k < |candidatesIds| ==>
      MaskedBallots(voterId, candidatesIds, publicKey, m, rsa, transformer)[k]
        == MaskBallot(Ballot(voterId, candidatesIds[k]), publicKey, m, rsa, transformer)
  {
    if candidatesIds != [] {
      var prefix := candidatesIds[..|candidatesIds| - 1];
      MaskedBallotsAt(voterId, prefix, publicKey, m, rsa, transformer);
    }
  }

  // ---- Finding the voter's signed ballot ----

  /** What one returned signature yields: the demasked signature and the ballot
      that the public key opens it to (None when deserialisation gave null). */
  datatype Recovered = Recovered(signature: Bytes, ballot: Option<Ballot>)

  /** DemaskSignature, then Decrypt under the public key, then ReverseTransform;
      Thrown as soon as one of them throws. */
  function Recover(signedBallot: Bytes, publicKey: RsaParameters, maskMultiplier: Option<Bytes>,
                   rsa: RsaService, transformer: ObjectToByteArrayTransformer): (r: Attempt<Recovered>)
    ensures r.Returned? <==>
      && rsa.demaskSignature(signedBallot, publicKey, maskMultiplier).Returned?
      && rsa.decrypt(rsa.demaskSignature(signedBallot, publicKey, maskMultiplier).value, publicKey).Returned?
      && transformer.bytesToBallot(rsa.decrypt(rsa.demaskSignature(signedBallot, publicKey, maskMultiplier).value, publicKey).value).Returned?
    ensures r.Returned? ==>
      && r.value.signature == rsa.demaskSignature(signedBallot, publicKey, maskMultiplier).value
      && transformer.bytesToBallot(rsa.decrypt(r.value.signature, publicKey).value) == Returned(r.value.ballot)
  {
    var signature :- rsa.demaskSignature(signedBallot, publicKey, maskMultiplier);
    var ballotAsBytes :- rsa.decrypt(signature, publicKey);
    var ballot :- transformer.bytesToBallot(ballotAsBytes);
    Returned(Recovered(signature, ballot))
  }

  /** The search's test: a non-null ballot for this voter and the chosen candidate. */
  predicate IsMatch(ballot: Option<Ballot>, voterId: Guid, candidateId: int) {
    ballot.Some? && ballot.value.voterId == voterId && ballot.value.candidateId == candidateId
  }

  /** The search's test is Ballot equality with the ballot the voter wants. */
  lemma IsMatchIsBallotEquality(ballot: Option<Ballot>, voterId: Guid, candidateId: int)
    ensures IsMatch(ballot, voterId, candidateId) <==> EqualityOperator(ballot, Some(Ballot(voterId, candidateId)))
  {
  }

  /** The result FindAndDemaskSignedBallot computes: the first returned
      signature, in input order, that recovers a matching ballot; a failure as
      soon as a collaborator throws before one is found; a failure when none
      matches. */
  function FirstMatch(signedBallots: seq<Bytes>, voterId: Guid, candidateId: int,
                      publicKey: RsaParameters, maskMultiplier: Option<Bytes>,
                      rsa: RsaService, transformer: ObjectToByteArrayTransformer): (r: Result<SignedBallot, VoterError>)
    ensures r.Success? ==> r.value.ballot == Ballot(voterId, candidateId)
    ensures r.Failure? ==> r.error.WrongFormat?
    ensures signedBallots == [] ==> r == Failure(WrongFormat(BallotNotFound))
  {
    if signedBallots == [] then
      Failure(WrongFormat(BallotNotFound))
    else
      match Recover(signedBallots[0], publicKey, maskMultiplier, rsa, transformer)
      case Thrown => Failure(WrongFormat(CollaboratorThrew))
      case Returned(recovered) =>
        if IsMatch(recovered.ballot, voterId, candidateId) then
          Success(SignedBallot(recovered.ballot.value, recovered.signature))
        else
          FirstMatch(signedBallots[1..], voterId, candidateId, publicKey, maskMultiplier, rsa, transformer)
  }

  /** A successful search returns the voter's own ballot for the chosen
      candidate, recovered from signature number `i`, and every signature before
      `i` recovered without throwing and did not match. */
  lemma {:induction false} FirstMatchIsFirst(signedBallots: seq<Bytes>, voterId: Guid, candidateId: int,
                                             publicKey: RsaParameters, maskMultiplier: Option<Bytes>,
                                             rsa: RsaService, transformer: ObjectToByteArrayTransformer)
    returns (i: nat)
    requires FirstMatch(signedBallots, voterId, candidateId, publicKey, maskMultiplier, rsa, transformer).Success?
    ensures i < |signedBallots|
    ensures var sb := FirstMatch(signedBallots, voterId, candidateId, publicKey, maskMultiplier, rsa, transformer).value;
      sb.ballot == Ballot(voterId, candidateId) &&
      Recover(signedBallots[i], publicKey, maskMultiplier, rsa, transformer) == Returned(Recovered(sb.signature, Some(sb.ballot)))
    ensures forall j :: 0 <= j < i ==>
      Recover(signedBallots[j], publicKey, maskMultiplier, rsa, transformer).Returned? &&
      !IsMatch(Recover(signedBallots[j], publicKey, maskMultiplier, rsa, transformer).value.ballot, voterId, candidateId)
  {
    var recovered := Recover(signedBallots[0], publicKey, maskMultiplier, rsa, transformer);
    if recovered.Returned? && IsMatch(recovered.value.ballot, voterId, candidateId) {
      i := 0;
    } else {
      var rest := signedBallots[1..];
      var k := FirstMatchIsFirst(rest, voterId, candidateId, publicKey, maskMultiplier, rsa, transformer);
      i := k + 1;
      forall j | 0 <= j < i
        ensures Recover(signedBallots[j], publicKey, maskMultiplier, rsa, transformer).Returned?
        ensures !IsMatch(Recover(signedBallots[j], publicKey, maskMultiplier, rsa, transformer).value.ballot, voterId, candidateId)
      {
        if j > 0 {
          assert signedBallots[j] == rest[j - 1];
        }
      }
    }
  }

  /** Conversely, the signature at position `i` is the one the search returns
      when it recovers a matching ballot and every earlier one recovers a
      non-matching ballot without throwing. */
  lemma {:induction false} FirstMatchAt(signedBallots: seq<Bytes>, i: nat, voterId: Guid, candidateId: int,
                                        publicKey: RsaParameters, maskMultiplier: Option<Bytes>,
                                        rsa: RsaService, transformer: ObjectToByteArrayTransformer)
    requires i < |signedBallots|
    requires forall j :: 0 <= j < i ==>
      Recover(signedBallots[j], publicKey, maskMultiplier, rsa, transformer).Returned? &&
      !IsMatch(Recover(signedBallots[j], publicKey, maskMultiplier, rsa, transformer).value.ballot, voterId, candidateId)
    requires Recover(signedBallots[i], publicKey, maskMultiplier, rsa, transformer).Returned?
    requires IsMatch(Recover(signedBallots[i], publicKey, maskMultiplier, rsa, transformer).value.ballot, voterId, candidateId)
    ensures FirstMatch(signedBallots, voterId, candidateId, publicKey, maskMultiplier, rsa, transformer)
      == Success(SignedBallot(Ballot(voterId, candidateId), Recover(signedBallots[i], publicKey, maskMultiplier, rsa, transformer).value.signature))
  {
    if i > 0 {
      var rest := signedBallots[1..];
      forall j | 0 <= j < i - 1
        ensures Recover(rest[j], publicKey, maskMultiplier, rsa, transformer).Returned?
        ensures !IsMatch(Recover(rest[j], publicKey, maskMultiplier, rsa, transformer).value.ballot, voterId, candidateId)
      {
        assert rest[j] == signedBallots[j + 1];
      }
      assert rest[i - 1] == signedBallots[i];
      FirstMatchAt(rest, i - 1, voterId, candidateId, publicKey, maskMultiplier, rsa, transformer);
    }
  }

  /** The search fails with "not able to find the right ballot" exactly when
      every signature recovers without throwing and none matches. */
  lemma {:induction false} FirstMatchNotFound(signedBallots: seq<Bytes>, voterId: Guid, candidateId: int,
                                              publicKey: RsaParameters, maskMultiplier: Option<Bytes>,
                                              rsa: RsaService, transformer: ObjectToByteArrayTransformer)
    ensures FirstMatch(signedBallots, voterId, candidateId, publicKey, maskMultiplier, rsa, transformer)
              == Failure(WrongFormat(BallotNotFound))
            <==>
            forall j :: 0 <= j < |signedBallots| ==>
              Recover(signedBallots[j], publicKey, maskMultiplier, rsa, transformer).Returned? &&
              !IsMatch(Recover(signedBallots[j], publicKey, maskMultiplier, rsa, transformer).value.ballot, voterId, candidateId)
  {
    if signedBallots != [] {
      var rest := signedBallots[1..];
      FirstMatchNotFound(rest, voterId, candidateId, publicKey, maskMultiplier, rsa, transformer);
      assert forall j :: 0 < j < |signedBallots| ==> signedBallots[j] == rest[j - 1];
    }
  }

  /** An exception inside the search becomes a failure: if signature `i` throws
      and no earlier one matched, the search fails and returns no ballot. */
  lemma {:induction false} FirstMatchThrows(signedBallots: seq<Bytes>, i: nat, voterId: Guid, candidateId: int,
                                            publicKey: RsaParameters, maskMultiplier: Option<Bytes>,
                                            rsa: RsaService, transformer: ObjectToByteArrayTransformer)
    requires i < |signedBallots|
    requires forall j :: 0 <= j < i ==>
      Recover(signedBallots[j], publicKey, maskMultiplier, rsa, transformer).Returned? &&
      !IsMatch(Recover(signedBallots[j], publicKey, maskMultiplier, rsa, transformer).value.ballot, voterId, candidateId)
    requires Recover(signedBallots[i], publicKey, maskMultiplier, rsa, transformer).Thrown?
    ensures FirstMatch(signedBallots, voterId, candidateId, publicKey, maskMultiplier, rsa, transformer)
      == Failure(WrongFormat(CollaboratorThrew))
  {
    if i > 0 {
      var rest := signedBallots[1..];
      forall j | 0 <= j < i - 1
        ensures Recover(rest[j], publicKey, maskMultiplier, rsa, transformer).Returned?
        ensures !IsMatch(Recover(rest[j], publicKey, maskMultiplier, rsa, transformer).value.ballot, voterId, candidateId)
      {
        assert rest[j] == signedBallots[j + 1];
      }
      assert rest[i - 1] == signedBallots[i];
      FirstMatchThrows(rest, i - 1, voterId, candidateId, publicKey, maskMultiplier, rsa, transformer);
    }
  }

  /** EncryptSignedBallot: serialise the signed ballot and encrypt it under the
      commission's public key. */
  function EncryptSignedBallot(signedBallot: SignedBallot, publicKey: RsaParameters,
                               rsa: RsaService, transformer: ObjectToByteArrayTransformer): (r: Result<Bytes, VoterError>)
    ensures r.Success?
  {
    Success(rsa.encrypt(transformer.signedBallotToBytes(signedBallot), publicKey))
  }

  /** The voter (Voter.cs). The mask multiplier is null until the first
      GenerateBallotBatches. */
  class Voter {
    const id: Guid
    const isCapable: bool
    var maskMultiplier: Option<Bytes>

    constructor (id: Guid, isCapable: bool)
      ensures this.id == id && this.isCapable == isCapable
      ensures maskMultiplier == None
    {
      this.id := id;
      this.isCapable := isCapable;
      maskMultiplier := None;
    }

    /** Fails, naming the voter, exactly when the voter is not capable. */
    function IsAbleToVote(): (r: Outcome<VoterError>)
      ensures r.Fail? <==> !isCapable
      ensures r.Fail? ==> r.error == NotCapable(id)
    {
      if !isCapable then Fail(NotCapable(id)) else Pass
    }

    /** Builds BatchesCount batches, each with one masked Ballot(id, c) per
        candidate id c in order, all masked with `generatedMultiplier`: the value
        the keys generator returned for this call, which replaces the stored
        multiplier and travels with the collection. */
    method GenerateBallotBatches(candidatesIds: seq<int>, publicKey: RsaParameters,
                                 rsa: RsaService, transformer: ObjectToByteArrayTransformer,
                                 generatedMultiplier: Bytes)
      returns (collection: BallotBatchesCollection)
      modifies this
      ensures maskMultiplier == Some(generatedMultiplier)
      ensures collection.maskMultiplier == generatedMultiplier
      ensures |collection.batches| == BatchesCount
      ensures forall i :: 0 <= i < |collection.batches| ==>
        collection.batches[i].maskedBallots == MaskedBallots(id, candidatesIds, publicKey, generatedMultiplier, rsa, transformer)
      ensures forall i :: 0 <= i < |collection.batches| ==> fresh(collection.batches[i])
      ensures Distinct(collection.batches)
    {
      maskMultiplier := Some(generatedMultiplier);
      var batches: seq<BallotBatch> := [];
      for i := 0 to BatchesCount
        invariant maskMultiplier == Some(generatedMultiplier)
        invariant |batches| == i
        invariant forall k :: 0 <= k < i ==>
          batches[k].maskedBallots == MaskedBallots(id, candidatesIds, publicKey, generatedMultiplier, rsa, transformer)
        invariant forall k :: 0 <= k < i ==> fresh(batches[k])
        invariant Distinct(batches)
      {
        var maskedBallots: seq<Bytes> := [];
        for j := 0 to |candidatesIds|
          invariant maskMultiplier == Some(generatedMultiplier)
          invariant maskedBallots == MaskedBallots(id, candidatesIds[..j], publicKey, generatedMultiplier, rsa, transformer)
        {
          var ballot := Ballot(id, candidatesIds[j]);
          var ballotAsByteArray := transformer.ballotToBytes(ballot);
          var maskedBallot := rsa.mask(ballotAsByteArray, publicKey, generatedMultiplier);
          assert candidatesIds[..j + 1][..j] == candidatesIds[..j];
          maskedBallots := maskedBallots + [maskedBallot];
        }
        assert candidatesIds[..|candidatesIds|] == candidatesIds;
        var batch := new BallotBatch(maskedBallots);
        batches := batches + [batch];
      }
      collection := BallotBatchesCollection(batches, maskMultiplier.value);
    }

    /** The loop of FindAndDemaskSignedBallot, with any exception inside it
        turned into a failure. */
    method FindAndDemaskSignedBallot(signedBallots: seq<Bytes>, candidateId: int, publicKey: RsaParameters,
                                     rsa: RsaService, transformer: ObjectToByteArrayTransformer)
      returns (r: Result<SignedBallot, VoterError>)
      ensures r == FirstMatch(signedBallots, id, candidateId, publicKey, maskMultiplier, rsa, transformer)
    {
      for i := 0 to |signedBallots|
        invariant FirstMatch(signedBallots, id, candidateId, publicKey, maskMultiplier, rsa, transformer)
               == FirstMatch(signedBallots[i..], id, candidateId, publicKey, maskMultiplier, rsa, transformer)
      {
        assert signedBallots[i..][1..] == signedBallots[i + 1..];
        var signature := rsa.demaskSignature(signedBallots[i], publicKey, maskMultiplier);
        if signature.Thrown? {
          return Failure(WrongFormat(CollaboratorThrew));
        }
        var ballotAsByteArray := rsa.decrypt(signature.value, publicKey);
        if ballotAsByteArray.Thrown? {
          return Failure(WrongFormat(CollaboratorThrew));
        }
        var ballot := transformer.bytesToBallot(ballotAsByteArray.value);
        if ballot.Thrown? {
          return Failure(WrongFormat(CollaboratorThrew));
        }
        if ballot.value.Some? && ballot.value.value.voterId == id && ballot.value.value.candidateId == candidateId {
          return Success(SignedBallot(ballot.value.value, signature.value));
        }
      }
      r := Failure(WrongFormat(BallotNotFound));
    }

    /** CreateFinalBallot: the search, then EncryptSignedBallot on what it found.
        No ciphertext is produced when the search fails. */
    method CreateFinalBallot(signedBallots: seq<Bytes>, candidateId: int, publicKey: RsaParameters,
                             rsa: RsaService, transformer: ObjectToByteArrayTransformer)
      returns (r: Result<Bytes, VoterError>)
      ensures var found := FirstMatch(signedBallots, id, candidateId, publicKey, maskMultiplier, rsa, transformer);
        (r.Success? <==> found.Success?) &&
        (r.Failure? ==> r.error == found.error) &&
        (r.Success? ==> r.value == rsa.encrypt(transformer.signedBallotToBytes(found.value), publicKey))
    {
      var signedBallot :- FindAndDemaskSignedBallot(signedBallots, candidateId, publicKey, rsa, transformer);
      r := EncryptSignedBallot(signedBallot, publicKey, rsa, transformer);
    }
  }
}

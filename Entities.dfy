/** The supporting entities of the voting model (the files under Modelling/Entities). */
module Entities {
  import opened Common
  import opened Ballots

  /** A registered candidate (Candidate.cs). */
  datatype Candidate = Candidate(id: int, fullName: string)

  /** A ballot together with a signature over its serialised bytes (SignedBallot.cs). */
  datatype SignedBallot = SignedBallot(ballot: Ballot, signature: Bytes)

  /** One batch of masked ballots (BallotBatch.cs). The class keeps the source's
      reference identity: BallotBatch does not override equality, and batch
      checking compares batches with reference ==. */
  class BallotBatch {
    const maskedBallots: seq<Bytes>

    constructor (maskedBallots: seq<Bytes>)
      ensures this.maskedBallots == maskedBallots
    {
      this.maskedBallots := maskedBallots;
    }
  }

  /** The batches a voter submits, with the mask multiplier used to build them
      (BallotBatchesCollection.cs). */
  datatype BallotBatchesCollection = BallotBatchesCollection(batches: seq<BallotBatch>, maskMultiplier: Bytes)

  /** One record of the ballot log (VoterResults.cs). */
  datatype VoterResults = VoterResults(voterId: Guid, ballotId: int, candidateId: int)

  /** A candidate and its running vote count (CandidateVotingResults.cs). */
  datatype CandidateVotingResults = CandidateVotingResults(candidate: Candidate, votes: int)

  /** The commission's results as the commission uses them: the tally keyed by
      candidate id and the append-only ballot log (VotingResults.cs declares
      lists; see README). */
  datatype VotingResults = VotingResults(
    candidatesResults: map<int, CandidateVotingResults>,
    votersResults: seq<VoterResults>)

  /** A voter's attendance status. */
  datatype VoterStatus = NotAttended | ReceivedBallot | Voted
}

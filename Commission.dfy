/** The central election commission (Modelling/Entities/CentralElectionCommission.cs):
    registries, the vote-acceptance pipeline, the tally and ballot log, the
    completion lock, and the visible skeleton of batch checking. */
module Commission {
  import opened Common
  import opened Ballots
  import opened Entities
  import opened Ports
  import Voters

  /** The errors AcceptVote reports, one per validation step. */
  datatype CommissionError =
    | VotingAlreadyCompleted
    | MalformedMessage
    | SignatureNotAuthentic
    | VoterNotFound
    | VoterAlreadyVoted
    | CandidateNotFound

  /** The message each error carries in the source. */
  function Message(e: CommissionError): string {
    match e
    case VotingAlreadyCompleted => "The voting is already completed."
    case MalformedMessage => "Message has wrong format or was incorrectly encrypted."
    case SignatureNotAuthentic => "The signature is not authentic."
    case VoterNotFound => "The voter was not found."
    case VoterAlreadyVoted => "The voted has already casted a vote."
    case CandidateNotFound => "Candidate was not found."
  }

  /** Each validation step fails with its own text, so the message alone tells
      a caller which step rejected the vote. */
  lemma MessageIdentifiesError(e: CommissionError, other: CommissionError)
    ensures Message(e) == Message(other) <==> e == other
  {
    if e != other && |Message(e)| == |Message(other)| {
      assert Message(e)[0] != Message(other)[0];
    }
  }

  /** Dictionary.Add throws on a key it already holds; construction reports
      which id was added twice. */
  datatype ConstructionError =
    | DuplicateCandidateId(candidateId: int)
    | DuplicateVoterId(voterId: Guid)

  /** The ids of the items, in order, by the given projection. */
  function Ids<T, K>(items: seq<T>, id: T -> K): (ids: seq<K>)
    ensures |ids| == |items|
    ensures forall i :: 0 <= i < |items| ==> ids[i] == id(items[i])
  {
    seq(|items|, i requires 0 <= i < |items| => id(items[i]))
  }

  function CandidateId(candidate: Candidate): int {
    candidate.id
  }

  function VoterId(voter: Voters.Voter): Guid {
    voter.id
  }

  // ---- Tally and ballot log ----

  /** The number of log records that name the candidate. */
  function VotesFor(log: seq<VoterResults>, candidateId: int): nat {
    if log == [] then
      0
    else
      VotesFor(log[..|log| - 1], candidateId) + (if log[|log| - 1].candidateId == candidateId then 1 else 0)
  }

  /** A set of ids with no member is the empty set. */
  lemma NoMemberMeansEmpty(ids: set<int>)
    ensures (forall id :: id !in ids) ==> ids == {}
  {
    if forall id :: id !in ids {
      assert forall id :: id in ids <==> id in {};
    }
  }

  /** Some candidate id of a non-empty set. */
  ghost function Pick(ids: set<int>): (picked: int)
    requires ids != {}
    ensures picked in ids
  {
    NoMemberMeansEmpty(ids);
    var x :| x in ids; x
  }

  /** The sum of all vote counts of a tally. */
  ghost function TotalVotes(tally: map<int, CandidateVotingResults>): int
    decreases |tally.Keys|
  {
    if |tally| == 0 then
      0
    else
      var id := Pick(tally.Keys);
      assert |(tally - {id}).Keys| < |tally.Keys| by {
        assert (tally - {id}).Keys == tally.Keys - {id};
      }
      tally[id].votes + TotalVotes(tally - {id})
  }

  /** The sum may be split at any candidate, not only at the one the
      definition happens to choose. */
  lemma {:induction false} TotalVotesSplit(tally: map<int, CandidateVotingResults>, id: int)
    requires id in tally
    ensures TotalVotes(tally) == tally[id].votes + TotalVotes(tally - {id})
    decreases |tally.Keys|
  {
    var chosen := Pick(tally.Keys);
    if chosen != id {
      assert (tally - {chosen}).Keys == tally.Keys - {chosen};
      assert (tally - {id}).Keys == tally.Keys - {id};
      TotalVotesSplit(tally - {chosen}, id);
      TotalVotesSplit(tally - {id}, chosen);
      assert tally - {chosen} - {id} == tally - {id} - {chosen};
    }
  }

  /** A tally in which every count is zero sums to zero. */
  lemma {:induction false} TotalVotesOfFreshTally(tally: map<int, CandidateVotingResults>)
    requires forall id :: id in tally ==> tally[id].votes == 0
    ensures TotalVotes(tally) == 0
    decreases |tally.Keys|
  {
    if |tally| != 0 {
      var id := Pick(tally.Keys);
      TotalVotesSplit(tally, id);
      assert (tally - {id}).Keys == tally.Keys - {id};
      TotalVotesOfFreshTally(tally - {id});
    }
  }

  /** The results after recording `ballot`: its candidate's count rises by one,
      every other count stays, and the log gains one record carrying the next
      ballot number. */
  function WithVote(results: VotingResults, ballot: Ballot): (r: VotingResults)
    requires ballot.candidateId in results.candidatesResults
    ensures r.candidatesResults.Keys == results.candidatesResults.Keys
    ensures forall id :: id in r.candidatesResults ==>
      r.candidatesResults[id].candidate == results.candidatesResults[id].candidate &&
      r.candidatesResults[id].votes == results.candidatesResults[id].votes + (if id == ballot.candidateId then 1 else 0)
    ensures r.votersResults == results.votersResults + [VoterResults(ballot.voterId, |results.votersResults| + 1, ballot.candidateId)]
  {
    var entry := results.candidatesResults[ballot.candidateId];
    VotingResults(
      results.candidatesResults[ballot.candidateId := entry.(votes := entry.votes + 1)],
      results.votersResults + [VoterResults(ballot.voterId, |results.votersResults| + 1, ballot.candidateId)])
  }

  /** The results agree with their log: ballot numbers are 1, 2, 3, ... in log
      order, every record names a tallied candidate, each count is the number of
      records naming that candidate, and the counts sum to the log length. */
  ghost predicate ConsistentResults(results: VotingResults) {
    && (forall i :: 0 <= i < |results.votersResults| ==>
          results.votersResults[i].ballotId == i + 1 &&
          results.votersResults[i].candidateId in results.candidatesResults)
    && (forall id :: id in results.candidatesResults ==>
          results.candidatesResults[id].votes == VotesFor(results.votersResults, id))
    && TotalVotes(results.candidatesResults) == |results.votersResults|
  }

  /** Recording a vote keeps every count equal to the log records naming its
      candidate. Dafny proves it from WithVote's postconditions and the
      definition of VotesFor; it is stated on its own so that
      WithVotePreservesConsistency can cite it. */
  lemma WithVoteCounts(results: VotingResults, ballot: Ballot)
    requires ballot.candidateId in results.candidatesResults
    requires forall id :: id in results.candidatesResults ==>
      results.candidatesResults[id].votes == VotesFor(results.votersResults, id)
    ensures forall id :: id in WithVote(results, ballot).candidatesResults ==>
      WithVote(results, ballot).candidatesResults[id].votes == VotesFor(WithVote(results, ballot).votersResults, id)
  {
  }

  /** Recording a vote raises the sum of the counts by one. */
  lemma WithVoteTotal(results: VotingResults, ballot: Ballot)
    requires ballot.candidateId in results.candidatesResults
    ensures TotalVotes(WithVote(results, ballot).candidatesResults) == TotalVotes(results.candidatesResults) + 1
  {
    var tally := results.candidatesResults;
    var next := WithVote(results, ballot).candidatesResults;
    var id := ballot.candidateId;
    TotalVotesSplit(tally, id);
    TotalVotesSplit(next, id);
    assert next - {id} == tally - {id};
  }

  /** Recording a vote for a tallied candidate keeps the results consistent. */
  lemma WithVotePreservesConsistency(results: VotingResults, ballot: Ballot)
    requires ConsistentResults(results)
    requires ballot.candidateId in results.candidatesResults
    ensures ConsistentResults(WithVote(results, ballot))
  {
    WithVoteCounts(results, ballot);
    WithVoteTotal(results, ballot);
  }

  /** The results of a commission nobody has voted at yet are consistent. */
  lemma FreshResultsAreConsistent(tally: map<int, CandidateVotingResults>)
    requires forall id :: id in tally ==> tally[id].votes == 0
    ensures ConsistentResults(VotingResults(tally, []))
  {
    TotalVotesOfFreshTally(tally);
  }

  // ---- Batch checking ----

  /** The batches of `batches`, in order, except those that are `spared`. */
  function AllExcept<T(==)>(batches: seq<T>, spared: T): (r: seq<T>)
    ensures |r| <= |batches|
    ensures forall i :: 0 <= i < |r| ==> r[i] != spared
  {
    if batches == [] then
      []
    else
      AllExcept(batches[..|batches| - 1], spared)
        + (if batches[|batches| - 1] == spared then [] else [batches[|batches| - 1]])
  }

  /** Every batch except the spared one is visited, and the spared one is not. */
  lemma {:induction false} AllExceptMembers<T>(batches: seq<T>, spared: T)
    ensures forall b :: b in AllExcept(batches, spared) <==> b in batches && b != spared
  {
    if batches != [] {
      var prefix := batches[..|batches| - 1];
      AllExceptMembers(prefix, spared);
      assert batches == prefix + [batches[|batches| - 1]];
    }
  }

  /** With distinct batches and the spared batch among them, all but one batch
      is visited. */
  lemma {:induction false} AllExceptCount<T>(batches: seq<T>, spared: T)
    requires Distinct(batches)
    ensures |AllExcept(batches, spared)| == if spared in batches then |batches| - 1 else |batches|
  {
    if batches != [] {
      var prefix := batches[..|batches| - 1];
      assert Distinct(prefix);
      AllExceptCount(prefix, spared);
      assert batches == prefix + [batches[|batches| - 1]];
      assert batches[|batches| - 1] == spared ==> spared !in prefix;
    }
  }

  class CentralElectionCommission {
    const candidates: map<int, Candidate>
    const voters: map<Guid, Voters.Voter>
    var votingResults: VotingResults
    var votersStatuses: map<Guid, VoterStatus>
    const publicKey: RsaParameters
    const privateKey: RsaParameters
    var isVotingCompleted: bool

    /** The registries agree with each other and the results agree with their log. */
    ghost predicate Valid()
      reads this
    {
      && (forall id :: id in candidates ==> candidates[id].id == id)
      && votingResults.candidatesResults.Keys == candidates.Keys
      && (forall id :: id in candidates ==> votingResults.candidatesResults[id].candidate == candidates[id])
      && (forall id :: id in voters ==> voters[id].id == id)
      && votersStatuses.Keys == voters.Keys
      && (forall i :: 0 <= i < |votingResults.votersResults| ==> votingResults.votersResults[i].voterId in voters)
      && ConsistentResults(votingResults)
    }

    constructor (candidates: map<int, Candidate>, candidatesResults: map<int, CandidateVotingResults>,
                 voters: map<Guid, Voters.Voter>, votersStatuses: map<Guid, VoterStatus>, keys: Keys)
      requires candidatesResults.Keys == candidates.Keys
      requires forall id :: id in candidates ==>
        candidates[id].id == id && candidatesResults[id] == CandidateVotingResults(candidates[id], 0)
      requires forall id :: id in voters ==> voters[id].id == id
      requires votersStatuses.Keys == voters.Keys
      ensures Valid()
      ensures this.candidates == candidates && this.voters == voters
      ensures this.votersStatuses == votersStatuses
      ensures votingResults == VotingResults(candidatesResults, [])
      ensures publicKey == keys.publicKey && privateKey == keys.privateKey
      ensures !isVotingCompleted
    {
      FreshResultsAreConsistent(candidatesResults);
      this.candidates := candidates;
      this.voters := voters;
      this.votersStatuses := votersStatuses;
      votingResults := VotingResults(candidatesResults, []);
      publicKey := keys.publicKey;
      privateKey := keys.privateKey;
      isVotingCompleted := false;
    }

    /** The source's constructor: registers every candidate with a zero tally
        and every voter as NotAttended, in that order, and takes the key pair the
        keys generator produced. Adding an id twice throws, reported here as a
        failure; candidates are registered first. */
    static method Create(candidateList: seq<Candidate>, voterList: seq<Voters.Voter>, keys: Keys)
      returns (r: Result<CentralElectionCommission, ConstructionError>)
      ensures r.Failure? <==> !Distinct(Ids(candidateList, CandidateId)) || !Distinct(Ids(voterList, VoterId))
      ensures r.Failure? && !Distinct(Ids(candidateList, CandidateId)) ==>
        r.error.DuplicateCandidateId? && Repeated(Ids(candidateList, CandidateId), r.error.candidateId)
      ensures r.Failure? && Distinct(Ids(candidateList, CandidateId)) ==>
        r.error.DuplicateVoterId? && Repeated(Ids(voterList, VoterId), r.error.voterId)
      ensures r.Success? ==> fresh(r.value) && r.value.Valid()
      ensures r.Success? ==> !r.value.isVotingCompleted
      ensures r.Success? ==> r.value.publicKey == keys.publicKey && r.value.privateKey == keys.privateKey
      ensures r.Success? ==> r.value.candidates.Keys == set c | c in candidateList :: c.id
      ensures r.Success? ==> forall c :: c in candidateList ==>
        r.value.candidates[c.id] == c && r.value.votingResults.candidatesResults[c.id].votes == 0
      ensures r.Success? ==> r.value.voters.Keys == set v | v in voterList :: v.id
      ensures r.Success? ==> forall v :: v in voterList ==>
        r.value.voters[v.id] == v && r.value.votersStatuses[v.id] == NotAttended
      ensures r.Success? ==> r.value.votingResults.votersResults == []
    {
      var registered :- RegisterCandidates(candidateList);
      var (candidates, candidatesResults) := registered;
      var enrolled :- RegisterVoters(voterList);
      var (voters, votersStatuses) := enrolled;
      var commission := new CentralElectionCommission(candidates, candidatesResults, voters, votersStatuses, keys);
      r := Success(commission);
    }

    /** The constructor's first loop: the candidate registry and a zero tally
        entry per candidate. */
    static method RegisterCandidates(candidateList: seq<Candidate>)
      returns (r: Result<(map<int, Candidate>, map<int, CandidateVotingResults>), ConstructionError>)
      ensures r.Failure? <==> !Distinct(Ids(candidateList, CandidateId))
      ensures r.Failure? ==> r.error.DuplicateCandidateId? && Repeated(Ids(candidateList, CandidateId), r.error.candidateId)
      ensures r.Success? ==>
        var (candidates, candidatesResults) := r.value;
        && candidates.Keys == (set c | c in candidateList :: c.id)
        && candidatesResults.Keys == candidates.Keys
        && (forall c :: c in candidateList ==> candidates[c.id] == c)
        && (forall id :: id in candidates ==>
              candidates[id].id == id && candidatesResults[id] == CandidateVotingResults(candidates[id], 0))
    {
      var ids := Ids(candidateList, CandidateId);
      assert forall k :: 0 <= k < |candidateList| ==> ids[k] == candidateList[k].id;
      var candidates: map<int, Candidate> := map[];
      var candidatesResults: map<int, CandidateVotingResults> := map[];
      for i := 0 to |candidateList|
        invariant candidatesResults.Keys == candidates.Keys
        invariant candidates.Keys == set k | 0 <= k < i :: candidateList[k].id
        invariant forall k :: 0 <= k < i ==> candidates[candidateList[k].id] == candidateList[k]
        invariant forall id :: id in candidates ==>
          candidates[id].id == id && candidatesResults[id] == CandidateVotingResults(candidates[id], 0)
        invariant Distinct(ids[..i])
      {
        var candidate := candidateList[i];
        if candidate.id in candidates {
          var k :| 0 <= k < i && candidateList[k].id == candidate.id;
          assert ids[k] == ids[i];
          return Failure(DuplicateCandidateId(candidate.id));
        }
        assert ids[..i + 1] == ids[..i] + [candidate.id];
        candidates := candidates[candidate.id := candidate];
        candidatesResults := candidatesResults[candidate.id := CandidateVotingResults(candidate, 0)];
      }
      assert ids[..|candidateList|] == ids;
      assert (set c | c in candidateList :: c.id) == set k | 0 <= k < |candidateList| :: candidateList[k].id;
      r := Success((candidates, candidatesResults));
    }

    /** The constructor's second loop: the voter registry and a NotAttended
        status per voter. */
    static method RegisterVoters(voterList: seq<Voters.Voter>)
      returns (r: Result<(map<Guid, Voters.Voter>, map<Guid, VoterStatus>), ConstructionError>)
      ensures r.Failure? <==> !Distinct(Ids(voterList, VoterId))
      ensures r.Failure? ==> r.error.DuplicateVoterId? && Repeated(Ids(voterList, VoterId), r.error.voterId)
      ensures r.Success? ==>
        var (voters, votersStatuses) := r.value;
        && voters.Keys == (set v | v in voterList :: v.id)
        && votersStatuses.Keys == voters.Keys
        && (forall v :: v in voterList ==> voters[v.id] == v)
        && (forall id :: id in voters ==> voters[id].id == id)
        && (forall id :: id in votersStatuses ==> votersStatuses[id] == NotAttended)
    {
      var ids := Ids(voterList, VoterId);
      assert forall k :: 0 <= k < |voterList| ==> ids[k] == voterList[k].id;
      var voters: map<Guid, Voters.Voter> := map[];
      var votersStatuses: map<Guid, VoterStatus> := map[];
      for i := 0 to |voterList|
        invariant votersStatuses.Keys == voters.Keys
        invariant voters.Keys == set k | 0 <= k < i :: voterList[k].id
        invariant forall k :: 0 <= k < i ==> voters[voterList[k].id] == voterList[k]
        invariant forall id :: id in voters ==> voters[id].id == id
        invariant forall id :: id in votersStatuses ==> votersStatuses[id] == NotAttended
        invariant Distinct(ids[..i])
      {
        var voter := voterList[i];
        if voter.id in voters {
          var k :| 0 <= k < i && voterList[k].id == voter.id;
          assert ids[k] == ids[i];
          return Failure(DuplicateVoterId(voter.id));
        }
        assert ids[..i + 1] == ids[..i] + [voter.id];
        voters := voters[voter.id := voter];
        votersStatuses := votersStatuses[voter.id := NotAttended];
      }
      assert ids[..|voterList|] == ids;
      assert (set v | v in voterList :: v.id) == set k | 0 <= k < |voterList| :: voterList[k].id;
      r := Success((voters, votersStatuses));
    }

    // ---- The validation steps of AcceptVote ----

    function CheckIfVotingIsCompleted(): (r: Outcome<CommissionError>)
      reads this`isVotingCompleted
      ensures r.Fail? <==> isVotingCompleted
      ensures r.Fail? ==> r.error == VotingAlreadyCompleted
    {
      if isVotingCompleted then Fail(VotingAlreadyCompleted) else Pass
    }

    /** Decrypt with the private key, then deserialise; a throw from either, or a
        null, is the "wrong format" error. */
    function DecryptSignedBallot(encryptedSignedBallot: Bytes, rsa: RsaService,
                                 transformer: ObjectToByteArrayTransformer): (r: Result<SignedBallot, CommissionError>)
      ensures r.Failure? ==> r.error == MalformedMessage
      ensures r.Success? <==>
        rsa.decrypt(encryptedSignedBallot, privateKey).Returned? &&
        transformer.bytesToSignedBallot(rsa.decrypt(encryptedSignedBallot, privateKey).value).Returned? &&
        transformer.bytesToSignedBallot(rsa.decrypt(encryptedSignedBallot, privateKey).value).value.Some?
      ensures r.Success? ==>
        transformer.bytesToSignedBallot(rsa.decrypt(encryptedSignedBallot, privateKey).value) == Returned(Some(r.value))
    {
      match rsa.decrypt(encryptedSignedBallot, privateKey)
      case Thrown => Failure(MalformedMessage)
      case Returned(bytes) =>
        match transformer.bytesToSignedBallot(bytes)
        case Returned(Some(signedBallot)) => Success(signedBallot)
        case _ => Failure(MalformedMessage)
    }

    /** The signature must verify, under the commission's public key, against
        the serialised ballot. */
    function VerifySignature(signedBallot: SignedBallot, rsa: RsaService,
                             transformer: ObjectToByteArrayTransformer): (r: Result<Ballot, CommissionError>)
      ensures r.Success? <==> rsa.verifyHash(transformer.ballotToBytes(signedBallot.ballot), signedBallot.signature, publicKey)
      ensures r.Success? ==> r.value == signedBallot.ballot
      ensures r.Failure? ==> r.error == SignatureNotAuthentic
    {
      var signatureIsAuthentic := rsa.verifyHash(transformer.ballotToBytes(signedBallot.ballot), signedBallot.signature, publicKey);
      if !signatureIsAuthentic then Failure(SignatureNotAuthentic) else Success(signedBallot.ballot)
    }

    /** The voter must be registered and must not have the status Voted. */
    function VerifyVoterWhileVoting(ballot: Ballot): (r: Result<Ballot, CommissionError>)
      reads this`votersStatuses
      requires voters.Keys <= votersStatuses.Keys
      ensures r.Success? <==> ballot.voterId in voters && votersStatuses[ballot.voterId] != Voted
      ensures r.Success? ==> r.value == ballot
      ensures ballot.voterId !in voters ==> r == Failure(VoterNotFound)
      ensures ballot.voterId in voters && votersStatuses[ballot.voterId] == Voted ==> r == Failure(VoterAlreadyVoted)
    {
      if ballot.voterId !in voters then
        Failure(VoterNotFound)
      else if votersStatuses[ballot.voterId] == Voted then
        Failure(VoterAlreadyVoted)
      else
        Success(ballot)
    }

    /** The candidate must be registered. */
    function VerifyCandidate(ballot: Ballot): (r: Result<Ballot, CommissionError>)
      ensures r.Success? <==> ballot.candidateId in candidates
      ensures r.Success? ==> r.value == ballot
      ensures r.Failure? ==> r.error == CandidateNotFound
    {
      if ballot.candidateId !in candidates then Failure(CandidateNotFound) else Success(ballot)
    }

    /** The read-only part of AcceptVote: the validation steps in order, the
        first failure deciding the outcome. */
    function Validate(encryptedSignedBallot: Bytes, rsa: RsaService,
                      transformer: ObjectToByteArrayTransformer): (r: Result<Ballot, CommissionError>)
      reads this`isVotingCompleted, this`votersStatuses
      requires voters.Keys <= votersStatuses.Keys
      ensures isVotingCompleted ==> r == Failure(VotingAlreadyCompleted)
      ensures !isVotingCompleted && DecryptSignedBallot(encryptedSignedBallot, rsa, transformer).Failure? ==>
        r == Failure(MalformedMessage)
      ensures r.Success? ==>
        var sb := DecryptSignedBallot(encryptedSignedBallot, rsa, transformer).value;
        && !isVotingCompleted
        && DecryptSignedBallot(encryptedSignedBallot, rsa, transformer).Success?
        && r.value == sb.ballot
        && rsa.verifyHash(transformer.ballotToBytes(sb.ballot), sb.signature, publicKey)
        && sb.ballot.voterId in voters && votersStatuses[sb.ballot.voterId] != Voted
        && sb.ballot.candidateId in candidates
      ensures !isVotingCompleted && DecryptSignedBallot(encryptedSignedBallot, rsa, transformer).Success? ==>
        var sb := DecryptSignedBallot(encryptedSignedBallot, rsa, transformer).value;
        && (!rsa.verifyHash(transformer.ballotToBytes(sb.ballot), sb.signature, publicKey) ==>
              r == Failure(SignatureNotAuthentic))
        && (rsa.verifyHash(transformer.ballotToBytes(sb.ballot), sb.signature, publicKey) ==>
              && (sb.ballot.voterId !in voters ==> r == Failure(VoterNotFound))
              && (sb.ballot.voterId in voters && votersStatuses[sb.ballot.voterId] == Voted ==>
                    r == Failure(VoterAlreadyVoted))
              && (sb.ballot.voterId in voters && votersStatuses[sb.ballot.voterId] != Voted ==>
                    r == if sb.ballot.candidateId in candidates then Success(sb.ballot) else Failure(CandidateNotFound)))
    {
      if CheckIfVotingIsCompleted().Fail? then
        Failure(VotingAlreadyCompleted)
      else
        var signedBallot :- DecryptSignedBallot(encryptedSignedBallot, rsa, transformer);
        var ballot :- VerifySignature(signedBallot, rsa, transformer);
        var voterBallot :- VerifyVoterWhileVoting(ballot);
        VerifyCandidate(voterBallot)
    }

    // ---- State changes ----

    /** AddVote: the candidate's count rises by one and the log gains a record
        whose ballot number is the previous log length plus one. The voter's
        status is left as it was, as in the source (see README, Findings). */
    method AddVote(ballot: Ballot) returns (ballotNumber: int)
      requires Valid()
      requires ballot.voterId in voters && ballot.candidateId in candidates
      modifies this`votingResults
      ensures Valid()
      ensures ballotNumber == old(|votingResults.votersResults|) + 1
      ensures votingResults == WithVote(old(votingResults), ballot)
    {
      WithVotePreservesConsistency(votingResults, ballot);
      var entry := votingResults.candidatesResults[ballot.candidateId];
      var candidatesResults := votingResults.candidatesResults[ballot.candidateId := entry.(votes := entry.votes + 1)];
      ballotNumber := |votingResults.votersResults| + 1;
      votingResults := VotingResults(candidatesResults,
                                     votingResults.votersResults + [VoterResults(ballot.voterId, ballotNumber, ballot.candidateId)]);
    }

    /** AcceptVote as written: on any failed step nothing changes and that
        step's error is returned; otherwise the vote is added and its ballot
        number returned. Registries, statuses and the completion flag never
        change. */
    method AcceptVote(encryptedSignedBallot: Bytes, rsa: RsaService, transformer: ObjectToByteArrayTransformer)
      returns (r: Result<int, CommissionError>)
      requires Valid()
      modifies this`votingResults
      ensures Valid()
      ensures old(Validate(encryptedSignedBallot, rsa, transformer)).Failure? ==>
        r == Failure(old(Validate(encryptedSignedBallot, rsa, transformer)).error) &&
        votingResults == old(votingResults)
      ensures old(Validate(encryptedSignedBallot, rsa, transformer)).Success? ==>
        r == Success(old(|votingResults.votersResults|) + 1) &&
        votingResults == WithVote(old(votingResults), old(Validate(encryptedSignedBallot, rsa, transformer)).value)
    {
      var completion := CheckIfVotingIsCompleted();
      if completion.Fail? {
        return Failure(completion.error);
      }
      var signedBallot :- DecryptSignedBallot(encryptedSignedBallot, rsa, transformer);
      var ballot :- VerifySignature(signedBallot, rsa, transformer);
      ballot :- VerifyVoterWhileVoting(ballot);
      ballot :- VerifyCandidate(ballot);
      var ballotNumber := AddVote(ballot);
      r := Success(ballotNumber);
    }

    /** AcceptVote with the status transition the source omits: on success the
        voter's status becomes Voted; everything else as AcceptVote. */
    method AcceptVoteMarkingVoted(encryptedSignedBallot: Bytes, rsa: RsaService, transformer: ObjectToByteArrayTransformer)
      returns (r: Result<int, CommissionError>)
      requires Valid()
      modifies this`votingResults, this`votersStatuses
      ensures Valid()
      ensures old(Validate(encryptedSignedBallot, rsa, transformer)).Failure? ==>
        r == Failure(old(Validate(encryptedSignedBallot, rsa, transformer)).error) &&
        votingResults == old(votingResults) && votersStatuses == old(votersStatuses)
      ensures old(Validate(encryptedSignedBallot, rsa, transformer)).Success? ==>
        var ballot := old(Validate(encryptedSignedBallot, rsa, transformer)).value;
        r == Success(old(|votingResults.votersResults|) + 1) &&
        votingResults == WithVote(old(votingResults), ballot) &&
        votersStatuses == old(votersStatuses)[ballot.voterId := Voted]
    {
      var ballot :- Validate(encryptedSignedBallot, rsa, transformer);
      var ballotNumber := AddVote(ballot);
      votersStatuses := votersStatuses[ballot.voterId := Voted];
      r := Success(ballotNumber);
    }

    /** Locks the commission; calling it again changes nothing. */
    method CompleteVoting()
      requires Valid()
      modifies this`isVotingCompleted
      ensures Valid()
      ensures isVotingCompleted
    {
      isVotingCompleted := true;
    }

    /** The visible skeleton of CheckBatches: the random provider picks the batch
        to spare, then every other batch is visited in order. What a visit
        checks is not written in the source; the visited batches are returned. */
    method CheckBatches(collection: BallotBatchesCollection, random: RandomProvider)
      returns (spared: BallotBatch, audited: seq<BallotBatch>)
      requires |collection.batches| > 0
      ensures spared == NextItem(random, collection.batches) && spared in collection.batches
      ensures audited == AllExcept(collection.batches, spared)
    {
      spared := NextItem(random, collection.batches);
      audited := [];
      for i := 0 to |collection.batches|
        invariant audited == AllExcept(collection.batches[..i], spared)
      {
        var batch := collection.batches[i];
        assert collection.batches[..i + 1][..i] == collection.batches[..i];
        if batch == spared {
          continue;
        }
        audited := audited + [batch];
      }
      assert collection.batches[..|collection.batches|] == collection.batches;
    }
  }
}

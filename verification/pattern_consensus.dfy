/** The per-pattern verification consensus (`updatePatternPhaseByExpert` of
    `website.service.ts`). Each expert on a pattern's snapshot roster records
    a verdict; the pattern becomes Verified once no verdict is pending, and
    then records whether any expert found the dark pattern. */
module PatternConsensus {
  import opened Results
  import opened WebsiteSchema
  import opened Collections
  import opened WebsiteValidation

  const ALREADY_VERIFIED := "Pattern already verified"
  const EXPERT_NOT_ASSIGNED_GIVEN := "Expert not assigned to given website"

  /** The body of PUT updatePatternPhase. */
  datatype UpdatePatternPhase = UpdatePatternPhase(websiteId: Id, patternId: Id, expertId: Id, patternExists: bool)

  /** One expert's verdict, as a request would carry it. */
  datatype Vote = Vote(expertId: Id, patternExists: bool)

  /** `expertId` has a verification entry. */
  predicate Assigned(vs: seq<ExpertVerification>, expertId: Id)
  {
    exists i :: 0 <= i < |vs| && vs[i].expertId == expertId
  }

  /** `expertVerifications.find(v => v.expertId === expertId)`: the index of
      the FIRST entry of `expertId`, if any. */
  function FindExpert(vs: seq<ExpertVerification>, expertId: Id): (k: Option<nat>)
    ensures k.Some? <==> Assigned(vs, expertId)
    ensures k.Some? ==> k.value < |vs| && vs[k.value].expertId == expertId
    ensures k.Some? ==> forall j :: 0 <= j < k.value ==> vs[j].expertId != expertId
  {
    if vs == [] then None
    else if vs[0].expertId == expertId then Some(0)
    else match FindExpert(vs[1..], expertId)
      case None => None
      case Some(k) => Some(k + 1)
  }

  /** The verdict phase a request records. */
  function Verdict(patternExists: bool): ExpertVerificationPhase
  {
    if patternExists then VerifiedWithPattern else VerifiedWithoutPattern
  }

  /** The pattern-level part of `updatePatternPhaseByExpert`: a Verified
      pattern takes no more verdicts (404), an expert without an entry is
      refused (400); otherwise only the first entry of the expert is set, the
      phase becomes Verified exactly when no entry is NotVerified, and only
      then is `isPatternExists` assigned, to "some expert found it". */
  function RecordVerdict(p: Pattern, expertId: Id, patternExists: bool): (r: Result<Pattern>)
    ensures p.patternPhase == Verified ==> r == Err(NotFound(ALREADY_VERIFIED))
    ensures p.patternPhase != Verified && !Assigned(p.expertVerifications, expertId)
            ==> r == Err(BadRequest(EXPERT_NOT_ASSIGNED_GIVEN))
    ensures r.Ok? <==> p.patternPhase != Verified && Assigned(p.expertVerifications, expertId)
    ensures r.Ok? ==>
      var vs := p.expertVerifications;
      var vs' := r.value.expertVerifications;
      var k := FindExpert(vs, expertId).value;
      && |vs'| == |vs|
      && vs'[k] == ExpertVerification(expertId, Verdict(patternExists))
      && (forall i :: 0 <= i < |vs| && i != k ==> vs'[i] == vs[i])
    ensures r.Ok? ==>
      var q := r.value;
      && (q.patternPhase == Verified <==> NoneNotVerified(q.expertVerifications))
      && (q.patternPhase == Verified ==> q.isPatternExists == Some(AnyWithPattern(q.expertVerifications)))
      && (q.patternPhase != Verified ==> q.isPatternExists == p.isPatternExists)
      && q == p.(expertVerifications := q.expertVerifications, patternPhase := q.patternPhase,
                 isPatternExists := q.isPatternExists)
  {
    if p.patternPhase == Verified then Err(NotFound(ALREADY_VERIFIED))
    else match FindExpert(p.expertVerifications, expertId)
      case None => Err(BadRequest(EXPERT_NOT_ASSIGNED_GIVEN))
      case Some(k) =>
        var vs := p.expertVerifications[k := ExpertVerification(expertId, Verdict(patternExists))];
        if NoneNotVerified(vs) then
          Ok(p.(expertVerifications := vs, patternPhase := Verified, isPatternExists := Some(AnyWithPattern(vs))))
        else
          Ok(p.(expertVerifications := vs, patternPhase := PatternPhaseType.InProgress))
  }

  /** `updatePatternPhaseByExpert`: the pattern is looked up by id AND
      website (404 'Pattern not found' when either does not match), then the
      verdict is recorded and the pattern saved; nothing else changes. */
  function UpdatePatternPhaseByExpert(s: Store, u: UpdatePatternPhase): (r: Result<Step<string>>)
    ensures (u.patternId !in s.patterns || s.patterns[u.patternId].websiteId != u.websiteId)
            ==> r == Err(NotFound(PATTERN_NOT_FOUND))
    ensures r.Ok? <==>
      && u.patternId in s.patterns && s.patterns[u.patternId].websiteId == u.websiteId
      && RecordVerdict(s.patterns[u.patternId], u.expertId, u.patternExists).Ok?
    ensures (u.patternId in s.patterns && s.patterns[u.patternId].websiteId == u.websiteId && r.Err?)
            ==> r.error == RecordVerdict(s.patterns[u.patternId], u.expertId, u.patternExists).error
    ensures r.Ok? ==>
      && r.value.store.patterns
         == s.patterns[u.patternId := RecordVerdict(s.patterns[u.patternId], u.expertId, u.patternExists).value]
      && r.value.store == s.(patterns := r.value.store.patterns)
      && r.value.out == "Pattern phase updated for pattern with id " + u.patternId
  {
    if u.patternId !in s.patterns || s.patterns[u.patternId].websiteId != u.websiteId then
      Err(NotFound(PATTERN_NOT_FOUND))
    else
      var p :- RecordVerdict(s.patterns[u.patternId], u.expertId, u.patternExists);
      Ok(Step(s.(patterns := s.patterns[u.patternId := p]),
              "Pattern phase updated for pattern with id " + u.patternId))
  }

  /** Recording a verdict keeps the consensus invariant. */
  lemma RecordVerdictKeepsConsensus(p: Pattern, expertId: Id, patternExists: bool)
    requires ConsensusConsistent(p)
    requires RecordVerdict(p, expertId, patternExists).Ok?
    ensures ConsensusConsistent(RecordVerdict(p, expertId, patternExists).value)
  {
    var q := RecordVerdict(p, expertId, patternExists).value;
    var k := FindExpert(p.expertVerifications, expertId).value;
    assert |q.expertVerifications| > 0 by {
      assert k < |q.expertVerifications|;
    }
  }

  /** A pattern update keeps every store invariant. */
  lemma UpdateKeepsConsistent(s: Store, u: UpdatePatternPhase)
    requires Consistent(s)
    requires UpdatePatternPhaseByExpert(s, u).Ok?
    ensures Consistent(UpdatePatternPhaseByExpert(s, u).value.store)
  {
    RecordVerdictKeepsConsensus(s.patterns[u.patternId], u.expertId, u.patternExists);
  }

  /** A series of verdict requests on one pattern, the refused ones leaving it as it was. */
  function ApplyVerdicts(p: Pattern, votes: seq<Vote>): Pattern
    decreases |votes|
  {
    if votes == [] then p
    else
      var q := ApplyVerdicts(p, votes[..|votes| - 1]);
      var last := votes[|votes| - 1];
      match RecordVerdict(q, last.expertId, last.patternExists)
      case Ok(q') => q'
      case Err(_) => q
  }

  /** Verified is final: no series of later requests changes a Verified pattern. */
  lemma {:induction false} VerifiedIsFinal(p: Pattern, votes: seq<Vote>)
    requires p.patternPhase == Verified
    ensures ApplyVerdicts(p, votes) == p
    decreases |votes|
  {
    if votes != [] {
      VerifiedIsFinal(p, votes[..|votes| - 1]);
    }
  }

  /** Recording a verdict never changes whose entry is where. */
  lemma RecordVerdictKeepsRoster(p: Pattern, expertId: Id, patternExists: bool)
    requires RecordVerdict(p, expertId, patternExists).Ok?
    ensures var vs' := RecordVerdict(p, expertId, patternExists).value.expertVerifications;
      && |vs'| == |p.expertVerifications|
      && forall i :: 0 <= i < |vs'| ==> vs'[i].expertId == p.expertVerifications[i].expertId
  {
  }

  /** An expert listed twice on a pattern's roster blocks its consensus: only
      the first entry of an expert is ever updated, so a pending later entry
      stays pending through any series of requests and the pattern is never
      Verified. */
  lemma {:induction false} DuplicateExpertBlocksConsensus(p: Pattern, votes: seq<Vote>, i: nat, j: nat)
    requires i < j < |p.expertVerifications|
    requires p.expertVerifications[i].expertId == p.expertVerifications[j].expertId
    requires p.expertVerifications[j].phase == NotVerified
    requires p.patternPhase != Verified
    ensures var q := ApplyVerdicts(p, votes);
      && |q.expertVerifications| == |p.expertVerifications|
      && q.expertVerifications[i].expertId == q.expertVerifications[j].expertId
      && q.expertVerifications[j] == p.expertVerifications[j]
      && q.patternPhase != Verified
    decreases |votes|
  {
    if votes != [] {
      var prefix := votes[..|votes| - 1];
      DuplicateExpertBlocksConsensus(p, prefix, i, j);
      var q := ApplyVerdicts(p, prefix);
      var last := votes[|votes| - 1];
      var r := RecordVerdict(q, last.expertId, last.patternExists);
      if r.Ok? {
        RecordVerdictKeepsRoster(q, last.expertId, last.patternExists);
        var k := FindExpert(q.expertVerifications, last.expertId).value;
        assert k != j by {
          assert q.expertVerifications[k].expertId == last.expertId;
          assert q.expertVerifications[j].expertId == q.expertVerifications[i].expertId;
        }
        assert r.value.expertVerifications[j] == q.expertVerifications[j];
        assert !NoneNotVerified(r.value.expertVerifications);
      }
    }
  }

  /** The roster a series of votes walks through, in order and exactly once. */
  predicate VotesFollowRoster(vs: seq<ExpertVerification>, votes: seq<Vote>)
  {
    && |votes| == |vs|
    && (forall i :: 0 <= i < |vs| ==> votes[i].expertId == vs[i].expertId)
    && (forall i, j :: 0 <= i < j < |vs| ==> vs[i].expertId != vs[j].expertId)
  }

  /** How far a roster walk has got: the first `m` entries carry their
      verdicts, the rest are as in `p`, and the pattern is Verified only once
      the walk is complete. */
  predicate WalkedTo(p: Pattern, q: Pattern, votes: seq<Vote>, m: nat)
    requires |p.expertVerifications| == |votes| && m <= |votes|
  {
    && |q.expertVerifications| == |votes|
    && (forall i :: 0 <= i < m ==>
          q.expertVerifications[i] == ExpertVerification(votes[i].expertId, Verdict(votes[i].patternExists)))
    && (forall i :: m <= i < |votes| ==> q.expertVerifications[i] == p.expertVerifications[i])
    && (q.patternPhase == Verified <==> m == |votes| && m > 0)
    && (q.patternPhase == Verified ==> q.isPatternExists == Some(AnyWithPattern(q.expertVerifications)))
  }

  /** One more vote of a roster walk is accepted and advances the walk. */
  lemma WalkStep(p: Pattern, votes: seq<Vote>, m: nat, q: Pattern)
    requires VotesFollowRoster(p.expertVerifications, votes)
    requires forall i :: 0 <= i < |votes| ==> p.expertVerifications[i].phase == NotVerified
    requires 0 < m <= |votes|
    requires WalkedTo(p, q, votes, m - 1)
    ensures RecordVerdict(q, votes[m - 1].expertId, votes[m - 1].patternExists).Ok?
    ensures WalkedTo(p, RecordVerdict(q, votes[m - 1].expertId, votes[m - 1].patternExists).value, votes, m)
  {
    var v := votes[m - 1];
    assert q.expertVerifications[m - 1].expertId == v.expertId;
    var k := FindExpert(q.expertVerifications, v.expertId).value;
    assert k == m - 1 by {
      assert q.expertVerifications[k].expertId == v.expertId;
      assert p.expertVerifications[k].expertId == votes[k].expertId;
      assert p.expertVerifications[m - 1].expertId == v.expertId;
    }
    var q' := RecordVerdict(q, v.expertId, v.patternExists).value;
    if m < |votes| {
      assert q'.expertVerifications[|votes| - 1].phase == NotVerified;
    }
  }

  /** The first `m` votes of a roster walk, applied to a pending pattern. */
  lemma {:induction false} RosterWalkPrefix(p: Pattern, votes: seq<Vote>, m: nat)
    requires VotesFollowRoster(p.expertVerifications, votes)
    requires forall i :: 0 <= i < |votes| ==> p.expertVerifications[i].phase == NotVerified
    requires p.patternPhase != Verified
    requires m <= |votes|
    ensures WalkedTo(p, ApplyVerdicts(p, votes[..m]), votes, m)
    decreases m
  {
    if m > 0 {
      RosterWalkPrefix(p, votes, m - 1);
      assert votes[..m][..m - 1] == votes[..m - 1];
      WalkStep(p, votes, m, ApplyVerdicts(p, votes[..m - 1]));
    }
  }

  /** Liveness of the consensus: when every expert of a roster without
      duplicates submits one verdict, the pattern ends Verified, and it holds
      a dark pattern exactly when some expert said so. */
  lemma {:induction false} RosterVotesReachConsensus(p: Pattern, votes: seq<Vote>)
    requires VotesFollowRoster(p.expertVerifications, votes)
    requires forall i :: 0 <= i < |votes| ==> p.expertVerifications[i].phase == NotVerified
    requires p.patternPhase != Verified
    requires |votes| > 0
    ensures ApplyVerdicts(p, votes).patternPhase == Verified
    ensures ApplyVerdicts(p, votes).isPatternExists
            == Some(exists i :: 0 <= i < |votes| && votes[i].patternExists)
  {
    RosterWalkPrefix(p, votes, |votes|);
    assert votes[..|votes|] == votes;
    var q := ApplyVerdicts(p, votes);
    if exists i :: 0 <= i < |votes| && votes[i].patternExists {
      var i :| 0 <= i < |votes| && votes[i].patternExists;
      assert q.expertVerifications[i].phase == VerifiedWithPattern;
    }
  }
}

/** Adding dark-pattern findings to a website (`addPatternInWebsite`,
    `addAutomatedPatternInWebsite` of `website.service.ts`). Each new pattern
    takes a snapshot of the website's expert roster: one NotVerified
    verification per roster entry, in roster order. */
module PatternCreation {
  import opened Results
  import opened UserSchema
  import opened WebsiteSchema
  import opened Collections
  import opened WebsiteValidation

  const EXPERT_NOT_ASSIGNED := "Expert not assigned to the website"
  const ONE_CREATOR := "SuperAdmin can have only one createdByExpertId"
  const ONLY_SUPER_ADMIN := "Only super admin can submit automated patterns"
  const AUTOMATED_ADDED := "Automated patterns successfully added"

  datatype PatternCreateDto = PatternCreateDto(
    createdByExpertId: Id,
    patternType: string,
    description: string,
    detectedUrl: string)

  /** `expertIds.map(expertId => ({ expertId, NotVerified }))`: one pending
      verification per roster entry, in order, duplicates included. */
  function Snapshot(expertIds: seq<Id>): (vs: seq<ExpertVerification>)
    ensures |vs| == |expertIds|
    ensures forall i :: 0 <= i < |vs| ==> vs[i].expertId == expertIds[i] && vs[i].phase == NotVerified
  {
    if expertIds == [] then []
    else [ExpertVerification(expertIds[0], NotVerified)] + Snapshot(expertIds[1..])
  }

  /** A new pattern document of `websiteId` built from `dto`. Its phase starts
      as InProgress and `isPatternExists` starts unset: the Pattern schema is
      not part of this model, and these two defaults are assumptions. */
  function NewPattern(websiteId: Id, dto: PatternCreateDto, isAutoGenerated: bool, roster: seq<Id>): Pattern
  {
    Pattern(websiteId, dto.patternType, dto.description, dto.detectedUrl, dto.createdByExpertId,
            isAutoGenerated, [], Snapshot(roster), PatternPhaseType.InProgress, None, [])
  }

  /** A freshly created pattern satisfies the consensus invariant and is not Verified. */
  lemma NewPatternConsistent(websiteId: Id, dto: PatternCreateDto, isAutoGenerated: bool, roster: seq<Id>)
    ensures ConsensusConsistent(NewPattern(websiteId, dto, isAutoGenerated, roster))
    ensures NewPattern(websiteId, dto, isAutoGenerated, roster).patternPhase != Verified
  {
    var vs := Snapshot(roster);
    if |vs| > 0 {
      assert vs[0].phase == NotVerified;
    }
  }

  /** `addPatternInWebsite`. The creating expert must exist, then the website,
      then the creator must be on the website's roster (400 otherwise). The new
      pattern is stored under a fresh id, is not auto-generated, and carries one
      NotVerified verification per roster entry, in order. */
  function AddPatternInWebsite(s: Store, websiteId: Id, dto: PatternCreateDto, newId: Id)
    : (r: Result<Step<Id>>)
    requires newId !in s.patterns
    ensures dto.createdByExpertId !in s.users ==> r == Err(NotFound(USER_NOT_FOUND))
    ensures dto.createdByExpertId in s.users && websiteId !in s.websites ==> r == Err(NotFound(WEBSITE_NOT_FOUND))
    ensures dto.createdByExpertId in s.users && websiteId in s.websites
            && dto.createdByExpertId !in s.websites[websiteId].expertIds
            ==> r == Err(BadRequest(EXPERT_NOT_ASSIGNED))
    ensures r.Ok? <==>
      dto.createdByExpertId in s.users && websiteId in s.websites
      && dto.createdByExpertId in s.websites[websiteId].expertIds
    ensures r.Ok? ==> r.value.out == newId && r.value.store.patterns.Keys == s.patterns.Keys + {newId}
    ensures r.Ok? ==>
      var p := r.value.store.patterns[newId];
      var roster := s.websites[websiteId].expertIds;
      && !p.isAutoGenerated && p.websiteId == websiteId
      && p.createdByExpertId == dto.createdByExpertId
      && p.patternType == dto.patternType && p.description == dto.description
      && p.detectedUrl == dto.detectedUrl
      && p.patternPhase == PatternPhaseType.InProgress && p.isPatternExists.None?
      && p.patternImageKeys == [] && p.comments == []
      && |p.expertVerifications| == |roster|
      && (forall i :: 0 <= i < |roster| ==>
            p.expertVerifications[i] == ExpertVerification(roster[i], NotVerified))
    ensures r.Ok? ==>
      && (forall pid :: pid in s.patterns ==> r.value.store.patterns[pid] == s.patterns[pid])
      && r.value.store == s.(patterns := r.value.store.patterns)
  {
    var _ :- CheckUserExists(s, dto.createdByExpertId);
    var website :- CheckWebsiteExists(s, websiteId);
    :- Need(dto.createdByExpertId in website.expertIds, BadRequest(EXPERT_NOT_ASSIGNED));
    var pattern := NewPattern(websiteId, dto, false, website.expertIds);
    Ok(Step(s.(patterns := s.patterns[newId := pattern]), newId))
  }

  /** Every request of the batch names the same creator (`every(id => id === expertIds[0])`). */
  predicate SameCreator(dtos: seq<PatternCreateDto>)
  {
    forall i :: 0 <= i < |dtos| ==> dtos[i].createdByExpertId == dtos[0].createdByExpertId
  }

  /** `addAutomatedPatternInWebsite`. The website must exist; all requests
      must share one creator (400); that creator must exist (404; an empty
      batch looks up `expertIds[0]`, which is undefined, and so also gets 404)
      and be a SuperAdmin (400). Each request then becomes an auto-generated
      pattern whose verifications snapshot the WEBSITE's roster, stored under
      the matching fresh id. */
  function AddAutomatedPatternInWebsite(s: Store, websiteId: Id, dtos: seq<PatternCreateDto>, newIds: seq<Id>)
    : (r: Result<Step<string>>)
    requires |newIds| == |dtos|
    requires forall i, j :: 0 <= i < j < |newIds| ==> newIds[i] != newIds[j]
    requires forall i :: 0 <= i < |newIds| ==> newIds[i] !in s.patterns
    ensures websiteId !in s.websites ==> r == Err(NotFound(WEBSITE_NOT_FOUND))
    ensures websiteId in s.websites && !SameCreator(dtos) ==> r == Err(BadRequest(ONE_CREATOR))
    ensures websiteId in s.websites && SameCreator(dtos)
            && (|dtos| == 0 || dtos[0].createdByExpertId !in s.users)
            ==> r == Err(NotFound(USER_NOT_FOUND))
    ensures websiteId in s.websites && SameCreator(dtos) && |dtos| > 0
            && dtos[0].createdByExpertId in s.users
            && s.users[dtos[0].createdByExpertId].role != SuperAdmin
            ==> r == Err(BadRequest(ONLY_SUPER_ADMIN))
    ensures r.Ok? <==>
      && websiteId in s.websites && SameCreator(dtos) && |dtos| > 0
      && dtos[0].createdByExpertId in s.users
      && s.users[dtos[0].createdByExpertId].role == SuperAdmin
    ensures r.Ok? ==>
      && r.value.store == s.(patterns := r.value.store.patterns)
      && r.value.store.patterns.Keys == s.patterns.Keys + (set i | 0 <= i < |newIds| :: newIds[i])
      && (forall pid :: pid in s.patterns ==> r.value.store.patterns[pid] == s.patterns[pid])
    ensures r.Ok? ==>
      forall i :: 0 <= i < |dtos| ==>
        var p := r.value.store.patterns[newIds[i]];
        && p.isAutoGenerated && p.websiteId == websiteId
        && p.createdByExpertId == dtos[i].createdByExpertId
        && p.patternType == dtos[i].patternType && p.description == dtos[i].description
        && p.detectedUrl == dtos[i].detectedUrl
        && p.patternPhase == PatternPhaseType.InProgress && p.isPatternExists.None?
        && p.patternImageKeys == [] && p.comments == []
        && p.expertVerifications == Snapshot(s.websites[websiteId].expertIds)
  {
    var website :- CheckWebsiteExists(s, websiteId);
    :- Need(SameCreator(dtos), BadRequest(ONE_CREATOR));
    var user :- if |dtos| == 0 then Err(NotFound(USER_NOT_FOUND))
                else CheckUserExists(s, dtos[0].createdByExpertId);
    :- Need(user.role == SuperAdmin, BadRequest(ONLY_SUPER_ADMIN));
    var added := map i | 0 <= i < |dtos| :: newIds[i] := NewPattern(websiteId, dtos[i], true, website.expertIds);
    assert forall i :: 0 <= i < |dtos| ==> newIds[i] in added;
    Ok(Step(s.(patterns := s.patterns + added), AUTOMATED_ADDED))
  }

  /** Adding one pattern keeps every store invariant. */
  lemma AddPatternKeepsConsistent(s: Store, websiteId: Id, dto: PatternCreateDto, newId: Id)
    requires Consistent(s)
    requires newId !in s.patterns
    requires AddPatternInWebsite(s, websiteId, dto, newId).Ok?
    ensures Consistent(AddPatternInWebsite(s, websiteId, dto, newId).value.store)
  {
    NewPatternConsistent(websiteId, dto, false, s.websites[websiteId].expertIds);
  }

  /** Adding a batch of automated patterns keeps every store invariant. */
  lemma AddAutomatedKeepsConsistent(s: Store, websiteId: Id, dtos: seq<PatternCreateDto>, newIds: seq<Id>)
    requires Consistent(s)
    requires |newIds| == |dtos|
    requires forall i, j :: 0 <= i < j < |newIds| ==> newIds[i] != newIds[j]
    requires forall i :: 0 <= i < |newIds| ==> newIds[i] !in s.patterns
    requires AddAutomatedPatternInWebsite(s, websiteId, dtos, newIds).Ok?
    ensures Consistent(AddAutomatedPatternInWebsite(s, websiteId, dtos, newIds).value.store)
  {
    var s' := AddAutomatedPatternInWebsite(s, websiteId, dtos, newIds).value.store;
    forall pid | pid in s'.patterns
      ensures ConsensusConsistent(s'.patterns[pid])
    {
      if pid !in s.patterns {
        var i :| 0 <= i < |newIds| && newIds[i] == pid;
        NewPatternConsistent(websiteId, dtos[i], true, s.websites[websiteId].expertIds);
      }
    }
  }
}

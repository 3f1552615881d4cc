/** Publishing the review outcome of a website
    (`publishCertificationDetailsOfWebsite` of `website.service.ts`): an
    ordered chain of gates, then the outcome fields are written. The e-mail to
    the client after saving is not part of this model. */
module WebsitePublish {
  import opened Results
  import opened JsString
  import opened UserSchema
  import opened WebsiteSchema
  import opened Collections
  import opened WebsiteValidation

  const ALREADY_PUBLISHED := "Website is already published!!!"
  const NOT_PRIMARY_EXPERT := "Expert doesnot have authority to publish the website certification details"
  const NOT_ALL_VERIFIED := "Not all patterns are verified by experts"
  const CANNOT_CERTIFY_DARK := "Cannot provide certification to website containing dark pattern"
  const MUST_CERTIFY_CLEAN := "Should provide certification to website free of dark patterns"
  const FEEDBACK_REQUIRED := "Need to provide feedback for website containing dark pattern"

  /** The body of POST publish. */
  datatype PublishCertificationDto = PublishCertificationDto(
    expertId: Id,
    isCertified: bool,
    expertFeedback: Option<string>)

  /** Every pattern of the website has reached consensus. */
  predicate AllPatternsVerified(ps: map<Id, Pattern>)
  {
    forall pid :: pid in ps ==> ps[pid].patternPhase == Verified
  }

  /** Some pattern of the website was found to be a dark pattern
      (`patterns.some(p => p.isPatternExists)`). */
  predicate AnyDarkPattern(ps: map<Id, Pattern>)
  {
    exists pid :: pid in ps && ps[pid].isPatternExists == Some(true)
  }

  /** The feedback is missing or blank (`!f || !f.trim()`). */
  predicate FeedbackMissing(feedback: Option<string>)
  {
    feedback.None? || Trim(feedback.value) == ""
  }

  /** The gates after the lookups, in the order the source tests them. */
  function PublishGate(w: Website, ps: map<Id, Pattern>, dto: PublishCertificationDto): (c: Check)
    ensures w.isCompleted ==> c == Fail(BadRequest(ALREADY_PUBLISHED))
    ensures !w.isCompleted && w.primaryExpertId != Some(dto.expertId) ==> c == Fail(BadRequest(NOT_PRIMARY_EXPERT))
    ensures !w.isCompleted && w.primaryExpertId == Some(dto.expertId) && !AllPatternsVerified(ps)
            ==> c == Fail(BadRequest(NOT_ALL_VERIFIED))
    ensures c.Pass? <==>
      && !w.isCompleted && w.primaryExpertId == Some(dto.expertId) && AllPatternsVerified(ps)
      && dto.isCertified == !AnyDarkPattern(ps)
      && (!dto.isCertified ==> !FeedbackMissing(dto.expertFeedback))
    ensures c.Fail? && !w.isCompleted && w.primaryExpertId == Some(dto.expertId) && AllPatternsVerified(ps) ==>
      c.error == BadRequest(
        if dto.isCertified && AnyDarkPattern(ps) then CANNOT_CERTIFY_DARK
        else if !dto.isCertified && !AnyDarkPattern(ps) then MUST_CERTIFY_CLEAN
        else FEEDBACK_REQUIRED)
  {
    if w.isCompleted then Fail(BadRequest(ALREADY_PUBLISHED))
    else if w.primaryExpertId != Some(dto.expertId) then Fail(BadRequest(NOT_PRIMARY_EXPERT))
    else if !AllPatternsVerified(ps) then Fail(BadRequest(NOT_ALL_VERIFIED))
    else if dto.isCertified && AnyDarkPattern(ps) then Fail(BadRequest(CANNOT_CERTIFY_DARK))
    else if !dto.isCertified && !AnyDarkPattern(ps) then Fail(BadRequest(MUST_CERTIFY_CLEAN))
    else if !dto.isCertified && FeedbackMissing(dto.expertFeedback) then Fail(BadRequest(FEEDBACK_REQUIRED))
    else Pass
  }

  /** `publishCertificationDetailsOfWebsite`. The publishing expert, the
      website and the website's client must exist (404), then the gates must
      pass (400); the website is then published with its dark-pattern verdict
      and the expert's feedback, and nothing else changes. */
  function PublishCertificationDetailsOfWebsite(s: Store, websiteId: Id, dto: PublishCertificationDto)
    : (r: Result<Step<string>>)
    ensures dto.expertId !in s.users ==> r == Err(NotFound(USER_NOT_FOUND))
    ensures dto.expertId in s.users && websiteId !in s.websites ==> r == Err(NotFound(WEBSITE_NOT_FOUND))
    ensures dto.expertId in s.users && websiteId in s.websites && s.websites[websiteId].userId !in s.users
            ==> r == Err(NotFound(USER_NOT_FOUND))
    ensures r.Ok? <==>
      && dto.expertId in s.users && websiteId in s.websites && s.websites[websiteId].userId in s.users
      && PublishGate(s.websites[websiteId], GetPatternForParticularWebsite(s, websiteId), dto).Pass?
    ensures dto.expertId in s.users && websiteId in s.websites && s.websites[websiteId].userId in s.users
            && PublishGate(s.websites[websiteId], GetPatternForParticularWebsite(s, websiteId), dto).Fail?
            ==> r == Err(PublishGate(s.websites[websiteId], GetPatternForParticularWebsite(s, websiteId), dto).error)
    ensures r.Ok? ==> r.value.store.websites.Keys == s.websites.Keys
    ensures r.Ok? ==>
      var w := s.websites[websiteId];
      var w' := r.value.store.websites[websiteId];
      && w'.isCompleted && w'.phase == Published
      && w'.isDarkPatternFree == !AnyDarkPattern(GetPatternForParticularWebsite(s, websiteId))
      && w'.expertFeedback == dto.expertFeedback
      && w' == w.(isCompleted := true, phase := Published, isDarkPatternFree := w'.isDarkPatternFree,
                  expertFeedback := w'.expertFeedback)
    ensures r.Ok? ==>
      && (forall id :: id in s.websites && id != websiteId ==> r.value.store.websites[id] == s.websites[id])
      && r.value.store == s.(websites := r.value.store.websites)
  {
    var _ :- CheckUserExists(s, dto.expertId);
    var website :- CheckWebsiteExists(s, websiteId);
    var _ :- CheckUserExists(s, website.userId);
    var patterns := GetPatternForParticularWebsite(s, websiteId);
    :- PublishGate(website, patterns, dto);
    var published := website.(isDarkPatternFree := !AnyDarkPattern(patterns), phase := Published,
                              isCompleted := true, expertFeedback := dto.expertFeedback);
    Ok(Step(s.(websites := s.websites[websiteId := published]),
            "Certification details successfully published for website with id " + websiteId))
  }

  /** A successful publish certifies exactly when the expert asked for it,
      and a rejected website always carries feedback with a visible character. */
  lemma PublishedVerdictMatchesRequest(s: Store, websiteId: Id, dto: PublishCertificationDto)
    requires PublishCertificationDetailsOfWebsite(s, websiteId, dto).Ok?
    ensures var w' := PublishCertificationDetailsOfWebsite(s, websiteId, dto).value.store.websites[websiteId];
      && w'.isDarkPatternFree == dto.isCertified
      && (!w'.isDarkPatternFree ==>
            w'.expertFeedback.Some?
            && exists i :: 0 <= i < |w'.expertFeedback.value| && !IsJsWhitespace(w'.expertFeedback.value[i]))
  {
    if !dto.isCertified {
      TrimEmptyIffBlank(dto.expertFeedback.value);
    }
  }

  /** Publishing is once only: a second publish of the same website is
      refused, by any expert; one that exists hears that it is already
      published. */
  lemma PublishTwiceFails(s: Store, websiteId: Id, dto: PublishCertificationDto, dto2: PublishCertificationDto)
    requires PublishCertificationDetailsOfWebsite(s, websiteId, dto).Ok?
    ensures var s' := PublishCertificationDetailsOfWebsite(s, websiteId, dto).value.store;
      PublishCertificationDetailsOfWebsite(s', websiteId, dto2).Err?
    ensures var s' := PublishCertificationDetailsOfWebsite(s, websiteId, dto).value.store;
      dto2.expertId in s.users ==>
        PublishCertificationDetailsOfWebsite(s', websiteId, dto2) == Err(BadRequest(ALREADY_PUBLISHED))
  {
  }

  /** In a consistent store the published verdict follows the experts: the
      website is dark-pattern free exactly when no expert reported any of its
      patterns as a dark pattern. */
  lemma PublishedVerdictFollowsExperts(s: Store, websiteId: Id, dto: PublishCertificationDto)
    requires Consistent(s)
    requires PublishCertificationDetailsOfWebsite(s, websiteId, dto).Ok?
    ensures PublishCertificationDetailsOfWebsite(s, websiteId, dto).value.store.websites[websiteId].isDarkPatternFree
      <==> forall pid :: pid in s.patterns && s.patterns[pid].websiteId == websiteId
             ==> !AnyWithPattern(s.patterns[pid].expertVerifications)
  {
    var ps := GetPatternForParticularWebsite(s, websiteId);
    forall pid | pid in ps
      ensures ps[pid].isPatternExists == Some(AnyWithPattern(ps[pid].expertVerifications))
    {
      assert ConsensusConsistent(s.patterns[pid]);
    }
  }

  /** Publishing keeps every store invariant. */
  lemma PublishKeepsConsistent(s: Store, websiteId: Id, dto: PublishCertificationDto)
    requires Consistent(s)
    requires PublishCertificationDetailsOfWebsite(s, websiteId, dto).Ok?
    ensures Consistent(PublishCertificationDetailsOfWebsite(s, websiteId, dto).value.store)
  {
    var w' := PublishCertificationDetailsOfWebsite(s, websiteId, dto).value.store.websites[websiteId];
    ReplaceWebsiteKeepsConsistent(s, websiteId, w');
  }
}

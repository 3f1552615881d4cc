/** Creating a website and assigning its experts (`persistWebsiteDetails`,
    `assignExpertsToWebsite` of `website.service.ts`). */
module WebsiteRoster {
  import opened Results
  import opened UserSchema
  import opened WebsiteSchema
  import opened Collections
  import opened WebsiteValidation

  const SAVE_WEBSITE_FAILED := "Failed to save website details"

  /** `persistWebsiteDetails`: the owner must exist; the website is built
      from the whole request body and stored under a fresh id. Everything that
      goes wrong while saving becomes the same 500: a failing schema
      validation, and a carried `certificationId` that another website already
      holds (a duplicate key on the sparse unique index). */
  function PersistWebsiteDetails(s: Store, dto: WebsiteCreateDto, extra: UndeclaredFields, newId: Id, now: int)
    : (r: Result<Step<Id>>)
    requires newId !in s.websites
    ensures dto.userId !in s.users ==> r == Err(NotFound(USER_NOT_FOUND))
    ensures dto.userId in s.users && NewWebsite(dto, extra, now).None? ==> r == Err(InternalError(SAVE_WEBSITE_FAILED))
    ensures dto.userId in s.users && extra.certificationId.Some?
            && CertificationIdTaken(s.websites, extra.certificationId.value)
            ==> r == Err(InternalError(SAVE_WEBSITE_FAILED))
    ensures r.Ok? <==>
      && dto.userId in s.users && NewWebsite(dto, extra, now).Some?
      && !(extra.certificationId.Some? && CertificationIdTaken(s.websites, extra.certificationId.value))
    ensures r.Ok? ==>
      && r.value.out == newId
      && r.value.store == s.(websites := s.websites[newId := NewWebsite(dto, extra, now).value])
  {
    var _ :- CheckUserExists(s, dto.userId);
    match NewWebsite(dto, extra, now)
    case None => Err(InternalError(SAVE_WEBSITE_FAILED))
    case Some(w) =>
      if w.certificationId.Some? && CertificationIdTaken(s.websites, w.certificationId.value)
      then Err(InternalError(SAVE_WEBSITE_FAILED))
      else Ok(Step(s.(websites := s.websites[newId := w]), newId))
  }

  /** The stored website is the only thing that can break an invariant: the
      store stays consistent exactly when its votes are well formed and its
      completion flag agrees with its phase. A body of declared fields only
      always gives such a website. */
  lemma PersistKeepsConsistent(s: Store, dto: WebsiteCreateDto, extra: UndeclaredFields, newId: Id, now: int)
    requires Consistent(s)
    requires newId !in s.websites
    requires PersistWebsiteDetails(s, dto, extra, newId, now).Ok?
    ensures var w := NewWebsite(dto, extra, now).value;
      Consistent(PersistWebsiteDetails(s, dto, extra, newId, now).value.store)
      <==> VotesWellFormed(w) && PhaseMatchesCompletion(w)
    ensures extra == NO_UNDECLARED ==> Consistent(PersistWebsiteDetails(s, dto, extra, newId, now).value.store)
  {
    var w := NewWebsite(dto, extra, now).value;
    var ws := s.websites[newId := w];
    assert newId in ws && ws[newId] == w;
    if VotesWellFormed(w) && PhaseMatchesCompletion(w) {
      forall a, b | a in ws && b in ws && a != b && ws[a].certificationId.Some? && ws[b].certificationId.Some?
        ensures ws[a].certificationId != ws[b].certificationId
      {
        if a == newId {
          assert !CertificationIdTaken(s.websites, w.certificationId.value);
        } else if b == newId {
          assert !CertificationIdTaken(s.websites, w.certificationId.value);
        }
      }
    }
  }

  /** The body that marks itself completed without naming a phase is accepted
      and leaves a website that is completed yet still InProgress: the
      completion invariant no longer holds. */
  lemma OverpostedCompletionBreaksConsistency(s: Store, dto: WebsiteCreateDto, newId: Id, now: int)
    requires newId !in s.websites
    requires dto.userId in s.users && dto.userId != "" && dto.baseUrl != "" && dto.websiteName != ""
    ensures var extra := NO_UNDECLARED.(isCompleted := Some(true));
      && PersistWebsiteDetails(s, dto, extra, newId, now).Ok?
      && !Consistent(PersistWebsiteDetails(s, dto, extra, newId, now).value.store)
  {
    var extra := NO_UNDECLARED.(isCompleted := Some(true));
    var s' := PersistWebsiteDetails(s, dto, extra, newId, now).value.store;
    assert newId in s'.websites && !PhaseMatchesCompletion(s'.websites[newId]);
  }

  /** `assignExpertsToWebsite`. The website must exist, then every listed
      expert and the primary expert must exist as users (whatever their role);
      the roster and the primary expert are then overwritten, with no merge
      with the previous roster and no check that the primary expert is in it.
      The request DTO demands a non-empty list and a non-empty primary id. */
  function AssignExpertsToWebsite(s: Store, websiteId: Id, expertIds: seq<Id>, primaryExpertId: Id)
    : (r: Result<Step<string>>)
    requires |expertIds| > 0 && primaryExpertId != ""
    ensures websiteId !in s.websites ==> r == Err(NotFound(WEBSITE_NOT_FOUND))
    ensures r.Ok? <==>
      && websiteId in s.websites
      && (forall i :: 0 <= i < |expertIds| ==> expertIds[i] in s.users)
      && primaryExpertId in s.users
    ensures websiteId in s.websites && r.Err? ==> r.error == NotFound(USER_NOT_FOUND)
    ensures r.Ok? ==> r.value.store.websites.Keys == s.websites.Keys
    ensures r.Ok? ==>
      var w := s.websites[websiteId];
      var w' := r.value.store.websites[websiteId];
      && w'.expertIds == expertIds && w'.primaryExpertId == Some(primaryExpertId)
      && w' == w.(expertIds := w'.expertIds, primaryExpertId := w'.primaryExpertId)
    ensures r.Ok? ==>
      && (forall id :: id in s.websites && id != websiteId ==> r.value.store.websites[id] == s.websites[id])
      && r.value.store.users == s.users && r.value.store.patterns == s.patterns
      && r.value.store.comments == s.comments
  {
    var website :- CheckWebsiteExists(s, websiteId);
    var allExpertIds := expertIds + [primaryExpertId];
    assert (forall i :: 0 <= i < |allExpertIds| ==> allExpertIds[i] in s.users) <==>
           (forall i :: 0 <= i < |expertIds| ==> expertIds[i] in s.users) && primaryExpertId in s.users
    by {
      assert forall i :: 0 <= i < |expertIds| ==> allExpertIds[i] == expertIds[i];
      assert allExpertIds[|expertIds|] == primaryExpertId;
    }
    :- Need(forall i :: 0 <= i < |allExpertIds| ==> allExpertIds[i] in s.users, NotFound(USER_NOT_FOUND));
    var updated := website.(expertIds := expertIds, primaryExpertId := Some(primaryExpertId));
    Ok(Step(s.(websites := s.websites[websiteId := updated]),
            "Expert successfully assigned to website with id: " + websiteId))
  }

  /** Reassigning experts leaves existing patterns with the roster they were
      created with: the verifications of a pattern are a snapshot. */
  lemma AssignDoesNotTouchPatterns(s: Store, websiteId: Id, expertIds: seq<Id>, primaryExpertId: Id, pid: Id)
    requires |expertIds| > 0 && primaryExpertId != ""
    requires AssignExpertsToWebsite(s, websiteId, expertIds, primaryExpertId).Ok?
    requires pid in s.patterns
    ensures AssignExpertsToWebsite(s, websiteId, expertIds, primaryExpertId).value.store.patterns[pid]
            == s.patterns[pid]
  {
  }

  /** Assignment keeps every store invariant. */
  lemma AssignKeepsConsistent(s: Store, websiteId: Id, expertIds: seq<Id>, primaryExpertId: Id)
    requires Consistent(s)
    requires |expertIds| > 0 && primaryExpertId != ""
    requires AssignExpertsToWebsite(s, websiteId, expertIds, primaryExpertId).Ok?
    ensures Consistent(AssignExpertsToWebsite(s, websiteId, expertIds, primaryExpertId).value.store)
  {
    var w' := AssignExpertsToWebsite(s, websiteId, expertIds, primaryExpertId).value.store.websites[websiteId];
    ReplaceWebsiteKeepsConsistent(s, websiteId, w');
  }
}

/** The dashboard counts (`fetchKpiForClient`, `fetchKpiForExpert` of
    `website.service.ts`): numbers of websites and patterns in each state. */
module WebsiteKpi {
  import opened Results
  import opened UserSchema
  import opened WebsiteSchema
  import opened Collections
  import opened WebsiteValidation
  import opened WebsitePublish

  const CLIENT_ONLY := "Client is only allowed"
  const EXPERT_ONLY := "Expert is only allowed"

  datatype ClientKpi = ClientKpi(
    totalWebsites: nat,
    websitesInProgress: nat,
    websitesCertified: nat,
    websitesRejected: nat)

  datatype ExpertKpi = ExpertKpi(
    totalWebsitesAssigned: nat,
    totalInProgressWebsites: nat,
    totalPublishedWebsites: nat,
    totalPatternsCreated: nat)

  /** The websites a client owns (`find({ userId })`). */
  function OwnedWebsites(s: Store, clientId: Id): set<Id>
  {
    set id | id in s.websites && s.websites[id].userId == clientId
  }

  /** The websites whose roster lists an expert (`find({ expertIds: expertId })`). */
  function AssignedWebsites(s: Store, expertId: Id): set<Id>
  {
    set id | id in s.websites && expertId in s.websites[id].expertIds
  }

  /** The websites of `ids` in a review phase. */
  function InPhase(s: Store, ids: set<Id>, phase: WebsitePhaseType): set<Id>
    requires ids <= s.websites.Keys
  {
    set id | id in ids && s.websites[id].phase == phase
  }

  /** The published websites of `ids` with the given verdict. */
  function PublishedWithVerdict(s: Store, ids: set<Id>, darkPatternFree: bool): set<Id>
    requires ids <= s.websites.Keys
  {
    set id | id in ids && s.websites[id].phase == Published && s.websites[id].isDarkPatternFree == darkPatternFree
  }

  /** Splitting a set by a property and its negation partitions it. */
  lemma PartitionCount(all: set<Id>, yes: set<Id>, no: set<Id>)
    requires yes + no == all && yes * no == {}
    ensures |all| == |yes| + |no|
  {
  }

  /** `fetchKpiForClient`. The user must exist (404) and be a Client (500);
      every owned website is counted exactly once as in progress, certified or
      rejected. */
  function FetchKpiForClient(s: Store, clientId: Id): (r: Result<ClientKpi>)
    ensures clientId !in s.users ==> r == Err(NotFound(USER_NOT_FOUND))
    ensures clientId in s.users && s.users[clientId].role != Client ==> r == Err(InternalError(CLIENT_ONLY))
    ensures r.Ok? <==> clientId in s.users && s.users[clientId].role == Client
    ensures r.Ok? ==>
      var owned := OwnedWebsites(s, clientId);
      && r.value.totalWebsites == |owned|
      && r.value.websitesInProgress == |InPhase(s, owned, WebsitePhaseType.InProgress)|
      && r.value.websitesCertified == |PublishedWithVerdict(s, owned, true)|
      && r.value.websitesRejected == |PublishedWithVerdict(s, owned, false)|
    ensures r.Ok? ==>
      r.value.totalWebsites == r.value.websitesInProgress + r.value.websitesCertified + r.value.websitesRejected
  {
    var user :- CheckUserExists(s, clientId);
    if user.role != Client then Err(InternalError(CLIENT_ONLY))
    else
      var owned := OwnedWebsites(s, clientId);
      var inProgress := InPhase(s, owned, WebsitePhaseType.InProgress);
      var certified := PublishedWithVerdict(s, owned, true);
      var rejected := PublishedWithVerdict(s, owned, false);
      PartitionCount(InPhase(s, owned, Published), certified, rejected);
      PartitionCount(owned, inProgress, InPhase(s, owned, Published));
      Ok(ClientKpi(|owned|, |inProgress|, |certified|, |rejected|))
  }

  /** The patterns an expert created (`find({ createdByExpertId })`). */
  function CreatedPatterns(s: Store, expertId: Id): set<Id>
  {
    set pid | pid in s.patterns && s.patterns[pid].createdByExpertId == expertId
  }

  /** `fetchKpiForExpert`. The user must exist (404) and be an Expert (500);
      every assigned website is counted once as in progress or published, and
      the created patterns are counted whatever their website. */
  function FetchKpiForExpert(s: Store, expertId: Id): (r: Result<ExpertKpi>)
    ensures expertId !in s.users ==> r == Err(NotFound(USER_NOT_FOUND))
    ensures expertId in s.users && s.users[expertId].role != Expert ==> r == Err(InternalError(EXPERT_ONLY))
    ensures r.Ok? <==> expertId in s.users && s.users[expertId].role == Expert
    ensures r.Ok? ==>
      var onRoster := AssignedWebsites(s, expertId);
      && r.value.totalWebsitesAssigned == |onRoster|
      && r.value.totalInProgressWebsites == |InPhase(s, onRoster, WebsitePhaseType.InProgress)|
      && r.value.totalPublishedWebsites == |InPhase(s, onRoster, Published)|
      && r.value.totalPatternsCreated == |CreatedPatterns(s, expertId)|
    ensures r.Ok? ==>
      r.value.totalWebsitesAssigned == r.value.totalInProgressWebsites + r.value.totalPublishedWebsites
  {
    var user :- CheckUserExists(s, expertId);
    if user.role != Expert then Err(InternalError(EXPERT_ONLY))
    else
      var onRoster := AssignedWebsites(s, expertId);
      var inProgress := InPhase(s, onRoster, WebsitePhaseType.InProgress);
      var published := InPhase(s, onRoster, Published);
      PartitionCount(onRoster, inProgress, published);
      Ok(ExpertKpi(|onRoster|, |inProgress|, |published|, |CreatedPatterns(s, expertId)|))
  }

  /** Publishing one website of a client, as a change of the website map. */
  lemma PublishMovesOwnedSets(s: Store, websiteId: Id, w': Website, clientId: Id)
    requires websiteId in s.websites && s.websites[websiteId].userId == clientId
    requires s.websites[websiteId].phase == WebsitePhaseType.InProgress
    requires w'.phase == Published && w'.userId == clientId
    ensures var s' := s.(websites := s.websites[websiteId := w']);
      var owned := OwnedWebsites(s, clientId);
      && OwnedWebsites(s', clientId) == owned
      && websiteId in InPhase(s, owned, WebsitePhaseType.InProgress)
      && InPhase(s', owned, WebsitePhaseType.InProgress) == InPhase(s, owned, WebsitePhaseType.InProgress) - {websiteId}
      && websiteId !in PublishedWithVerdict(s, owned, w'.isDarkPatternFree)
      && PublishedWithVerdict(s', owned, w'.isDarkPatternFree)
         == PublishedWithVerdict(s, owned, w'.isDarkPatternFree) + {websiteId}
      && PublishedWithVerdict(s', owned, !w'.isDarkPatternFree) == PublishedWithVerdict(s, owned, !w'.isDarkPatternFree)
  {
  }

  /** Publishing moves the website on its client's dashboard: one fewer in
      progress, and one more certified or rejected as the expert decided. */
  lemma PublishMovesClientKpi(s: Store, websiteId: Id, dto: PublishCertificationDto)
    requires Consistent(s)
    requires PublishCertificationDetailsOfWebsite(s, websiteId, dto).Ok?
    requires FetchKpiForClient(s, s.websites[websiteId].userId).Ok?
    ensures var s' := PublishCertificationDetailsOfWebsite(s, websiteId, dto).value.store;
      var clientId := s.websites[websiteId].userId;
      var k := FetchKpiForClient(s, clientId).value;
      var k' := FetchKpiForClient(s', clientId).value;
      && k'.totalWebsites == k.totalWebsites
      && k'.websitesInProgress == k.websitesInProgress - 1
      && k'.websitesCertified == k.websitesCertified + (if dto.isCertified then 1 else 0)
      && k'.websitesRejected == k.websitesRejected + (if dto.isCertified then 0 else 1)
  {
    var s' := PublishCertificationDetailsOfWebsite(s, websiteId, dto).value.store;
    var w' := s'.websites[websiteId];
    var clientId := s.websites[websiteId].userId;
    PublishedVerdictMatchesRequest(s, websiteId, dto);
    assert PhaseMatchesCompletion(s.websites[websiteId]);
    assert s' == s.(websites := s.websites[websiteId := w']);
    PublishMovesOwnedSets(s, websiteId, w', clientId);
  }

  /** Publishing one website, as a change of the website map, seen from the
      roster of an expert: the website moves from in progress to published
      when the expert is on its roster, and nothing moves otherwise. */
  lemma PublishMovesRosterSets(s: Store, websiteId: Id, w': Website, expertId: Id)
    requires websiteId in s.websites
    requires s.websites[websiteId].phase == WebsitePhaseType.InProgress
    requires w'.phase == Published && w'.expertIds == s.websites[websiteId].expertIds
    ensures var s' := s.(websites := s.websites[websiteId := w']);
      var onRoster := AssignedWebsites(s, expertId);
      && AssignedWebsites(s', expertId) == onRoster
      && (expertId in w'.expertIds ==>
            && websiteId in InPhase(s, onRoster, WebsitePhaseType.InProgress)
            && InPhase(s', onRoster, WebsitePhaseType.InProgress)
               == InPhase(s, onRoster, WebsitePhaseType.InProgress) - {websiteId}
            && websiteId !in InPhase(s, onRoster, Published)
            && InPhase(s', onRoster, Published) == InPhase(s, onRoster, Published) + {websiteId})
      && (expertId !in w'.expertIds ==>
            && InPhase(s', onRoster, WebsitePhaseType.InProgress) == InPhase(s, onRoster, WebsitePhaseType.InProgress)
            && InPhase(s', onRoster, Published) == InPhase(s, onRoster, Published))
  {
  }

  /** Publishing moves the website on the dashboard of every expert on its
      roster: one fewer in progress, one more published; the dashboards of
      other experts and every count of created patterns stay as they were. */
  lemma PublishMovesExpertKpi(s: Store, websiteId: Id, dto: PublishCertificationDto, expertId: Id)
    requires Consistent(s)
    requires PublishCertificationDetailsOfWebsite(s, websiteId, dto).Ok?
    requires FetchKpiForExpert(s, expertId).Ok?
    ensures var s' := PublishCertificationDetailsOfWebsite(s, websiteId, dto).value.store;
      var k := FetchKpiForExpert(s, expertId).value;
      var k' := FetchKpiForExpert(s', expertId).value;
      && k'.totalWebsitesAssigned == k.totalWebsitesAssigned
      && k'.totalPatternsCreated == k.totalPatternsCreated
      && (expertId in s.websites[websiteId].expertIds ==>
            && k'.totalInProgressWebsites == k.totalInProgressWebsites - 1
            && k'.totalPublishedWebsites == k.totalPublishedWebsites + 1)
      && (expertId !in s.websites[websiteId].expertIds ==> k' == k)
  {
    var s' := PublishCertificationDetailsOfWebsite(s, websiteId, dto).value.store;
    var w' := s'.websites[websiteId];
    assert PhaseMatchesCompletion(s.websites[websiteId]);
    assert s' == s.(websites := s.websites[websiteId := w']);
    PublishMovesRosterSets(s, websiteId, w', expertId);
  }
}

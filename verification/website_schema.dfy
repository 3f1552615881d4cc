/** The documents of the website aggregate: Website (`website.schema.ts`),
    Pattern with its per-expert verifications, and Comment with its replies
    (`comment.schema.ts`). The Pattern schema and the enum files are not part
    of this model; the pattern defaults below are stated as assumptions. */
module WebsiteSchema {
  import opened Results

  /** WebsitePhaseType. */
  datatype WebsitePhaseType = InProgress | Published

  /** PatternPhaseType. */
  datatype PatternPhaseType = InProgress | Verified

  /** ExpertVerificationPhase. */
  datatype ExpertVerificationPhase = NotVerified | VerifiedWithPattern | VerifiedWithoutPattern

  /** One assigned expert's verdict on a pattern. */
  datatype ExpertVerification = ExpertVerification(expertId: Id, phase: ExpertVerificationPhase)

  /** A stored website. Unset optional fields are `None`; `isDarkPatternFree`
      unset is `false` (the service only ever tests it for truthiness). */
  datatype Website = Website(
    userId: Id,
    baseUrl: string,
    websiteName: string,
    additionalUrls: seq<string>,
    description: Option<string>,
    isCompleted: bool,
    phase: WebsitePhaseType,
    isDarkPatternFree: bool,
    expertFeedback: Option<string>,
    expertIds: seq<Id>,
    primaryExpertId: Option<Id>,
    createdAt: int,
    certificationId: Option<string>,
    upVotes: seq<string>,
    downVotes: seq<string>)

  /** A reply inside a comment. */
  datatype Reply = Reply(expertId: Id, content: string, createdAt: int)

  /** A stored comment. */
  datatype Comment = Comment(
    websiteId: Id,
    patternId: Id,
    expertId: Id,
    content: string,
    createdAt: int,
    replies: seq<Reply>)

  /** The copy of a comment pushed into its pattern's `comments` array. */
  datatype EmbeddedComment = EmbeddedComment(id: Id, comment: Comment)

  /** A stored pattern. `isPatternExists` is `None` until the consensus assigns it. */
  datatype Pattern = Pattern(
    websiteId: Id,
    patternType: string,
    description: string,
    detectedUrl: string,
    createdByExpertId: Id,
    isAutoGenerated: bool,
    patternImageKeys: seq<string>,
    expertVerifications: seq<ExpertVerification>,
    patternPhase: PatternPhaseType,
    isPatternExists: Option<bool>,
    comments: seq<EmbeddedComment>)

  /** The declared fields of the body of POST /website. */
  datatype WebsiteCreateDto = WebsiteCreateDto(
    userId: Id,
    baseUrl: string,
    websiteName: string,
    additionalUrls: seq<string>,
    description: Option<string>,
    primaryExpertId: Option<Id>,
    expertIds: seq<Id>)

  /** Website paths a request body may carry besides the declared ones. The
      global `ValidationPipe` is built without `whitelist`, so undeclared
      properties survive validation, and `new this.websiteModel(body)` takes
      over every one that names a schema path. `None` is a path the body
      leaves out. */
  datatype UndeclaredFields = UndeclaredFields(
    isCompleted: Option<bool>,
    phase: Option<WebsitePhaseType>,
    isDarkPatternFree: Option<bool>,
    expertFeedback: Option<string>,
    createdAt: Option<int>,
    certificationId: Option<string>,
    upVotes: Option<seq<string>>,
    downVotes: Option<seq<string>>)

  /** A body holding only the declared fields. */
  const NO_UNDECLARED := UndeclaredFields(None, None, None, None, None, None, None, None)

  /** The value a body carries for a path, or the schema default. */
  function OrDefault<T>(carried: Option<T>, fallback: T): T
  {
    if carried.Some? then carried.value else fallback
  }

  /** `new this.websiteModel(body)` followed by schema validation: the three
      required fields must be non-empty; the declared fields are copied; every
      other path takes the body's value when the body carries one and its
      schema default otherwise. So a body of declared fields only gives a
      website that is not completed, InProgress, created now, with no
      certification id, no feedback and no votes. */
  function NewWebsite(dto: WebsiteCreateDto, extra: UndeclaredFields, now: int): (r: Option<Website>)
    ensures r.Some? <==> dto.userId != "" && dto.baseUrl != "" && dto.websiteName != ""
    ensures r.Some? ==>
      var w := r.value;
      && w.userId == dto.userId && w.baseUrl == dto.baseUrl && w.websiteName == dto.websiteName
      && w.additionalUrls == dto.additionalUrls && w.description == dto.description
      && w.expertIds == dto.expertIds && w.primaryExpertId == dto.primaryExpertId
    ensures r.Some? ==>
      var w := r.value;
      && (extra.isCompleted.Some? ==> w.isCompleted == extra.isCompleted.value)
      && (extra.phase.Some? ==> w.phase == extra.phase.value)
      && (extra.isDarkPatternFree.Some? ==> w.isDarkPatternFree == extra.isDarkPatternFree.value)
      && (extra.createdAt.Some? ==> w.createdAt == extra.createdAt.value)
      && (extra.upVotes.Some? ==> w.upVotes == extra.upVotes.value)
      && (extra.downVotes.Some? ==> w.downVotes == extra.downVotes.value)
      && w.expertFeedback == extra.expertFeedback
      && w.certificationId == extra.certificationId
    ensures r.Some? ==>
      var w := r.value;
      && (extra.isCompleted.None? ==> !w.isCompleted)
      && (extra.phase.None? ==> w.phase == WebsitePhaseType.InProgress)
      && (extra.isDarkPatternFree.None? ==> !w.isDarkPatternFree)
      && (extra.createdAt.None? ==> w.createdAt == now)
      && (extra.upVotes.None? ==> w.upVotes == [])
      && (extra.downVotes.None? ==> w.downVotes == [])
  {
    if dto.userId == "" || dto.baseUrl == "" || dto.websiteName == "" then None
    else Some(Website(dto.userId, dto.baseUrl, dto.websiteName, dto.additionalUrls, dto.description,
                      OrDefault(extra.isCompleted, false),
                      OrDefault(extra.phase, WebsitePhaseType.InProgress),
                      OrDefault(extra.isDarkPatternFree, false),
                      extra.expertFeedback, dto.expertIds, dto.primaryExpertId,
                      OrDefault(extra.createdAt, now), extra.certificationId,
                      OrDefault(extra.upVotes, []), OrDefault(extra.downVotes, [])))
  }

  /** A body of declared fields only creates a website in its initial state:
      not completed, InProgress, not yet judged, created now, with no
      certification id, no feedback and no votes. */
  lemma DeclaredBodyStartsUnreviewed(dto: WebsiteCreateDto, now: int)
    requires NewWebsite(dto, NO_UNDECLARED, now).Some?
    ensures var w := NewWebsite(dto, NO_UNDECLARED, now).value;
      && !w.isCompleted && w.phase == WebsitePhaseType.InProgress && !w.isDarkPatternFree
      && w.certificationId.None? && w.expertFeedback.None?
      && w.upVotes == [] && w.downVotes == [] && w.createdAt == now
  {
  }

  /** A certification id is held when it is set and non-empty (`if (website.certificationId)`). */
  predicate HasCertificationId(w: Website)
  {
    w.certificationId.Some? && w.certificationId.value != ""
  }

  /** The sparse unique index on `certificationId`: websites that have one all
      have different ones, and any number of websites may have none. */
  predicate CertificationIdsUnique(websites: map<Id, Website>)
  {
    forall a, b ::
      a in websites && b in websites && a != b
      && websites[a].certificationId.Some? && websites[b].certificationId.Some?
      ==> websites[a].certificationId != websites[b].certificationId
  }

  /** Websites without certification ids never violate the sparse index. */
  lemma UncertifiedWebsitesAreUnique(websites: map<Id, Website>)
    requires forall id :: id in websites ==> websites[id].certificationId.None?
    ensures CertificationIdsUnique(websites)
  {
  }

  /** Some website already holds `code` (`websiteModel.findOne({ certificationId })`). */
  predicate CertificationIdTaken(websites: map<Id, Website>, code: string)
  {
    exists id :: id in websites && websites[id].certificationId == Some(code)
  }

  /** No verification is still NotVerified. */
  predicate NoneNotVerified(vs: seq<ExpertVerification>)
  {
    forall i :: 0 <= i < |vs| ==> vs[i].phase != NotVerified
  }

  /** Some expert found the pattern. */
  predicate AnyWithPattern(vs: seq<ExpertVerification>)
  {
    exists i :: 0 <= i < |vs| && vs[i].phase == VerifiedWithPattern
  }

  /** The consensus invariant of a pattern: it is Verified exactly when it has
      verifications and none is still NotVerified; `isPatternExists` is set
      exactly when it is Verified, and then says whether some expert found the
      pattern. */
  predicate ConsensusConsistent(p: Pattern)
  {
    && (p.patternPhase == Verified <==> |p.expertVerifications| > 0 && NoneNotVerified(p.expertVerifications))
    && (p.isPatternExists.Some? <==> p.patternPhase == Verified)
    && (p.patternPhase == Verified ==> p.isPatternExists == Some(AnyWithPattern(p.expertVerifications)))
  }
}

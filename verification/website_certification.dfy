/** Issuing a certificate id to a completed, dark-pattern-free website
    (`generateCertification` of `website.service.ts`). The service draws ids
    until one is held by no website; here the successive attempts are given
    as a sequence of twelve-draw sequences. */
module WebsiteCertification {
  import opened Results
  import opened WebsiteSchema
  import opened Collections
  import opened WebsiteValidation
  import opened WebsiteUtil
  import opened WebsiteRoster

  const IN_PROGRESS_CANNOT_CERTIFY := "Dark pattern check in progress website cannot be certified"
  const ONLY_DARK_PATTERN_FREE := "Only dark pattern-free websites can be certified."
  const ALREADY_CERTIFIED := "The website is already certified and cannot be certified again."

  /** The outcome of a bounded run of the retry loop: finished with a result,
      or every given attempt collided (the service would keep drawing). */
  datatype Attempt<+T> = Finished(result: Result<T>) | OutOfDraws

  /** The index of the first attempt whose id no website holds, if any. */
  function FirstFreeAttempt(websites: map<Id, Website>, attempts: seq<seq<Draw>>): (k: Option<nat>)
    ensures k.Some? <==> exists i :: 0 <= i < |attempts| && !CertificationIdTaken(websites, CodeOf(attempts[i]))
    ensures k.Some? ==> k.value < |attempts| && !CertificationIdTaken(websites, CodeOf(attempts[k.value]))
    ensures k.Some? ==> forall i :: 0 <= i < k.value ==> CertificationIdTaken(websites, CodeOf(attempts[i]))
  {
    if attempts == [] then None
    else if !CertificationIdTaken(websites, CodeOf(attempts[0])) then Some(0)
    else match FirstFreeAttempt(websites, attempts[1..])
      case None => None
      case Some(k) => Some(k + 1)
  }

  /** The gates of `generateCertification`, in the order the source tests them. */
  function CertificationGate(w: Website): (c: Check)
    ensures c.Pass? <==> w.isCompleted && w.isDarkPatternFree && !HasCertificationId(w)
    ensures !w.isCompleted ==> c == Fail(BadRequest(IN_PROGRESS_CANNOT_CERTIFY))
    ensures w.isCompleted && !w.isDarkPatternFree ==> c == Fail(BadRequest(ONLY_DARK_PATTERN_FREE))
    ensures w.isCompleted && w.isDarkPatternFree && HasCertificationId(w) ==> c == Fail(BadRequest(ALREADY_CERTIFIED))
  {
    if !w.isCompleted then Fail(BadRequest(IN_PROGRESS_CANNOT_CERTIFY))
    else if !w.isDarkPatternFree then Fail(BadRequest(ONLY_DARK_PATTERN_FREE))
    else if HasCertificationId(w) then Fail(BadRequest(ALREADY_CERTIFIED))
    else Pass
  }

  /** `generateCertification`. The website must exist (404), be completed
      (`isCompleted`, whatever its phase), be dark-pattern free and hold no
      certificate id yet (400). It then gets the id of the first attempt that
      no website holds, and responds with that id; nothing else changes. */
  function GenerateCertification(s: Store, websiteId: Id, attempts: seq<seq<Draw>>): (r: Attempt<Step<string>>)
    requires forall i :: 0 <= i < |attempts| ==> |attempts[i]| == CERTIFICATION_ID_LENGTH
    ensures websiteId !in s.websites ==> r == Finished(Err(NotFound(WEBSITE_NOT_FOUND)))
    ensures websiteId in s.websites && CertificationGate(s.websites[websiteId]).Fail?
            ==> r == Finished(Err(CertificationGate(s.websites[websiteId]).error))
    ensures r.OutOfDraws? <==>
      && websiteId in s.websites && CertificationGate(s.websites[websiteId]).Pass?
      && forall i :: 0 <= i < |attempts| ==> CertificationIdTaken(s.websites, CodeOf(attempts[i]))
    ensures r.Finished? && r.result.Ok? <==>
      && websiteId in s.websites && CertificationGate(s.websites[websiteId]).Pass?
      && exists i :: 0 <= i < |attempts| && !CertificationIdTaken(s.websites, CodeOf(attempts[i]))
    ensures r.Finished? && r.result.Ok? ==>
      var code := r.result.value.out;
      && IsCertificationId(code)
      && !CertificationIdTaken(s.websites, code)
      && (exists i :: 0 <= i < |attempts| && code == CodeOf(attempts[i])
            && forall j :: 0 <= j < i ==> CertificationIdTaken(s.websites, CodeOf(attempts[j])))
      && r.result.value.store.websites == s.websites[websiteId := s.websites[websiteId].(certificationId := Some(code))]
      && r.result.value.store == s.(websites := r.result.value.store.websites)
  {
    match CheckWebsiteExists(s, websiteId)
    case Err(e) => Finished(Err(e))
    case Ok(website) =>
      match CertificationGate(website)
      case Fail(e) => Finished(Err(e))
      case Pass =>
        match FirstFreeAttempt(s.websites, attempts)
        case None => OutOfDraws
        case Some(k) =>
          var code := CodeOf(attempts[k]);
          Finished(Ok(Step(s.(websites := s.websites[websiteId := website.(certificationId := Some(code))]), code)))
  }

  /** Issuing a certificate keeps every store invariant, in particular the
      sparse unique index on certificate ids. */
  lemma GenerateKeepsConsistent(s: Store, websiteId: Id, attempts: seq<seq<Draw>>)
    requires Consistent(s)
    requires forall i :: 0 <= i < |attempts| ==> |attempts[i]| == CERTIFICATION_ID_LENGTH
    requires GenerateCertification(s, websiteId, attempts).Finished?
    requires GenerateCertification(s, websiteId, attempts).result.Ok?
    ensures Consistent(GenerateCertification(s, websiteId, attempts).result.value.store)
  {
    var step := GenerateCertification(s, websiteId, attempts).result.value;
    var code := step.out;
    var ws := step.store.websites;
    forall a, b | a in ws && b in ws && a != b && ws[a].certificationId.Some? && ws[b].certificationId.Some?
      ensures ws[a].certificationId != ws[b].certificationId
    {
      if a == websiteId {
        assert ws[b] == s.websites[b];
      } else if b == websiteId {
        assert ws[a] == s.websites[a];
      }
    }
    assert forall id :: id in ws ==> VotesWellFormed(ws[id]) by {
      forall id | id in ws
        ensures VotesWellFormed(ws[id])
      {
        assert ws[id].upVotes == s.websites[id].upVotes && ws[id].downVotes == s.websites[id].downVotes;
      }
    }
  }

  /** A certificate is issued once: a repeated request for the same website is refused. */
  lemma RepeatCertificationFails(s: Store, websiteId: Id, attempts: seq<seq<Draw>>, later: seq<seq<Draw>>)
    requires forall i :: 0 <= i < |attempts| ==> |attempts[i]| == CERTIFICATION_ID_LENGTH
    requires forall i :: 0 <= i < |later| ==> |later[i]| == CERTIFICATION_ID_LENGTH
    requires GenerateCertification(s, websiteId, attempts).Finished?
    requires GenerateCertification(s, websiteId, attempts).result.Ok?
    ensures var s' := GenerateCertification(s, websiteId, attempts).result.value.store;
      GenerateCertification(s', websiteId, later) == Finished(Err(BadRequest(ALREADY_CERTIFIED)))
  {
  }

  /** A client whose creation body already says completed, Published and
      dark-pattern free gets a website that is consistent with every store
      invariant and can be certified at once, with no pattern ever recorded
      and no expert ever asked. */
  lemma OverpostedWebsiteSkipsReview(s: Store, dto: WebsiteCreateDto, newId: Id, now: int, attempts: seq<seq<Draw>>)
    requires Consistent(s)
    requires newId !in s.websites
    requires dto.userId in s.users && dto.userId != "" && dto.baseUrl != "" && dto.websiteName != ""
    requires forall i :: 0 <= i < |attempts| ==> |attempts[i]| == CERTIFICATION_ID_LENGTH
    requires exists i :: 0 <= i < |attempts| && !CertificationIdTaken(s.websites, CodeOf(attempts[i]))
    ensures var extra := NO_UNDECLARED.(isCompleted := Some(true), phase := Some(Published),
                                        isDarkPatternFree := Some(true));
      && PersistWebsiteDetails(s, dto, extra, newId, now).Ok?
      && var s' := PersistWebsiteDetails(s, dto, extra, newId, now).value.store;
      && Consistent(s')
      && GenerateCertification(s', newId, attempts).Finished?
      && GenerateCertification(s', newId, attempts).result.Ok?
  {
    var extra := NO_UNDECLARED.(isCompleted := Some(true), phase := Some(Published), isDarkPatternFree := Some(true));
    var s' := PersistWebsiteDetails(s, dto, extra, newId, now).value.store;
    PersistKeepsConsistent(s, dto, extra, newId, now);
    var i :| 0 <= i < |attempts| && !CertificationIdTaken(s.websites, CodeOf(attempts[i]));
    assert s'.websites[newId].certificationId.None?;
    assert !CertificationIdTaken(s'.websites, CodeOf(attempts[i]));
  }
}

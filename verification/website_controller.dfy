/** The routes of `website.controller.ts` and the roles each one admits. */
module WebsiteController {
  import opened Results
  import opened UserSchema
  import opened Routes

  /** One handler of the `website` controller, named by verb and path. */
  datatype WebsiteRoute =
    | PostWebsite                 // POST   /website
    | PutAssignExperts            // PUT    /website/:websiteId/assignExperts
    | GetWebsite                  // GET    /website/:websiteId
    | GetWebsites                 // GET    /website?userId=
    | GetClientsByUserType        // GET    /website/:userType/details
    | PutPattern                  // PUT    /website/:websiteId/pattern
    | PutUploadImages             // PUT    /website/:patternId/uploadImages
    | GetCertificationImage       // GET    /website/:imageId/certificationImageFetch
    | PutAutomatedPatterns        // PUT    /website/:websiteId/automatedPatterns
    | GetPatterns                 // GET    /website/:websiteId/pattern
    | PutUpdatePatternPhase       // PUT    /website/updatePatternPhase
    | PostComment                 // POST   /website/:websiteId/pattern/:patternId/comment
    | PostReply                   // POST   /website/:websiteId/pattern/:patternId/comment/:commentId/reply
    | GetPattern                  // GET    /website/:websiteId/pattern/:patternId
    | PutPublish                  // PUT    /website/:websiteId/publish
    | GetClientKpi                // GET    /website/clientKpi/:clientId
    | GetExpertKpi                // GET    /website/expertKpi/:expertId
    | GetGenerateCertification    // GET    /website/:websiteId/generateCertification

  /** The `@UseGuards` / `@Roles` decorators of each handler. */
  function WebsiteRouteAccess(route: WebsiteRoute): Access
  {
    match route
    case PostWebsite => Guarded([Expert])
    case PutAssignExperts => Guarded([SuperAdmin])
    case GetWebsite => Guarded([Client, Expert, SuperAdmin])
    case GetWebsites => Guarded([Client, Expert])
    case GetClientsByUserType => Guarded([SuperAdmin])
    case PutPattern => Guarded([Expert])
    case PutUploadImages => Guarded([Expert])
    case GetCertificationImage => Public
    case PutAutomatedPatterns => Guarded([SuperAdmin])
    case GetPatterns => Guarded([Client, Expert])
    case PutUpdatePatternPhase => Guarded([Expert])
    case PostComment => Guarded([Expert])
    case PostReply => Guarded([Expert])
    case GetPattern => Guarded([Expert])
    case PutPublish => Guarded([Expert])
    case GetClientKpi => Guarded([Client])
    case GetExpertKpi => Guarded([Expert])
    case GetGenerateCertification => Guarded([Client])
  }

  /** The certification image is the one route reachable without a token. */
  lemma OnlyCertificationImageIsPublic(route: WebsiteRoute, authorization: Option<string>,
                                       verify: string -> Result<Claims>)
    ensures WebsiteRouteAccess(route).Public? <==> route == GetCertificationImage
    ensures route == GetCertificationImage ==> Authorize(WebsiteRouteAccess(route), authorization, verify) == Ok(None)
  {
  }

  /** Creating a website, adding patterns, uploading images, voting on a
      pattern's phase, commenting, replying, reading one pattern, publishing
      and the expert dashboard admit an Expert token and nothing else; in
      particular creating a website is refused to a Client. */
  lemma ExpertOnlyRoutes(route: WebsiteRoute, authorization: Option<string>, verify: string -> Result<Claims>)
    requires route in {PostWebsite, PutPattern, PutUploadImages, PutUpdatePatternPhase, PostComment,
                       PostReply, GetPattern, PutPublish, GetExpertKpi}
    ensures Authorize(WebsiteRouteAccess(route), authorization, verify).Ok?
            <==> VerifiedAs(authorization, verify, Expert)
  {
    AdmitsOnly(WebsiteRouteAccess(route), authorization, verify, Expert);
  }

  /** Assigning experts, submitting automated patterns and listing clients
      with their websites admit a SuperAdmin token and nothing else. */
  lemma SuperAdminOnlyRoutes(route: WebsiteRoute, authorization: Option<string>, verify: string -> Result<Claims>)
    requires route in {PutAssignExperts, PutAutomatedPatterns, GetClientsByUserType}
    ensures Authorize(WebsiteRouteAccess(route), authorization, verify).Ok?
            <==> VerifiedAs(authorization, verify, SuperAdmin)
  {
    AdmitsOnly(WebsiteRouteAccess(route), authorization, verify, SuperAdmin);
  }

  /** Issuing a certificate and the client dashboard admit a Client token and nothing else. */
  lemma ClientOnlyRoutes(route: WebsiteRoute, authorization: Option<string>, verify: string -> Result<Claims>)
    requires route in {GetGenerateCertification, GetClientKpi}
    ensures Authorize(WebsiteRouteAccess(route), authorization, verify).Ok?
            <==> VerifiedAs(authorization, verify, Client)
  {
    AdmitsOnly(WebsiteRouteAccess(route), authorization, verify, Client);
  }

  /** Reading one website admits every role; listing websites and listing a
      website's patterns admit every role but SuperAdmin. */
  lemma SharedRoutes(route: WebsiteRoute, authorization: Option<string>, verify: string -> Result<Claims>)
    requires route in {GetWebsite, GetWebsites, GetPatterns}
    ensures Authorize(WebsiteRouteAccess(route), authorization, verify).Ok?
            <==> VerifiedAs(authorization, verify, Client) || VerifiedAs(authorization, verify, Expert)
                 || (route == GetWebsite && VerifiedAs(authorization, verify, SuperAdmin))
  {
  }

  /** A roster of one role admits exactly the tokens of that role. */
  lemma AdmitsOnly(access: Access, authorization: Option<string>, verify: string -> Result<Claims>, role: Role)
    requires access == Guarded([role])
    ensures Authorize(access, authorization, verify).Ok? <==> VerifiedAs(authorization, verify, role)
  {
  }
}

/** The existence checks of `website.validation.ts`: lookups by id that throw
    404 when the document is missing. */
module WebsiteValidation {
  import opened Results
  import opened UserSchema
  import opened WebsiteSchema
  import opened Collections

  const USER_NOT_FOUND := "User not found"
  const WEBSITE_NOT_FOUND := "Website not found"
  const PATTERN_NOT_FOUND := "Pattern not found"
  const COMMENT_NOT_FOUND := "Comment not found"

  /** `checkUserExists`: the stored user, or 404 'User not found'. */
  function CheckUserExists(s: Store, userId: Id): (r: Result<User>)
    ensures r.Ok? <==> userId in s.users
    ensures r.Ok? ==> r.value == s.users[userId]
    ensures r.Err? ==> r.error == NotFound(USER_NOT_FOUND)
  {
    if userId in s.users then Ok(s.users[userId]) else Err(NotFound(USER_NOT_FOUND))
  }

  /** `checkWebsiteExists`: the stored website, or 404 'Website not found'. */
  function CheckWebsiteExists(s: Store, websiteId: Id): (r: Result<Website>)
    ensures r.Ok? <==> websiteId in s.websites
    ensures r.Ok? ==> r.value == s.websites[websiteId]
    ensures r.Err? ==> r.error == NotFound(WEBSITE_NOT_FOUND)
  {
    if websiteId in s.websites then Ok(s.websites[websiteId]) else Err(NotFound(WEBSITE_NOT_FOUND))
  }

  /** `checkPatternExists`: the stored pattern, or 404 'Pattern not found'. */
  function CheckPatternExists(s: Store, patternId: Id): (r: Result<Pattern>)
    ensures r.Ok? <==> patternId in s.patterns
    ensures r.Ok? ==> r.value == s.patterns[patternId]
    ensures r.Err? ==> r.error == NotFound(PATTERN_NOT_FOUND)
  {
    if patternId in s.patterns then Ok(s.patterns[patternId]) else Err(NotFound(PATTERN_NOT_FOUND))
  }

  /** `checkCommentExists`: returns nothing, or throws 404 'Comment not found'. */
  function CheckCommentExists(s: Store, commentId: Id): (r: Check)
    ensures r.Pass? <==> commentId in s.comments
    ensures r.Fail? ==> r.error == NotFound(COMMENT_NOT_FOUND)
  {
    if commentId in s.comments then Pass else Fail(NotFound(COMMENT_NOT_FOUND))
  }

  /** `getPatternForParticularWebsite` (`find({ websiteId })`): exactly the
      stored patterns of this website, unchanged. */
  function GetPatternForParticularWebsite(s: Store, websiteId: Id): (ps: map<Id, Pattern>)
    ensures forall pid :: pid in ps <==> pid in s.patterns && s.patterns[pid].websiteId == websiteId
    ensures forall pid :: pid in ps ==> ps[pid] == s.patterns[pid]
  {
    map pid | pid in s.patterns && s.patterns[pid].websiteId == websiteId :: s.patterns[pid]
  }
}

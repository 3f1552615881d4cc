/** Expert discussion on a pattern (`addCommentToPattern`,
    `addReplyToComment` of `website.service.ts`). A comment is stored in the
    comment collection AND pushed as a copy into its pattern's `comments`
    array; the two writes are independent map updates. */
module PatternComments {
  import opened Results
  import opened WebsiteSchema
  import opened Collections
  import opened WebsiteValidation

  const ADD_COMMENT_FAILED := "Failed to add comment"
  const REPLY_ADDED := "Reply successfully added"

  /** The body of POST comment. */
  datatype CommentCreateDto = CommentCreateDto(expertId: Id, content: string)

  /** The body of POST reply. */
  datatype ReplyCreateDto = ReplyCreateDto(expertId: Id, content: string)

  /** Every embedded copy sits in the pattern its comment belongs to and
      equals the stored comment. */
  predicate CommentsInSync(s: Store)
  {
    forall pid, i :: pid in s.patterns && 0 <= i < |s.patterns[pid].comments| ==>
      var e := s.patterns[pid].comments[i];
      e.id in s.comments && s.comments[e.id] == e.comment && e.comment.patternId == pid
  }

  /** `addCommentToPattern`. The commenting expert, the website and the
      pattern must exist (404); the website and the pattern are not checked to
      belong together. The comment must pass its schema (all four required
      fields non-empty), else 500; it is then stored under a fresh id and the
      same document is appended to the pattern's comments. */
  function AddCommentToPattern(s: Store, websiteId: Id, patternId: Id, dto: CommentCreateDto, newId: Id, now: int)
    : (r: Result<Step<Id>>)
    requires newId !in s.comments
    ensures dto.expertId !in s.users ==> r == Err(NotFound(USER_NOT_FOUND))
    ensures dto.expertId in s.users && websiteId !in s.websites ==> r == Err(NotFound(WEBSITE_NOT_FOUND))
    ensures dto.expertId in s.users && websiteId in s.websites && patternId !in s.patterns
            ==> r == Err(NotFound(PATTERN_NOT_FOUND))
    ensures r.Ok? <==>
      && dto.expertId in s.users && websiteId in s.websites && patternId in s.patterns
      && websiteId != "" && patternId != "" && dto.expertId != "" && dto.content != ""
    ensures r.Err? && dto.expertId in s.users && websiteId in s.websites && patternId in s.patterns
            ==> r.error == InternalError(ADD_COMMENT_FAILED)
    ensures r.Ok? ==>
      var c := Comment(websiteId, patternId, dto.expertId, dto.content, now, []);
      && r.value.out == newId
      && r.value.store.comments == s.comments[newId := c]
      && r.value.store.patterns == s.patterns[patternId := s.patterns[patternId].(
           comments := s.patterns[patternId].comments + [EmbeddedComment(newId, c)])]
      && r.value.store.users == s.users && r.value.store.websites == s.websites
  {
    var _ :- CheckUserExists(s, dto.expertId);
    var _ :- CheckWebsiteExists(s, websiteId);
    var pattern :- CheckPatternExists(s, patternId);
    :- Need(websiteId != "" && patternId != "" && dto.expertId != "" && dto.content != "",
            InternalError(ADD_COMMENT_FAILED));
    var c := Comment(websiteId, patternId, dto.expertId, dto.content, now, []);
    Ok(Step(s.(comments := s.comments[newId := c],
               patterns := s.patterns[patternId := pattern.(comments := pattern.comments + [EmbeddedComment(newId, c)])]),
            newId))
  }

  /** Adding a comment keeps every embedded copy in sync. */
  lemma AddCommentKeepsSync(s: Store, websiteId: Id, patternId: Id, dto: CommentCreateDto, newId: Id, now: int)
    requires CommentsInSync(s)
    requires newId !in s.comments
    requires AddCommentToPattern(s, websiteId, patternId, dto, newId, now).Ok?
    ensures CommentsInSync(AddCommentToPattern(s, websiteId, patternId, dto, newId, now).value.store)
  {
    var s' := AddCommentToPattern(s, websiteId, patternId, dto, newId, now).value.store;
    forall pid, i | pid in s'.patterns && 0 <= i < |s'.patterns[pid].comments|
      ensures var e := s'.patterns[pid].comments[i];
        e.id in s'.comments && s'.comments[e.id] == e.comment && e.comment.patternId == pid
    {
      if pid == patternId && i < |s.patterns[pid].comments| {
        assert s'.patterns[pid].comments[i] == s.patterns[pid].comments[i];
      }
    }
  }

  /** The embedded copies after a reply: every copy of `commentId` inside
      the given pattern becomes `updated` (`$set 'comments.$[elem]'` with the
      filter `elem._id == commentId`); every other entry stays. */
  function SyncCopies(copies: seq<EmbeddedComment>, commentId: Id, updated: Comment): (r: seq<EmbeddedComment>)
    ensures |r| == |copies|
    ensures forall i :: 0 <= i < |copies| ==>
      r[i] == (if copies[i].id == commentId then EmbeddedComment(commentId, updated) else copies[i])
  {
    seq(|copies|, i requires 0 <= i < |copies| =>
      if copies[i].id == commentId then EmbeddedComment(commentId, updated) else copies[i])
  }

  /** `addReplyToComment`. The replying expert, the website, the pattern and
      the comment must exist (404); the reply is appended to the stored
      comment, and the copies of that comment inside the GIVEN pattern are
      replaced by the updated comment. Nothing checks that the comment belongs
      to that pattern. The request DTO demands a non-empty expert id and
      content. */
  function AddReplyToComment(s: Store, websiteId: Id, patternId: Id, commentId: Id, dto: ReplyCreateDto, now: int)
    : (r: Result<Step<string>>)
    requires dto.expertId != "" && dto.content != ""
    ensures dto.expertId !in s.users ==> r == Err(NotFound(USER_NOT_FOUND))
    ensures dto.expertId in s.users && websiteId !in s.websites ==> r == Err(NotFound(WEBSITE_NOT_FOUND))
    ensures dto.expertId in s.users && websiteId in s.websites && patternId !in s.patterns
            ==> r == Err(NotFound(PATTERN_NOT_FOUND))
    ensures dto.expertId in s.users && websiteId in s.websites && patternId in s.patterns && commentId !in s.comments
            ==> r == Err(NotFound(COMMENT_NOT_FOUND))
    ensures r.Ok? <==>
      dto.expertId in s.users && websiteId in s.websites && patternId in s.patterns && commentId in s.comments
    ensures r.Ok? ==>
      var c := s.comments[commentId];
      var c' := c.(replies := c.replies + [Reply(dto.expertId, dto.content, now)]);
      && r.value.store.comments == s.comments[commentId := c']
      && r.value.store.patterns.Keys == s.patterns.Keys
      && r.value.store.patterns[patternId]
         == s.patterns[patternId].(comments := SyncCopies(s.patterns[patternId].comments, commentId, c'))
      && (forall pid :: pid in s.patterns && pid != patternId ==> r.value.store.patterns[pid] == s.patterns[pid])
      && r.value.store.users == s.users && r.value.store.websites == s.websites
      && r.value.out == REPLY_ADDED
  {
    var _ :- CheckUserExists(s, dto.expertId);
    var _ :- CheckWebsiteExists(s, websiteId);
    var pattern :- CheckPatternExists(s, patternId);
    :- CheckCommentExists(s, commentId);
    var c := s.comments[commentId];
    var c' := c.(replies := c.replies + [Reply(dto.expertId, dto.content, now)]);
    var pattern' := pattern.(comments := SyncCopies(pattern.comments, commentId, c'));
    Ok(Step(s.(comments := s.comments[commentId := c'], patterns := s.patterns[patternId := pattern']), REPLY_ADDED))
  }

  /** Commenting touches neither users, websites nor any pattern's
      verifications, so every store invariant survives it. */
  lemma AddCommentKeepsConsistent(s: Store, websiteId: Id, patternId: Id, dto: CommentCreateDto, newId: Id, now: int)
    requires Consistent(s)
    requires newId !in s.comments
    requires AddCommentToPattern(s, websiteId, patternId, dto, newId, now).Ok?
    ensures Consistent(AddCommentToPattern(s, websiteId, patternId, dto, newId, now).value.store)
  {
    var s' := AddCommentToPattern(s, websiteId, patternId, dto, newId, now).value.store;
    assert forall pid :: pid in s'.patterns ==>
      s'.patterns[pid] == s.patterns[pid].(comments := s'.patterns[pid].comments);
  }

  /** A reply sent with the comment's own pattern keeps every embedded copy in sync. */
  lemma ReplyKeepsSync(s: Store, websiteId: Id, patternId: Id, commentId: Id, dto: ReplyCreateDto, now: int)
    requires CommentsInSync(s)
    requires dto.expertId != "" && dto.content != ""
    requires AddReplyToComment(s, websiteId, patternId, commentId, dto, now).Ok?
    requires s.comments[commentId].patternId == patternId
    ensures CommentsInSync(AddReplyToComment(s, websiteId, patternId, commentId, dto, now).value.store)
  {
    var s' := AddReplyToComment(s, websiteId, patternId, commentId, dto, now).value.store;
    forall pid, i | pid in s'.patterns && 0 <= i < |s'.patterns[pid].comments|
      ensures var e := s'.patterns[pid].comments[i];
        e.id in s'.comments && s'.comments[e.id] == e.comment && e.comment.patternId == pid
    {
      var e := s.patterns[pid].comments[i];
      if e.id == commentId {
        assert pid == patternId;
      }
    }
  }

  /** A reply sent with another pattern than the comment's own leaves the
      copy in the comment's own pattern stale: it misses the new reply. */
  lemma ReplyViaOtherPatternLeavesStaleCopy(s: Store, websiteId: Id, patternId: Id, commentId: Id,
                                            dto: ReplyCreateDto, now: int, i: nat)
    requires CommentsInSync(s)
    requires dto.expertId != "" && dto.content != ""
    requires AddReplyToComment(s, websiteId, patternId, commentId, dto, now).Ok?
    requires s.comments[commentId].patternId != patternId
    requires s.comments[commentId].patternId in s.patterns
    requires i < |s.patterns[s.comments[commentId].patternId].comments|
    requires s.patterns[s.comments[commentId].patternId].comments[i].id == commentId
    ensures var s' := AddReplyToComment(s, websiteId, patternId, commentId, dto, now).value.store;
      var home := s.comments[commentId].patternId;
      s'.patterns[home].comments[i].comment != s'.comments[commentId]
  {
    var s' := AddReplyToComment(s, websiteId, patternId, commentId, dto, now).value.store;
    var home := s.comments[commentId].patternId;
    assert s'.patterns[home].comments[i].comment == s.comments[commentId];
    assert |s'.comments[commentId].replies| == |s.comments[commentId].replies| + 1;
  }

  /** A reply rewrites only comment copies, whichever pattern it names, so
      every store invariant survives it. */
  lemma ReplyKeepsConsistent(s: Store, websiteId: Id, patternId: Id, commentId: Id, dto: ReplyCreateDto, now: int)
    requires Consistent(s)
    requires dto.expertId != "" && dto.content != ""
    requires AddReplyToComment(s, websiteId, patternId, commentId, dto, now).Ok?
    ensures Consistent(AddReplyToComment(s, websiteId, patternId, commentId, dto, now).value.store)
  {
    var s' := AddReplyToComment(s, websiteId, patternId, commentId, dto, now).value.store;
    assert forall pid :: pid in s'.patterns ==>
      s'.patterns[pid] == s.patterns[pid].(comments := s'.patterns[pid].comments);
  }
}

# Expert-Backend review workflow in Dafny

This project models the core of the Expert-Backend service. The service is a NestJS backend for a platform that reviews websites for dark patterns. The model covers:

- Clients register websites.
- A SuperAdmin assigns a roster of experts to each website.
- Experts (and, in bulk, a SuperAdmin) report suspected patterns.
- Every expert on a pattern's roster records a verdict; the pattern is Verified once no verdict is pending.
- The primary expert publishes the outcome.
- The client of a dark-pattern-free website obtains a twelve-character certificate id.

Around this workflow sit:

- the user store: sign-up, sign-in with a bearer token, and the lookups;
- the JWT guard with its role check;
- the role table of every route;
- votes, comments and the dashboard counts.

The four Mongo collections (users, websites, patterns, comments) are maps from document id to document (`Collections.Store`). Every service call is a pure function from a store to `Result<Step<O>>`. A `Step` pairs the new store with the response body. A failure is either an `HttpException(status, message)` or a plain JavaScript error, identified by its `name`. The lookups of `website.validation.ts` throw 404s. They are `Result`-returning functions, chained with `:-`, so each operation fails at the first failing check in the order the service performs them.

The following are parameters of the operations, not computed by the model:

- fresh document ids (`newId !in ...`);
- the clock (`now`);
- bcrypt (`hashed`, `compare`);
- JWT signing and verification (`sign`, `verify`);
- the random draws of the certificate generator (`seq<Draw>`).

`Collections.Consistent` is the store invariant. It requires:

- unique emails;
- a sparse unique certificate-id index;
- well-formed vote lists;
- completion in step with the review phase;
- the verification consensus of every pattern.

Every state-changing operation except website creation has a lemma showing that it preserves `Consistent`. Website creation preserves it exactly when the stored website has well-formed votes and a completion flag that agrees with its phase. A body of declared fields only always gives such a website (`WebsiteRoster.PersistKeepsConsistent`).

The global `ValidationPipe` of `src/main.ts` is built without `whitelist`, and `persistWebsiteDetails` hands the whole body to `new this.websiteModel(...)`. A creation body may therefore set any website path besides the declared ones. These paths are `isCompleted`, `phase`, `isDarkPatternFree`, `expertFeedback`, `createdAt`, `certificationId`, `upVotes` and `downVotes`. The model carries them as `WebsiteSchema.UndeclaredFields`, each one optional.

Some behaviours of the code are proved as lemmas because they are easy to miss when reading it:

- A roster that lists an expert twice produces patterns that can never be Verified (`PatternConsensus.DuplicateExpertBlocksConsensus`).
- Votes are keyed by display name, so two users with the same name cancel each other's votes (`WebsiteVotes.SameNameCancelsUpVote`).
- A reply sent with a pattern other than the comment's own leaves the comment's embedded copy stale (`PatternComments.ReplyViaOtherPatternLeavesStaleCopy`).

- A creation body that says completed without naming a phase leaves a website that breaks the completion invariant (`WebsiteRoster.OverpostedCompletionBreaksConsistency`).
- A creation body that says completed, Published and dark-pattern free gives a website that can be certified at once, with no pattern and no expert involved (`WebsiteCertification.OverpostedWebsiteSkipsReview`).

The route table follows the guard decorators, not the Swagger text. POST /website is documented as 'Create a new website [For Client]' (`src/components/website/website.controller.ts:39`), but its `@Roles` admits Expert tokens only (line 37). The model admits Expert tokens only.

## Model

| member | source | states |
|---|---|---|
| AuthGuard.BearerFields | src/auth/auth.guard.ts:50-53 | A header's first `split(' ')` field is exactly "Bearer" and a second field exists iff the header starts with "Bearer "; the second field is then the space-free text after that prefix |
| AuthGuard.ExtractTokenFromHeader | src/auth/auth.guard.ts:50-53 | A token is found iff the header is present and starts with "Bearer "; it contains no space, directly follows the prefix and ends at the next space or the end, so later fields are ignored |
| AuthGuard.HeaderRoundTrip | src/auth/auth.guard.ts:50-53 | The header 'Bearer ' + t that sign-in issues extracts back to t whenever t has no space |
| AuthGuard.CanActivate | src/auth/auth.guard.ts:20-48 | No or empty token gives 401 'Authorization token not provided'; a verified payload whose role is outside the handler's roles gives 'Insufficient permissions' unchanged; TokenExpiredError and JsonWebTokenError get their own 401 messages; any other error is rethrown; on success the payload for `request.user` is exactly the verified one |
| AuthGuard.NoRolesAdmitsAnyVerifiedToken | src/auth/auth.guard.ts:31-36 | Without roles metadata every verified token is admitted with its payload |
| JsString.Split | src/auth/auth.guard.ts:51 | `split` yields at least one field, exactly one iff the separator is absent, no field contains the separator, the first field is the longest separator-free prefix, and joining the fields gives the string back |
| JsString.SplitJoin | src/auth/auth.guard.ts:51 | Splitting inverts joining separator-free fields, so the fields of a header are uniquely determined |
| JsString.TrimStart | src/components/website/website.service.ts:605-608 | `trimStart` removes exactly the leading ECMAScript whitespace: the result is a suffix, what was dropped is whitespace, and the result does not start with whitespace |
| JsString.TrimEnd | src/components/website/website.service.ts:605-608 | `trimEnd` removes exactly the trailing whitespace, symmetrically |
| JsString.TrimEmptyIffBlank | src/components/website/website.service.ts:605-608 | Feedback trims to the empty string iff every character of it is whitespace |
| UserSchema.NewUser | src/components/user/schemas/user.schema.ts:34-35 | A new user document's `createdAt` is the creation time |
| UserSchema.ValidateNewUser | src/components/user/schemas/user.schema.ts:6-32 | Saving succeeds iff every required string is non-empty and no stored user has the email; each empty field gets its own error; a taken non-empty email gets 'Email already exists' |
| UserSchema.AddFreshEmailKeepsUnique | src/components/user/schemas/user.schema.ts:12-22 | Adding a user whose email no stored user has keeps emails unique across the collection |
| UserConverter.ConvertUserToDto | src/components/user/converter/user.converter.ts:4-14 | `userId` is the document id, and together with the stored hash the DTO rebuilds the user exactly, so every other field is copied unchanged |
| UserConverter.DtoHidesPassword | src/components/user/converter/user.converter.ts:4-14 | The DTO does not depend on the password hash |
| UserService.SignUpFailure | src/components/user/user.service.ts:41-50 | A validation error with an email entry becomes 400 with that entry's message; without one, reading the message throws a TypeError that escapes |
| UserService.SignUp | src/components/user/user.service.ts:27-51 | Sign-up succeeds iff all required fields are non-empty and the email is free; a taken email gives 400 'Email already exists'; on success the new user holds the hash in place of the password and the DTO's other fields, existing users are untouched, and the response is 201 'User signed up successfully' |
| UserService.SignUpKeepsEmailsUnique | src/components/user/user.service.ts:27-51 | A successful sign-up keeps emails unique |
| UserService.FindByEmailAndRole | src/components/user/user.service.ts:56 | The lookup finds a user holding both the email and the role, or reports that none does |
| UserService.SignIn | src/components/user/user.service.ts:53-79 | Sign-in succeeds iff some user has this email, this role and a matching hash; the token is 'Bearer ' + sign({sub, email, role}) of that user; every failure is 401 'Invalid credentials' |
| UserService.SignUpThenSignIn | src/components/user/user.service.ts:27-79 | A user who has just signed up can sign in with the same email, password and role, and the token names the new id |
| UserService.SignInNeedsRegisteredRole | src/components/user/user.service.ts:56-66 | Signing in under a role other than the registered one fails with 'Invalid credentials' whatever the password |
| UserService.FetchParticularUserDetails | src/components/user/user.service.ts:88-95 | The lookup succeeds iff the id is stored and returns exactly the converter's DTO of that user; otherwise 404 'User not found' |
| UserService.FetchUsersByType | src/components/user/user.service.ts:97-108 | The listing holds, for exactly the users with the role, the converter's DTO of that user keyed by its id |
| UserService.ListedUsersMatchDetails | src/components/user/user.service.ts:88-108 | Every listed DTO equals what the single-user lookup returns for its id |
| Routes.Authorize | src/auth/auth.guard.ts:20-48 | A public route proceeds without a payload; a guarded route proceeds iff the token is verified with one of its roles, attaching the verified payload; otherwise it fails as the guard does |
| Routes.Dispatch | src/auth/auth.guard.ts:20-48 | A handler's result is returned only when the guard admits the request; otherwise the guard's error is |
| UserController.SignUpEndpoint | src/components/user/user.controller.ts:25-33 | POST /user/signup is unguarded: whatever the header, the response is that of `signUp` |
| UserController.SignInEndpoint | src/components/user/user.controller.ts:35-45 | POST /user/signin is unguarded: whatever the header, the response is that of `signIn` |
| UserController.UserRouteRoles | src/components/user/user.controller.ts:47-62 | GET /user/:userId admits a verified token of any of the three roles; GET /user?role= admits SuperAdmin tokens only |
| UserController.SignInTokenPassesGuard | src/components/user/user.controller.ts:35-62 | The access token from sign-in, sent back as the header, opens GET /user/:userId with the signed claims, and opens the user listing iff the role is SuperAdmin |
| WebsiteSchema.NewWebsite | src/components/website/schemas/website.schema.ts:5-51 | A new website is valid iff userId, baseUrl and websiteName are non-empty. It copies the declared fields. Every other path takes the body's value when the body carries one, and otherwise its default: not completed, InProgress, not dark-pattern free, created now, no certificate id, no feedback, no votes |
| WebsiteSchema.DeclaredBodyStartsUnreviewed | src/components/website/website.service.ts:46 | A body of declared fields only gives a website that is not completed, InProgress, not dark-pattern free, created now, with no certificate id, no feedback and no votes |
| WebsiteSchema.UncertifiedWebsitesAreUnique | src/components/website/schemas/website.schema.ts:43-44 | The certificate-id index is sparse: websites without an id never violate it |
| WebsiteValidation.CheckUserExists | src/components/website/validation/website.validation.ts:19-26 | Returns the stored user iff the id is present, else 404 'User not found' |
| WebsiteValidation.CheckWebsiteExists | src/components/website/validation/website.validation.ts:28-35 | Returns the stored website iff present, else 404 'Website not found' |
| WebsiteValidation.CheckPatternExists | src/components/website/validation/website.validation.ts:37-44 | Returns the stored pattern iff present, else 404 'Pattern not found' |
| WebsiteValidation.CheckCommentExists | src/components/website/validation/website.validation.ts:46-52 | Passes iff the comment is present, else 404 'Comment not found' |
| WebsiteValidation.GetPatternForParticularWebsite | src/components/website/validation/website.validation.ts:54-56 | Exactly the stored patterns whose websiteId matches, unchanged |
| WebsiteRoster.PersistWebsiteDetails | src/components/website/website.service.ts:42-59 | A missing owner gives 404. A website failing its schema gives 500 'Failed to save website details', and so does a carried certificate id that another website holds (the unique index). Otherwise the website built from the whole body is stored under the fresh id, which is returned |
| WebsiteRoster.PersistKeepsConsistent | src/components/website/website.service.ts:42-59 | Creating a website keeps every store invariant iff the new website's votes are well formed and its completion agrees with its phase; a body of declared fields only always keeps them |
| WebsiteRoster.OverpostedCompletionBreaksConsistency | src/main.ts:16 | A body carrying `isCompleted: true` and no phase is accepted and leaves a completed website still InProgress, so the store is no longer consistent |
| WebsiteRoster.AssignExpertsToWebsite | src/components/website/website.service.ts:61-84 | Succeeds iff the website exists and every listed expert and the primary expert exist as users; the roster and the primary expert are overwritten, nothing else changes |
| WebsiteRoster.AssignDoesNotTouchPatterns | src/components/website/website.service.ts:61-84 | Reassigning experts leaves every existing pattern, including its verification snapshot, as it was |
| WebsiteRoster.AssignKeepsConsistent | src/components/website/website.service.ts:61-84 | Assignment keeps every store invariant |
| PatternCreation.Snapshot | src/components/website/website.service.ts:225-228 | One NotVerified verification per roster entry, in roster order, duplicates included |
| PatternCreation.NewPatternConsistent | src/components/website/website.service.ts:230-238 | A new pattern satisfies the consensus invariant and is not Verified |
| PatternCreation.AddPatternInWebsite | src/components/website/website.service.ts:209-251 | Missing creator or website gives 404; a creator not on the roster gives 400 'Expert not assigned to the website'; otherwise the new pattern copies the type, description and URL, is InProgress with no consensus, no images and no comments, is not auto-generated and has one NotVerified entry per roster entry in order, and no other pattern changes |
| PatternCreation.AddAutomatedPatternInWebsite | src/components/website/website.service.ts:253-315 | A missing website gives 404; differing creators give 400; a missing creator (including an empty batch) gives 404; an existing creator who is not a SuperAdmin gives 400 'Only super admin can submit automated patterns'; otherwise each request becomes an auto-generated pattern that copies its type, description and URL, is InProgress with no consensus, no images and no comments, and whose verifications snapshot the website's roster |
| PatternCreation.AddPatternKeepsConsistent | src/components/website/website.service.ts:209-251 | Adding a pattern keeps every store invariant |
| PatternCreation.AddAutomatedKeepsConsistent | src/components/website/website.service.ts:253-315 | Adding a batch of automated patterns keeps every store invariant |
| PatternConsensus.FindExpert | src/components/website/website.service.ts:345-347 | `find` returns the first entry of the expert, and returns one iff the expert has an entry |
| PatternConsensus.RecordVerdict | src/components/website/website.service.ts:341-376 | A Verified pattern gives 404 'Pattern already verified'; an expert without an entry gives 400; otherwise only the expert's first entry takes the verdict, the phase is Verified iff no entry is pending, and `isPatternExists` is set only then, to whether some expert found the pattern |
| PatternConsensus.UpdatePatternPhaseByExpert | src/components/website/website.service.ts:326-393 | A pattern missing or belonging to another website gives 404 'Pattern not found'; otherwise the result is that of recording the verdict, and only that pattern changes |
| PatternConsensus.RecordVerdictKeepsConsensus | src/components/website/website.service.ts:356-376 | Recording a verdict keeps the consensus invariant of the pattern |
| PatternConsensus.UpdateKeepsConsistent | src/components/website/website.service.ts:326-393 | A verdict update keeps every store invariant |
| PatternConsensus.VerifiedIsFinal | src/components/website/website.service.ts:341-343 | No series of later requests changes a Verified pattern |
| PatternConsensus.RecordVerdictKeepsRoster | src/components/website/website.service.ts:345-358 | A verdict never changes which expert's entry is where |
| PatternConsensus.DuplicateExpertBlocksConsensus | src/components/website/website.service.ts:345-368 | With an expert listed twice and the later entry pending, no series of requests makes the pattern Verified |
| PatternConsensus.WalkStep | src/components/website/website.service.ts:345-376 | In a roster walk, the next expert's verdict is accepted and advances the walk by one entry |
| PatternConsensus.RosterWalkPrefix | src/components/website/website.service.ts:345-376 | After the first m votes of a roster walk, exactly the first m entries carry their verdicts, and the pattern is Verified only when the walk is complete |
| PatternConsensus.RosterVotesReachConsensus | src/components/website/website.service.ts:356-376 | When each expert of a duplicate-free roster votes once, the pattern ends Verified, and it holds a dark pattern iff some expert said so |
| WebsiteVotes.Without | src/components/website/website.service.ts:445 | `filter(n => n !== name)` removes every occurrence of the name and keeps the count of every other name; its place in the order is fixed by `WithoutConcat` and `WithoutSingleton` |
| WebsiteVotes.WithoutAbsent | src/components/website/website.service.ts:445 | Filtering out an absent name changes nothing |
| WebsiteVotes.WithoutConcat | src/components/website/website.service.ts:445 | Filtering a concatenation filters each part and keeps them in order, so every kept name stays where it was relative to the others |
| WebsiteVotes.WithoutSingleton | src/components/website/website.service.ts:445 | A one-entry list keeps its entry iff it is not the name |
| WebsiteVotes.WithoutAppend | src/components/website/website.service.ts:447 | Filtering a name out of a list that ends with it also drops that last entry |
| WebsiteVotes.WithoutKeepsNoDuplicates | src/components/website/website.service.ts:445-447 | A duplicate-free list stays duplicate-free after filtering |
| WebsiteVotes.Toggle | src/components/website/website.service.ts:447 | The name ends up in the list iff it was absent: appended at the end if absent, otherwise the list is exactly the filtered list; other names keep their counts |
| WebsiteVotes.UpVote | src/components/website/website.service.ts:444-447 | After an upvote the down-votes are exactly the filtered list (unchanged if the name was absent); the up-votes get the name appended at the end if it was absent and are exactly the filtered list otherwise; nothing else changes |
| WebsiteVotes.DownVote | src/components/website/website.service.ts:475-478 | After a downvote the up-votes are exactly the filtered list (unchanged if the name was absent); the down-votes get the name appended at the end if it was absent and are exactly the filtered list otherwise; nothing else changes |
| WebsiteVotes.DownVoteMirrorsUpVote | src/components/website/website.service.ts:444-478 | A downvote is an upvote with the two lists exchanged |
| WebsiteVotes.UpVoteKeepsWellFormed | src/components/website/website.service.ts:444-447 | An upvote keeps both lists duplicate-free and disjoint |
| WebsiteVotes.DownVoteKeepsWellFormed | src/components/website/website.service.ts:475-478 | A downvote keeps both lists duplicate-free and disjoint |
| WebsiteVotes.UpVoteTwiceRestores | src/components/website/website.service.ts:444-447 | Two upvotes from a name in neither list restore both lists |
| WebsiteVotes.UpThenDownVote | src/components/website/website.service.ts:444-478 | An upvote then a downvote from a name in neither list leaves the name only at the end of the down-votes |
| WebsiteVotes.AddUpVoteToWebsite | src/components/website/website.service.ts:429-458 | A missing website gives 404, then a missing user gives 404; otherwise the voter's display name is upvoted on that website only, and both lists are returned |
| WebsiteVotes.AddDownVoteToWebsite | src/components/website/website.service.ts:460-489 | The same for a downvote |
| WebsiteVotes.VotesKeepConsistent | src/components/website/website.service.ts:429-489 | Voting keeps every store invariant |
| WebsiteVotes.SameNameCancelsUpVote | src/components/website/website.service.ts:435-447 | Votes are keyed by display name: a second user with the same first and last name undoes the first user's upvote |
| PatternComments.AddCommentToPattern | src/components/website/website.service.ts:395-427 | Missing expert, website or pattern gives 404 in that order; an empty required field gives 500 'Failed to add comment'; otherwise the comment is stored under the fresh id, the same document is appended to the pattern's comments, and nothing else changes |
| PatternComments.AddCommentKeepsSync | src/components/website/website.service.ts:395-427 | Adding a comment keeps every embedded copy equal to its stored comment and inside its own pattern |
| PatternComments.SyncCopies | src/components/website/website.service.ts:509-513 | Every embedded copy with the comment's id is replaced by the updated comment; every other entry stays |
| PatternComments.AddReplyToComment | src/components/website/website.service.ts:491-523 | Missing expert, website, pattern or comment gives 404 in that order; otherwise the reply is appended to the stored comment and the copies inside the given pattern are refreshed, and no other pattern changes |
| PatternComments.AddCommentKeepsConsistent | src/components/website/website.service.ts:395-427 | Adding a comment keeps every store invariant |
| PatternComments.ReplyKeepsConsistent | src/components/website/website.service.ts:491-523 | Adding a reply keeps every store invariant, whichever pattern the request names |
| PatternComments.ReplyKeepsSync | src/components/website/website.service.ts:491-523 | A reply sent with the comment's own pattern keeps every embedded copy in sync |
| PatternComments.ReplyViaOtherPatternLeavesStaleCopy | src/components/website/website.service.ts:499-513 | A reply sent with another pattern leaves the copy in the comment's own pattern without the new reply |
| WebsitePublish.PublishGate | src/components/website/website.service.ts:558-613 | The 400 gates in source order: already completed (`isCompleted` true, answered 'Website is already published!!!'); not the primary expert; some pattern not Verified; certifying a website with a dark pattern; rejecting a clean one; rejecting without visible feedback. It passes iff none applies |
| WebsitePublish.PublishCertificationDetailsOfWebsite | src/components/website/website.service.ts:549-635 | Missing expert, website or client gives 404; otherwise a failing gate gives exactly that gate's 400, and the call succeeds iff the gates pass. The website alone then becomes completed and Published, with `isDarkPatternFree` = no pattern has a dark pattern and the expert's feedback |
| WebsitePublish.PublishedVerdictMatchesRequest | src/components/website/website.service.ts:591-618 | After a publish, the website is dark-pattern free iff the expert certified it, and a rejected website carries feedback with a non-whitespace character |
| WebsitePublish.PublishTwiceFails | src/components/website/website.service.ts:553-563 | A second publish of the same website is refused whoever sends it; an existing sender gets 400 'Website is already published!!!' |
| WebsitePublish.PublishedVerdictFollowsExperts | src/components/website/website.service.ts:576-618 | In a consistent store, the published website is dark-pattern free iff no expert reported any of its patterns as a dark pattern |
| WebsitePublish.PublishKeepsConsistent | src/components/website/website.service.ts:549-635 | Publishing keeps every store invariant |
| WebsiteKpi.FetchKpiForClient | src/components/website/website.service.ts:637-671 | A missing user gives 404 and a non-Client gives 500 'Client is only allowed'; otherwise the counts are those of the owned websites in progress, certified and rejected, and they add up to the total |
| WebsiteKpi.FetchKpiForExpert | src/components/website/website.service.ts:673-705 | A missing user gives 404 and a non-Expert gives 500 'Expert is only allowed'; otherwise the counts are those of the rostered websites in progress and published, which add up to the total, plus the patterns the expert created |
| WebsiteKpi.PublishMovesOwnedSets | src/components/website/website.service.ts:645-663 | Publishing one owned website moves it from the in-progress set to the certified or rejected set and changes no other set |
| WebsiteKpi.PublishMovesClientKpi | src/components/website/website.service.ts:615-663 | A publish lowers the client's in-progress count by one and raises the certified or the rejected count by one, as the expert decided |
| WebsiteKpi.PublishMovesRosterSets | src/components/website/website.service.ts:673-705 | Publishing a website moves it from an expert's in-progress set to the published set when the expert is on its roster, and moves nothing otherwise |
| WebsiteKpi.PublishMovesExpertKpi | src/components/website/website.service.ts:673-705 | A publish lowers the in-progress count of every rostered expert by one and raises the published count by one; other experts' dashboards and all pattern counts stay unchanged |
| WebsiteUtil.CodeOf | src/components/website/util/website.util.ts:1-10 | Reference definition: character i of the id is the alphabet character of the i-th draw, with no separators |
| WebsiteUtil.GenerateCertificationId | src/components/website/util/website.util.ts:1-10 | The generated id has exactly twelve characters, all from the 36-character alphabet, and is the draws' characters in draw order |
| WebsiteUtil.CharactersAreCharAt | src/components/website/util/website.util.ts:2 | The alphabet is 'A'..'Z' followed by '0'..'9' |
| WebsiteUtil.IndexOfCharacter | src/components/website/util/website.util.ts:2 | Every alphabet character has a draw that selects it |
| WebsiteUtil.DrawsOf | src/components/website/util/website.util.ts:5-7 | Reading an id back into draws keeps its length |
| WebsiteUtil.CharactersDistinct | src/components/website/util/website.util.ts:2 | The alphabet has no repeated character, so a character fixes its draw |
| WebsiteUtil.DrawsOfCodeOf | src/components/website/util/website.util.ts:3-9 | An id determines the draws it came from |
| WebsiteUtil.CodeOfDrawsOf | src/components/website/util/website.util.ts:3-9 | Every id of the generator's format is generated by some twelve draws |
| WebsiteCertification.FirstFreeAttempt | src/components/website/website.service.ts:733-736 | The retry loop stops at the first attempt whose id no website holds; there is one iff some attempt is free |
| WebsiteCertification.CertificationGate | src/components/website/website.service.ts:710-731 | The 400 gates in source order: not completed (`isCompleted` false, whatever the phase); not dark-pattern free; already certified. It passes iff none applies |
| WebsiteCertification.GenerateCertification | src/components/website/website.service.ts:707-744 | A missing website gives 404, then the gates give 400; otherwise the website gets the id of the first free attempt, a valid twelve-character id that no website held; the id is returned and nothing else changes |
| WebsiteCertification.GenerateKeepsConsistent | src/components/website/website.service.ts:707-744 | Issuing a certificate keeps the sparse unique index and every other store invariant |
| WebsiteCertification.OverpostedWebsiteSkipsReview | src/main.ts:16 | A creation body carrying completed, Published and dark-pattern free stores a consistent website that gets a certificate on its first free draw, with no pattern or expert involved |
| WebsiteCertification.RepeatCertificationFails | src/components/website/website.service.ts:726-731 | A second certificate request for the same website is refused with 'already certified' |
| WebsiteController.OnlyCertificationImageIsPublic | src/components/website/website.controller.ts:138-145 | The certification image is the only website route without a guard, and it proceeds without a token |
| WebsiteController.ExpertOnlyRoutes | src/components/website/website.controller.ts:35-39 | Creating a website, pattern, image upload, pattern verdict, comment, reply, pattern detail, publish and the expert dashboard admit exactly Expert tokens |
| WebsiteController.SuperAdminOnlyRoutes | src/components/website/website.controller.ts:47-49 | Assigning experts, automated patterns and the client listing admit exactly SuperAdmin tokens |
| WebsiteController.ClientOnlyRoutes | src/components/website/website.controller.ts:297-299 | Issuing a certificate and the client dashboard admit exactly Client tokens |
| WebsiteController.SharedRoutes | src/components/website/website.controller.ts:64-78 | Reading one website admits all three roles; listing websites and a website's patterns admit Client and Expert |
| WebsiteController.AdmitsOnly | src/components/website/website.controller.ts:105-107 | A route guarded by one role admits exactly the verified tokens of that role |

Some members are plain definitions with no contract of their own; the rows of the members that use them state their behaviour:

- `UserController.UserRouteAccess` and `WebsiteController.WebsiteRouteAccess` are the route tables, stated by `UserRouteRoles`, `ExpertOnlyRoutes`, `SuperAdminOnlyRoutes`, `ClientOnlyRoutes`, `SharedRoutes` and `OnlyCertificationImageIsPublic`.
- `PatternCreation.NewPattern` is the new pattern document, stated by `AddPatternInWebsite`, `AddAutomatedPatternInWebsite` and `NewPatternConsistent`.
- `JsString.Trim` is `trim()`, stated by `TrimStart`, `TrimEnd` and `TrimEmptyIffBlank`.
- `UserService.GenerateAccessToken` is the signed token, stated by `SignIn` and `SignInTokenPassesGuard`.

## Left out

- Mongo persistence details: the `sort` of the read queries, `markModified`, and the `_id` generation. Fresh ids are parameters. An `_id` carried in a request body is not modelled.
- Ids are assumed to be well-formed ObjectIds. For a malformed id, `findById` throws a CastError, and the request fails with 500 rather than the modelled 404.
- UserService.SignUp: the body is spread into the new user, so a carried `createdAt` would replace the creation time; this override is not modelled.
- PatternComments.AddCommentToPattern: the body is spread into the new comment, so a carried `createdAt` or `replies` would be stored; these overrides are not modelled. Replies are not affected, because the reply subdocument schema keeps only its own paths and `createdAt` is set after the spread.
- Save failures that no modelled validation explains are not modelled, because the model has no failing database. These are the 500 responses 'Failed to save pattern details', 'Failed to update pattern phase', 'Failed to upVote', 'Failed to add reply' and 'Failed to publish website certification details'.
- The e-mail to the client after a publish, and its failure leaving a saved website behind a 500, because it is a call to AWS SES.
- `addImagesInPattern` and `getCertificationInS3Bucket`, because they only move files to and from S3.
- The read endpoints that go through the website converter are not part of this model: `fetchParticularWebsiteDetails`, `getAllWebsiteDetails`, `getAllWebsiteDetailsForParticularUser`, `getWebsitesAssociatedWithClients`, `fetchAllPatternsOfWebsite` and `fetchParticularPatternDetails`.
- The Pattern schema and the enum files are not part of this model. A new pattern is assumed to start InProgress with `isPatternExists` unset. An unset `isDarkPatternFree` is read as false, as every use tests it for truthiness.
- bcrypt and JWT are oracles given as parameters: `hashed`, `compare`, `sign` and `verify`. The JWT secret and expiry are inside `verify`.
- Roles are the three-valued enum. A stored or requested role string outside it, for instance in `fetchUsersByType`, is not modelled.
- The class-validator rules of the request DTOs are preconditions where an operation depends on them. These are a non-empty expert list and primary expert when assigning, and a non-empty expert id and content when replying.
- WebsiteCertification.GenerateCertification: the service retries without bound. The model consumes the given attempts and reports `OutOfDraws` when every one collides. A concurrent request taking the same id between the check and the save is not modelled.
- WebsiteUtil.GenerateCertificationId: `Math.floor(Math.random() * 36)` is replaced by a given draw in 0..35, so the floating-point scaling is not modelled.
- Logging, module wiring, configuration and the Swagger set-up, because they do not affect any response.

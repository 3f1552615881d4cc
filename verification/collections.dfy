/** The four Mongo collections the services work on, as maps from document id
    to document, and the result of a state-changing service call. */
module Collections {
  import opened Results
  import opened UserSchema
  import opened WebsiteSchema

  datatype Store = Store(
    users: map<Id, User>,
    websites: map<Id, Website>,
    patterns: map<Id, Pattern>,
    comments: map<Id, Comment>)

  /** The collections after a service call, and what the call responds with. */
  datatype Step<+O> = Step(store: Store, out: O)

  /** A name appears at most once in a vote list. */
  predicate NoDuplicates(names: seq<string>)
  {
    forall i, j :: 0 <= i < j < |names| ==> names[i] != names[j]
  }

  /** The vote lists of a website: no name twice in a list, and no name in both. */
  predicate VotesWellFormed(w: Website)
  {
    && NoDuplicates(w.upVotes)
    && NoDuplicates(w.downVotes)
    && (forall n :: n in w.upVotes ==> n !in w.downVotes)
  }

  /** A website is completed exactly when its review is published. */
  predicate PhaseMatchesCompletion(w: Website)
  {
    w.isCompleted <==> w.phase == Published
  }

  /** The invariants every reachable state keeps: unique emails, unique
      certification ids, well-formed votes, completion in step with the review
      phase, and the verification consensus of every pattern. */
  predicate Consistent(s: Store)
  {
    && EmailsUnique(s.users)
    && CertificationIdsUnique(s.websites)
    && (forall id :: id in s.websites ==> VotesWellFormed(s.websites[id]))
    && (forall id :: id in s.websites ==> PhaseMatchesCompletion(s.websites[id]))
    && (forall id :: id in s.patterns ==> ConsensusConsistent(s.patterns[id]))
  }

  /** The empty database is consistent. */
  lemma EmptyStoreConsistent()
    ensures Consistent(Store(map[], map[], map[], map[]))
  {
  }

  /** Rewriting one website keeps every store invariant as long as its
      certification id stays, its votes stay well formed and its completion
      stays in step with its phase. */
  lemma ReplaceWebsiteKeepsConsistent(s: Store, id: Id, w': Website)
    requires Consistent(s)
    requires id in s.websites
    requires w'.certificationId == s.websites[id].certificationId
    requires VotesWellFormed(w') && PhaseMatchesCompletion(w')
    ensures Consistent(s.(websites := s.websites[id := w']))
  {
    var ws := s.websites[id := w'];
    assert forall k :: k in ws ==> ws[k].certificationId == s.websites[k].certificationId;
  }
}

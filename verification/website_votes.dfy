/** Up- and down-votes on a website (`addUpVoteToWebsite`,
    `addDownVoteToWebsite` of `website.service.ts`). Votes are lists of
    display names; voting removes the name from the opposite list and toggles
    it in its own list. */
module WebsiteVotes {
  import opened Results
  import opened UserSchema
  import opened WebsiteSchema
  import opened Collections
  import opened WebsiteValidation

  /** What a vote responds with: both lists after the vote, and the website. */
  datatype VoteOutcome = VoteOutcome(upVotes: seq<string>, downVotes: seq<string>, websiteId: Id)

  /** The name a user votes under: first and last name joined by one space. */
  function DisplayName(u: User): string
  {
    u.firstName + " " + u.lastName
  }

  /** `names.filter(n => n !== name)`: every occurrence of `name` removed,
      everything else kept in order. */
  function Without(names: seq<string>, name: string): (r: seq<string>)
    ensures name !in r
    ensures forall n :: n != name ==> multiset(r)[n] == multiset(names)[n]
    ensures |r| <= |names|
  {
    if names == [] then []
    else
      assert names == [names[0]] + names[1..];
      if names[0] == name then Without(names[1..], name)
      else [names[0]] + Without(names[1..], name)
  }

  /** Removing a name that is absent changes nothing. */
  lemma {:induction false} WithoutAbsent(names: seq<string>, name: string)
    requires name !in names
    ensures Without(names, name) == names
  {
    if names != [] {
      WithoutAbsent(names[1..], name);
    }
  }

  /** Removing a name from a list that ends with it drops that last entry too. */
  lemma {:induction false} WithoutAppend(names: seq<string>, name: string)
    ensures Without(names + [name], name) == Without(names, name)
  {
    if names != [] {
      assert (names + [name])[1..] == names[1..] + [name];
      WithoutAppend(names[1..], name);
    }
  }

  /** Filtering distributes over concatenation: the kept names of a list
      stay in the order and the place they had. */
  lemma {:induction false} WithoutConcat(a: seq<string>, b: seq<string>, name: string)
    ensures Without(a + b, name) == Without(a, name) + Without(b, name)
  {
    if a == [] {
      assert a + b == b;
    } else {
      assert (a + b)[0] == a[0];
      assert (a + b)[1..] == a[1..] + b;
      WithoutConcat(a[1..], b, name);
    }
  }

  /** On a single entry, filtering keeps every other name and drops `name`. */
  lemma WithoutSingleton(x: string, name: string)
    ensures x != name ==> Without([x], name) == [x]
    ensures Without([name], name) == []
  {
  }

  /** A list without duplicates keeps that property when names are removed from it. */
  lemma {:induction false} WithoutKeepsNoDuplicates(names: seq<string>, name: string)
    requires NoDuplicates(names)
    ensures NoDuplicates(Without(names, name))
  {
    if names != [] {
      WithoutKeepsNoDuplicates(names[1..], name);
      if names[0] != name {
        var rest := Without(names[1..], name);
        assert names[0] !in names[1..];
        assert multiset(rest)[names[0]] == 0;
        assert forall i :: 0 <= i < |rest| ==> rest[i] != names[0] by {
          forall i | 0 <= i < |rest|
            ensures rest[i] != names[0]
          {
            assert rest[i] in multiset(rest);
          }
        }
      }
    }
  }

  /** A toggle on the own list: removed when present, appended when absent. */
  function Toggle(names: seq<string>, name: string): (r: seq<string>)
    ensures name in r <==> name !in names
    ensures name !in names ==> r == names + [name]
    ensures name in names ==> r == Without(names, name)
    ensures forall n :: n != name ==> multiset(r)[n] == multiset(names)[n]
  {
    if name in names then Without(names, name) else names + [name]
  }

  /** The vote-list part of an upvote: `name` leaves the down-votes and is
      toggled in the up-votes, appended at the end when it was absent; every
      other name keeps its place in both lists. */
  function UpVote(w: Website, name: string): (w': Website)
    ensures name !in w'.downVotes
    ensures name in w'.upVotes <==> name !in w.upVotes
    ensures name !in w.upVotes ==> w'.upVotes == w.upVotes + [name]
    ensures name in w.upVotes ==> w'.upVotes == Without(w.upVotes, name)
    ensures w'.downVotes == Without(w.downVotes, name)
    ensures name !in w.downVotes ==> w'.downVotes == w.downVotes
    ensures forall n :: n != name ==>
      multiset(w'.upVotes)[n] == multiset(w.upVotes)[n] && multiset(w'.downVotes)[n] == multiset(w.downVotes)[n]
    ensures w' == w.(upVotes := w'.upVotes, downVotes := w'.downVotes)
  {
    if name !in w.downVotes then
      WithoutAbsent(w.downVotes, name);
      w.(upVotes := Toggle(w.upVotes, name))
    else w.(downVotes := Without(w.downVotes, name), upVotes := Toggle(w.upVotes, name))
  }

  /** The mirror image: `name` leaves the up-votes and is toggled in the
      down-votes, appended at the end when it was absent. */
  function DownVote(w: Website, name: string): (w': Website)
    ensures name !in w'.upVotes
    ensures name in w'.downVotes <==> name !in w.downVotes
    ensures name !in w.downVotes ==> w'.downVotes == w.downVotes + [name]
    ensures name in w.downVotes ==> w'.downVotes == Without(w.downVotes, name)
    ensures w'.upVotes == Without(w.upVotes, name)
    ensures name !in w.upVotes ==> w'.upVotes == w.upVotes
    ensures forall n :: n != name ==>
      multiset(w'.upVotes)[n] == multiset(w.upVotes)[n] && multiset(w'.downVotes)[n] == multiset(w.downVotes)[n]
    ensures w' == w.(upVotes := w'.upVotes, downVotes := w'.downVotes)
  {
    if name !in w.upVotes then
      WithoutAbsent(w.upVotes, name);
      w.(downVotes := Toggle(w.downVotes, name))
    else w.(upVotes := Without(w.upVotes, name), downVotes := Toggle(w.downVotes, name))
  }

  /** The two lists exchanged. */
  function SwapVotes(w: Website): Website
  {
    w.(upVotes := w.downVotes, downVotes := w.upVotes)
  }

  /** A downvote is an upvote with the two lists exchanged. */
  lemma DownVoteMirrorsUpVote(w: Website, name: string)
    ensures DownVote(w, name) == SwapVotes(UpVote(SwapVotes(w), name))
  {
  }

  /** A vote keeps the vote lists well formed. */
  lemma UpVoteKeepsWellFormed(w: Website, name: string)
    requires VotesWellFormed(w)
    ensures VotesWellFormed(UpVote(w, name))
  {
    var w' := UpVote(w, name);
    if name in w.downVotes {
      WithoutKeepsNoDuplicates(w.downVotes, name);
    }
    if name in w.upVotes {
      WithoutKeepsNoDuplicates(w.upVotes, name);
    } else {
      assert NoDuplicates(w'.upVotes) by {
        assert w'.upVotes == w.upVotes + [name];
      }
    }
    forall n | n in w'.upVotes
      ensures n !in w'.downVotes
    {
      if n != name {
        assert multiset(w'.upVotes)[n] == multiset(w.upVotes)[n];
        assert multiset(w'.downVotes)[n] == multiset(w.downVotes)[n];
      }
    }
  }

  /** A downvote keeps the vote lists well formed. */
  lemma DownVoteKeepsWellFormed(w: Website, name: string)
    requires VotesWellFormed(w)
    ensures VotesWellFormed(DownVote(w, name))
  {
    DownVoteMirrorsUpVote(w, name);
    UpVoteKeepsWellFormed(SwapVotes(w), name);
  }

  /** Two upvotes from a name in neither list restore both lists. */
  lemma {:induction false} UpVoteTwiceRestores(w: Website, name: string)
    requires name !in w.upVotes && name !in w.downVotes
    ensures UpVote(UpVote(w, name), name) == w
  {
    WithoutAppend(w.upVotes, name);
    WithoutAbsent(w.upVotes, name);
  }

  /** An upvote then a downvote from a name in neither list leaves it only among the down-votes. */
  lemma {:induction false} UpThenDownVote(w: Website, name: string)
    requires name !in w.upVotes && name !in w.downVotes
    ensures DownVote(UpVote(w, name), name) == w.(downVotes := w.downVotes + [name])
  {
    WithoutAppend(w.upVotes, name);
    WithoutAbsent(w.upVotes, name);
  }

  /** `addUpVoteToWebsite`: the website must exist, then the voter; the
      voter's display name is toggled among the up-votes and removed from the
      down-votes, and both lists are returned. */
  function AddUpVoteToWebsite(s: Store, websiteId: Id, userId: Id): (r: Result<Step<VoteOutcome>>)
    ensures websiteId !in s.websites ==> r == Err(NotFound(WEBSITE_NOT_FOUND))
    ensures websiteId in s.websites && userId !in s.users ==> r == Err(NotFound(USER_NOT_FOUND))
    ensures r.Ok? <==> websiteId in s.websites && userId in s.users
    ensures r.Ok? ==>
      var w' := UpVote(s.websites[websiteId], DisplayName(s.users[userId]));
      && r.value.store == s.(websites := s.websites[websiteId := w'])
      && r.value.out == VoteOutcome(w'.upVotes, w'.downVotes, websiteId)
  {
    var website :- CheckWebsiteExists(s, websiteId);
    var user :- CheckUserExists(s, userId);
    var w' := UpVote(website, DisplayName(user));
    Ok(Step(s.(websites := s.websites[websiteId := w']), VoteOutcome(w'.upVotes, w'.downVotes, websiteId)))
  }

  /** `addDownVoteToWebsite`, the mirror image of the upvote. */
  function AddDownVoteToWebsite(s: Store, websiteId: Id, userId: Id): (r: Result<Step<VoteOutcome>>)
    ensures websiteId !in s.websites ==> r == Err(NotFound(WEBSITE_NOT_FOUND))
    ensures websiteId in s.websites && userId !in s.users ==> r == Err(NotFound(USER_NOT_FOUND))
    ensures r.Ok? <==> websiteId in s.websites && userId in s.users
    ensures r.Ok? ==>
      var w' := DownVote(s.websites[websiteId], DisplayName(s.users[userId]));
      && r.value.store == s.(websites := s.websites[websiteId := w'])
      && r.value.out == VoteOutcome(w'.upVotes, w'.downVotes, websiteId)
  {
    var website :- CheckWebsiteExists(s, websiteId);
    var user :- CheckUserExists(s, userId);
    var w' := DownVote(website, DisplayName(user));
    Ok(Step(s.(websites := s.websites[websiteId := w']), VoteOutcome(w'.upVotes, w'.downVotes, websiteId)))
  }

  /** Voting keeps every store invariant. */
  lemma VotesKeepConsistent(s: Store, websiteId: Id, userId: Id)
    requires Consistent(s)
    requires websiteId in s.websites && userId in s.users
    ensures Consistent(AddUpVoteToWebsite(s, websiteId, userId).value.store)
    ensures Consistent(AddDownVoteToWebsite(s, websiteId, userId).value.store)
  {
    var w := s.websites[websiteId];
    var name := DisplayName(s.users[userId]);
    UpVoteKeepsWellFormed(w, name);
    DownVoteKeepsWellFormed(w, name);
    ReplaceWebsiteKeepsConsistent(s, websiteId, UpVote(w, name));
    ReplaceWebsiteKeepsConsistent(s, websiteId, DownVote(w, name));
  }

  /** Votes are keyed by display name, not by user: a second user with the
      same first and last name cancels the first user's upvote. */
  lemma SameNameCancelsUpVote(s: Store, websiteId: Id, a: Id, b: Id)
    requires websiteId in s.websites && a in s.users && b in s.users
    requires DisplayName(s.users[a]) == DisplayName(s.users[b])
    requires DisplayName(s.users[a]) !in s.websites[websiteId].upVotes
    requires DisplayName(s.users[a]) !in s.websites[websiteId].downVotes
    ensures var s1 := AddUpVoteToWebsite(s, websiteId, a).value.store;
            AddUpVoteToWebsite(s1, websiteId, b).value.store == s
  {
    UpVoteTwiceRestores(s.websites[websiteId], DisplayName(s.users[a]));
  }
}

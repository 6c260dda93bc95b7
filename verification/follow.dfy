/** Following organizations: the follow, unfollow and list endpoints as
    transitions on the relation between users and organizations. */
module Follow {
  import opened Wrappers
  import opened Seqs
  import opened Organization

  type UserId = nat
  type Slug = string

  /** `User.followed_organizations`: the pairs (user, organization slug) of
      the many-to-many relation. Slugs are unique, so a slug stands for its
      organization. */
  type Follows = set<(UserId, Slug)>

  /** The HTTP statuses the endpoints answer with. */
  datatype Status = Ok200 | BadRequest400 | Unauthorized401 | NotFound404 {
    function Code(): (n: nat)
      ensures 200 <= n < 500
      ensures (n == 200) == this.Ok200?
    {
      match this
      case Ok200 => 200
      case BadRequest400 => 400
      case Unauthorized401 => 401
      case NotFound404 => 404
    }
  }

  /** A response: its status and, for the answers the views write
      themselves, the `detail` message. */
  datatype Response = Response(status: Status, detail: Option<string>)

  /** A response together with the follow relation after the request. */
  datatype Transition = Transition(response: Response, follows: Follows)

  /** The followed list: `count` and the serialized `results`. */
  datatype Listing = Listing(count: nat, results: seq<Org>)

  // ---------------------------------------------------------------------
  // The catalog of organizations
  // ---------------------------------------------------------------------

  /** No two organizations share a slug (`slug` is a unique field). */
  predicate UniqueSlugs(orgs: seq<Org>) {
    forall i, j | 0 <= i < |orgs| && 0 <= j < |orgs| && orgs[i].slug == orgs[j].slug :: i == j
  }

  /** `get_object_or_404(Organization, slug=slug)`: the organization with
      that slug, or none, which the views answer with 404. */
  function FindBySlug(orgs: seq<Org>, slug: Slug): (r: Option<Org>)
    ensures r.Some? ==> r.value in orgs && r.value.slug == slug
    ensures r.None? <==> (forall o :: o in orgs ==> o.slug != slug)
  {
    if orgs == [] then None
    else if orgs[0].slug == slug then Some(orgs[0])
    else
      assert forall o :: o in orgs <==> o == orgs[0] || o in orgs[1..];
      FindBySlug(orgs[1..], slug)
  }

  /** With unique slugs a slug names at most one organization. */
  lemma SameSlugSameOrg(orgs: seq<Org>, a: Org, b: Org)
    requires UniqueSlugs(orgs)
    requires a in orgs && b in orgs && a.slug == b.slug
    ensures a == b
  {
    var i :| 0 <= i < |orgs| && orgs[i] == a;
    var j :| 0 <= j < |orgs| && orgs[j] == b;
  }

  /** Unique slugs leave no organization listed twice. */
  lemma UniqueSlugsDistinct(orgs: seq<Org>)
    requires UniqueSlugs(orgs)
    ensures Distinct(orgs)
  {
  }

  /** Every followed slug belongs to an organization of the catalog (the
      relation's foreign key). */
  predicate Referential(orgs: seq<Org>, follows: Follows) {
    forall p | p in follows :: FindBySlug(orgs, p.1).Some?
  }

  /** The slugs `u` follows. */
  function Following(follows: Follows, u: UserId): (r: set<Slug>)
    ensures forall s :: s in r <==> (u, s) in follows
  {
    set p | p in follows && p.0 == u :: p.1
  }

  /** `organization.followers`: the users paired with the organization. */
  function Followers(follows: Follows, slug: Slug): (r: set<UserId>)
    ensures forall v :: v in r <==> (v, slug) in follows
  {
    set p | p in follows && p.1 == slug :: p.0
  }

  // ---------------------------------------------------------------------
  // The endpoints
  // ---------------------------------------------------------------------

  /** `POST follow/<slug>/`. `user` is the authenticated caller, if any. */
  function FollowOrg(orgs: seq<Org>, follows: Follows, user: Option<UserId>, slug: Slug): (t: Transition)
    ensures t.response.status == Unauthorized401 <==> user.None?
    ensures t.response.status == NotFound404 <==> (user.Some? && FindBySlug(orgs, slug).None?)
    ensures t.response.status == BadRequest400 <==>
      (user.Some? && FindBySlug(orgs, slug).Some? && (user.value, slug) in follows)
    ensures t.response.status == Ok200 <==> t.follows != follows
    ensures user.Some? && FindBySlug(orgs, slug).Some? ==> t.follows == follows + {(user.value, slug)}
  {
    match user
    case None => Transition(Response(Unauthorized401, None), follows)
    case Some(u) =>
      match FindBySlug(orgs, slug)
      case None => Transition(Response(NotFound404, None), follows)
      case Some(org) =>
        if (u, slug) in follows then
          Transition(Response(BadRequest400, Some("You are already following " + org.name)), follows)
        else
          Transition(Response(Ok200, Some("Followed " + org.name)), follows + {(u, slug)})
  }

  /** `POST unfollow/<slug>/`. */
  function UnfollowOrg(orgs: seq<Org>, follows: Follows, user: Option<UserId>, slug: Slug): (t: Transition)
    ensures t.response.status == Unauthorized401 <==> user.None?
    ensures t.response.status == NotFound404 <==> (user.Some? && FindBySlug(orgs, slug).None?)
    ensures t.response.status == BadRequest400 <==>
      (user.Some? && FindBySlug(orgs, slug).Some? && (user.value, slug) !in follows)
    ensures t.response.status == Ok200 <==> t.follows != follows
    ensures user.Some? && FindBySlug(orgs, slug).Some? ==> t.follows == follows - {(user.value, slug)}
  {
    match user
    case None => Transition(Response(Unauthorized401, None), follows)
    case Some(u) =>
      match FindBySlug(orgs, slug)
      case None => Transition(Response(NotFound404, None), follows)
      case Some(org) =>
        if (u, slug) !in follows then
          Transition(Response(BadRequest400, Some("You are not following " + org.name)), follows)
        else
          Transition(Response(Ok200, Some("Unfollowed " + org.name)), follows - {(u, slug)})
  }

  /** The organizations `u` follows, in catalog order. */
  function Followed(orgs: seq<Org>, follows: Follows, u: UserId): (r: seq<Org>)
    ensures forall o :: o in r <==> o in orgs && (u, o.slug) in follows
    ensures multiset(r) <= multiset(orgs)
  {
    FilterMembers(orgs, (o: Org) => (u, o.slug) in follows);
    Filter(orgs, (o: Org) => (u, o.slug) in follows)
  }

  /** `GET followed-organizations/`: 401 for an anonymous caller, otherwise
      the followed organizations in name order and their number. */
  function ListFollowed(orgs: seq<Org>, follows: Follows, user: Option<UserId>): (r: Result<Listing, Status>)
    ensures r.Err? <==> user.None?
    ensures r.Err? ==> r.error == Unauthorized401
    ensures r.Ok? ==> r.value.count == |r.value.results|
    ensures r.Ok? ==> SortedByName(r.value.results)
    ensures r.Ok? ==> forall o :: o in r.value.results <==> (o in orgs && (user.value, o.slug) in follows)
  {
    match user
    case None => Err(Unauthorized401)
    case Some(u) =>
      var followed := Followed(orgs, follows, u);
      var results := SortByName(followed);
      SameMembers(results, followed);
      assert |results| == |multiset(results)| == |followed|;
      Ok(Listing(|followed|, results))
  }

  // ---------------------------------------------------------------------
  // Properties
  // ---------------------------------------------------------------------

  /** Following and then unfollowing the same organization gives back the
      relation the user started from. */
  lemma FollowThenUnfollow(orgs: seq<Org>, follows: Follows, u: UserId, slug: Slug)
    requires FollowOrg(orgs, follows, Some(u), slug).response.status == Ok200
    ensures var after := FollowOrg(orgs, follows, Some(u), slug).follows;
      && UnfollowOrg(orgs, after, Some(u), slug).response.status == Ok200
      && UnfollowOrg(orgs, after, Some(u), slug).follows == follows
  {
  }

  /** Unfollowing and then following again gives back the relation too. */
  lemma UnfollowThenFollow(orgs: seq<Org>, follows: Follows, u: UserId, slug: Slug)
    requires UnfollowOrg(orgs, follows, Some(u), slug).response.status == Ok200
    ensures var after := UnfollowOrg(orgs, follows, Some(u), slug).follows;
      && FollowOrg(orgs, after, Some(u), slug).response.status == Ok200
      && FollowOrg(orgs, after, Some(u), slug).follows == follows
  {
  }

  /** One user's requests never change what another user follows. */
  lemma OtherUsersUnaffected(orgs: seq<Org>, follows: Follows, u: UserId, v: UserId, slug: Slug)
    requires u != v
    ensures Following(FollowOrg(orgs, follows, Some(u), slug).follows, v) == Following(follows, v)
    ensures Following(UnfollowOrg(orgs, follows, Some(u), slug).follows, v) == Following(follows, v)
  {
  }

  /** A successful follow adds the caller to the organization's followers
      and to nobody else's; a successful unfollow removes them again. */
  lemma FollowersChange(orgs: seq<Org>, follows: Follows, u: UserId, slug: Slug, other: Slug)
    requires FindBySlug(orgs, slug).Some?
    requires other != slug
    ensures Followers(FollowOrg(orgs, follows, Some(u), slug).follows, slug) == Followers(follows, slug) + {u}
    ensures Followers(UnfollowOrg(orgs, follows, Some(u), slug).follows, slug) == Followers(follows, slug) - {u}
    ensures Followers(FollowOrg(orgs, follows, Some(u), slug).follows, other) == Followers(follows, other)
    ensures Followers(UnfollowOrg(orgs, follows, Some(u), slug).follows, other) == Followers(follows, other)
  {
  }

  /** The endpoints only ever relate users to organizations that exist. */
  lemma EndpointsKeepReferential(orgs: seq<Org>, follows: Follows, user: Option<UserId>, slug: Slug)
    requires Referential(orgs, follows)
    ensures Referential(orgs, FollowOrg(orgs, follows, user, slug).follows)
    ensures Referential(orgs, UnfollowOrg(orgs, follows, user, slug).follows)
  {
  }

  /** The listed count is the number of organizations the user follows. */
  lemma {:induction false} ListCountIsFollowCount(orgs: seq<Org>, follows: Follows, u: UserId)
    requires UniqueSlugs(orgs)
    requires Referential(orgs, follows)
    ensures ListFollowed(orgs, follows, Some(u)).Ok?
    ensures ListFollowed(orgs, follows, Some(u)).value.count == |Following(follows, u)|
  {
    var followed := Followed(orgs, follows, u);
    UniqueSlugsDistinct(orgs);
    FilterDistinct(orgs, (o: Org) => (u, o.slug) in follows);
    var slugs := SlugsOf(followed);
    SlugsDistinct(orgs, followed);
    DistinctCard(slugs);
    FollowedSlugSet(orgs, follows, u);
  }

  /** Under the foreign key, the slugs of the followed organizations are
      exactly the slugs the user follows. */
  lemma FollowedSlugSet(orgs: seq<Org>, follows: Follows, u: UserId)
    requires Referential(orgs, follows)
    ensures (set s | s in SlugsOf(Followed(orgs, follows, u))) == Following(follows, u)
  {
    var followed := Followed(orgs, follows, u);
    var slugs := SlugsOf(followed);
    forall s | s in Following(follows, u)
      ensures s in slugs
    {
      var o := FindBySlug(orgs, s).value;
      assert o in followed;
      var i :| 0 <= i < |followed| && followed[i] == o;
      assert slugs[i] == s;
    }
  }

  /** The slugs of `picked`, position by position. */
  function SlugsOf(picked: seq<Org>): (r: seq<Slug>)
    ensures |r| == |picked|
    ensures forall i :: 0 <= i < |picked| ==> r[i] == picked[i].slug
  {
    seq(|picked|, i requires 0 <= i < |picked| => picked[i].slug)
  }

  /** Organizations drawn without repetition from a catalog with unique
      slugs have pairwise different slugs. */
  lemma SlugsDistinct(orgs: seq<Org>, picked: seq<Org>)
    requires UniqueSlugs(orgs)
    requires Distinct(picked)
    requires forall o :: o in picked ==> o in orgs
    ensures Distinct(SlugsOf(picked))
  {
    var slugs := SlugsOf(picked);
    forall i, j | 0 <= i < j < |slugs|
      ensures slugs[i] != slugs[j]
    {
      if slugs[i] == slugs[j] {
        SameSlugSameOrg(orgs, picked[i], picked[j]);
      }
    }
  }

  /** Together: a successful follow raises the listed count by one. */
  lemma FollowRaisesCount(orgs: seq<Org>, follows: Follows, u: UserId, slug: Slug)
    requires UniqueSlugs(orgs)
    requires Referential(orgs, follows)
    requires FollowOrg(orgs, follows, Some(u), slug).response.status == Ok200
    ensures var after := FollowOrg(orgs, follows, Some(u), slug).follows;
      ListFollowed(orgs, after, Some(u)).value.count == ListFollowed(orgs, follows, Some(u)).value.count + 1
  {
    var after := FollowOrg(orgs, follows, Some(u), slug).follows;
    assert after == follows + {(u, slug)} && (u, slug) !in follows;
    EndpointsKeepReferential(orgs, follows, Some(u), slug);
    ListCountIsFollowCount(orgs, follows, u);
    ListCountIsFollowCount(orgs, after, u);
    FollowingGrows(follows, u, slug);
  }

  lemma FollowingGrows(follows: Follows, u: UserId, slug: Slug)
    requires (u, slug) !in follows
    ensures |Following(follows + {(u, slug)}, u)| == |Following(follows, u)| + 1
  {
    assert Following(follows + {(u, slug)}, u) == Following(follows, u) + {slug};
  }
}

/** The user service: a user's public profile, the follow graph between
    users, and the paged lists of a user's followers and followees. The
    account tables are shared with the sign-up service. */
module Users {
  import opened Common

  datatype Role = UserRole | AdminRole

  function RoleName(role: Role): string {
    match role
    case UserRole => "user"
    case AdminRole => "admin"
  }

  /** A stored account. `password` holds the hash, never the password. */
  datatype UserRow = UserRow(email: string, password: string, name: string, displayName: Option<string>, role: Role)

  /** A follow edge. Its identifier comes from a counter, so a later edge
      has a larger one and creation order is identifier order. */
  datatype Follow = Follow(id: Id, followerId: Id, followingId: Id)

  /** No two accounts share an email: the column is unique. */
  predicate EmailsUnique(users: seq<UserRow>) {
    forall i, j :: 0 <= i < j < |users| ==> users[i].email != users[j].email
  }

  /** The edges are stored in creation order. */
  predicate Increasing(follows: seq<Follow>) {
    forall i, j :: 0 <= i < j < |follows| ==> follows[i].id < follows[j].id
  }

  /** The pair (follower, following) is unique. */
  predicate Unique(follows: seq<Follow>) {
    forall i, j :: 0 <= i < j < |follows| ==>
      follows[i].followerId != follows[j].followerId || follows[i].followingId != follows[j].followingId
  }

  /** The follow relation the edges stand for. */
  function Edges(follows: seq<Follow>): set<(Id, Id)> {
    set f | f in follows :: (f.followerId, f.followingId)
  }

  /** The account tables: users (a user's identifier is its position),
      follow edges in creation order, and the counter for edge identifiers. */
  class Accounts {
    var users: seq<UserRow>
    var follows: seq<Follow>
    var nextFollowId: nat

    predicate Valid()
      reads this
    {
      && EmailsUnique(users)
      && Increasing(follows)
      && Unique(follows)
      && (forall f :: f in follows ==> f.id < nextFollowId && f.followerId < |users| && f.followingId < |users|)
    }

    constructor ()
      ensures Valid() && users == [] && follows == []
    {
      users, follows, nextFollowId := [], [], 0;
    }
  }

  // ---------------------------------------------------------------------
  // findById

  /** The profile `findById` returns. */
  datatype Profile = Profile(id: Id, email: string, name: string, displayName: Option<string>, role: Role)

  /** `findById`: NotFound for an unknown user; otherwise the user's
      profile, where an empty display name reads as `null`. A failed lookup
      reaches the caller as it is. */
  function FindById(users: seq<UserRow>, id: Id, fault: Option<Failure>): (r: Result<Profile>)
    ensures fault.Some? ==> r == Err(fault.value)
    ensures fault.None? && id >= |users| ==> r == Err(Raised(NotFound("User with ID " + NatToString(id) + " not found")))
    ensures fault.None? && id < |users| ==>
              && r.Ok? && r.value.id == id
              && r.value.email == users[id].email && r.value.name == users[id].name && r.value.role == users[id].role
              && (r.value.displayName.Some? <==> Truthy(users[id].displayName))
              && (r.value.displayName.Some? ==> r.value.displayName == users[id].displayName)
  {
    if fault.Some? then Err(fault.value)
    else if id >= |users| then Err(Raised(NotFound("User with ID " + NatToString(id) + " not found")))
    else
      var u := users[id];
      Ok(Profile(id, u.email, u.name, if Truthy(u.displayName) then u.displayName else None, u.role))
  }

  // ---------------------------------------------------------------------
  // followUser and unfollowUser

  /** The position of the edge from `a` to `b`, if there is one. */
  function EdgeIndex(follows: seq<Follow>, a: Id, b: Id): (r: Option<nat>)
    ensures r.None? <==> (a, b) !in Edges(follows)
    ensures r.Some? ==> r.value < |follows| && follows[r.value].followerId == a && follows[r.value].followingId == b
  {
    if follows == [] then None
    else if follows[0].followerId == a && follows[0].followingId == b then Some(0)
    else match EdgeIndex(follows[1..], a, b)
         case None =>
           assert Edges(follows) == Edges(follows[1..]) + {(follows[0].followerId, follows[0].followingId)} by {
             assert follows == [follows[0]] + follows[1..];
           }
           None
         case Some(i) => Some(i + 1)
  }

  /** The `catch` of `followUser`: a unique-index violation is the same
      Conflict as the explicit check, a missing row a NotFound, and
      everything else is rethrown. */
  function FollowCatch(err: Failure): (thrown: Failure)
    ensures err.PrismaKnown? && err.code == "P2002" ==> thrown == Raised(Conflict("Already following this user"))
    ensures err.PrismaKnown? && err.code == "P2025" ==> thrown == Raised(NotFound("User not found"))
    ensures !(err.PrismaKnown? && (err.code == "P2002" || err.code == "P2025")) ==> thrown == err
  {
    if err.PrismaKnown? && err.code == "P2002" then Raised(Conflict("Already following this user"))
    else if err.PrismaKnown? && err.code == "P2025" then Raised(NotFound("User not found"))
    else err
  }

  /** Appending an edge adds exactly its pair to the relation. */
  lemma AppendEdge(follows: seq<Follow>, f: Follow)
    ensures Edges(follows + [f]) == Edges(follows) + {(f.followerId, f.followingId)}
  {
    var longer := follows + [f];
    forall p | p in Edges(longer)
      ensures p in Edges(follows) + {(f.followerId, f.followingId)}
    {
      var g :| g in longer && p == (g.followerId, g.followingId);
      if g != f {
        assert g in follows;
      }
    }
    forall p | p in Edges(follows)
      ensures p in Edges(longer)
    {
      var g :| g in follows && p == (g.followerId, g.followingId);
      assert g in longer;
    }
    assert f in longer;
  }

  /** Removing the edge at position `i` removes exactly its pair from the
      relation, because pairs are unique. */
  lemma RemoveEdge(follows: seq<Follow>, i: nat)
    requires i < |follows| && Unique(follows)
    ensures Edges(follows[..i] + follows[i + 1..]) == Edges(follows) - {(follows[i].followerId, follows[i].followingId)}
  {
    var shorter := follows[..i] + follows[i + 1..];
    var gone := (follows[i].followerId, follows[i].followingId);
    forall p | p in Edges(shorter)
      ensures p in Edges(follows) && p != gone
    {
      var g :| g in shorter && p == (g.followerId, g.followingId);
      var k :| 0 <= k < |shorter| && shorter[k] == g;
      var at := if k < i then k else k + 1;
      assert follows[at] == g;
      if at < i {
        assert !(follows[at].followerId == follows[i].followerId && follows[at].followingId == follows[i].followingId);
      } else {
        assert i < at;
      }
    }
    forall p | p in Edges(follows) && p != gone
      ensures p in Edges(shorter)
    {
      var g :| g in follows && p == (g.followerId, g.followingId);
      var k :| 0 <= k < |follows| && follows[k] == g;
      assert k != i;
      if k < i {
        assert shorter[k] == g;
      } else {
        assert shorter[k - 1] == g;
      }
    }
  }

  /** Removing an edge keeps every other edge and adds none. */
  lemma RemoveKeepsOthers(follows: seq<Follow>, i: nat)
    requires i < |follows|
    ensures |follows[..i] + follows[i + 1..]| == |follows| - 1
    ensures forall f :: f in follows[..i] + follows[i + 1..] ==> f in follows
  {
    var shorter := follows[..i] + follows[i + 1..];
    forall f | f in shorter
      ensures f in follows
    {
      var k :| 0 <= k < |shorter| && shorter[k] == f;
      assert shorter[k] == follows[if k < i then k else k + 1];
    }
  }

  /** Removing an edge keeps the table in creation order and its pairs
      unique. */
  lemma RemoveKeepsTable(follows: seq<Follow>, i: nat)
    requires i < |follows| && Increasing(follows) && Unique(follows)
    ensures Increasing(follows[..i] + follows[i + 1..]) && Unique(follows[..i] + follows[i + 1..])
  {
    var shorter := follows[..i] + follows[i + 1..];
    forall a, b | 0 <= a < b < |shorter|
      ensures shorter[a].id < shorter[b].id
      ensures shorter[a].followerId != shorter[b].followerId || shorter[a].followingId != shorter[b].followingId
    {
      var a' := if a < i then a else a + 1;
      var b' := if b < i then b else b + 1;
      assert shorter[a] == follows[a'] && shorter[b] == follows[b'] && a' < b';
    }
  }

  // ---------------------------------------------------------------------
  // getFollewers and getFollowing

  /** Which list is paged: the followers of a user, or the users it follows. */
  datatype Side = Followers | Followees

  /** The edge belongs to the list of user `u`. */
  predicate OnList(f: Follow, u: Id, side: Side) {
    match side
    case Followers => f.followingId == u
    case Followees => f.followerId == u
  }

  /** The user an edge of the list shows: the follower, or the followee. */
  function Shown(f: Follow, side: Side): Id {
    match side
    case Followers => f.followerId
    case Followees => f.followingId
  }

  /** The edges of the list of `u`, newest first. */
  function NewestFirst(follows: seq<Follow>, u: Id, side: Side): (r: seq<Follow>)
    ensures forall f :: f in r <==> f in follows && OnList(f, u, side)
  {
    if follows == [] then []
    else
      var rest := NewestFirst(follows[1..], u, side);
      assert forall f :: f in follows <==> f == follows[0] || f in follows[1..];
      if OnList(follows[0], u, side) then rest + [follows[0]] else rest
  }

  predicate Descending(edges: seq<Follow>) {
    forall i, j :: 0 <= i < j < |edges| ==> edges[i].id > edges[j].id
  }

  /** Listed newest first: in a table kept in creation order, each edge of
      the list is younger than the ones after it. */
  lemma {:induction false} NewestFirstIsDescending(follows: seq<Follow>, u: Id, side: Side)
    requires Increasing(follows)
    ensures Descending(NewestFirst(follows, u, side))
  {
    if follows != [] {
      NewestFirstIsDescending(follows[1..], u, side);
      var rest := NewestFirst(follows[1..], u, side);
      forall k | 0 <= k < |rest|
        ensures rest[k].id > follows[0].id
      {
        assert rest[k] in follows[1..];
        var m :| 0 <= m < |follows[1..]| && follows[1..][m] == rest[k];
        assert follows[m + 1] == rest[k];
      }
      if OnList(follows[0], u, side) {
        var r := rest + [follows[0]];
        forall i, j | 0 <= i < j < |r|
          ensures r[i].id > r[j].id
        {
          assert r[i] == rest[i];
          if j < |rest| {
            assert r[j] == rest[j];
          } else {
            assert r[j] == follows[0];
            assert rest[i].id > follows[0].id;
          }
        }
      }
    }
  }

  /** `page < 1 || limit < 1 || limit > 100` is refused. */
  /** The bounds `getFollewers` and `getFollowing` check before any read.
      A valid page starts at a whole offset and takes at most 100 items. */
  predicate ValidPaging(page: int, limit: int)
    ensures ValidPaging(page, limit) ==> (page - 1) * limit >= 0 && 0 < limit <= 100
  {
    page >= 1 && 1 <= limit <= 100
  }

  /** `skip: skip, take: take`: the items from position `skip` on, at
      most `take` of them. */
  function Window<T>(xs: seq<T>, skip: nat, take: nat): (w: seq<T>)
    ensures |w| <= take
    ensures w == xs[Min(skip, |xs|)..Min(skip + take, |xs|)]
  {
    if skip >= |xs| then [] else xs[skip..Min(skip + take, |xs|)]
  }

  /** Page `page` of `limit` items: `skip: (page - 1) * limit, take: limit`. */
  function PageOf<T>(xs: seq<T>, page: int, limit: int): seq<T>
    requires page >= 1 && limit >= 1
  {
    Window(xs, (page - 1) * limit, limit)
  }

  /** The first `k` pages, one after the other. */
  function Pages<T>(xs: seq<T>, k: nat, limit: int): seq<T>
    requires limit >= 1
  {
    if k == 0 then [] else Pages(xs, k - 1, limit) + PageOf(xs, k, limit)
  }

  /** Paging neither skips nor repeats an item: the first `k` pages are
      exactly the first `k * limit` items. */
  lemma {:induction false} PagesCover<T>(xs: seq<T>, k: nat, limit: int)
    requires limit >= 1
    ensures Pages(xs, k, limit) == xs[..Min(k * limit, |xs|)]
  {
    if k > 0 {
      PagesCover(xs, k - 1, limit);
      var skip := (k - 1) * limit;
      assert skip + limit == k * limit;
      var before := Min(skip, |xs|);
      var after := Min(k * limit, |xs|);
      assert xs[..before] + xs[before..after] == xs[..after];
    }
  }

  /** The answer of a list request: the users shown, and the request's
      paging with the size of the whole list. */
  datatype FollowPage = FollowPage(data: seq<Id>, page: int, limit: int, total: nat)

  function ShownUsers(edges: seq<Follow>, side: Side): (r: seq<Id>)
    ensures |r| == |edges|
    ensures forall k :: 0 <= k < |edges| ==> r[k] == Shown(edges[k], side)
  {
    if edges == [] then [] else [Shown(edges[0], side)] + ShownUsers(edges[1..], side)
  }

  function MissingUserMessage(u: Id, side: Side): string {
    match side
    case Followers => "User with ID " + NatToString(u) + " not found"
    case Followees => "User with ID " + NatToString(u) + " not Found"
  }

  lemma WindowShows(list: seq<Follow>, skip: nat, take: nat, side: Side)
    ensures var data := ShownUsers(Window(list, skip, take), side);
            && |data| <= take
            && forall k :: 0 <= k < |data| ==> skip + k < |list| && data[k] == Shown(list[skip + k], side)
  {
  }

  /** One page of the list of `u`, newest first, with the size of the
      whole list. */
  function Listing(follows: seq<Follow>, u: Id, page: int, limit: int, side: Side): (p: FollowPage)
    requires ValidPaging(page, limit)
    ensures var list := NewestFirst(follows, u, side);
            var skip := (page - 1) * limit;
            && p.page == page && p.limit == limit
            && p.total == |list|
            && |p.data| == (if skip >= |list| then 0 else Min(limit, |list| - skip))
            && forall k :: 0 <= k < |p.data| ==> skip + k < |list| && p.data[k] == Shown(list[skip + k], side)
  {
    var list := NewestFirst(follows, u, side);
    var skip: nat := (page - 1) * limit;
    WindowShows(list, skip, limit, side);
    FollowPage(ShownUsers(Window(list, skip, limit), side), page, limit, |list|)
  }

  /** `getFollewers` and `getFollowing`: paging outside its bounds is a
      BadRequest before the store is read; an unknown user is a NotFound;
      otherwise the listing. A failed read reaches the caller as it is. */
  function GetFollows(users: seq<UserRow>, follows: seq<Follow>, u: Id, page: int, limit: int, side: Side,
                      fault: Option<Failure>): (r: Result<FollowPage>)
    ensures !ValidPaging(page, limit) ==> r == Err(Raised(BadRequest("Invalid pagination parameters")))
    ensures ValidPaging(page, limit) && fault.Some? ==> r == Err(fault.value)
    ensures ValidPaging(page, limit) && fault.None? && u >= |users| ==> r == Err(Raised(NotFound(MissingUserMessage(u, side))))
    ensures ValidPaging(page, limit) && fault.None? && u < |users| ==> r == Ok(Listing(follows, u, page, limit, side))
  {
    if !ValidPaging(page, limit) then Err(Raised(BadRequest("Invalid pagination parameters")))
    else if fault.Some? then Err(fault.value)
    else if u >= |users| then Err(Raised(NotFound(MissingUserMessage(u, side))))
    else Ok(Listing(follows, u, page, limit, side))
  }

  // ---------------------------------------------------------------------
  // The service

  class UsersService {
    const store: Accounts

    constructor (store: Accounts)
      ensures this.store == store
    {
      this.store := store;
    }

    /** `followUser`: following oneself is refused before the store is
        touched. Inside the transaction an unknown user is a NotFound and an
        existing edge a Conflict; otherwise exactly one edge is added. Every
        failure of the transaction goes through its `catch`, and a failed
        transaction changes nothing. */
    method FollowUser(a: Id, b: Id, fault: Option<Failure>) returns (r: Result<Id>)
      modifies store
      ensures store.users == old(store.users)
      ensures a == b ==>
                r == Err(Raised(BadRequest("Cannot follow your self"))) &&
                store.follows == old(store.follows) && store.nextFollowId == old(store.nextFollowId)
      ensures a != b && fault.Some? ==>
                r == Err(FollowCatch(fault.value)) &&
                store.follows == old(store.follows) && store.nextFollowId == old(store.nextFollowId)
      ensures a != b && fault.None? && (a >= |old(store.users)| || b >= |old(store.users)|) ==>
                r == Err(Raised(NotFound("One or both users not found"))) &&
                store.follows == old(store.follows) && store.nextFollowId == old(store.nextFollowId)
      ensures a != b && fault.None? && a < |old(store.users)| && b < |old(store.users)| && (a, b) in Edges(old(store.follows)) ==>
                r == Err(Raised(Conflict("Already following this user"))) &&
                store.follows == old(store.follows) && store.nextFollowId == old(store.nextFollowId)
      ensures a != b && fault.None? && a < |old(store.users)| && b < |old(store.users)| && (a, b) !in Edges(old(store.follows)) ==>
                && r == Ok(old(store.nextFollowId))
                && store.follows == old(store.follows) + [Follow(old(store.nextFollowId), a, b)]
                && store.nextFollowId == old(store.nextFollowId) + 1
                && Edges(store.follows) == Edges(old(store.follows)) + {(a, b)}
      ensures old(store.Valid()) ==> store.Valid()
    {
      if a == b {
        return Err(Raised(BadRequest("Cannot follow your self")));
      }
      if fault.Some? {
        return Err(FollowCatch(fault.value));
      }
      if a >= |store.users| || b >= |store.users| {
        return Err(FollowCatch(Raised(NotFound("One or both users not found"))));
      }
      var existing := EdgeIndex(store.follows, a, b);
      if existing.Some? {
        return Err(FollowCatch(Raised(Conflict("Already following this user"))));
      }
      var edge := Follow(store.nextFollowId, a, b);
      AppendEdge(store.follows, edge);
      assert forall i :: 0 <= i < |store.follows| ==> store.follows[i] in store.follows;
      store.follows := store.follows + [edge];
      store.nextFollowId := store.nextFollowId + 1;
      return Ok(edge.id);
    }

    /** `unfollowUser`: NotFound when there is no edge; otherwise exactly
        that edge is removed. There is no `catch`: a failed transaction
        reaches the caller as it is and changes nothing. */
    method UnfollowUser(a: Id, b: Id, fault: Option<Failure>) returns (r: Result<Id>)
      modifies store
      ensures store.users == old(store.users) && store.nextFollowId == old(store.nextFollowId)
      ensures fault.Some? ==> r == Err(fault.value) && store.follows == old(store.follows)
      ensures fault.None? && (a, b) !in Edges(old(store.follows)) ==>
                r == Err(Raised(NotFound(" Follow relationship not found"))) && store.follows == old(store.follows)
      ensures fault.None? && (a, b) in Edges(old(store.follows)) ==>
                && r.Ok?
                && |store.follows| == |old(store.follows)| - 1
                && (forall f :: f in store.follows ==> f in old(store.follows))
                && (old(store.Valid()) ==> Edges(store.follows) == Edges(old(store.follows)) - {(a, b)})
      ensures old(store.Valid()) ==> store.Valid()
    {
      if fault.Some? {
        return Err(fault.value);
      }
      var existing := EdgeIndex(store.follows, a, b);
      if existing.None? {
        return Err(Raised(NotFound(" Follow relationship not found")));
      }
      var i := existing.value;
      var id := store.follows[i].id;
      ghost var valid := store.Valid();
      RemoveKeepsOthers(store.follows, i);
      if valid {
        RemoveEdge(store.follows, i);
        RemoveKeepsTable(store.follows, i);
      }
      store.follows := store.follows[..i] + store.follows[i + 1..];
      return Ok(id);
    }
  }
}

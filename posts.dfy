/** Posts: creation with an optional media upload, the field merge of an
    update, deletion, likes, comments and shares. Every like and comment
    row moves its post's counter column in the same transaction, so
    the store keeps each counter equal to the rows it counts. The media
    host is foreign: what it answers for an upload is a function parameter,
    and a failed upload is a failure parameter. */
module Posts {
  import opened Common
  import opened Users

  /** A stored post. `likeCount` and `commentCount` are the counter columns. */
  datatype PostRow = PostRow(userId: Id, title: string, content: Option<string>, caption: Option<string>,
                             isPublic: bool, isFeatured: bool,
                             imageUrl: Option<string>, imagePublicId: Option<string>,
                             videoUrl: Option<string>, videoPublicId: Option<string>,
                             likeCount: int, commentCount: int)

  /** A comment; `parentId` is the comment it answers, if any. */
  datatype CommentRow = CommentRow(postId: Id, userId: Id, content: string, parentId: Option<Id>)

  datatype ShareRow = ShareRow(userId: Id, postId: Id)

  /** The rows of the store, read as one value. */
  datatype Tables = Tables(posts: map<Id, PostRow>, likes: set<(Id, Id)>, comments: map<Id, CommentRow>,
                           shares: map<Id, ShareRow>)

  /** The likes of post `p`; a like is the pair (user, post), of which there
      is at most one. */
  function LikesOf(likes: set<(Id, Id)>, p: Id): set<(Id, Id)> {
    set l | l in likes && l.1 == p
  }

  /** The comments on post `p`. */
  function CommentsOf(comments: map<Id, CommentRow>, p: Id): set<Id> {
    set c | c in comments && comments[c].postId == p
  }

  /** Each counter equals the rows it counts, and every like, comment and
      share belongs to a stored post. */
  predicate Consistent(t: Tables) {
    && (forall p :: p in t.posts ==> t.posts[p].likeCount == |LikesOf(t.likes, p)|)
    && (forall p :: p in t.posts ==> t.posts[p].commentCount == |CommentsOf(t.comments, p)|)
    && (forall l :: l in t.likes ==> l.1 in t.posts)
    && (forall c :: c in t.comments ==> t.comments[c].postId in t.posts)
    && (forall s :: s in t.shares ==> t.shares[s].postId in t.posts)
  }

  /** Every id handed out so far is below `next`. */
  predicate IdsBelow(t: Tables, next: nat) {
    && (forall p :: p in t.posts ==> p < next)
    && (forall c :: c in t.comments ==> c < next)
    && (forall s :: s in t.shares ==> s < next)
  }

  class PostStore {
    var posts: map<Id, PostRow>
    var likes: set<(Id, Id)>
    var comments: map<Id, CommentRow>
    var shares: map<Id, ShareRow>
    var nextId: nat

    function State(): Tables
      reads this
    {
      Tables(posts, likes, comments, shares)
    }

    predicate Valid()
      reads this
    {
      Consistent(State()) && IdsBelow(State(), nextId)
    }

    constructor ()
      ensures Valid() && State() == Tables(map[], {}, map[], map[])
    {
      posts, likes, comments, shares, nextId := map[], {}, map[], map[], 0;
    }
  }

  // Media

  predicate StartsWith(s: string, prefix: string) {
    |prefix| <= |s| && s[..|prefix|] == prefix
  }

  datatype MediaKind = Image | Video

  function KindName(kind: MediaKind): string {
    match kind
    case Image => "image"
    case Video => "video"
  }

  /** What the media host answers for an upload. */
  datatype UploadResult = UploadResult(secureUrl: string, publicId: string, resourceType: string)

  /** An accepted upload. */
  datatype Media = Media(kind: MediaKind, secureUrl: string, publicId: string)

  /** The upload of `createPost` and `updatePost`: no file means no media; an
      `image/` MIME type goes to the image upload and a `video/` one to the
      video upload, whose answer must be of that kind; any other type is
      refused. `upload` is what the host answers for each kind of upload and
      `uploadFault` a failed upload. */
  function Dispatch(mime: Option<string>, upload: MediaKind -> UploadResult, uploadFault: Option<Failure>)
    : (r: Result<Option<Media>>)
    ensures mime.None? ==> r == Ok(None)
    ensures mime.Some? && !StartsWith(mime.value, "image/") && !StartsWith(mime.value, "video/") ==>
              r == Err(Raised(BadRequest("Unsupported file type: " + mime.value)))
    ensures r.Ok? && r.value.Some? ==>
              var kind := r.value.value.kind;
              && mime.Some? && StartsWith(mime.value, KindName(kind))
              && (kind == Video ==> !StartsWith(mime.value, "image/"))
              && upload(kind).resourceType == KindName(kind)
              && r.value.value == Media(kind, upload(kind).secureUrl, upload(kind).publicId)
    ensures mime.Some? && uploadFault.None? && StartsWith(mime.value, "image/") ==>
              (r.Ok? <==> upload(Image).resourceType == "image")
    ensures mime.Some? && uploadFault.None? && !StartsWith(mime.value, "image/") && StartsWith(mime.value, "video/") ==>
              (r.Ok? <==> upload(Video).resourceType == "video")
    ensures mime.Some? && uploadFault.Some? ==> r.Err?
    ensures r.Err? ==> (uploadFault.Some? && r.failure == uploadFault.value) || (r.failure.Raised? && r.failure.ex.BadRequest?)
  {
    if mime.None? then Ok(None)
    else
      var kind :=
        if StartsWith(mime.value, "image/") then Some(Image)
        else if StartsWith(mime.value, "video/") then Some(Video)
        else None;
      if kind.None? then Err(Raised(BadRequest("Unsupported file type: " + mime.value)))
      else if uploadFault.Some? then Err(uploadFault.value)
      else
        var answer := upload(kind.value);
        if answer.resourceType != KindName(kind.value) then
          Err(Raised(BadRequest("Expected " + KindName(kind.value) + " resource, got " + answer.resourceType)))
        else Ok(Some(Media(kind.value, answer.secureUrl, answer.publicId)))
  }

  /** The fields a new post is created from. */
  datatype PostInput = PostInput(title: string, content: Option<string>, caption: Option<string>,
                                 isPublic: Option<bool>, isFeatured: Option<bool>)

  /** The fields an update may carry; an absent one keeps the stored value. */
  datatype PostUpdate = PostUpdate(title: Option<string>, content: Option<string>, caption: Option<string>,
                                   isPublic: Option<bool>, isFeatured: Option<bool>)

  function OrElse<T>(o: Option<T>, fallback: T): T {
    if o.Some? then o.value else fallback
  }

  function UrlOf(media: Option<Media>, kind: MediaKind): Option<string> {
    if media.Some? && media.value.kind == kind then Some(media.value.secureUrl) else None
  }

  /** The row `createPost` stores: visible and not featured unless said
      otherwise, the upload's address in the column of its kind, no public
      ids, no likes or comments yet. */
  function NewPost(userId: Id, input: PostInput, media: Option<Media>): (p: PostRow)
    ensures p.userId == userId && p.title == input.title && p.content == input.content && p.caption == input.caption
    ensures p.isPublic == (input.isPublic != Some(false)) && p.isFeatured == (input.isFeatured == Some(true))
    ensures media.None? ==> p.imageUrl.None? && p.videoUrl.None?
    ensures media.Some? ==> (p.imageUrl.Some? <==> media.value.kind == Image) && (p.videoUrl.Some? <==> media.value.kind == Video)
    ensures media.Some? ==> (if media.value.kind == Image then p.imageUrl else p.videoUrl) == Some(media.value.secureUrl)
    ensures p.imagePublicId.None? && p.videoPublicId.None?
    ensures p.likeCount == 0 && p.commentCount == 0
  {
    PostRow(userId, input.title, input.content, input.caption, OrElse(input.isPublic, true), OrElse(input.isFeatured, false),
            UrlOf(media, Image), None, UrlOf(media, Video), None, 0, 0)
  }

  /** The row `updatePost` writes, as written: each absent field keeps its
      value, and an upload replaces the address and public id of its kind,
      except that a video's public id column receives the video's address. */
  function MergedPost(post: PostRow, update: PostUpdate, media: Option<Media>): (r: PostRow)
    ensures r.userId == post.userId && r.likeCount == post.likeCount && r.commentCount == post.commentCount
    ensures media.None? ==> && r.imageUrl == post.imageUrl && r.imagePublicId == post.imagePublicId
                            && r.videoUrl == post.videoUrl && r.videoPublicId == post.videoPublicId
    ensures media.Some? && media.value.kind == Image ==>
              && r.imagePublicId == Some(media.value.publicId) && r.videoPublicId == post.videoPublicId
    ensures media.Some? && media.value.kind == Video ==>
              && r.videoUrl == Some(media.value.secureUrl) && r.videoPublicId == r.videoUrl
              && r.imagePublicId == post.imagePublicId
  {
    var image := media.Some? && media.value.kind == Image;
    var video := media.Some? && media.value.kind == Video;
    post.(title := OrElse(update.title, post.title),
          content := if update.content.Some? then update.content else post.content,
          caption := if update.caption.Some? then update.caption else post.caption,
          isPublic := OrElse(update.isPublic, post.isPublic),
          isFeatured := OrElse(update.isFeatured, post.isFeatured),
          imageUrl := if image then Some(media.value.secureUrl) else post.imageUrl,
          imagePublicId := if image then Some(media.value.publicId) else post.imagePublicId,
          videoUrl := if video then Some(media.value.secureUrl) else post.videoUrl,
          videoPublicId := if video then Some(media.value.secureUrl) else post.videoPublicId)
  }

  /** The merge with a video's public id stored as its public id. The owner
      and the counters never change; an absent field keeps its value and a
      present one is written; no upload keeps all four media columns; an
      upload writes the address and public id of its kind and keeps the
      other two. It differs from the merge as written in that one column
      only. */
  function MergedPostCorrected(post: PostRow, update: PostUpdate, media: Option<Media>): (r: PostRow)
    ensures r.userId == post.userId && r.likeCount == post.likeCount && r.commentCount == post.commentCount
    ensures r.title == OrElse(update.title, post.title)
    ensures update.content.None? ==> r.content == post.content
    ensures update.content.Some? ==> r.content == update.content
    ensures update.caption.None? ==> r.caption == post.caption
    ensures update.caption.Some? ==> r.caption == update.caption
    ensures r.isPublic == OrElse(update.isPublic, post.isPublic) && r.isFeatured == OrElse(update.isFeatured, post.isFeatured)
    ensures media.None? ==> && r.imageUrl == post.imageUrl && r.imagePublicId == post.imagePublicId
                            && r.videoUrl == post.videoUrl && r.videoPublicId == post.videoPublicId
    ensures media.Some? && media.value.kind == Image ==>
              && r.imageUrl == Some(media.value.secureUrl) && r.imagePublicId == Some(media.value.publicId)
              && r.videoUrl == post.videoUrl && r.videoPublicId == post.videoPublicId
    ensures media.Some? && media.value.kind == Video ==>
              && r.videoUrl == Some(media.value.secureUrl) && r.videoPublicId == Some(media.value.publicId)
              && r.imageUrl == post.imageUrl && r.imagePublicId == post.imagePublicId
    ensures r == MergedPost(post, update, media).(videoPublicId := r.videoPublicId)
  {
    var merged := MergedPost(post, update, media);
    if media.Some? && media.value.kind == Video then merged.(videoPublicId := Some(media.value.publicId)) else merged
  }

  /** As written, a video upload stores its address, not its public id, in
      the public id column, so the stored id cannot name the uploaded asset. */
  lemma AsWrittenVideoPublicIdIsUrl()
    ensures var post := PostRow(0, "t", None, None, true, false, None, None, None, None, 0, 0);
            var media := Some(Media(Video, "https://media.example/v1.mp4", "v1"));
            && MergedPost(post, PostUpdate(None, None, None, None, None), media).videoPublicId
               == Some("https://media.example/v1.mp4")
            && MergedPost(post, PostUpdate(None, None, None, None, None), media).videoPublicId != Some("v1")
  {
  }

  /** The public posts. */
  function PublicPosts(posts: map<Id, PostRow>): (r: set<Id>)
    ensures forall p :: p in r <==> p in posts && posts[p].isPublic
  {
    set p | p in posts && posts[p].isPublic
  }

  // Likes and comments

  /** The likes after a toggle: the pair is added when absent and removed
      when present. */
  function ToggleLike(likes: set<(Id, Id)>, userId: Id, postId: Id): set<(Id, Id)> {
    if (userId, postId) in likes then likes - {(userId, postId)} else likes + {(userId, postId)}
  }

  /** A toggle moves its post's like count by one, up when the like was
      absent and down when it was present, leaves every other post's likes
      alone, and a second toggle undoes the first. */
  lemma ToggleLikeCounts(likes: set<(Id, Id)>, userId: Id, postId: Id)
    ensures var after := ToggleLike(likes, userId, postId);
            && |LikesOf(after, postId)| == |LikesOf(likes, postId)| + (if (userId, postId) in likes then -1 else 1)
            && (forall q :: q != postId ==> LikesOf(after, q) == LikesOf(likes, q))
            && ToggleLike(after, userId, postId) == likes
  {
    var after := ToggleLike(likes, userId, postId);
    if (userId, postId) in likes {
      assert LikesOf(after, postId) == LikesOf(likes, postId) - {(userId, postId)};
    } else {
      assert LikesOf(after, postId) == LikesOf(likes, postId) + {(userId, postId)};
    }
  }

  /** Adding a comment under a fresh id adds one to its post's comments and
      leaves every other post's comments alone. */
  lemma AddCommentCounts(comments: map<Id, CommentRow>, c: Id, row: CommentRow)
    requires c !in comments
    ensures |CommentsOf(comments[c := row], row.postId)| == |CommentsOf(comments, row.postId)| + 1
    ensures forall q :: q != row.postId ==> CommentsOf(comments[c := row], q) == CommentsOf(comments, q)
  {
    assert CommentsOf(comments[c := row], row.postId) == CommentsOf(comments, row.postId) + {c};
  }

  /** The tables after comment `c` is added to its post, with the post's
      counter moved. */
  function WithComment(t: Tables, c: Id, row: CommentRow): Tables
    requires row.postId in t.posts
  {
    var p := row.postId;
    t.(comments := t.comments[c := row], posts := t.posts[p := t.posts[p].(commentCount := t.posts[p].commentCount + 1)])
  }

  /** Adding a comment under the next id keeps the store consistent. */
  lemma {:induction false} WithCommentConsistent(t: Tables, next: nat, row: CommentRow)
    requires Consistent(t) && IdsBelow(t, next) && row.postId in t.posts
    ensures Consistent(WithComment(t, next, row)) && IdsBelow(WithComment(t, next, row), next + 1)
  {
    AddCommentCounts(t.comments, next, row);
  }

  /** Removing a comment takes one from its post's comments and leaves every
      other post's comments alone. */
  lemma RemoveCommentCounts(comments: map<Id, CommentRow>, c: Id)
    requires c in comments
    ensures |CommentsOf(comments - {c}, comments[c].postId)| == |CommentsOf(comments, comments[c].postId)| - 1
    ensures forall q :: q != comments[c].postId ==> CommentsOf(comments - {c}, q) == CommentsOf(comments, q)
  {
    assert CommentsOf(comments - {c}, comments[c].postId) == CommentsOf(comments, comments[c].postId) - {c};
  }

  /** The tables after comment `c` is removed, with its post's counter
      moved. */
  function WithoutComment(t: Tables, c: Id): Tables
    requires c in t.comments && t.comments[c].postId in t.posts
  {
    var p := t.comments[c].postId;
    t.(comments := t.comments - {c}, posts := t.posts[p := t.posts[p].(commentCount := t.posts[p].commentCount - 1)])
  }

  /** Removing a comment keeps the store consistent. */
  lemma {:induction false} WithoutCommentConsistent(t: Tables, next: nat, c: Id)
    requires Consistent(t) && IdsBelow(t, next) && c in t.comments
    ensures Consistent(WithoutComment(t, c)) && IdsBelow(WithoutComment(t, c), next)
  {
    RemoveCommentCounts(t.comments, c);
  }

  /** The tables after post `p` is deleted, taking its likes, comments and
      shares with it. */
  function WithoutPost(t: Tables, p: Id): (r: Tables)
    ensures r.posts == t.posts - {p}
    ensures forall l :: l in r.likes <==> l in t.likes && l.1 != p
    ensures forall c :: c in r.comments <==> c in t.comments && t.comments[c].postId != p
    ensures forall c :: c in r.comments ==> r.comments[c] == t.comments[c]
    ensures forall s :: s in r.shares <==> s in t.shares && t.shares[s].postId != p
    ensures forall s :: s in r.shares ==> r.shares[s] == t.shares[s]
  {
    Tables(t.posts - {p},
           set l | l in t.likes && l.1 != p,
           map c | c in t.comments && t.comments[c].postId != p :: t.comments[c],
           map s | s in t.shares && t.shares[s].postId != p :: t.shares[s])
  }

  /** Deleting a post keeps the store consistent. */
  lemma {:induction false} WithoutPostConsistent(t: Tables, p: Id)
    requires Consistent(t)
    ensures Consistent(WithoutPost(t, p))
  {
    var r := WithoutPost(t, p);
    forall q | q in r.posts
      ensures r.posts[q].likeCount == |LikesOf(r.likes, q)| && r.posts[q].commentCount == |CommentsOf(r.comments, q)|
    {
      assert LikesOf(r.likes, q) == LikesOf(t.likes, q);
      assert CommentsOf(r.comments, q) == CommentsOf(t.comments, q);
    }
  }

  // Error handling

  /** The `catch` of `deletePost` and `deleteComment`: NotFound and
      Unauthorized pass, anything else becomes an InternalServerError. */
  function DeleteCatch(err: Failure, message: string): (thrown: Exception)
    ensures err.Raised? && (err.ex.NotFound? || err.ex.Unauthorized?) ==> thrown == err.ex
    ensures !(err.Raised? && (err.ex.NotFound? || err.ex.Unauthorized?)) ==> thrown == InternalServerError(message)
  {
    if err.Raised? && (err.ex.NotFound? || err.ex.Unauthorized?) then err.ex else InternalServerError(message)
  }

  /** The `catch` of `toggleLikePost` and `commentPost`: NotFound and
      Unauthorized are thrown as their bare message string, anything else
      becomes an InternalServerError. */
  function MessageCatch(err: Failure, message: string): (thrown: Failure)
    ensures err.Raised? && (err.ex.NotFound? || err.ex.Unauthorized?) ==> thrown == ThrownString(err.ex.message)
    ensures !(err.Raised? && (err.ex.NotFound? || err.ex.Unauthorized?)) ==> thrown == Raised(InternalServerError(message))
  {
    if err.Raised? && (err.ex.NotFound? || err.ex.Unauthorized?) then ThrownString(err.ex.message)
    else Raised(InternalServerError(message))
  }

  /** The `catch` of `sharePost`: only NotFound passes. */
  function ShareCatch(err: Failure): (thrown: Exception)
    ensures err.Raised? && err.ex.NotFound? ==> thrown == err.ex
    ensures !(err.Raised? && err.ex.NotFound?) ==> thrown == InternalServerError(ShareFailed)
  {
    if err.Raised? && err.ex.NotFound? then err.ex else InternalServerError(ShareFailed)
  }

  /** A `findUniqueOrThrow` that finds nothing: a known Prisma error, not a
      NotFound exception. */
  const RecordNotFound := PrismaKnown("P2025")

  const DeleteFailed := "Something went wrong while deleting the post"
  const LikeFailed := " You are unable to like or unlike this post at the moment. Please try again later."
  const CommentFailed := "You are unable to comment on this post at the moment. Please try again later."
  const DeleteCommentFailed := "Unable to delete comment at this time"
  const ShareFailed := "Unable to share post at this time"

  datatype LikeOutcome = LikeOutcome(liked: bool, message: string, likeCount: int)
  datatype CommentOutcome = CommentOutcome(commentId: Id, commentCount: int)
  datatype CommentDeleted = CommentDeleted(message: string, commentCount: int)

  class PostService {
    const accounts: Accounts
    const store: PostStore

    constructor (accounts: Accounts, store: PostStore)
      ensures this.accounts == accounts && this.store == store
    {
      this.accounts := accounts;
      this.store := store;
    }

    /** `createPost`: an unknown author is NotFound; then the upload; then
        the insertion. There is no `catch`, so every failure reaches the
        caller as it is, and only a full success changes the store. */
    method CreatePost(input: PostInput, userId: Id, mime: Option<string>, upload: MediaKind -> UploadResult,
                      uploadFault: Option<Failure>, fault: Option<Failure>) returns (r: Result<Id>)
      modifies store
      ensures userId >= |accounts.users| ==>
                r == Err(Raised(NotFound("User not found"))) && unchanged(store)
      ensures userId < |accounts.users| && Dispatch(mime, upload, uploadFault).Err? ==>
                r == Err(Dispatch(mime, upload, uploadFault).failure) && unchanged(store)
      ensures userId < |accounts.users| && Dispatch(mime, upload, uploadFault).Ok? && fault.Some? ==>
                r == Err(fault.value) && unchanged(store)
      ensures userId < |accounts.users| && Dispatch(mime, upload, uploadFault).Ok? && fault.None? ==>
                && r == Ok(old(store.nextId))
                && store.State() == old(store.State()).(posts := old(store.posts)[old(store.nextId) :=
                                      NewPost(userId, input, Dispatch(mime, upload, uploadFault).value)])
                && store.nextId == old(store.nextId) + 1
      ensures old(store.Valid()) ==> store.Valid()
    {
      if userId >= |accounts.users| {
        return Err(Raised(NotFound("User not found")));
      }
      var media := Dispatch(mime, upload, uploadFault);
      if media.Err? {
        return Err(media.failure);
      }
      if fault.Some? {
        return Err(fault.value);
      }
      var id := store.nextId;
      if store.Valid() {
        assert LikesOf(store.likes, id) == {};
        assert CommentsOf(store.comments, id) == {};
      }
      store.posts := store.posts[id := NewPost(userId, input, media.value)];
      store.nextId := id + 1;
      return Ok(id);
    }

    /** `updatePost`: a missing post is NotFound and another user's post
        Unauthorized; then the upload; then the merge, as written. There is
        no `catch`. */
    method UpdatePost(postId: Id, update: PostUpdate, userId: Id, mime: Option<string>,
                      upload: MediaKind -> UploadResult, uploadFault: Option<Failure>, fault: Option<Failure>)
      returns (r: Result<Id>)
      modifies store
      ensures store.nextId == old(store.nextId)
      ensures postId !in old(store.posts) ==> r == Err(Raised(NotFound("Post not found"))) && unchanged(store)
      ensures postId in old(store.posts) && old(store.posts)[postId].userId != userId ==>
                r == Err(Raised(Unauthorized("You are not authorized to update this post"))) && unchanged(store)
      ensures postId in old(store.posts) && old(store.posts)[postId].userId == userId && Dispatch(mime, upload, uploadFault).Err? ==>
                r == Err(Dispatch(mime, upload, uploadFault).failure) && unchanged(store)
      ensures postId in old(store.posts) && old(store.posts)[postId].userId == userId && Dispatch(mime, upload, uploadFault).Ok?
              && fault.Some? ==>
                r == Err(fault.value) && unchanged(store)
      ensures postId in old(store.posts) && old(store.posts)[postId].userId == userId && Dispatch(mime, upload, uploadFault).Ok?
              && fault.None? ==>
                && r == Ok(postId)
                && store.State() == old(store.State()).(posts := old(store.posts)[postId :=
                                      MergedPost(old(store.posts)[postId], update, Dispatch(mime, upload, uploadFault).value)])
      ensures old(store.Valid()) ==> store.Valid()
    {
      if postId !in store.posts {
        return Err(Raised(NotFound("Post not found")));
      }
      var post := store.posts[postId];
      if post.userId != userId {
        return Err(Raised(Unauthorized("You are not authorized to update this post")));
      }
      var media := Dispatch(mime, upload, uploadFault);
      if media.Err? {
        return Err(media.failure);
      }
      if fault.Some? {
        return Err(fault.value);
      }
      store.posts := store.posts[postId := MergedPost(post, update, media.value)];
      return Ok(postId);
    }

    /** `updatePost` with a video's public id stored as its public id: the
        same checks in the same order, then the corrected merge. */
    method UpdatePostCorrected(postId: Id, update: PostUpdate, userId: Id, mime: Option<string>,
                               upload: MediaKind -> UploadResult, uploadFault: Option<Failure>, fault: Option<Failure>)
      returns (r: Result<Id>)
      modifies store
      ensures store.nextId == old(store.nextId)
      ensures r.Err? ==> unchanged(store)
      ensures postId !in old(store.posts) ==> r == Err(Raised(NotFound("Post not found")))
      ensures postId in old(store.posts) && old(store.posts)[postId].userId != userId ==>
                r == Err(Raised(Unauthorized("You are not authorized to update this post")))
      ensures r.Ok? ==>
                && postId in old(store.posts) && old(store.posts)[postId].userId == userId
                && Dispatch(mime, upload, uploadFault).Ok? && fault.None? && r == Ok(postId)
                && store.State() == old(store.State()).(posts := old(store.posts)[postId :=
                                      MergedPostCorrected(old(store.posts)[postId], update, Dispatch(mime, upload, uploadFault).value)])
      ensures r.Ok? && Dispatch(mime, upload, uploadFault).value.Some? ==>
                var media := Dispatch(mime, upload, uploadFault).value.value;
                && media.publicId == upload(media.kind).publicId
                && (if media.kind == Image then store.posts[postId].imagePublicId else store.posts[postId].videoPublicId)
                   == Some(media.publicId)
      ensures old(store.Valid()) ==> store.Valid()
    {
      if postId !in store.posts {
        return Err(Raised(NotFound("Post not found")));
      }
      var post := store.posts[postId];
      if post.userId != userId {
        return Err(Raised(Unauthorized("You are not authorized to update this post")));
      }
      var media := Dispatch(mime, upload, uploadFault);
      if media.Err? {
        return Err(media.failure);
      }
      if fault.Some? {
        return Err(fault.value);
      }
      store.posts := store.posts[postId := MergedPostCorrected(post, update, media.value)];
      return Ok(postId);
    }

    /** `deletePost`: a missing post is NotFound and another user's post
        Unauthorized, both passed on by the `catch`; a failed deletion is an
        InternalServerError. The post's likes, comments and shares go with
        it. */
    method DeletePost(postId: Id, userId: Id, fault: Option<Failure>) returns (r: Result<Id>)
      modifies store
      ensures store.nextId == old(store.nextId)
      ensures postId !in old(store.posts) ==> r == Err(Raised(NotFound("Post not found"))) && unchanged(store)
      ensures postId in old(store.posts) && old(store.posts)[postId].userId != userId ==>
                r == Err(Raised(Unauthorized("You are not authorized to delete this post"))) && unchanged(store)
      ensures postId in old(store.posts) && old(store.posts)[postId].userId == userId && fault.Some? ==>
                r == Err(Raised(DeleteCatch(fault.value, DeleteFailed))) && unchanged(store)
      ensures postId in old(store.posts) && old(store.posts)[postId].userId == userId && fault.None? ==>
                r == Ok(postId) && store.State() == WithoutPost(old(store.State()), postId)
      ensures old(store.Valid()) ==> store.Valid()
    {
      if postId !in store.posts {
        return Err(Raised(DeleteCatch(Raised(NotFound("Post not found")), DeleteFailed)));
      }
      if store.posts[postId].userId != userId {
        return Err(Raised(DeleteCatch(Raised(Unauthorized("You are not authorized to delete this post")), DeleteFailed)));
      }
      if fault.Some? {
        return Err(Raised(DeleteCatch(fault.value, DeleteFailed)));
      }
      var before := store.State();
      var after := WithoutPost(before, postId);
      if store.Valid() {
        WithoutPostConsistent(before, postId);
      }
      store.posts, store.likes, store.comments, store.shares := after.posts, after.likes, after.comments, after.shares;
      return Ok(postId);
    }

    /** `toggleLikePost`: a missing post makes `findUniqueOrThrow` fail,
        which the `catch` turns into an InternalServerError, as it does a
        failed transaction. Otherwise the like is added when absent and
        removed when present, and the post's like count moves with it. */
    method ToggleLikePost(postId: Id, userId: Id, fault: Option<Failure>) returns (r: Result<LikeOutcome>)
      modifies store
      ensures store.comments == old(store.comments) && store.shares == old(store.shares) && store.nextId == old(store.nextId)
      ensures postId !in old(store.posts) ==> r == Err(Raised(InternalServerError(LikeFailed))) && unchanged(store)
      ensures postId in old(store.posts) && fault.Some? ==> r == Err(MessageCatch(fault.value, LikeFailed)) && unchanged(store)
      ensures postId in old(store.posts) && fault.None? ==>
                var liked := (userId, postId) !in old(store.likes);
                var count := old(store.posts)[postId].likeCount + (if liked then 1 else -1);
                && store.likes == ToggleLike(old(store.likes), userId, postId)
                && store.posts == old(store.posts)[postId := old(store.posts)[postId].(likeCount := count)]
                && r == Ok(LikeOutcome(liked, if liked then "Post liked" else "Post unliked", count))
      ensures old(store.Valid()) && r.Ok? ==> r.value.likeCount == |LikesOf(store.likes, postId)|
      ensures old(store.Valid()) ==> store.Valid()
    {
      if postId !in store.posts {
        return Err(MessageCatch(RecordNotFound, LikeFailed));
      }
      if fault.Some? {
        return Err(MessageCatch(fault.value, LikeFailed));
      }
      var liked := (userId, postId) !in store.likes;
      ToggleLikeCounts(store.likes, userId, postId);
      store.likes := ToggleLike(store.likes, userId, postId);
      var count := store.posts[postId].likeCount + (if liked then 1 else -1);
      store.posts := store.posts[postId := store.posts[postId].(likeCount := count)];
      return Ok(LikeOutcome(liked, if liked then "Post liked" else "Post unliked", count));
    }

    /** `commentPost`: a missing post, or a parent comment that does not
        exist, is a NotFound the `catch` throws as its bare message; a failed
        transaction is an InternalServerError. The parent may belong to
        another post. Otherwise one comment is added and the post's comment
        count goes up by one. */
    method CommentPost(postId: Id, userId: Id, content: string, parentId: Option<Id>, fault: Option<Failure>)
      returns (r: Result<CommentOutcome>)
      modifies store
      ensures store.likes == old(store.likes) && store.shares == old(store.shares)
      ensures postId !in old(store.posts) ==> r == Err(ThrownString("Post not found")) && unchanged(store)
      ensures postId in old(store.posts) && parentId.Some? && parentId.value !in old(store.comments) ==>
                r == Err(ThrownString("Parent comment not found")) && unchanged(store)
      ensures postId in old(store.posts) && (parentId.Some? ==> parentId.value in old(store.comments)) && fault.Some? ==>
                r == Err(MessageCatch(fault.value, CommentFailed)) && unchanged(store)
      ensures postId in old(store.posts) && (parentId.Some? ==> parentId.value in old(store.comments)) && fault.None? ==>
                && store.State() == WithComment(old(store.State()), old(store.nextId), CommentRow(postId, userId, content, parentId))
                && store.nextId == old(store.nextId) + 1
                && r == Ok(CommentOutcome(old(store.nextId), old(store.posts)[postId].commentCount + 1))
      ensures old(store.Valid()) && r.Ok? ==> r.value.commentCount == |CommentsOf(store.comments, postId)|
      ensures old(store.Valid()) ==> store.Valid()
    {
      if postId !in store.posts {
        return Err(MessageCatch(Raised(NotFound("Post not found")), CommentFailed));
      }
      if parentId.Some? && parentId.value !in store.comments {
        return Err(MessageCatch(Raised(NotFound("Parent comment not found")), CommentFailed));
      }
      if fault.Some? {
        return Err(MessageCatch(fault.value, CommentFailed));
      }
      var id := store.nextId;
      var row := CommentRow(postId, userId, content, parentId);
      var after := WithComment(store.State(), id, row);
      if store.Valid() {
        WithCommentConsistent(store.State(), id, row);
        AddCommentCounts(store.comments, id, row);
      }
      var count := store.posts[postId].commentCount + 1;
      store.comments, store.posts, store.nextId := after.comments, after.posts, id + 1;
      assert store.State() == after;
      return Ok(CommentOutcome(id, count));
    }

    /** `deleteComment`: a missing comment makes `findUniqueOrThrow` fail,
        which the `catch` turns into an InternalServerError, as it does a
        failed transaction; another user's comment is Unauthorized, passed
        on. Otherwise the comment is removed and its post's comment count
        goes down by one. A comment whose post is gone fails inside the
        transaction like any other failure. */
    method DeleteComment(commentId: Id, userId: Id, fault: Option<Failure>) returns (r: Result<CommentDeleted>)
      modifies store
      ensures store.nextId == old(store.nextId)
      ensures commentId !in old(store.comments) ==>
                r == Err(Raised(InternalServerError(DeleteCommentFailed))) && unchanged(store)
      ensures commentId in old(store.comments) && old(store.comments)[commentId].userId != userId ==>
                r == Err(Raised(Unauthorized("You are not authorized to delete this comment"))) && unchanged(store)
      ensures commentId in old(store.comments) && old(store.comments)[commentId].userId == userId && fault.Some? ==>
                r == Err(Raised(DeleteCatch(fault.value, DeleteCommentFailed))) && unchanged(store)
      ensures commentId in old(store.comments) && old(store.comments)[commentId].userId == userId && fault.None?
              && old(store.comments)[commentId].postId !in old(store.posts) ==>
                r == Err(Raised(InternalServerError(DeleteCommentFailed))) && unchanged(store)
      ensures commentId in old(store.comments) && old(store.comments)[commentId].userId == userId && fault.None?
              && old(store.comments)[commentId].postId in old(store.posts) ==>
                && store.State() == WithoutComment(old(store.State()), commentId)
                && r == Ok(CommentDeleted("Comment deleted", old(store.posts)[old(store.comments)[commentId].postId].commentCount - 1))
      ensures old(store.Valid()) && r.Ok? ==>
                r.value.commentCount == |CommentsOf(store.comments, old(store.comments)[commentId].postId)|
      ensures old(store.Valid()) ==> store.Valid()
    {
      if commentId !in store.comments {
        return Err(Raised(DeleteCatch(RecordNotFound, DeleteCommentFailed)));
      }
      var comment := store.comments[commentId];
      if comment.userId != userId {
        return Err(Raised(DeleteCatch(Raised(Unauthorized("You are not authorized to delete this comment")), DeleteCommentFailed)));
      }
      if fault.Some? {
        return Err(Raised(DeleteCatch(fault.value, DeleteCommentFailed)));
      }
      if comment.postId !in store.posts {
        // the counter update inside the transaction finds no post
        return Err(Raised(DeleteCatch(RecordNotFound, DeleteCommentFailed)));
      }
      var after := WithoutComment(store.State(), commentId);
      if store.Valid() {
        WithoutCommentConsistent(store.State(), store.nextId, commentId);
        RemoveCommentCounts(store.comments, commentId);
      }
      var count := store.posts[comment.postId].commentCount - 1;
      store.comments, store.posts := after.comments, after.posts;
      assert store.State() == after;
      return Ok(CommentDeleted("Comment deleted", count));
    }

    /** `sharePost`: a missing post makes `findUniqueOrThrow` fail, which
        the `catch` turns into an InternalServerError, as it does a failed
        insertion. Otherwise one share is added. */
    method SharePost(postId: Id, userId: Id, fault: Option<Failure>) returns (r: Result<Id>)
      modifies store
      ensures store.posts == old(store.posts) && store.likes == old(store.likes) && store.comments == old(store.comments)
      ensures postId !in old(store.posts) ==> r == Err(Raised(InternalServerError(ShareFailed))) && unchanged(store)
      ensures postId in old(store.posts) && fault.Some? ==>
                r == Err(Raised(ShareCatch(fault.value))) && unchanged(store)
      ensures postId in old(store.posts) && fault.None? ==>
                && store.shares == old(store.shares)[old(store.nextId) := ShareRow(userId, postId)]
                && store.nextId == old(store.nextId) + 1
                && r == Ok(old(store.nextId))
      ensures old(store.Valid()) ==> store.Valid()
    {
      if postId !in store.posts {
        return Err(Raised(ShareCatch(RecordNotFound)));
      }
      if fault.Some? {
        return Err(Raised(ShareCatch(fault.value)));
      }
      var id := store.nextId;
      store.shares := store.shares[id := ShareRow(userId, postId)];
      store.nextId := id + 1;
      return Ok(id);
    }
  }
}

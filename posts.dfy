/** postController.js: creating, listing, liking, commenting on and deleting posts. */
module Posts {
  import opened Results
  import opened Models
  import opened Seqs
  import opened Store

  /** `createPost`: one new post by the caller, stamped with the current time. */
  method CreatePost(db: Database, caller: Id, text: string, image: Option<string>) returns (post: Post)
    requires db.Valid()
    modifies db`posts, db`clock, db`nextId
    ensures db.Valid()
    ensures db.posts == old(db.posts) + [post]
    ensures post.author == caller && post.text == text && post.image == image
    ensures post.likes == [] && post.comments == []
    ensures forall p :: p in old(db.posts) ==> p.id != post.id && p.createdAt < post.createdAt
  {
    var id := db.NewId();
    var now := db.Tick();
    post := Post(id, caller, text, image, [], [], now, now);
    db.posts := db.posts + [post];
  }

  /** Ordered newest first. */
  ghost predicate NewestFirst(ps: seq<Post>) {
    forall i, j :: 0 <= i < j < |ps| ==> ps[i].createdAt >= ps[j].createdAt
  }

  /** `getFeed`: every post, newest first. */
  function Feed(posts: seq<Post>): (r: seq<Post>)
    ensures multiset(r) == multiset(posts)
    ensures NewestFirst(r)
  {
    SortBy(posts, (p: Post) => p.createdAt, true)
  }

  /** A post created after all others heads the feed. */
  lemma NewPostHeadsFeed(posts: seq<Post>, post: Post)
    requires forall p :: p in posts ==> p.createdAt < post.createdAt
    ensures Feed(posts + [post]) != [] && Feed(posts + [post])[0] == post
  {
    SortedHead(posts + [post], post, (p: Post) => p.createdAt);
  }

  /** The likes after a toggle by `u`: every occurrence of `u` removed if present, else `u` appended. */
  function ToggledLikes(likes: seq<Id>, u: Id): (r: seq<Id>)
    ensures u in r <==> u !in likes
    ensures forall v :: v != u ==> multiset(r)[v] == multiset(likes)[v]
    ensures u !in likes ==> |r| == |likes| + 1 && r[..|likes|] == likes
  {
    if u in likes then Without(likes, u) else likes + [u]
  }

  /** Liking and then unliking gives back the original likes. */
  lemma {:induction false} LikeTwiceRestores(likes: seq<Id>, u: Id)
    requires u !in likes
    ensures ToggledLikes(ToggledLikes(likes, u), u) == likes
  {
    WithoutConcat(likes, [u], u);
    assert Without([u], u) == [];
  }

  datatype LikeReply = LikeReply(likes: nat, liked: bool)

  /** `toggleLike` of post `postId` by the caller. */
  method ToggleLike(db: Database, caller: Id, postId: Id) returns (r: Result<LikeReply>)
    requires db.Valid()
    modifies db`posts, db`clock
    ensures db.Valid()
    ensures PostIndex(old(db.posts), postId).None? ==>
              r == Err(NotFound) && db.posts == old(db.posts) && db.clock == old(db.clock)
    ensures PostIndex(old(db.posts), postId).Some? ==>
              var i := PostIndex(old(db.posts), postId).value;
              var before := old(db.posts)[i];
              var liked := caller in before.likes;
              && db.posts == old(db.posts)[i := before.(likes := ToggledLikes(before.likes, caller), updatedAt := old(db.clock))]
              && r == Ok(LikeReply(|db.posts[i].likes|, !liked))
              && (!liked ==> r.value.likes == |before.likes| + 1)
  {
    var found := PostIndex(db.posts, postId);
    if found.None? {
      return Err(NotFound);
    }
    var i := found.value;
    var post := db.posts[i];
    var liked := caller in post.likes;
    if liked {
      post := post.(likes := Without(post.likes, caller));
    } else {
      post := post.(likes := post.likes + [caller]);
    }
    var now := db.Tick();
    db.posts := db.posts[i := post.(updatedAt := now)];
    r := Ok(LikeReply(|post.likes|, !liked));
  }

  /** `addComment`: appends the caller's comment and answers with the post's comments. */
  method AddComment(db: Database, caller: Id, postId: Id, text: string) returns (r: Result<seq<Comment>>)
    requires db.Valid()
    modifies db`posts, db`clock
    ensures db.Valid()
    ensures PostIndex(old(db.posts), postId).None? ==>
              r == Err(NotFound) && db.posts == old(db.posts) && db.clock == old(db.clock)
    ensures PostIndex(old(db.posts), postId).Some? ==>
              var i := PostIndex(old(db.posts), postId).value;
              var before := old(db.posts)[i];
              && db.posts == old(db.posts)[i := before.(
                   comments := before.comments + [Comment(caller, text, old(db.clock))],
                   updatedAt := old(db.clock))]
              && r == Ok(db.posts[i].comments)
  {
    var found := PostIndex(db.posts, postId);
    if found.None? {
      return Err(NotFound);
    }
    var i := found.value;
    var post := db.posts[i];
    var now := db.Tick();
    post := post.(comments := post.comments + [Comment(caller, text, now)], updatedAt := now);
    db.posts := db.posts[i := post];
    r := Ok(post.comments);
  }

  /** `deletePost`: only the author may delete a post. */
  method DeletePost(db: Database, caller: Id, postId: Id) returns (r: Result<()>)
    requires db.Valid()
    modifies db`posts
    ensures db.Valid()
    ensures PostIndex(old(db.posts), postId).None? ==> r == Err(NotFound) && db.posts == old(db.posts)
    ensures PostIndex(old(db.posts), postId).Some? ==>
              var i := PostIndex(old(db.posts), postId).value;
              if old(db.posts)[i].author != caller then
                r == Err(Forbidden) && db.posts == old(db.posts)
              else
                r == Ok(()) && db.posts == old(db.posts)[..i] + old(db.posts)[i + 1..]
  {
    var found := PostIndex(db.posts, postId);
    if found.None? {
      return Err(NotFound);
    }
    var i := found.value;
    if db.posts[i].author != caller {
      return Err(Forbidden);
    }
    db.posts := db.posts[..i] + db.posts[i + 1..];
    r := Ok(());
  }
}

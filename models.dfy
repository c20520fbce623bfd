/**
 * The schema of the social network (socialnetwork/models.py) over an
 * in-memory store: users, one profile per user with a directed `following`
 * relation, posts and comments; the referential invariants the database
 * keeps, the `__str__` formats, and the `on_delete=CASCADE` deletions.
 */
module Models {
  import opened Text

  type UserId = nat
  type PostId = nat
  type CommentId = nat
  /** A point in time; `timezone.now()` supplies it, larger is later. */
  type Time = nat
  /** Where an uploaded picture is stored; the image itself is opaque. */
  type Picture = string

  const BioMaxLength: nat := 500
  const TextMaxLength: nat := 280

  /** The fields of an account that the application writes or reads; the
      password hash is managed by the authentication library. */
  datatype User = User(id: UserId, username: string, email: string, firstName: string, lastName: string)

  /** One per user (the one-to-one link): a bio, an optional picture and the
      set of users whose profiles this profile follows. */
  datatype Profile = Profile(user: UserId, bio: string, picture: Option<Picture>, following: set<UserId>)

  datatype Post = Post(id: PostId, author: UserId, text: string, created: Time)

  datatype Comment = Comment(id: CommentId, author: UserId, post: PostId, text: string, created: Time)

  /** The database. Profiles are keyed by their owner's id, which is what
      makes the one-to-one link at most one profile per user; `following`
      holds owner ids. Posts and comments are kept in creation order, and the
      `next…Id` counters are the auto-increment sequences. */
  datatype Store = Store(
    users: map<UserId, User>,
    profiles: map<UserId, Profile>,
    posts: seq<Post>,
    comments: seq<Comment>,
    nextUserId: nat,
    nextPostId: nat,
    nextCommentId: nat)

  function EmptyStore(): Store {
    Store(map[], map[], [], [], 1, 1, 1)
  }

  function PostIds(posts: seq<Post>): set<PostId> {
    set i | 0 <= i < |posts| :: posts[i].id
  }

  /** The profiles `u` follows (nothing when `u` has no profile yet). */
  function Following(s: Store, u: UserId): set<UserId> {
    if u in s.profiles then s.profiles[u].following else {}
  }

  /** `related_name='followers'`: the reverse of `following`. */
  function Followers(s: Store, u: UserId): set<UserId> {
    set v | v in s.profiles && u in s.profiles[v].following
  }

  function Usernames(s: Store): set<string> {
    set u | u in s.users :: s.users[u].username
  }

  // ---------------------------------------------------------------------
  // Invariants of the schema

  /** Users are keyed by their id, which is below the sequence, and no two
      share a username. */
  predicate UsersValid(users: map<UserId, User>, nextUserId: nat) {
    && (forall u :: u in users ==> users[u].id == u && u < nextUserId)
    && (forall a, b :: a in users && b in users && a != b ==> users[a].username != users[b].username)
  }

  /** Each profile belongs to an existing user, its bio fits, and it follows
      only existing profiles. */
  predicate ProfilesValid(profiles: map<UserId, Profile>, users: map<UserId, User>) {
    forall u :: u in profiles ==>
      && u in users
      && profiles[u].user == u
      && |profiles[u].bio| <= BioMaxLength
      && profiles[u].following <= profiles.Keys
  }

  /** Every post has an existing author and text within the column bound;
      ids increase in creation order and stay below the sequence. */
  predicate PostsValid(posts: seq<Post>, users: map<UserId, User>, nextPostId: nat) {
    && (forall i :: 0 <= i < |posts| ==>
          posts[i].author in users && |posts[i].text| <= TextMaxLength && posts[i].id < nextPostId)
    && IncreasingIds(posts)
  }

  /** Every comment has an existing author and an existing post. The column
      bound on comment text is not part of this: the comment endpoint stores
      the submitted text without checking it. */
  predicate CommentsValid(comments: seq<Comment>, posts: seq<Post>, users: map<UserId, User>, nextCommentId: nat) {
    && (forall i :: 0 <= i < |comments| ==>
          comments[i].author in users && comments[i].post in PostIds(posts) && comments[i].id < nextCommentId)
    && IncreasingCommentIds(comments)
  }

  predicate Valid(s: Store) {
    && UsersValid(s.users, s.nextUserId)
    && ProfilesValid(s.profiles, s.users)
    && PostsValid(s.posts, s.users, s.nextPostId)
    && CommentsValid(s.comments, s.posts, s.users, s.nextCommentId)
  }

  lemma EmptyStoreValid()
    ensures Valid(EmptyStore())
  {
  }

  /** `symmetrical=False`: one profile may follow another without being
      followed back. */
  lemma FollowingNotSymmetric()
    ensures exists s: Store :: Valid(s) && 2 in Following(s, 1) && 1 !in Following(s, 2)
  {
    var s := Store(
      map[1 := User(1, "a", "", "", ""), 2 := User(2, "b", "", "", "")],
      map[1 := Profile(1, "", None, {2}), 2 := Profile(2, "", None, {})],
      [], [], 3, 1, 1);
    assert Valid(s);
  }

  // ---------------------------------------------------------------------
  // __str__

  function ProfileStr(owner: User): string {
    "Profile for " + owner.username
  }

  /** `timeText` is the text form of the creation time, which Python's
      datetime formatting produces. */
  function PostStr(author: User, timeText: string): string {
    "Post by " + author.username + " at " + timeText
  }

  function CommentStr(author: User, c: Comment): string {
    "Comment by " + author.username + " on Post " + NatToString(c.post)
  }

  /** Since usernames are unique, a profile's text names its profile. */
  lemma ProfileStrIdentifies(s: Store, a: UserId, b: UserId)
    requires Valid(s) && a in s.profiles && b in s.profiles
    requires ProfileStr(s.users[a]) == ProfileStr(s.users[b])
    ensures a == b
  {
    var n := |"Profile for "|;
    assert s.users[a].username == ProfileStr(s.users[a])[n..];
    assert s.users[b].username == ProfileStr(s.users[b])[n..];
  }

  /** The author's username is the text between "Post by " and the next
      space, whenever it has no space of its own. */
  lemma PostStrAuthor(author: User, timeText: string)
    requires ' ' !in author.username
    ensures StartsWith(PostStr(author, timeText), "Post by ")
    ensures TakeUntil(PostStr(author, timeText)[8..], ' ') == author.username
  {
    var r := PostStr(author, timeText);
    assert r[8..] == author.username + [' '] + ("at " + timeText);
    TakeUntilPrefix(author.username, ' ', "at " + timeText);
  }

  /** The comment text determines the author's username and the post id:
      the id is the trailing run of digits, which the space before it ends. */
  lemma CommentStrInjective(u1: User, c1: Comment, u2: User, c2: Comment)
    requires CommentStr(u1, c1) == CommentStr(u2, c2)
    ensures u1.username == u2.username && c1.post == c2.post
  {
    var d1, d2 := NatToString(c1.post), NatToString(c2.post);
    var x1, x2 := "Comment by " + u1.username + " on Post ", "Comment by " + u2.username + " on Post ";
    assert x1 + d1 == x2 + d2;
    TrailingDigits(x1, d1, x2, d2);
    NatToStringInjective(c1.post, c2.post);
    assert x1 + d1 == "Comment by " + u1.username + (" on Post " + d1);
    assert x2 + d2 == "Comment by " + u2.username + (" on Post " + d2);
    MiddleOfConcat("Comment by ", u1.username, " on Post " + d1);
    MiddleOfConcat("Comment by ", u2.username, " on Post " + d2);
  }

  /** Two texts that agree and each end in a space followed by digits end in
      the same digits. */
  lemma TrailingDigits(x1: string, d1: string, x2: string, d2: string)
    requires x1 + d1 == x2 + d2 && AllDigits(d1) && AllDigits(d2)
    requires x1 != [] && x1[|x1| - 1] == ' ' && x2 != [] && x2[|x2| - 1] == ' '
    ensures d1 == d2
  {
    var s := x1 + d1;
    assert s[|x1| - 1] == ' ' && s[|x2| - 1] == ' ';
    assert |x1| == |x2|;
    assert d1 == s[|x1|..] == d2;
  }

  lemma MiddleOfConcat(a: string, b: string, c: string)
    ensures (a + b + c)[|a|..|a| + |b|] == b
  {
  }

  // ---------------------------------------------------------------------
  // Cascading deletion (on_delete=CASCADE)

  function Filter<T(!new)>(xs: seq<T>, keep: T -> bool): (r: seq<T>)
    ensures |r| <= |xs|
    ensures forall x :: x in r <==> x in xs && keep(x)
  {
    if xs == [] then []
    else (if keep(xs[0]) then [xs[0]] else []) + Filter(xs[1..], keep)
  }

  predicate IncreasingIds(posts: seq<Post>) {
    forall i, j :: 0 <= i < j < |posts| ==> posts[i].id < posts[j].id
  }

  predicate IncreasingCommentIds(comments: seq<Comment>) {
    forall i, j :: 0 <= i < j < |comments| ==> comments[i].id < comments[j].id
  }

  lemma {:induction false} FilterKeepsIncreasingIds(posts: seq<Post>, keep: Post -> bool)
    requires IncreasingIds(posts)
    ensures IncreasingIds(Filter(posts, keep))
  {
    if posts != [] {
      FilterKeepsIncreasingIds(posts[1..], keep);
      var rest := Filter(posts[1..], keep);
      forall j | 0 <= j < |rest| ensures posts[0].id < rest[j].id {
        assert rest[j] in posts[1..];
      }
    }
  }

  lemma {:induction false} FilterKeepsIncreasingCommentIds(comments: seq<Comment>, keep: Comment -> bool)
    requires IncreasingCommentIds(comments)
    ensures IncreasingCommentIds(Filter(comments, keep))
  {
    if comments != [] {
      FilterKeepsIncreasingCommentIds(comments[1..], keep);
      var rest := Filter(comments[1..], keep);
      forall j | 0 <= j < |rest| ensures comments[0].id < rest[j].id {
        assert rest[j] in comments[1..];
      }
    }
  }

  /** Deleting a post deletes the comments on it. */
  function DeletePost(s: Store, pid: PostId): Store {
    s.(posts := Filter(s.posts, (p: Post) => p.id != pid),
       comments := Filter(s.comments, (c: Comment) => c.post != pid))
  }

  /** Deleting a user deletes their profile (and with it every follow edge
      from or to it), their posts, their comments, and the comments on their
      posts. */
  function DeleteUser(s: Store, uid: UserId): Store {
    var gone := set p | p in s.posts && p.author == uid :: p.id;
    s.(users := s.users - {uid},
       profiles := map v | v in s.profiles && v != uid ::
                     s.profiles[v].(following := s.profiles[v].following - {uid}),
       posts := Filter(s.posts, (p: Post) => p.author != uid),
       comments := Filter(s.comments, (c: Comment) => c.author != uid && c.post !in gone))
  }

  /** Nothing left in the store refers to `uid`. */
  predicate NoTraceOfUser(s: Store, uid: UserId) {
    && uid !in s.users && uid !in s.profiles
    && (forall v :: v in s.profiles ==> uid !in s.profiles[v].following)
    && (forall p :: p in s.posts ==> p.author != uid)
    && (forall c :: c in s.comments ==> c.author != uid)
  }

  lemma PostIdsOfMember(posts: seq<Post>, p: Post)
    requires p in posts
    ensures p.id in PostIds(posts)
  {
    var i :| 0 <= i < |posts| && posts[i] == p;
  }

  lemma PostOfId(posts: seq<Post>, id: PostId) returns (p: Post)
    requires id in PostIds(posts)
    ensures p in posts && p.id == id
  {
    var i :| 0 <= i < |posts| && posts[i].id == id;
    p := posts[i];
  }

  /** Deleting a post keeps the store consistent and leaves neither the post
      nor any comment on it. */
  lemma DeletePostValid(s: Store, pid: PostId)
    requires Valid(s)
    ensures Valid(DeletePost(s, pid))
    ensures pid !in PostIds(DeletePost(s, pid).posts)
    ensures forall c :: c in DeletePost(s, pid).comments ==> c.post != pid
  {
    var r := DeletePost(s, pid);
    FilterKeepsIncreasingIds(s.posts, (p: Post) => p.id != pid);
    FilterKeepsIncreasingCommentIds(s.comments, (c: Comment) => c.post != pid);
    forall i | 0 <= i < |r.posts|
      ensures r.posts[i].author in r.users && |r.posts[i].text| <= TextMaxLength && r.posts[i].id < r.nextPostId
    {
      assert r.posts[i] in s.posts;
    }
    forall i | 0 <= i < |r.comments|
      ensures r.comments[i].author in r.users && r.comments[i].post in PostIds(r.posts)
      ensures r.comments[i].id < r.nextCommentId
    {
      var c := r.comments[i];
      assert c in s.comments;
      var k :| 0 <= k < |s.comments| && s.comments[k] == c;
      var p := PostOfId(s.posts, c.post);
      assert p in r.posts;
      PostIdsOfMember(r.posts, p);
    }
    if pid in PostIds(r.posts) {
      var p := PostOfId(r.posts, pid);
      assert false;
    }
  }

  lemma DeleteUserPostsValid(s: Store, uid: UserId)
    requires Valid(s)
    ensures var r := DeleteUser(s, uid); PostsValid(r.posts, r.users, r.nextPostId)
  {
    var r := DeleteUser(s, uid);
    FilterKeepsIncreasingIds(s.posts, (p: Post) => p.author != uid);
    forall i | 0 <= i < |r.posts|
      ensures r.posts[i].author in r.users && |r.posts[i].text| <= TextMaxLength && r.posts[i].id < r.nextPostId
    {
      assert r.posts[i] in s.posts;
    }
  }

  lemma DeleteUserCommentsValid(s: Store, uid: UserId)
    requires Valid(s)
    ensures var r := DeleteUser(s, uid); CommentsValid(r.comments, r.posts, r.users, r.nextCommentId)
  {
    var r := DeleteUser(s, uid);
    var gone := set p | p in s.posts && p.author == uid :: p.id;
    FilterKeepsIncreasingCommentIds(s.comments, (c: Comment) => c.author != uid && c.post !in gone);
    forall i | 0 <= i < |r.comments|
      ensures r.comments[i].author in r.users && r.comments[i].post in PostIds(r.posts)
      ensures r.comments[i].id < r.nextCommentId
    {
      var c := r.comments[i];
      assert c in s.comments && c.author != uid && c.post !in gone;
      var k :| 0 <= k < |s.comments| && s.comments[k] == c;
      var p := PostOfId(s.posts, c.post);
      assert p.author != uid;
      assert p in r.posts;
      PostIdsOfMember(r.posts, p);
    }
  }

  /** Deleting a user keeps the store consistent and leaves no trace of them. */
  lemma DeleteUserValid(s: Store, uid: UserId)
    requires Valid(s)
    ensures Valid(DeleteUser(s, uid))
    ensures NoTraceOfUser(DeleteUser(s, uid), uid)
  {
    DeleteUserPostsValid(s, uid);
    DeleteUserCommentsValid(s, uid);
    var r := DeleteUser(s, uid);
    assert UsersValid(r.users, r.nextUserId);
    assert ProfilesValid(r.profiles, r.users);
  }
}

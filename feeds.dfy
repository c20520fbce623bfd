/**
 * The feeds of socialnetwork/views.py: `order_by` on creation time, the
 * global feed, the following feed (newest first in the page, oldest first in
 * its JSON variant), the comments of a post, and the JSON records the two
 * JSON endpoints build in their loops.
 *
 * `order_by` promises an order on the key and nothing about ties, so every
 * feed is specified as a permutation of what it selects whose creation times
 * never go the wrong way; `SortBy` is one such order (a stable one).
 */
module Feeds {
  import opened Text
  import opened Models

  // ---------------------------------------------------------------------
  // Ordering by a key

  /** `a` may come before `b`: a key no smaller when newest first, no larger
      when oldest first. */
  predicate InOrder<T>(key: T -> nat, newestFirst: bool, a: T, b: T) {
    if newestFirst then key(a) >= key(b) else key(a) <= key(b)
  }

  predicate Ordered<T>(xs: seq<T>, key: T -> nat, newestFirst: bool) {
    forall i, j :: 0 <= i < j < |xs| ==> InOrder(key, newestFirst, xs[i], xs[j])
  }

  /** An element that may precede every element of an ordered sequence may
      head it. */
  lemma OrderedCons<T>(h: T, t: seq<T>, key: T -> nat, newestFirst: bool)
    requires Ordered(t, key, newestFirst)
    requires forall j :: 0 <= j < |t| ==> InOrder(key, newestFirst, h, t[j])
    ensures Ordered([h] + t, key, newestFirst)
  {
    var r := [h] + t;
    forall i, j | 0 <= i < j < |r| ensures InOrder(key, newestFirst, r[i], r[j]) {
      if i > 0 {
        assert r[i] == t[i - 1] && r[j] == t[j - 1];
      }
    }
  }

  /** Places `x` into an ordered sequence, before the first element it may
      precede. */
  function Insert<T(==)>(x: T, xs: seq<T>, key: T -> nat, newestFirst: bool): (r: seq<T>)
    requires Ordered(xs, key, newestFirst)
    ensures multiset(r) == multiset(xs) + multiset{x}
    ensures Ordered(r, key, newestFirst)
  {
    if xs == [] || InOrder(key, newestFirst, x, xs[0]) then
      OrderedCons(x, xs, key, newestFirst);
      [x] + xs
    else
      var rest := Insert(x, xs[1..], key, newestFirst);
      assert xs == [xs[0]] + xs[1..];
      forall j | 0 <= j < |rest| ensures InOrder(key, newestFirst, xs[0], rest[j]) {
        assert rest[j] in multiset(rest);
        if rest[j] != x {
          assert rest[j] in multiset(xs[1..]);
          var i :| 0 <= i < |xs[1..]| && xs[1..][i] == rest[j];
          assert xs[i + 1] == rest[j];
        }
      }
      OrderedCons(xs[0], rest, key, newestFirst);
      [xs[0]] + rest
  }

  /** `order_by` on `key`: the same elements, in order. */
  function SortBy<T(==)>(xs: seq<T>, key: T -> nat, newestFirst: bool): (r: seq<T>)
    ensures multiset(r) == multiset(xs)
    ensures Ordered(r, key, newestFirst)
  {
    if xs == [] then []
    else
      assert xs == [xs[0]] + xs[1..];
      Insert(xs[0], SortBy(xs[1..], key, newestFirst), key, newestFirst)
  }

  function Reverse<T>(xs: seq<T>): (r: seq<T>)
    ensures |r| == |xs| && forall i :: 0 <= i < |xs| ==> r[i] == xs[|xs| - 1 - i]
  {
    if xs == [] then [] else Reverse(xs[1..]) + [xs[0]]
  }

  /** Reversing a sequence keeps its elements and turns oldest first into
      newest first. */
  lemma {:induction false} ReverseOrdered<T>(xs: seq<T>, key: T -> nat)
    requires Ordered(xs, key, false)
    ensures Ordered(Reverse(xs), key, true)
    ensures multiset(Reverse(xs)) == multiset(xs)
  {
    if xs != [] {
      ReverseOrdered(xs[1..], key);
      assert xs == [xs[0]] + xs[1..];
    }
  }

  /** No two different elements share a key. */
  ghost predicate DistinctKeys<T(!new)>(xs: seq<T>, key: T -> nat) {
    forall x, y :: x in xs && y in xs && x != y ==> key(x) != key(y)
  }

  /** Two ordered arrangements of the same elements, none sharing a key,
      start with the same element. */
  lemma OrderedSameHead<T(!new)>(a: seq<T>, b: seq<T>, key: T -> nat, newestFirst: bool)
    requires multiset(a) == multiset(b) && a != []
    requires Ordered(a, key, newestFirst) && Ordered(b, key, newestFirst)
    requires DistinctKeys(a, key)
    ensures b != [] && a[0] == b[0]
  {
    assert a[0] in multiset(b) && |b| == |multiset(b)|;
    var k :| 0 <= k < |b| && b[k] == a[0];
    assert b[0] in multiset(a);
    var m :| 0 <= m < |a| && a[m] == b[0];
    assert InOrder(key, newestFirst, a[0], a[m]);
    assert InOrder(key, newestFirst, b[0], b[k]);
  }

  /** When no two elements share a key there is only one order: two ordered
      arrangements of the same elements are equal. */
  lemma {:induction false} OrderedUnique<T(!new)>(a: seq<T>, b: seq<T>, key: T -> nat, newestFirst: bool)
    requires multiset(a) == multiset(b)
    requires Ordered(a, key, newestFirst) && Ordered(b, key, newestFirst)
    requires DistinctKeys(a, key)
    ensures a == b
  {
    if a == [] {
      assert |b| == |multiset(b)| == 0;
    } else {
      OrderedSameHead(a, b, key, newestFirst);
      assert a == [a[0]] + a[1..] && b == [b[0]] + b[1..];
      assert multiset(a) == multiset{a[0]} + multiset(a[1..]);
      assert multiset(b) == multiset{a[0]} + multiset(b[1..]);
      assert multiset(a[1..]) == multiset(a) - multiset{a[0]};
      assert multiset(b[1..]) == multiset(b) - multiset{a[0]};
      OrderedUnique(a[1..], b[1..], key, newestFirst);
    }
  }

  // ---------------------------------------------------------------------
  // The feeds

  function PostTime(p: Post): nat { p.created }
  function CommentTime(c: Comment): nat { c.created }

  /** The global feed: every post, newest first. */
  function GlobalFeed(s: Store): (r: seq<Post>)
    ensures multiset(r) == multiset(s.posts)
    ensures forall p :: p in r <==> p in s.posts
    ensures Ordered(r, PostTime, true)
  {
    var r := SortBy(s.posts, PostTime, true);
    assert forall p :: p in r <==> p in s.posts by {
      forall p ensures p in r <==> p in s.posts {
        assert p in r <==> p in multiset(r);
      }
    }
    r
  }

  /** The posts whose author's profile `viewer` follows, in creation order. */
  function FollowedPosts(s: Store, viewer: UserId): (r: seq<Post>)
    ensures forall p :: p in r <==> p in s.posts && p.author in Following(s, viewer)
    ensures IncreasingIds(s.posts) ==> IncreasingIds(r)
  {
    var keep := (p: Post) => p.author in Following(s, viewer);
    if IncreasingIds(s.posts) then FilterKeepsIncreasingIds(s.posts, keep); Filter(s.posts, keep)
    else Filter(s.posts, keep)
  }

  /** The following feed of the page: the followed authors' posts, newest
      first. */
  function FollowingFeed(s: Store, viewer: UserId): (r: seq<Post>)
    ensures forall p :: p in r <==> p in s.posts && p.author in Following(s, viewer)
    ensures Ordered(r, PostTime, true)
  {
    var r := SortBy(FollowedPosts(s, viewer), PostTime, true);
    assert forall p :: p in r <==> p in FollowedPosts(s, viewer) by {
      forall p ensures p in r <==> p in FollowedPosts(s, viewer) {
        assert p in r <==> p in multiset(r);
      }
    }
    r
  }

  /** The following feed of the JSON endpoint: the same posts, oldest
      first. */
  function FollowingFeedJson(s: Store, viewer: UserId): (r: seq<Post>)
    ensures forall p :: p in r <==> p in s.posts && p.author in Following(s, viewer)
    ensures Ordered(r, PostTime, false)
  {
    var r := SortBy(FollowedPosts(s, viewer), PostTime, false);
    assert forall p :: p in r <==> p in FollowedPosts(s, viewer) by {
      forall p ensures p in r <==> p in FollowedPosts(s, viewer) {
        assert p in r <==> p in multiset(r);
      }
    }
    r
  }

  /** A viewer who does not follow their own profile never sees their own
      posts in the following feed. */
  lemma OwnPostsExcluded(s: Store, viewer: UserId)
    requires viewer !in Following(s, viewer)
    ensures forall p :: p in FollowingFeed(s, viewer) ==> p.author != viewer
    ensures forall p :: p in FollowingFeedJson(s, viewer) ==> p.author != viewer
  {
  }

  /** When no two followed posts were created at the same time, the JSON feed
      is exactly the page's feed reversed. */
  lemma FollowingJsonIsReversed(s: Store, viewer: UserId)
    requires DistinctKeys(FollowedPosts(s, viewer), PostTime)
    ensures FollowingFeedJson(s, viewer) == Reverse(FollowingFeed(s, viewer))
  {
    var page := FollowingFeed(s, viewer);
    var json := FollowingFeedJson(s, viewer);
    var followed := FollowedPosts(s, viewer);
    assert multiset(page) == multiset(followed) == multiset(json);
    ReverseOrdered(json, PostTime);
    assert DistinctKeys(page, PostTime) by {
      forall x, y | x in page && y in page && x != y ensures PostTime(x) != PostTime(y) {
        assert x in multiset(followed) && y in multiset(followed);
      }
    }
    OrderedUnique(page, Reverse(json), PostTime, true);
    ReverseReverse(json);
  }

  /** No post id occurs twice. */
  predicate DistinctIds(ps: seq<Post>) {
    forall i, j :: 0 <= i < j < |ps| ==> ps[i].id != ps[j].id
  }

  /** The ids of the posts, in order. */
  function IdsOf(ps: seq<Post>): (r: seq<PostId>)
    ensures |r| == |ps| && forall i :: 0 <= i < |ps| ==> r[i] == ps[i].id
  {
    seq(|ps|, i requires 0 <= i < |ps| => ps[i].id)
  }

  lemma IdsOfReverse(ps: seq<Post>)
    ensures IdsOf(Reverse(ps)) == Reverse(IdsOf(ps))
  {
  }

  /** A post occurs at most once in a table whose ids increase. */
  lemma {:induction false} OccursAtMostOnce(xs: seq<Post>, x: Post)
    requires IncreasingIds(xs)
    ensures multiset(xs)[x] <= 1
  {
    if xs != [] {
      assert IncreasingIds(xs[1..]);
      OccursAtMostOnce(xs[1..], x);
      assert xs == [xs[0]] + xs[1..];
      assert xs[0] !in xs[1..];
    }
  }

  /** Any rearrangement of a table whose ids increase repeats no id. */
  lemma PermutationDistinctIds(xs: seq<Post>, ys: seq<Post>)
    requires IncreasingIds(xs) && multiset(ys) == multiset(xs)
    ensures DistinctIds(ys)
  {
    forall i, j | 0 <= i < j < |ys| ensures ys[i].id != ys[j].id {
      assert ys[i] in multiset(xs) && ys[j] in multiset(xs);
      var k :| 0 <= k < |xs| && xs[k] == ys[i];
      var l :| 0 <= l < |xs| && xs[l] == ys[j];
      var x := ys[i];
      OccursAtMostOnce(xs, x);
      assert ys == ys[..j] + ys[j..];
      assert ys[..j][i] == x && ys[j..][0] == ys[j];
      assert multiset(ys)[x] == multiset(ys[..j])[x] + multiset(ys[j..])[x];
      assert ys[i] != ys[j];
    }
  }

  /** None of the feeds shows a post twice. */
  lemma FeedIdsDistinct(s: Store, viewer: UserId)
    requires Valid(s)
    ensures DistinctIds(GlobalFeed(s))
    ensures DistinctIds(FollowingFeed(s, viewer)) && DistinctIds(FollowingFeedJson(s, viewer))
  {
    PermutationDistinctIds(s.posts, GlobalFeed(s));
    PermutationDistinctIds(FollowedPosts(s, viewer), FollowingFeed(s, viewer));
    PermutationDistinctIds(FollowedPosts(s, viewer), FollowingFeedJson(s, viewer));
  }

  lemma ReverseReverse<T>(xs: seq<T>)
    ensures Reverse(Reverse(xs)) == xs
  {
    assert forall i :: 0 <= i < |xs| ==> Reverse(Reverse(xs))[i] == xs[i];
  }

  /** The comments on post `pid`, newest first. */
  function PostComments(s: Store, pid: PostId): (r: seq<Comment>)
    ensures forall c :: c in r <==> c in s.comments && c.post == pid
    ensures Ordered(r, CommentTime, true)
  {
    var on := Filter(s.comments, (c: Comment) => c.post == pid);
    var r := SortBy(on, CommentTime, true);
    assert forall c :: c in r <==> c in on by {
      forall c ensures c in r <==> c in on {
        assert c in r <==> c in multiset(r);
      }
    }
    r
  }

  // ---------------------------------------------------------------------
  // JSON records

  /** A comment as the JSON endpoints serialise it; the creation time is the
      timestamp itself. */
  datatype CommentJson = CommentJson(
    id: CommentId, userId: UserId, firstName: string, lastName: string, text: string, creationTime: Time)

  datatype PostJson = PostJson(
    id: PostId, userId: UserId, firstName: string, lastName: string, text: string, creationTime: Time,
    comments: seq<CommentJson>)

  predicate AuthorsKnown(s: Store, cs: seq<Comment>) {
    forall i :: 0 <= i < |cs| ==> cs[i].author in s.users
  }

  predicate PostAuthorsKnown(s: Store, ps: seq<Post>) {
    forall i :: 0 <= i < |ps| ==> ps[i].author in s.users
  }

  /** One comment's record: its id, text and time, and its author's id and
      names. */
  function CommentRecord(s: Store, c: Comment): (r: CommentJson)
    requires c.author in s.users
    ensures r.id == c.id && r.userId == c.author && r.text == c.text && r.creationTime == c.created
    ensures r.firstName == s.users[c.author].firstName && r.lastName == s.users[c.author].lastName
  {
    var u := s.users[c.author];
    CommentJson(c.id, c.author, u.firstName, u.lastName, c.text, c.created)
  }

  function CommentsJson(s: Store, cs: seq<Comment>): (r: seq<CommentJson>)
    requires AuthorsKnown(s, cs)
    ensures |r| == |cs| && forall i :: 0 <= i < |cs| ==> r[i] == CommentRecord(s, cs[i])
  {
    seq(|cs|, i requires 0 <= i < |cs| && AuthorsKnown(s, cs) => CommentRecord(s, cs[i]))
  }

  /** In a consistent store every comment of a post has a known author. */
  lemma PostCommentsKnown(s: Store, pid: PostId)
    requires Valid(s)
    ensures AuthorsKnown(s, PostComments(s, pid))
  {
    var cs := PostComments(s, pid);
    forall i | 0 <= i < |cs| ensures cs[i].author in s.users {
      assert cs[i] in s.comments;
    }
  }

  /** One post's record: its fields, its author's names, and the records of
      its comments, newest first. */
  function PostRecord(s: Store, p: Post): (r: PostJson)
    requires Valid(s) && p.author in s.users
    ensures r.id == p.id && r.userId == p.author && r.text == p.text && r.creationTime == p.created
    ensures r.firstName == s.users[p.author].firstName && r.lastName == s.users[p.author].lastName
    ensures |r.comments| == |PostComments(s, p.id)|
    ensures forall i :: 0 <= i < |r.comments| ==> r.comments[i] == CommentRecord(s, PostComments(s, p.id)[i])
  {
    PostCommentsKnown(s, p.id);
    var u := s.users[p.author];
    PostJson(p.id, p.author, u.firstName, u.lastName, p.text, p.created, CommentsJson(s, PostComments(s, p.id)))
  }

  function PostsJson(s: Store, ps: seq<Post>): (r: seq<PostJson>)
    requires Valid(s) && PostAuthorsKnown(s, ps)
    ensures |r| == |ps| && forall i :: 0 <= i < |ps| ==> r[i] == PostRecord(s, ps[i])
  {
    seq(|ps|, i requires 0 <= i < |ps| && Valid(s) && PostAuthorsKnown(s, ps) => PostRecord(s, ps[i]))
  }

  /** A comment record describes the comment: its id, author, text and time
      and, for a known author, the author's names. */
  predicate CommentDescribes(s: Store, c: Comment, rec: CommentJson) {
    && rec.id == c.id && rec.userId == c.author && rec.text == c.text && rec.creationTime == c.created
    && (c.author in s.users ==>
          rec.firstName == s.users[c.author].firstName && rec.lastName == s.users[c.author].lastName)
  }

  /** What the JSON endpoints send for `feed`: one record per post, in the
      same order, with the post's id, author, text and time and its author's
      names, and under each post one record per comment on it, in the order
      `PostComments` gives (newest first). */
  predicate RecordsDescribe(s: Store, feed: seq<Post>, records: seq<PostJson>) {
    && |records| == |feed|
    && (forall i :: 0 <= i < |feed| ==>
          && records[i].id == feed[i].id && records[i].userId == feed[i].author
          && records[i].text == feed[i].text && records[i].creationTime == feed[i].created
          && (feed[i].author in s.users ==>
                records[i].firstName == s.users[feed[i].author].firstName
                && records[i].lastName == s.users[feed[i].author].lastName)
          && |records[i].comments| == |PostComments(s, feed[i].id)|)
    && (forall i, k :: 0 <= i < |feed| && 0 <= k < |records[i].comments| && k < |PostComments(s, feed[i].id)| ==>
          CommentDescribes(s, PostComments(s, feed[i].id)[k], records[i].comments[k]))
  }

  /** The serialised feed describes the feed. */
  lemma PostsJsonDescribes(s: Store, feed: seq<Post>)
    requires Valid(s) && PostAuthorsKnown(s, feed)
    ensures RecordsDescribe(s, feed, PostsJson(s, feed))
  {
  }

  /** The inner loop of the JSON endpoints: one record per comment, in the
      order given. */
  method BuildCommentsJson(s: Store, cs: seq<Comment>) returns (data: seq<CommentJson>)
    requires AuthorsKnown(s, cs)
    ensures data == CommentsJson(s, cs)
  {
    data := [];
    var k := 0;
    while k < |cs|
      invariant 0 <= k <= |cs|
      invariant |data| == k && forall i :: 0 <= i < k ==> data[i] == CommentRecord(s, cs[i])
    {
      data := data + [CommentRecord(s, cs[k])];
      k := k + 1;
    }
  }

  /** The outer loop of the JSON endpoints: one record per post, in the
      order given, each with its comments gathered by the inner loop. */
  method BuildPostsJson(s: Store, ps: seq<Post>) returns (data: seq<PostJson>)
    requires Valid(s) && PostAuthorsKnown(s, ps)
    ensures data == PostsJson(s, ps)
  {
    ghost var all := PostsJson(s, ps);
    data := [];
    var k := 0;
    while k < |ps|
      invariant 0 <= k <= |ps|
      invariant data == all[..k]
    {
      var rec := BuildPostRecord(s, ps[k]);
      PrefixGrows(all, k);
      data := data + [rec];
      k := k + 1;
    }
    assert all[..|ps|] == all;
  }

  lemma PrefixGrows<T>(xs: seq<T>, k: nat)
    requires k < |xs|
    ensures xs[..k + 1] == xs[..k] + [xs[k]]
  {
  }

  /** One iteration of the outer loop: the post's fields and author, and
      its comments from the inner loop. */
  method BuildPostRecord(s: Store, p: Post) returns (rec: PostJson)
    requires Valid(s) && p.author in s.users
    ensures rec == PostRecord(s, p)
  {
    var comments := PostComments(s, p.id);
    PostCommentsKnown(s, p.id);
    var commentsData := BuildCommentsJson(s, comments);
    var u := s.users[p.author];
    rec := PostJson(p.id, p.author, u.firstName, u.lastName, p.text, p.created, commentsData);
  }

  /** Every post in a consistent store has a known author, so any selection
      of its posts can be serialised. */
  lemma StorePostsKnown(s: Store, ps: seq<Post>)
    requires Valid(s)
    requires forall p :: p in ps ==> p in s.posts
    ensures PostAuthorsKnown(s, ps)
  {
    forall i | 0 <= i < |ps| ensures ps[i].author in s.users {
      assert ps[i] in s.posts;
      var j :| 0 <= j < |s.posts| && s.posts[j] == ps[i];
    }
  }
}

/**
 * The browser side of the two stream pages (static/socialnetwork/global.js
 * and follower.js, which differ only in the endpoint they poll): reading the
 * CSRF cookie, the posts and comment containers of the page, the refresh
 * that merges the JSON records into them, and the comment box.
 *
 * The page is reduced to what the scripts decide on: the ids of the post
 * divs from top to bottom, and for each post the ids of the comment divs in
 * its container, in order. The scripts share one state (the document), so
 * the page is a class whose methods update it in place; `PageView` and the
 * functions on it are their specification.
 */
module Client {
  import opened Text
  import opened Models
  import opened Forms
  import opened Feeds
  import opened Views

  // ---------------------------------------------------------------------
  // getCookie

  /** The `;`-separated entries of the cookie string, trimmed, that start
      with `name=`, in order. */
  function CookieEntries(entries: seq<string>, name: string): (r: seq<string>)
    ensures |r| <= |entries|
    ensures forall i :: 0 <= i < |r| ==> StartsWith(r[i], name + "=")
  {
    if entries == [] then []
    else
      var t := Trim(JavaScript, entries[0]);
      (if StartsWith(t, name + "=") then [t] else []) + CookieEntries(entries[1..], name)
  }

  /** `getCookie(name)`: nothing when the cookie string is empty or no entry
      starts with `name=`; otherwise the second `=`-separated piece of the
      first such entry (the percent-decoding is not modelled). */
  function GetCookie(cookie: string, name: string): (r: Option<string>)
    ensures r.Some? ==> '=' !in r.value
  {
    if cookie == "" then None
    else
      var found := CookieEntries(Split(cookie, ';'), name);
      if found == [] then None
      else
        var parts := Split(found[0], '=');
        assert found[0][|name|] == '=';
        Some(parts[1])
  }

  /** No entry, trimmed, starts with `name=`. */
  predicate NoEntryFor(entries: seq<string>, name: string) {
    forall i :: 0 <= i < |entries| ==> !StartsWith(Trim(JavaScript, entries[i]), name + "=")
  }

  lemma {:induction false} CookieEntriesEmpty(entries: seq<string>, name: string)
    ensures CookieEntries(entries, name) == [] <==> NoEntryFor(entries, name)
  {
    if entries != [] {
      CookieEntriesEmpty(entries[1..], name);
      assert forall i :: 1 <= i < |entries| ==> entries[i] == entries[1..][i - 1];
    }
  }

  /** The first entry that matches is the one returned. */
  lemma {:induction false} CookieEntriesFirst(entries: seq<string>, name: string, k: nat)
    requires k < |entries| && StartsWith(Trim(JavaScript, entries[k]), name + "=")
    requires forall j :: 0 <= j < k ==> !StartsWith(Trim(JavaScript, entries[j]), name + "=")
    ensures CookieEntries(entries, name) != [] && CookieEntries(entries, name)[0] == Trim(JavaScript, entries[k])
  {
    if k > 0 {
      assert forall j :: 0 <= j < k - 1 ==> entries[1..][j] == entries[j + 1];
      CookieEntriesFirst(entries[1..], name, k - 1);
    }
  }

  /** `getCookie` answers null exactly when the cookie string is empty or
      none of its entries, trimmed, starts with `name=`. */
  lemma GetCookieNone(cookie: string, name: string)
    ensures GetCookie(cookie, name).None? <==> cookie == "" || NoEntryFor(Split(cookie, ';'), name)
  {
    CookieEntriesEmpty(Split(cookie, ';'), name);
  }

  /** When `name` holds no `=`, the value is taken from the first matching
      entry: the text after `name=` up to the next `=` (or the end). */
  lemma GetCookieValue(cookie: string, name: string, k: nat)
    requires '=' !in name
    requires k < |Split(cookie, ';')| && StartsWith(Trim(JavaScript, Split(cookie, ';')[k]), name + "=")
    requires forall j :: 0 <= j < k ==> !StartsWith(Trim(JavaScript, Split(cookie, ';')[j]), name + "=")
    ensures GetCookie(cookie, name) == Some(TakeUntil(Trim(JavaScript, Split(cookie, ';')[k])[|name| + 1..], '='))
  {
    var entries := Split(cookie, ';');
    var e := Trim(JavaScript, entries[k]);
    CookieEntriesFirst(entries, name, k);
    assert e == name + ['='] + e[|name| + 1..] by {
      assert e[..|name| + 1] == name + "=";
    }
    SplitSecond(name, '=', e[|name| + 1..]);
  }

  /** A cookie string holding the single entry `name=value` gives `value`
      back. */
  lemma GetCookieRoundTrip(name: string, value: string)
    requires name != [] && !IsSpace(JavaScript, name[0]) && '=' !in name && ';' !in name
    requires '=' !in value && ';' !in value && (value == [] || !IsSpace(JavaScript, value[|value| - 1]))
    ensures GetCookie(name + "=" + value, name) == Some(value)
  {
    var cookie := name + "=" + value;
    assert ';' !in cookie;
    assert Split(cookie, ';') == [cookie];
    TrimUnspaced(JavaScript, cookie);
    assert cookie[..|name| + 1] == name + "=";
    assert cookie[|name| + 1..] == value;
    GetCookieValue(cookie, name, 0);
  }

  // ---------------------------------------------------------------------
  // The page

  /** The post divs from top to bottom; the comment divs in the order they
      were added, each with the post whose container holds it (a
      container's comments are those naming its post, in this order). */
  datatype PageView = PageView(posts: seq<PostId>, comments: seq<CommentId>, container: map<CommentId, PostId>)

  const EmptyPage := PageView([], [], map[])

  /** The comment divs inside the container of post `p`, in order. */
  function Container(v: PageView, p: PostId): (r: seq<CommentId>)
    ensures forall c :: c in r <==> c in v.comments && c in v.container && v.container[c] == p
    decreases |v.comments|
  {
    if v.comments == [] then []
    else
      var last := v.comments[|v.comments| - 1];
      var init := Container(v.(comments := v.comments[..|v.comments| - 1]), p);
      if last in v.container && v.container[last] == p then init + [last] else init
  }

  /** No post div appears twice, no comment div appears twice, and every
      comment div sits in the container of a post on the page. */
  predicate WellFormed(v: PageView) {
    && (forall i, j :: 0 <= i < j < |v.posts| ==> v.posts[i] != v.posts[j])
    && (forall i, j :: 0 <= i < j < |v.comments| ==> v.comments[i] != v.comments[j])
    && (forall c :: c in v.comments ==> c in v.container && v.container[c] in v.posts)
  }

  /** `addPostToDOM`: nothing when a div for the post exists, otherwise a new
      div with an empty comment container at the top. */
  function WithPost(v: PageView, id: PostId): (r: PageView)
    ensures id in r.posts && r.comments == v.comments && r.container == v.container
    ensures forall p :: p in v.posts ==> p in r.posts
  {
    if id in v.posts then v else v.(posts := [id] + v.posts)
  }

  /** `addCommentToDOM`: nothing when a div for the comment exists anywhere
      on the page, otherwise a new div at the end of the post's container. */
  function WithComment(v: PageView, postId: PostId, id: CommentId): (r: PageView)
    requires postId in v.posts
    ensures r.posts == v.posts && id in r.comments
    ensures forall c :: c in v.comments ==> c in r.comments
  {
    if id in v.comments then v
    else v.(comments := v.comments + [id], container := v.container[id := postId])
  }

  /** The inner loop of a refresh: the comments of one record, in order. */
  function ShowComments(v: PageView, postId: PostId, cs: seq<CommentJson>): (r: PageView)
    requires postId in v.posts
    ensures r.posts == v.posts
    ensures forall c :: c in v.comments ==> c in r.comments
    decreases |cs|
  {
    if cs == [] then v
    else WithComment(ShowComments(v, postId, cs[..|cs| - 1]), postId, cs[|cs| - 1].id)
  }

  /** One record of a refresh: its post, then its comments. */
  function ShowPost(v: PageView, rec: PostJson): (r: PageView)
    ensures rec.id in r.posts
  {
    ShowComments(WithPost(v, rec.id), rec.id, rec.comments)
  }

  /** `refreshGlobalStream` / `refreshFollowerStream` once the records have
      arrived: every record in the order received. */
  function Refreshed(v: PageView, records: seq<PostJson>): PageView
    decreases |records|
  {
    if records == [] then v
    else ShowPost(Refreshed(v, records[..|records| - 1]), records[|records| - 1])
  }

  /** The page in the browser, updated in place by the scripts. */
  class Page {
    var posts: seq<PostId>
    var comments: seq<CommentId>
    var container: map<CommentId, PostId>

    function View(): PageView
      reads this
    {
      PageView(posts, comments, container)
    }

    /** The page as the server rendered it. */
    constructor (shown: PageView)
      ensures View() == shown
    {
      posts, comments, container := shown.posts, shown.comments, shown.container;
    }

    method AddPost(id: PostId)
      modifies this
      ensures View() == WithPost(old(View()), id)
    {
      if id in posts {
        return;
      }
      posts := [id] + posts;
    }

    method AddComment(postId: PostId, id: CommentId)
      requires postId in posts
      modifies this
      ensures View() == WithComment(old(View()), postId, id)
    {
      if id in comments {
        return;
      }
      comments := comments + [id];
      container := container[id := postId];
    }

    /** The `forEach` loops of a refresh. */
    method Refresh(records: seq<PostJson>)
      modifies this
      ensures View() == Refreshed(old(View()), records)
    {
      ghost var start := View();
      var i := 0;
      while i < |records|
        invariant 0 <= i <= |records|
        invariant View() == Refreshed(start, records[..i])
      {
        ghost var before := View();
        AddPost(records[i].id);
        AddComments(records[i].id, records[i].comments);
        assert View() == ShowPost(before, records[i]);
        assert records[..i + 1][..i] == records[..i];
        i := i + 1;
      }
      assert records[..i] == records;
    }

    /** The inner `forEach` of a refresh: the comments of one post. */
    method AddComments(postId: PostId, cs: seq<CommentJson>)
      requires postId in posts
      modifies this
      ensures View() == ShowComments(old(View()), postId, cs)
    {
      ghost var start := View();
      var j := 0;
      while j < |cs|
        invariant 0 <= j <= |cs|
        invariant posts == start.posts
        invariant View() == ShowComments(start, postId, cs[..j])
      {
        assert cs[..j + 1][..j] == cs[..j];
        AddComment(postId, cs[j].id);
        j := j + 1;
      }
      assert cs[..j] == cs;
    }
  }

  // ---------------------------------------------------------------------
  // Properties of the page

  /** The existence checks keep the page well formed: a post or comment div
      is added only when its id is not on the page. */
  lemma WithPostWellFormed(v: PageView, id: PostId)
    requires WellFormed(v)
    ensures WellFormed(WithPost(v, id))
  {
  }

  lemma WithCommentWellFormed(v: PageView, postId: PostId, id: CommentId)
    requires WellFormed(v) && postId in v.posts
    ensures WellFormed(WithComment(v, postId, id))
  {
  }

  /** A new comment div goes at the end of its post's container. */
  lemma WithCommentAppends(v: PageView, postId: PostId, id: CommentId)
    requires WellFormed(v) && postId in v.posts && id !in v.comments
    ensures Container(WithComment(v, postId, id), postId) == Container(v, postId) + [id]
  {
    var r := WithComment(v, postId, id);
    assert r.comments[..|r.comments| - 1] == v.comments;
    assert forall c :: c in v.comments ==> r.container[c] == v.container[c];
    ContainerSameTable(v, r.(comments := v.comments), postId);
  }

  /** A container only depends on the table entries of the comments on the
      page. */
  lemma {:induction false} ContainerSameTable(v: PageView, w: PageView, p: PostId)
    requires v.comments == w.comments
    requires forall c :: c in v.comments ==> (c in v.container <==> c in w.container)
    requires forall c :: c in v.comments && c in v.container ==> v.container[c] == w.container[c]
    ensures Container(v, p) == Container(w, p)
    decreases |v.comments|
  {
    if v.comments != [] {
      var n := |v.comments| - 1;
      ContainerSameTable(v.(comments := v.comments[..n]), w.(comments := w.comments[..n]), p);
    }
  }

  lemma {:induction false} ShowCommentsWellFormed(v: PageView, postId: PostId, cs: seq<CommentJson>)
    requires WellFormed(v) && postId in v.posts
    ensures WellFormed(ShowComments(v, postId, cs))
    decreases |cs|
  {
    if cs != [] {
      ShowCommentsWellFormed(v, postId, cs[..|cs| - 1]);
      WithCommentWellFormed(ShowComments(v, postId, cs[..|cs| - 1]), postId, cs[|cs| - 1].id);
    }
  }

  /** A refresh keeps every post and comment div unique on the page and
      every comment in the container of a post that is shown. */
  lemma {:induction false} RefreshedWellFormed(v: PageView, records: seq<PostJson>)
    requires WellFormed(v)
    ensures WellFormed(Refreshed(v, records))
    decreases |records|
  {
    if records != [] {
      var mid := Refreshed(v, records[..|records| - 1]);
      var last := records[|records| - 1];
      RefreshedWellFormed(v, records[..|records| - 1]);
      WithPostWellFormed(mid, last.id);
      ShowCommentsWellFormed(WithPost(mid, last.id), last.id, last.comments);
    }
  }

  /** The post ids of the records, in the order a refresh visits them. */
  function RecordIds(records: seq<PostJson>): (r: seq<PostId>)
    ensures |r| == |records| && forall i :: 0 <= i < |records| ==> r[i] == records[i].id
    decreases |records|
  {
    if records == [] then []
    else RecordIds(records[..|records| - 1]) + [records[|records| - 1].id]
  }

  /** Everything a batch of records names is on the page. */
  predicate Shows(v: PageView, records: seq<PostJson>) {
    forall i :: 0 <= i < |records| ==>
      && records[i].id in v.posts
      && forall k :: 0 <= k < |records[i].comments| ==> records[i].comments[k].id in v.comments
  }

  lemma {:induction false} ShowCommentsCovers(v: PageView, postId: PostId, cs: seq<CommentJson>)
    requires postId in v.posts
    ensures forall k :: 0 <= k < |cs| ==> cs[k].id in ShowComments(v, postId, cs).comments
    decreases |cs|
  {
    if cs != [] {
      ShowCommentsCovers(v, postId, cs[..|cs| - 1]);
    }
  }

  /** Merging records never removes a post or a comment, and shows all the
      records name. */
  lemma {:induction false} RefreshedCovers(v: PageView, records: seq<PostJson>)
    ensures Shows(Refreshed(v, records), records)
    ensures forall p :: p in v.posts ==> p in Refreshed(v, records).posts
    ensures forall c :: c in v.comments ==> c in Refreshed(v, records).comments
    decreases |records|
  {
    if records != [] {
      var init := records[..|records| - 1];
      var last := records[|records| - 1];
      var mid := Refreshed(v, init);
      RefreshedCovers(v, init);
      ShowCommentsCovers(WithPost(mid, last.id), last.id, last.comments);
      forall i | 0 <= i < |init| ensures records[i] == init[i] { }
    }
  }

  lemma {:induction false} ShowCommentsSettled(v: PageView, postId: PostId, cs: seq<CommentJson>)
    requires postId in v.posts
    requires forall k :: 0 <= k < |cs| ==> cs[k].id in v.comments
    ensures ShowComments(v, postId, cs) == v
    decreases |cs|
  {
    if cs != [] {
      ShowCommentsSettled(v, postId, cs[..|cs| - 1]);
    }
  }

  /** Merging records the page already shows changes nothing. */
  lemma {:induction false} RefreshedSettled(v: PageView, records: seq<PostJson>)
    requires Shows(v, records)
    ensures Refreshed(v, records) == v
    decreases |records|
  {
    if records != [] {
      var init := records[..|records| - 1];
      var last := records[|records| - 1];
      assert Shows(v, init) by {
        forall i | 0 <= i < |init| ensures records[i] == init[i] { }
      }
      RefreshedSettled(v, init);
      ShowCommentsSettled(v, last.id, last.comments);
    }
  }

  /** Polling twice with the same answer shows the same page as polling
      once: the existence checks make a refresh idempotent. */
  lemma RefreshIdempotent(v: PageView, records: seq<PostJson>)
    ensures Refreshed(Refreshed(v, records), records) == Refreshed(v, records)
  {
    RefreshedCovers(v, records);
    RefreshedSettled(Refreshed(v, records), records);
  }

  /** Records whose posts are new to the page end up on top in the reverse
      of the order they arrived in, since each is inserted at the top. */
  lemma {:induction false} RefreshedNewPosts(v: PageView, records: seq<PostJson>)
    requires DistinctRecordIds(records) && NewToPage(v, records)
    ensures Refreshed(v, records).posts == Reverse(RecordIds(records)) + v.posts
    decreases |records|
  {
    if records != [] {
      var init, last := records[..|records| - 1], records[|records| - 1];
      var ids := RecordIds(init);
      var mid := Refreshed(v, init);
      NewRecordsSplit(v, records);
      assert mid.posts == Reverse(ids) + v.posts by { RefreshedNewPosts(v, init); }
      assert last.id !in mid.posts by { ReverseKeeps(ids, last.id); }
      assert Refreshed(v, records).posts == [last.id] + mid.posts by { ShowPostNew(mid, last); }
      assert Reverse(RecordIds(records)) == [last.id] + Reverse(ids) by { ReverseAppend(ids, last.id); }
      assert [last.id] + (Reverse(ids) + v.posts) == [last.id] + Reverse(ids) + v.posts;
    }
  }

  predicate DistinctRecordIds(records: seq<PostJson>) {
    forall i, j :: 0 <= i < j < |records| ==> records[i].id != records[j].id
  }

  predicate NewToPage(v: PageView, records: seq<PostJson>) {
    forall i :: 0 <= i < |records| ==> records[i].id !in v.posts
  }

  /** Splitting off the last record keeps both conditions, and the last
      record's id is neither among the others nor on the page. */
  lemma NewRecordsSplit(v: PageView, records: seq<PostJson>)
    requires records != [] && DistinctRecordIds(records) && NewToPage(v, records)
    ensures var init, last := records[..|records| - 1], records[|records| - 1];
            && DistinctRecordIds(init) && NewToPage(v, init)
            && last.id !in RecordIds(init) && last.id !in v.posts
            && RecordIds(records) == RecordIds(init) + [last.id]
  {
    var init, last := records[..|records| - 1], records[|records| - 1];
    var ids := RecordIds(init);
    forall i | 0 <= i < |ids| ensures ids[i] != last.id {
      assert ids[i] == records[i].id;
    }
  }

  /** A post new to the page goes on top. */
  lemma ShowPostNew(v: PageView, rec: PostJson)
    requires rec.id !in v.posts
    ensures ShowPost(v, rec).posts == [rec.id] + v.posts
  {
  }

  lemma ReverseKeeps<T>(xs: seq<T>, x: T)
    ensures x in Reverse(xs) <==> x in xs
  {
    var r := Reverse(xs);
    if x in r {
      var i :| 0 <= i < |r| && r[i] == x;
      assert xs[|xs| - 1 - i] == x;
    }
    if x in xs {
      var i :| 0 <= i < |xs| && xs[i] == x;
      assert r[|xs| - 1 - i] == x;
    }
  }

  lemma ReverseAppend<T>(xs: seq<T>, x: T)
    ensures Reverse(xs + [x]) == [x] + Reverse(xs)
  {
    assert forall i :: 0 <= i < |xs| + 1 ==> Reverse(xs + [x])[i] == ([x] + Reverse(xs))[i];
  }

  lemma RecordIdsOfPosts(s: Store, ps: seq<Post>)
    requires Valid(s) && PostAuthorsKnown(s, ps)
    ensures RecordIds(PostsJson(s, ps)) == IdsOf(ps)
  {
  }

  /** On a page without posts, the first refresh of the global stream shows
      the global feed bottom to top: its records come newest first and each
      is inserted at the top, so the oldest post ends up first. */
  lemma GlobalFirstLoad(s: Store)
    requires Valid(s)
    ensures PostAuthorsKnown(s, GlobalFeed(s))
    ensures Refreshed(EmptyPage, PostsJson(s, GlobalFeed(s))).posts == Reverse(IdsOf(GlobalFeed(s)))
  {
    var feed := GlobalFeed(s);
    StorePostsKnown(s, feed);
    FeedIdsDistinct(s, 0);
    RecordIdsOfPosts(s, feed);
    RefreshedNewPosts(EmptyPage, PostsJson(s, feed));
  }

  /** On a page without posts, the first refresh of the follower stream
      shows the posts of the followed users newest first, the order of the
      follower page itself: its records come oldest first and each is
      inserted at the top. Ties in creation time are excluded, since the
      order of tied posts is not determined. */
  lemma FollowerFirstLoad(s: Store, viewer: UserId)
    requires Valid(s) && DistinctKeys(FollowedPosts(s, viewer), PostTime)
    ensures PostAuthorsKnown(s, FollowingFeedJson(s, viewer))
    ensures Refreshed(EmptyPage, PostsJson(s, FollowingFeedJson(s, viewer))).posts ==
            IdsOf(FollowingFeed(s, viewer))
  {
    var json := FollowingFeedJson(s, viewer);
    var page := FollowingFeed(s, viewer);
    StorePostsKnown(s, json);
    FeedIdsDistinct(s, viewer);
    RecordIdsOfPosts(s, json);
    RefreshedNewPosts(EmptyPage, PostsJson(s, json));
    FollowingJsonIsReversed(s, viewer);
    IdsOfReverse(page);
    ReverseReverse(IdsOf(page));
  }

  // ---------------------------------------------------------------------
  // The comment box

  /** `addComment`: the input is trimmed and nothing is sent when that leaves
      it empty. */
  function CommentToSend(input: string): Option<string> {
    var t := Trim(JavaScript, input);
    if t == "" then None else Some(t)
  }

  /** Only whitespace in the box sends nothing; anything else is sent
      without its surrounding whitespace. */
  lemma CommentToSendSpec(input: string)
    ensures CommentToSend(input).None? <==> AllSpace(JavaScript, input)
    ensures CommentToSend(input).Some? ==>
              var t := CommentToSend(input).value;
              t != [] && !IsSpace(JavaScript, t[0]) && !IsSpace(JavaScript, t[|t| - 1]) && CommentToSend(t) == Some(t)
  {
    TrimEmptyIffAllSpace(JavaScript, input);
    TrimEnds(JavaScript, input);
    TrimIdempotent(JavaScript, input);
  }

  /** The form data `addComment` posts for a post id and the box's input. */
  function CommentForm(postId: PostId, input: string): Option<FormData> {
    match CommentToSend(input)
    case None => None
    case Some(t) => Some(map["comment_text" := t, "post_id" := NatToString(postId)])
  }

  /** What the comment box sends is what the comment endpoint accepts: for a
      logged-in user and a stored post, the request stores one comment with
      the trimmed text and answers with it. */
  lemma ClientCommentAccepted(s: Store, viewer: UserId, postId: PostId, input: string, now: Time)
    requires Valid(s) && viewer in s.users && postId in PostIds(s.posts)
    requires CommentForm(postId, input).Some?
    ensures var r := AddCommentResponse(s, Request(POST, Some(viewer), CommentForm(postId, input).value), now);
            var c := Comment(s.nextCommentId, viewer, postId, Trim(JavaScript, input), now);
            && r.store.comments == s.comments + [c]
            && r.outcome == Ok(CommentJsonBody(CommentRecord(s, c)))
  {
    var data := CommentForm(postId, input).value;
    PyIntOfNatToString(postId);
    assert data["post_id"] == NatToString(postId);
    AddCommentStores(s, Request(POST, Some(viewer), data), now);
  }
}

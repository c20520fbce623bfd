/**
 * The request handlers of socialnetwork/views.py as transitions of the
 * store: each takes the store and a request and gives the new store and an
 * outcome (a page, a redirect, or an error status). The functions here are
 * the specification; the `Database` class below performs the same steps in
 * place.
 *
 * The authenticated user is part of the request (`viewer`, absent for an
 * anonymous request) and is a registered user. The clock, the e-mail address
 * check and the uploaded file are parameters.
 */
module Views {
  import opened Text
  import opened Models
  import opened Forms
  import opened Feeds

  datatype HttpMethod = GET | POST | OtherMethod

  /** A request: its HTTP method, the logged-in user if any, and the submitted
      form data (`request.POST`). */
  datatype Request = Request(verb: HttpMethod, viewer: Option<UserId>, data: FormData)

  /** `request.POST` is empty unless the request is a POST. */
  function PostBody(req: Request): FormData {
    if req.verb == POST then req.data else map[]
  }

  datatype ErrorCode = MethodNotAllowed | NotLoggedIn | BadRequest | NotFound | ServerError

  function StatusCode(e: ErrorCode): nat {
    match e
    case MethodNotAllowed => 405
    case NotLoggedIn => 401
    case BadRequest => 400
    case NotFound => 404
    case ServerError => 500
  }

  /** The named routes a handler redirects to. */
  datatype Route = GlobalRoute | FollowerRoute | MyProfileRoute | OtherProfileRoute(userId: UserId)

  /** What a rendered page or a JSON body carries. */
  datatype View =
    | RegisterPage(form: FormState)
    | GlobalPage(posts: seq<Post>)
    | FollowerPage(posts: seq<Post>)
    | MyProfilePage(fullName: string, bio: string, picture: Option<Picture>, following: set<UserId>,
                    formErrors: map<Field, seq<FieldError>>)
    | OtherProfilePage(userId: UserId, fullName: string, bio: string, picture: Option<Picture>,
                       canFollow: bool, canUnfollow: bool, username: string)
    | PostsJsonBody(records: seq<PostJson>)
    | CommentJsonBody(comment: CommentJson)

  datatype Outcome = Ok(view: View) | Redirect(route: Route) | Err(code: ErrorCode)

  datatype Response = Response(store: Store, outcome: Outcome)

  /** A logged-in viewer is a registered user. */
  predicate ViewerKnown(s: Store, req: Request) {
    req.viewer.Some? ==> req.viewer.value in s.users
  }

  function FullName(u: User): string {
    u.firstName + " " + u.lastName
  }

  // ---------------------------------------------------------------------
  // Writes to the store

  function NewProfile(u: UserId): Profile {
    Profile(u, "", None, {})
  }

  /** Saving profile `p` as user `u`'s profile. */
  function SetProfile(s: Store, u: UserId, p: Profile): (r: Store)
    requires Valid(s) && u in s.users && p.user == u && |p.bio| <= BioMaxLength
    requires p.following <= s.profiles.Keys + {u}
    ensures Valid(r)
    ensures r.profiles.Keys == s.profiles.Keys + {u} && r.profiles[u] == p
    ensures forall v :: v in s.profiles && v != u ==> r.profiles[v] == s.profiles[v]
    ensures r.users == s.users && r.posts == s.posts && r.comments == s.comments
  {
    var r := s.(profiles := s.profiles[u := p]);
    assert ProfilesValid(r.profiles, r.users) by {
      forall v | v in r.profiles
        ensures v in r.users && r.profiles[v].user == v && |r.profiles[v].bio| <= BioMaxLength
        ensures r.profiles[v].following <= r.profiles.Keys
      {
        if v != u {
          assert r.profiles[v] == s.profiles[v];
        }
      }
    }
    r
  }

  /** `Profile.objects.get_or_create(user=u)`. */
  function GetOrCreateProfile(s: Store, u: UserId): (r: Store)
    requires Valid(s) && u in s.users
    ensures Valid(r) && u in r.profiles
    ensures r.profiles.Keys == s.profiles.Keys + {u}
    ensures forall v :: v in s.profiles ==> r.profiles[v] == s.profiles[v]
    ensures u !in s.profiles ==> r.profiles[u] == NewProfile(u)
    ensures r.users == s.users && r.posts == s.posts && r.comments == s.comments
    ensures u in s.profiles ==> r == s
  {
    if u in s.profiles then s else SetProfile(s, u, NewProfile(u))
  }

  /** The two `get_or_create` calls of `other_profile`: the target's
      profile, then the viewer's. */
  function GetOrCreateBoth(s: Store, target: UserId, viewer: UserId): (r: Store)
    requires Valid(s) && target in s.users && viewer in s.users
    ensures Valid(r) && target in r.profiles && viewer in r.profiles
    ensures r.profiles.Keys == s.profiles.Keys + {viewer, target}
    ensures forall v :: v in s.profiles ==> r.profiles[v] == s.profiles[v]
    ensures Following(r, viewer) == Following(s, viewer)
    ensures r.users == s.users && r.posts == s.posts && r.comments == s.comments
    ensures viewer in s.profiles && target in s.profiles ==> r == s
  {
    GetOrCreateProfile(GetOrCreateProfile(s, target), viewer)
  }

  /** Getting or creating a profile a second time changes nothing. */
  lemma GetOrCreateIdempotent(s: Store, u: UserId)
    requires Valid(s) && u in s.users
    ensures GetOrCreateProfile(GetOrCreateProfile(s, u), u) == GetOrCreateProfile(s, u)
  {
  }

  /** `my_profile.following.add(target)`: only the follower's `following`
      set changes, and it gains `target`. */
  function Follow(s: Store, follower: UserId, target: UserId): (r: Store)
    requires Valid(s) && follower in s.profiles && target in s.profiles
    ensures Valid(r)
    ensures Following(r, follower) == Following(s, follower) + {target}
    ensures r.profiles.Keys == s.profiles.Keys
    ensures forall v :: v in s.profiles && v != follower ==> r.profiles[v] == s.profiles[v]
    ensures r.profiles[follower].bio == s.profiles[follower].bio
    ensures r.profiles[follower].picture == s.profiles[follower].picture
    ensures r.users == s.users && r.posts == s.posts && r.comments == s.comments
  {
    var p := s.profiles[follower];
    SetProfile(s, follower, p.(following := p.following + {target}))
  }

  /** `my_profile.following.remove(target)`: only the follower's
      `following` set changes, and it loses `target`. */
  function Unfollow(s: Store, follower: UserId, target: UserId): (r: Store)
    requires Valid(s) && follower in s.profiles
    ensures Valid(r)
    ensures Following(r, follower) == Following(s, follower) - {target}
    ensures r.profiles.Keys == s.profiles.Keys
    ensures forall v :: v in s.profiles && v != follower ==> r.profiles[v] == s.profiles[v]
    ensures r.profiles[follower].bio == s.profiles[follower].bio
    ensures r.profiles[follower].picture == s.profiles[follower].picture
    ensures r.users == s.users && r.posts == s.posts && r.comments == s.comments
  {
    var p := s.profiles[follower];
    SetProfile(s, follower, p.(following := p.following - {target}))
  }

  /** Following twice leaves one edge: the second follow changes nothing. */
  lemma {:induction false} FollowIdempotent(s: Store, follower: UserId, target: UserId)
    requires Valid(s) && follower in s.profiles && target in s.profiles
    ensures Follow(Follow(s, follower, target), follower, target) == Follow(s, follower, target)
  {
    var once := Follow(s, follower, target);
    var p := once.profiles[follower];
    assert p.following + {target} == p.following;
    assert once.profiles[follower := p] == once.profiles;
  }

  /** Unfollowing a profile one does not follow changes nothing. */
  lemma {:induction false} UnfollowAbsent(s: Store, follower: UserId, target: UserId)
    requires Valid(s) && follower in s.profiles && target !in Following(s, follower)
    ensures Unfollow(s, follower, target) == s
  {
    var p := s.profiles[follower];
    assert p.following - {target} == p.following;
    assert p.(following := p.following) == p;
    assert s.profiles[follower := p] == s.profiles;
  }

  /** Following `target` makes the follower one of `target`'s followers and
      changes no other profile's followers. */
  lemma FollowersOfFollow(s: Store, follower: UserId, target: UserId, u: UserId)
    requires Valid(s) && follower in s.profiles && target in s.profiles
    ensures Followers(Follow(s, follower, target), u) ==
              if u == target then Followers(s, u) + {follower} else Followers(s, u)
  {
    var r := Follow(s, follower, target);
    forall v ensures v in Followers(r, u) <==> v in Followers(s, u) || (u == target && v == follower) {
      if v in s.profiles && v != follower {
        assert r.profiles[v] == s.profiles[v];
      }
    }
  }

  /** Unfollowing `target` removes the follower from `target`'s followers
      and changes no other profile's followers. */
  lemma FollowersOfUnfollow(s: Store, follower: UserId, target: UserId, u: UserId)
    requires Valid(s) && follower in s.profiles
    ensures Followers(Unfollow(s, follower, target), u) ==
              if u == target then Followers(s, u) - {follower} else Followers(s, u)
  {
    var r := Unfollow(s, follower, target);
    forall v ensures v in Followers(r, u) <==> v in Followers(s, u) && !(u == target && v == follower) {
      if v in s.profiles && v != follower {
        assert r.profiles[v] == s.profiles[v];
      }
    }
  }

  /** `post.save()` for a new post: it gets the next id and the current
      time. */
  function SavePost(s: Store, author: UserId, text: string, now: Time): (r: Store)
    requires Valid(s) && author in s.users && |text| <= TextMaxLength
    ensures Valid(r)
    ensures r.posts == s.posts + [Post(s.nextPostId, author, text, now)]
    ensures s.nextPostId !in PostIds(s.posts)
    ensures r.users == s.users && r.profiles == s.profiles && r.comments == s.comments
  {
    var r := s.(posts := s.posts + [Post(s.nextPostId, author, text, now)], nextPostId := s.nextPostId + 1);
    assert PostIds(s.posts) <= PostIds(r.posts) by {
      forall id | id in PostIds(s.posts) ensures id in PostIds(r.posts) {
        var i :| 0 <= i < |s.posts| && s.posts[i].id == id;
        assert r.posts[i] == s.posts[i];
      }
    }
    r
  }

  /** `comment.save()` for a new comment: it gets the next id and the
      current time. */
  function SaveComment(s: Store, author: UserId, post: PostId, text: string, now: Time): (r: Store)
    requires Valid(s) && author in s.users && post in PostIds(s.posts)
    ensures Valid(r)
    ensures r.comments == s.comments + [Comment(s.nextCommentId, author, post, text, now)]
    ensures r.users == s.users && r.profiles == s.profiles && r.posts == s.posts
  {
    s.(comments := s.comments + [Comment(s.nextCommentId, author, post, text, now)],
       nextCommentId := s.nextCommentId + 1)
  }

  /** `User.objects.create_user` followed by `Profile.objects.create`. */
  function CreateAccount(s: Store, username: string, email: string, firstName: string, lastName: string): (r: Store)
    requires Valid(s) && username !in Usernames(s)
    ensures Valid(r)
    ensures s.nextUserId !in s.users && s.nextUserId !in s.profiles
    ensures r.users == s.users[s.nextUserId := User(s.nextUserId, username, email, firstName, lastName)]
    ensures r.profiles == s.profiles[s.nextUserId := NewProfile(s.nextUserId)]
    ensures r.posts == s.posts && r.comments == s.comments
  {
    var id := s.nextUserId;
    var r := s.(users := s.users[id := User(id, username, email, firstName, lastName)],
                profiles := s.profiles[id := NewProfile(id)],
                nextUserId := id + 1);
    assert UsersValid(r.users, r.nextUserId) by {
      forall a | a in s.users ensures s.users[a].username != username {
        assert s.users[a].username in Usernames(s);
      }
    }
    r
  }

  /** `BaseUserManager.normalize_email`: the stripped address is cut at
      its last `@` and the domain part lower-cased; an address without `@`
      is kept exactly as given. */
  function NormalizeEmail(email: string): string {
    var t := Trim(Python, email);
    if '@' !in t then email
    else
      var i := LastIndexOf(t, '@');
      t[..i] + "@" + Lower(t[i + 1..])
  }

  /** An address with nothing to strip, written as a local part, `@` and a
      domain free of `@`, keeps its local part (`@`s included) and has its
      domain lower-cased. */
  lemma NormalizeEmailSplit(local: string, domain: string)
    requires '@' !in domain && Trim(Python, local + "@" + domain) == local + "@" + domain
    ensures NormalizeEmail(local + "@" + domain) == local + "@" + Lower(domain)
  {
    var t := local + "@" + domain;
    LastIndexOfSplit(local, '@', domain);
    assert t[|local|] == '@';
    assert t[..|local|] == local && t[|local| + 1..] == domain;
  }

  /** Cutting a stripped address at an `@` and lower-casing what follows
      leaves a text with nothing to strip. */
  lemma NormalizedStripped(t: string, i: nat)
    requires Trim(Python, t) == t && i < |t| && t[i] == '@'
    ensures var r := t[..i] + "@" + Lower(t[i + 1..]);
            Trim(Python, r) == r
  {
    var r := t[..i] + "@" + Lower(t[i + 1..]);
    TrimEnds(Python, t);
    assert r[0] == if i == 0 then '@' else t[0];
    if i < |t| - 1 {
      assert r[|r| - 1] == LowerChar(t[|t| - 1]);
      LowerCharNotSpace(Python, t[|t| - 1]);
    } else {
      assert r[|r| - 1] == '@';
    }
    TrimUnspaced(Python, r);
  }

  /** Normalising an address twice is normalising it once. */
  lemma NormalizeEmailIdempotent(email: string)
    ensures NormalizeEmail(NormalizeEmail(email)) == NormalizeEmail(email)
  {
    var t := Trim(Python, email);
    if '@' in t {
      var i := LastIndexOf(t, '@');
      var domain := Lower(t[i + 1..]);
      assert '@' !in domain by { LowerKeeps(t[i + 1..], '@'); }
      assert Trim(Python, t[..i] + "@" + domain) == t[..i] + "@" + domain by {
        TrimIdempotent(Python, email);
        NormalizedStripped(t, i);
      }
      NormalizeEmailSplit(t[..i], domain);
      LowerIdempotent(t[i + 1..]);
    }
  }

  // ---------------------------------------------------------------------
  // The handlers

  const EmptyForm := FormState(map[], map[])

  /** `register_action`. A GET shows the empty form; any other request binds
      the submitted data, and an invalid form is shown again with nothing
      stored. A valid one goes to `create_user`, which stores the username
      as `normalizeUsername` (Unicode NFKC normalisation) gives it and the
      address as `NormalizeEmail` gives it; a normalised username some user
      already holds breaks the table's uniqueness constraint, a server error
      with nothing stored. Otherwise the user's profile is created as well
      and the user is logged in. */
  function RegisterResponse(s: Store, req: Request, isEmail: string -> bool,
                            normalizeUsername: string -> string): (r: Response)
    requires Valid(s)
    ensures Valid(r.store)
  {
    if req.verb == GET then Response(s, Ok(RegisterPage(EmptyForm)))
    else
      var input := ReadRegister(PostBody(req));
      var st := ValidateRegister(input, Usernames(s), isEmail);
      if st.errors != map[] then Response(s, Ok(RegisterPage(st)))
      else
        ValidRegisterCleaned(input, Usernames(s), isEmail);
        var username := normalizeUsername(st.cleaned[Username]);
        if username in Usernames(s) then Response(s, Err(ServerError))
        else
          Response(CreateAccount(s, username, NormalizeEmail(st.cleaned[Email]),
                                 st.cleaned[FirstName], st.cleaned[LastName]),
                   Redirect(GlobalRoute))
  }

  /** `post_form.save(commit=False)`, the author set to the viewer, then
      `save()`: only the text comes from the form. */
  function CreatePost(s: Store, viewer: UserId, data: FormData, now: Time): (r: Store)
    requires Valid(s) && viewer in s.users
    ensures Valid(r)
  {
    var form := PostForm(data);
    if form.Accepted? then SavePost(s, viewer, form.value, now) else s
  }

  /** `global_stream`. */
  function GlobalStreamResponse(s: Store, req: Request, now: Time): (r: Response)
    requires Valid(s) && ViewerKnown(s, req)
    ensures Valid(r.store)
  {
    if req.viewer.None? then Response(s, Err(NotLoggedIn))
    else if req.verb == POST then Response(CreatePost(s, req.viewer.value, req.data, now), Redirect(GlobalRoute))
    else Response(s, Ok(GlobalPage(GlobalFeed(s))))
  }

  /** `follower_stream`. A post is made only when the submitted data has a
      `posttext` key; the form itself reads the `text` key. */
  function FollowerStreamResponse(s: Store, req: Request, now: Time): (r: Response)
    requires Valid(s) && ViewerKnown(s, req)
    ensures Valid(r.store)
  {
    if req.viewer.None? then Response(s, Err(NotLoggedIn))
    else if req.verb == POST && "posttext" in req.data then
      Response(CreatePost(s, req.viewer.value, req.data, now), Redirect(FollowerRoute))
    else
      var s1 := GetOrCreateProfile(s, req.viewer.value);
      Response(s1, Ok(FollowerPage(FollowingFeed(s1, req.viewer.value))))
  }

  /** `my_profile`. A valid submission saves the bio and picture it binds; an
      invalid one shows the page again, with the values that did clean
      already written to the (unsaved) profile shown. */
  function MyProfileResponse(s: Store, req: Request, upload: PictureInput): (r: Response)
    requires Valid(s) && ViewerKnown(s, req)
    ensures Valid(r.store)
  {
    if req.viewer.None? then Response(s, Err(NotLoggedIn))
    else
      var v := req.viewer.value;
      var s1 := GetOrCreateProfile(s, v);
      var mine := s1.profiles[v];
      var user := s1.users[v];
      if req.verb == POST then
        var form := ProfileForm(mine, req.data, upload);
        if form.errors == map[] then
          Response(SetProfile(s1, v, form.instance), Redirect(MyProfileRoute))
        else
          Response(s1, Ok(MyProfilePage(FullName(user), form.instance.bio, form.instance.picture,
                                        mine.following, form.errors)))
      else
        Response(s1, Ok(MyProfilePage(FullName(user), mine.bio, mine.picture, mine.following, map[])))
  }

  /** `other_profile`. An unknown user id is a 404 before any profile is
      created; otherwise both profiles are got or created, a POST follows
      (`follow` key, which wins) or unfollows (`unfollow` key), and a GET
      shows the page with the follow buttons. */
  function OtherProfileResponse(s: Store, req: Request, target: UserId): (r: Response)
    requires Valid(s) && ViewerKnown(s, req)
    ensures Valid(r.store)
  {
    if req.viewer.None? then Response(s, Err(NotLoggedIn))
    else if target !in s.users then Response(s, Err(NotFound))
    else
      var v := req.viewer.value;
      var s2 := GetOrCreateBoth(s, target, v);
      if req.verb == POST then
        var s3 := if "follow" in req.data then Follow(s2, v, target)
                  else if "unfollow" in req.data then Unfollow(s2, v, target)
                  else s2;
        Response(s3, Redirect(OtherProfileRoute(target)))
      else
        var amFollowing := target in s2.profiles[v].following;
        var other := s2.users[target];
        var theirs := s2.profiles[target];
        Response(s2, Ok(OtherProfilePage(target, FullName(other), theirs.bio, theirs.picture,
                                         !amFollowing && target != v, amFollowing && target != v,
                                         other.username)))
  }

  /** `get_global_stream_json`: every post, newest first, each with its
      comments. */
  function GlobalStreamJsonResponse(s: Store, req: Request): (r: Response)
    requires Valid(s) && ViewerKnown(s, req)
    ensures r.store == s
  {
    if req.viewer.None? then Response(s, Err(NotLoggedIn))
    else if req.verb != GET then Response(s, Err(MethodNotAllowed))
    else
      var feed := GlobalFeed(s);
      StorePostsKnown(s, feed);
      Response(s, Ok(PostsJsonBody(PostsJson(s, feed))))
  }

  /** `get_follower_stream_json`: the followed authors' posts, oldest first,
      each with its comments. The viewer's profile is looked up, not
      created: without one the lookup fails. */
  function FollowerStreamJsonResponse(s: Store, req: Request): (r: Response)
    requires Valid(s) && ViewerKnown(s, req)
    ensures r.store == s
  {
    if req.viewer.None? then Response(s, Err(NotLoggedIn))
    else if req.verb != GET then Response(s, Err(MethodNotAllowed))
    else if req.viewer.value !in s.profiles then Response(s, Err(ServerError))
    else
      var feed := FollowingFeedJson(s, req.viewer.value);
      StorePostsKnown(s, feed);
      Response(s, Ok(PostsJsonBody(PostsJson(s, feed))))
  }

  /** `request.POST.get(key)`. */
  function Get(data: FormData, key: string): Option<string> {
    if key in data then Some(data[key]) else None
  }

  /** `add_comment`: the checks in order, then one stored comment, echoed
      back. */
  function AddCommentResponse(s: Store, req: Request, now: Time): (r: Response)
    requires Valid(s) && ViewerKnown(s, req)
    ensures Valid(r.store)
  {
    if req.verb != POST then Response(s, Err(MethodNotAllowed))
    else if req.viewer.None? then Response(s, Err(NotLoggedIn))
    else
      var text := Get(req.data, "comment_text");
      var postIdText := Get(req.data, "post_id");
      if text.None? || text.value == "" || postIdText.None? || postIdText.value == "" then
        Response(s, Err(BadRequest))
      else
        var id := PyInt(postIdText.value);
        if id.None? then Response(s, Err(BadRequest))
        else if id.value < 0 || id.value as nat !in PostIds(s.posts) then Response(s, Err(BadRequest))
        else
          var s1 := SaveComment(s, req.viewer.value, id.value as nat, text.value, now);
          var c := s1.comments[|s1.comments| - 1];
          Response(s1, Ok(CommentJsonBody(CommentRecord(s1, c))))
  }

  // ---------------------------------------------------------------------
  // Properties of the handlers

  /** The posts added by a request are the viewer's: the old posts are kept
      as they were and every new one names the viewer as author. */
  predicate PostsAddedBy(s: Store, r: Store, viewer: UserId) {
    && |s.posts| <= |r.posts| && r.posts[..|s.posts|] == s.posts
    && forall i :: |s.posts| <= i < |r.posts| ==> r.posts[i].author == viewer
  }

  /** A valid registration whose normalised username is free creates the
      user from the stripped submitted values (the username normalised, the
      address's domain lower-cased), then an empty profile for that user,
      and nothing else. */
  lemma RegisterCreatesAccount(s: Store, req: Request, isEmail: string -> bool, normalizeUsername: string -> string)
    requires Valid(s) && req.verb != GET
    requires ValidateRegister(ReadRegister(PostBody(req)), Usernames(s), isEmail).errors == map[]
    requires normalizeUsername(Trim(Python, ReadRegister(PostBody(req)).username)) !in Usernames(s)
    ensures var input := ReadRegister(PostBody(req));
            var r := RegisterResponse(s, req, isEmail, normalizeUsername);
            var id := s.nextUserId;
            && id !in s.users && id !in s.profiles
            && r.store.users == s.users[id := User(id, normalizeUsername(Trim(Python, input.username)),
                                                   NormalizeEmail(Trim(Python, input.email)),
                                                   Trim(Python, input.firstName), Trim(Python, input.lastName))]
            && r.store.profiles == s.profiles[id := NewProfile(id)]
            && r.store.posts == s.posts && r.store.comments == s.comments
            && r.outcome == Redirect(GlobalRoute)
  {
    ValidRegisterCleaned(ReadRegister(PostBody(req)), Usernames(s), isEmail);
  }

  /** A valid registration whose username becomes, once normalised, one a
      user already holds is a server error that stores nothing. The form's
      own check let it through, so normalising changed that username. */
  lemma RegisterNormalizedClash(s: Store, req: Request, isEmail: string -> bool, normalizeUsername: string -> string)
    requires Valid(s) && req.verb != GET
    requires ValidateRegister(ReadRegister(PostBody(req)), Usernames(s), isEmail).errors == map[]
    requires normalizeUsername(Trim(Python, ReadRegister(PostBody(req)).username)) in Usernames(s)
    ensures RegisterResponse(s, req, isEmail, normalizeUsername) == Response(s, Err(ServerError))
    ensures var u := Trim(Python, ReadRegister(PostBody(req)).username);
            normalizeUsername(u) != u
  {
    ValidRegisterCleaned(ReadRegister(PostBody(req)), Usernames(s), isEmail);
  }

  /** An invalid registration stores nothing and shows the form again with
      its errors. */
  lemma RegisterRejected(s: Store, req: Request, isEmail: string -> bool, normalizeUsername: string -> string)
    requires Valid(s) && req.verb != GET
    requires ValidateRegister(ReadRegister(PostBody(req)), Usernames(s), isEmail).errors != map[]
    ensures var st := ValidateRegister(ReadRegister(PostBody(req)), Usernames(s), isEmail);
            RegisterResponse(s, req, isEmail, normalizeUsername) == Response(s, Ok(RegisterPage(st)))
  {
  }

  /** A registration whose username is already held stores nothing. */
  lemma RegisterTakenUsername(s: Store, req: Request, isEmail: string -> bool, normalizeUsername: string -> string)
    requires Valid(s) && req.verb != GET
    requires Trim(Python, ReadRegister(PostBody(req)).username) in Usernames(s)
    ensures RegisterResponse(s, req, isEmail, normalizeUsername).store == s
    ensures RegisterResponse(s, req, isEmail, normalizeUsername).outcome.Ok?
  {
    TakenUsernameRejected(ReadRegister(PostBody(req)), Usernames(s), isEmail);
  }

  /** A post submitted to the global stream is stored with the viewer as
      author and the stripped text, and nothing else changes; it is not
      stored at all when the text is empty, too long or holds a NUL
      character. Either way the page is reloaded. */
  lemma GlobalStreamPost(s: Store, req: Request, now: Time)
    requires Valid(s) && ViewerKnown(s, req) && req.viewer.Some? && req.verb == POST
    ensures var r := GlobalStreamResponse(s, req, now);
            var text := Trim(Python, Raw(req.data, "text"));
            && r.outcome == Redirect(GlobalRoute)
            && PostsAddedBy(s, r.store, req.viewer.value)
            && (1 <= |text| && Fits(text, TextMaxLength) ==>
                  && r.store == SavePost(s, req.viewer.value, text, now)
                  && r.store.posts == s.posts + [Post(s.nextPostId, req.viewer.value, text, now)])
            && (!(1 <= |text| && Fits(text, TextMaxLength)) ==> r.store == s)
  {
  }

  /** The global page lists every post, newest first. */
  lemma GlobalStreamPage(s: Store, req: Request, now: Time)
    requires Valid(s) && ViewerKnown(s, req) && req.viewer.Some? && req.verb != POST
    ensures var r := GlobalStreamResponse(s, req, now);
            && r.store == s && r.outcome.Ok? && r.outcome.view.GlobalPage?
            && multiset(r.outcome.view.posts) == multiset(s.posts)
            && Ordered(r.outcome.view.posts, PostTime, true)
  {
  }

  /** The follower page: the viewer ends with exactly one profile, and the
      page lists exactly the posts whose author the viewer follows, newest
      first. */
  lemma FollowerStreamPage(s: Store, req: Request, now: Time)
    requires Valid(s) && ViewerKnown(s, req) && req.viewer.Some?
    requires !(req.verb == POST && "posttext" in req.data)
    ensures var r := FollowerStreamResponse(s, req, now);
            var v := req.viewer.value;
            && r.store == GetOrCreateProfile(s, v)
            && v in r.store.profiles && r.store.profiles.Keys == s.profiles.Keys + {v}
            && r.outcome.Ok? && r.outcome.view.FollowerPage?
            && (forall p :: p in r.outcome.view.posts <==> p in s.posts && p.author in Following(s, v))
            && Ordered(r.outcome.view.posts, PostTime, true)
  {
    var v := req.viewer.value;
    var s1 := GetOrCreateProfile(s, v);
    assert Following(s1, v) == Following(s, v);
  }

  /** A post submitted to the follower stream (with a `posttext` key) is
      handled as on the global stream: the stripped `text` value is stored
      with the viewer as author, or nothing is stored when the form refuses
      it; the follower page is reloaded. */
  lemma FollowerStreamPost(s: Store, req: Request, now: Time)
    requires Valid(s) && ViewerKnown(s, req) && req.viewer.Some?
    requires req.verb == POST && "posttext" in req.data
    ensures var r := FollowerStreamResponse(s, req, now);
            var text := Trim(Python, Raw(req.data, "text"));
            && r.outcome == Redirect(FollowerRoute)
            && PostsAddedBy(s, r.store, req.viewer.value)
            && (1 <= |text| && Fits(text, TextMaxLength) ==>
                  && r.store == SavePost(s, req.viewer.value, text, now)
                  && r.store.posts == s.posts + [Post(s.nextPostId, req.viewer.value, text, now)])
            && (!(1 <= |text| && Fits(text, TextMaxLength)) ==> r.store == s)
  {
  }

  /** A profile submission that cleans saves the new bio and picture into the
      viewer's profile and nothing else; one that does not saves nothing
      beyond getting or creating the profile. */
  lemma MyProfileSubmit(s: Store, req: Request, upload: PictureInput)
    requires Valid(s) && ViewerKnown(s, req) && req.viewer.Some? && req.verb == POST
    ensures var v := req.viewer.value;
            var s1 := GetOrCreateProfile(s, v);
            var form := ProfileForm(s1.profiles[v], req.data, upload);
            var r := MyProfileResponse(s, req, upload);
            && v in r.store.profiles
            && r.store.users == s.users && r.store.posts == s.posts && r.store.comments == s.comments
            && r.store.profiles.Keys == s.profiles.Keys + {v}
            && (forall u :: u in s.profiles && u != v ==> r.store.profiles[u] == s.profiles[u])
            && r.store.profiles[v].following == Following(s, v)
            && (form.errors == map[] ==> r.store.profiles[v] == form.instance && r.outcome == Redirect(MyProfileRoute))
            && (form.errors != map[] ==>
                  && r.store == s1
                  && r.outcome == Ok(MyProfilePage(FullName(s.users[v]), form.instance.bio, form.instance.picture,
                                                   Following(s, v), form.errors)))
  {
    var v := req.viewer.value;
    var s1 := GetOrCreateProfile(s, v);
    var form := ProfileForm(s1.profiles[v], req.data, upload);
    if form.errors == map[] {
      assert MyProfileResponse(s, req, upload).store == SetProfile(s1, v, form.instance);
    }
  }

  /** Showing one's own profile page (any verb but POST): the viewer ends
      with exactly one profile, nothing else changes, and the page shows
      that profile's bio, picture and follows with no form errors. */
  lemma MyProfileView(s: Store, req: Request, upload: PictureInput)
    requires Valid(s) && ViewerKnown(s, req) && req.viewer.Some? && req.verb != POST
    ensures var v := req.viewer.value;
            var r := MyProfileResponse(s, req, upload);
            && r.store == GetOrCreateProfile(s, v)
            && v in r.store.profiles && r.store.profiles.Keys == s.profiles.Keys + {v}
            && (v in s.profiles ==> r.store == s)
            && r.outcome == Ok(MyProfilePage(FullName(s.users[v]), r.store.profiles[v].bio,
                                             r.store.profiles[v].picture, Following(s, v), map[]))
  {
    var v := req.viewer.value;
    assert Following(GetOrCreateProfile(s, v), v) == Following(s, v);
  }

  /** An unknown user id is a 404 and creates no profile. */
  lemma OtherProfileUnknown(s: Store, req: Request, target: UserId)
    requires Valid(s) && ViewerKnown(s, req) && req.viewer.Some? && target !in s.users
    ensures OtherProfileResponse(s, req, target) == Response(s, Err(NotFound))
  {
  }

  /** A follow or unfollow submission changes only the viewer's `following`
      set (besides getting or creating both profiles): a `follow` key adds
      the target, even when an `unfollow` key is present too; an `unfollow`
      key alone removes it. Following oneself is not refused. */
  lemma OtherProfileSubmit(s: Store, req: Request, target: UserId)
    requires Valid(s) && ViewerKnown(s, req) && req.viewer.Some? && target in s.users
    requires req.verb == POST
    ensures var r := OtherProfileResponse(s, req, target);
            var v := req.viewer.value;
            && r.outcome == Redirect(OtherProfileRoute(target))
            && r.store == (var s2 := GetOrCreateBoth(s, target, v);
                           if "follow" in req.data then Follow(s2, v, target)
                           else if "unfollow" in req.data then Unfollow(s2, v, target)
                           else s2)
            && r.store.users == s.users && r.store.posts == s.posts && r.store.comments == s.comments
            && r.store.profiles.Keys == s.profiles.Keys + {v, target}
            && (forall u :: u in s.profiles && u != v ==> r.store.profiles[u] == s.profiles[u])
            && Following(r.store, v) ==
                 (if "follow" in req.data then Following(s, v) + {target}
                  else if "unfollow" in req.data then Following(s, v) - {target}
                  else Following(s, v))
  {
    var v := req.viewer.value;
    var s2 := GetOrCreateBoth(s, target, v);
    var s3 := if "follow" in req.data then Follow(s2, v, target)
              else if "unfollow" in req.data then Unfollow(s2, v, target)
              else s2;
    assert OtherProfileResponse(s, req, target) == Response(s3, Redirect(OtherProfileRoute(target)));
  }

  /** Submitting the same follow or unfollow twice leaves the store as the
      first submission left it. */
  lemma OtherProfileSubmitTwice(s: Store, req: Request, target: UserId)
    requires Valid(s) && ViewerKnown(s, req) && req.viewer.Some? && target in s.users
    requires req.verb == POST
    ensures var once := OtherProfileResponse(s, req, target).store;
            OtherProfileResponse(once, req, target).store == once
  {
    var v := req.viewer.value;
    var once := OtherProfileResponse(s, req, target).store;
    var s2 := GetOrCreateBoth(s, target, v);
    assert GetOrCreateBoth(once, target, v) == once;
    if "follow" in req.data {
      FollowIdempotent(s2, v, target);
    } else if "unfollow" in req.data {
      UnfollowAbsent(once, v, target);
    }
  }

  /** The follow buttons: "follow" exactly when the viewer does not follow
      the other user, "unfollow" exactly when they do, and neither on the
      viewer's own profile. */
  lemma OtherProfileButtons(s: Store, req: Request, target: UserId)
    requires Valid(s) && ViewerKnown(s, req) && req.viewer.Some? && target in s.users
    requires req.verb != POST
    ensures var r := OtherProfileResponse(s, req, target);
            var v := req.viewer.value;
            && r.outcome.Ok? && r.outcome.view.OtherProfilePage?
            && r.outcome.view.canFollow == (target != v && target !in Following(s, v))
            && r.outcome.view.canUnfollow == (target != v && target in Following(s, v))
            && (target == v ==> !r.outcome.view.canFollow && !r.outcome.view.canUnfollow)
            && r.store.profiles.Keys == s.profiles.Keys + {v, target}
  {
    var v := req.viewer.value;
    var s2 := GetOrCreateBoth(s, target, v);
    var am := target in s2.profiles[v].following;
    assert am == (target in Following(s, v));
    var other := s2.users[target];
    var theirs := s2.profiles[target];
    assert OtherProfileResponse(s, req, target)
        == Response(s2, Ok(OtherProfilePage(target, FullName(other), theirs.bio, theirs.picture,
                                            !am && target != v, am && target != v, other.username)));
  }

  /** The global JSON: one record per post, newest first, each describing
      its post and author and listing the comments on it, newest first. */
  lemma GlobalStreamJsonBody(s: Store, req: Request)
    requires Valid(s) && ViewerKnown(s, req) && req.viewer.Some? && req.verb == GET
    ensures var r := GlobalStreamJsonResponse(s, req);
            var feed := GlobalFeed(s);
            && r.store == s && r.outcome.Ok? && r.outcome.view.PostsJsonBody?
            && |feed| == |s.posts|
            && RecordsDescribe(s, feed, r.outcome.view.records)
            && (forall i, j :: 0 <= i < j < |feed| ==>
                  r.outcome.view.records[i].creationTime >= r.outcome.view.records[j].creationTime)
  {
    var feed := GlobalFeed(s);
    assert |feed| == |multiset(feed)| == |multiset(s.posts)| == |s.posts|;
    StorePostsKnown(s, feed);
    PostsJsonDescribes(s, feed);
    var recs := GlobalStreamJsonResponse(s, req).outcome.view.records;
    forall i, j | 0 <= i < j < |feed| ensures recs[i].creationTime >= recs[j].creationTime {
      assert InOrder(PostTime, true, feed[i], feed[j]);
    }
  }

  /** The follower JSON: 401, then 405, then a server error when the viewer
      has no profile; otherwise one record per followed post, oldest first,
      each describing its post and author and listing the comments on it,
      newest first. */
  lemma FollowerStreamJsonBody(s: Store, req: Request)
    requires Valid(s) && ViewerKnown(s, req)
    ensures var r := FollowerStreamJsonResponse(s, req);
            && r.store == s
            && (req.viewer.None? ==> r.outcome == Err(NotLoggedIn))
            && (req.viewer.Some? && req.verb != GET ==> r.outcome == Err(MethodNotAllowed))
            && (req.viewer.Some? && req.verb == GET && req.viewer.value !in s.profiles ==>
                  r.outcome == Err(ServerError))
            && (req.viewer.Some? && req.verb == GET && req.viewer.value in s.profiles ==>
                  var feed := FollowingFeedJson(s, req.viewer.value);
                  && r.outcome.Ok? && r.outcome.view.PostsJsonBody?
                  && RecordsDescribe(s, feed, r.outcome.view.records)
                  && (forall i, j :: 0 <= i < j < |feed| ==>
                        r.outcome.view.records[i].creationTime <= r.outcome.view.records[j].creationTime))
  {
    if req.viewer.Some? && req.verb == GET && req.viewer.value in s.profiles {
      var feed := FollowingFeedJson(s, req.viewer.value);
      var recs := FollowerStreamJsonResponse(s, req).outcome.view.records;
      StorePostsKnown(s, feed);
      PostsJsonDescribes(s, feed);
      forall i, j | 0 <= i < j < |feed| ensures recs[i].creationTime <= recs[j].creationTime {
        assert InOrder(PostTime, false, feed[i], feed[j]);
      }
    }
  }

  /** A submitted value is missing when the key is absent or its value is
      empty. */
  predicate Missing(data: FormData, key: string) {
    key !in data || data[key] == ""
  }

  /** The id a well-formed `post_id` names, if it names a stored post. */
  predicate NamesPost(s: Store, data: FormData) {
    && "post_id" in data && PyInt(data["post_id"]).Some?
    && PyInt(data["post_id"]).value >= 0
    && PyInt(data["post_id"]).value as nat in PostIds(s.posts)
  }

  /** The checks of `add_comment`, in order: 405 for anything but a POST,
      then 401 for an anonymous viewer, then 400 for a missing or empty text
      or post id, then 400 for a post id that is not an integer, then 400 for
      an id no post has. Nothing is stored on any error. */
  lemma AddCommentErrors(s: Store, req: Request, now: Time)
    requires Valid(s) && ViewerKnown(s, req)
    ensures var r := AddCommentResponse(s, req, now);
            && (r.outcome.Err? ==> r.store == s)
            && (req.verb != POST ==> r.outcome == Err(MethodNotAllowed))
            && (req.verb == POST && req.viewer.None? ==> r.outcome == Err(NotLoggedIn))
            && (req.verb == POST && req.viewer.Some? &&
                (Missing(req.data, "comment_text") || Missing(req.data, "post_id")) ==>
                  r.outcome == Err(BadRequest))
            && (req.verb == POST && req.viewer.Some? &&
                !Missing(req.data, "comment_text") && !Missing(req.data, "post_id") &&
                PyInt(req.data["post_id"]).None? ==>
                  r.outcome == Err(BadRequest))
            && (req.verb == POST && req.viewer.Some? && !Missing(req.data, "comment_text") &&
                !NamesPost(s, req.data) ==>
                  r.outcome == Err(BadRequest))
            && (r.outcome.Ok? <==>
                  req.verb == POST && req.viewer.Some? && !Missing(req.data, "comment_text") &&
                  NamesPost(s, req.data))
  {
  }

  /** A comment that passes the checks is stored once, by the viewer, on the
      named post, with the submitted text unchanged (text of whitespace
      alone included), and the response echoes it. */
  lemma AddCommentStores(s: Store, req: Request, now: Time)
    requires Valid(s) && ViewerKnown(s, req)
    requires req.verb == POST && req.viewer.Some?
    requires !Missing(req.data, "comment_text") && NamesPost(s, req.data)
    ensures var r := AddCommentResponse(s, req, now);
            var c := Comment(s.nextCommentId, req.viewer.value, PyInt(req.data["post_id"]).value as nat,
                             req.data["comment_text"], now);
            && r.store.comments == s.comments + [c]
            && r.store.users == s.users && r.store.profiles == s.profiles && r.store.posts == s.posts
            && c.id !in (set i | 0 <= i < |s.comments| :: s.comments[i].id)
            && r.outcome == Ok(CommentJsonBody(CommentRecord(s, c)))
            && c in PostComments(r.store, c.post)
  {
    var c := Comment(s.nextCommentId, req.viewer.value, PyInt(req.data["post_id"]).value as nat,
                     req.data["comment_text"], now);
    var r := AddCommentResponse(s, req, now);
    assert r.store.comments[|s.comments|] == c;
  }

  // ---------------------------------------------------------------------
  // The database, updated in place

  /** The tables the handlers read and write. Each handler method performs
      the steps of its view on the tables and answers as the corresponding
      response function says. */
  class Database {
    var users: map<UserId, User>
    var profiles: map<UserId, Profile>
    var posts: seq<Post>
    var comments: seq<Comment>
    var nextUserId: nat
    var nextPostId: nat
    var nextCommentId: nat

    function Snapshot(): Store
      reads this
    {
      Store(users, profiles, posts, comments, nextUserId, nextPostId, nextCommentId)
    }

    constructor ()
      ensures Snapshot() == EmptyStore()
    {
      users, profiles, posts, comments := map[], map[], [], [];
      nextUserId, nextPostId, nextCommentId := 1, 1, 1;
    }

    /** `Profile.objects.get_or_create(user=u)`. */
    method EnsureProfile(u: UserId)
      requires Valid(Snapshot()) && u in users
      modifies this
      ensures Snapshot() == GetOrCreateProfile(old(Snapshot()), u)
    {
      if u !in profiles {
        profiles := profiles[u := NewProfile(u)];
      }
    }

    /** Saves a new post and advances the id sequence. */
    method InsertPost(author: UserId, text: string, now: Time)
      requires Valid(Snapshot()) && author in users && |text| <= TextMaxLength
      modifies this
      ensures Snapshot() == SavePost(old(Snapshot()), author, text, now)
    {
      posts := posts + [Post(nextPostId, author, text, now)];
      nextPostId := nextPostId + 1;
    }

    /** Creates the user and then the profile under the next user id. */
    method InsertAccount(username: string, email: string, firstName: string, lastName: string)
      requires Valid(Snapshot()) && username !in Usernames(Snapshot())
      modifies this
      ensures Snapshot() == CreateAccount(old(Snapshot()), username, email, firstName, lastName)
    {
      var id := nextUserId;
      users := users[id := User(id, username, email, firstName, lastName)];
      profiles := profiles[id := NewProfile(id)];
      nextUserId := id + 1;
    }

    /** `register_action`; the insert of a username the table already holds
      fails and leaves every table as it was. */
    method Register(req: Request, isEmail: string -> bool, normalizeUsername: string -> string)
      returns (outcome: Outcome)
      requires Valid(Snapshot())
      modifies this
      ensures Response(Snapshot(), outcome) == RegisterResponse(old(Snapshot()), req, isEmail, normalizeUsername)
    {
      if req.verb == GET {
        return Ok(RegisterPage(EmptyForm));
      }
      var form := new RegisterForm(PostBody(req), Usernames(Snapshot()), isEmail);
      form.Clean();
      if !form.IsValid() {
        return Ok(RegisterPage(form.State()));
      }
      ValidRegisterCleaned(ReadRegister(PostBody(req)), Usernames(Snapshot()), isEmail);
      var c := form.cleanedData;
      var username := normalizeUsername(c[Username]);
      if username in Usernames(Snapshot()) {
        return Err(ServerError);
      }
      InsertAccount(username, NormalizeEmail(c[Email]), c[FirstName], c[LastName]);
      outcome := Redirect(GlobalRoute);
    }

    method GlobalStream(req: Request, now: Time) returns (outcome: Outcome)
      requires Valid(Snapshot()) && ViewerKnown(Snapshot(), req)
      modifies this
      ensures Response(Snapshot(), outcome) == GlobalStreamResponse(old(Snapshot()), req, now)
    {
      if req.viewer.None? {
        return Err(NotLoggedIn);
      }
      if req.verb == POST {
        var form := PostForm(req.data);
        if form.Accepted? {
          InsertPost(req.viewer.value, form.value, now);
        }
        return Redirect(GlobalRoute);
      }
      outcome := Ok(GlobalPage(GlobalFeed(Snapshot())));
    }

    method FollowerStream(req: Request, now: Time) returns (outcome: Outcome)
      requires Valid(Snapshot()) && ViewerKnown(Snapshot(), req)
      modifies this
      ensures Response(Snapshot(), outcome) == FollowerStreamResponse(old(Snapshot()), req, now)
    {
      if req.viewer.None? {
        return Err(NotLoggedIn);
      }
      var v := req.viewer.value;
      if req.verb == POST && "posttext" in req.data {
        var form := PostForm(req.data);
        if form.Accepted? {
          InsertPost(v, form.value, now);
        }
        return Redirect(FollowerRoute);
      }
      EnsureProfile(v);
      outcome := Ok(FollowerPage(FollowingFeed(Snapshot(), v)));
    }

    method MyProfile(req: Request, upload: PictureInput) returns (outcome: Outcome)
      requires Valid(Snapshot()) && ViewerKnown(Snapshot(), req)
      modifies this
      ensures Response(Snapshot(), outcome) == MyProfileResponse(old(Snapshot()), req, upload)
    {
      if req.viewer.None? {
        return Err(NotLoggedIn);
      }
      var v := req.viewer.value;
      EnsureProfile(v);
      var mine := profiles[v];
      var name := FullName(users[v]);
      if req.verb == POST {
        var form := ProfileForm(mine, req.data, upload);
        if form.errors == map[] {
          profiles := profiles[v := form.instance];
          return Redirect(MyProfileRoute);
        }
        return Ok(MyProfilePage(name, form.instance.bio, form.instance.picture, mine.following, form.errors));
      }
      outcome := Ok(MyProfilePage(name, mine.bio, mine.picture, mine.following, map[]));
    }

    method OtherProfile(req: Request, target: UserId) returns (outcome: Outcome)
      requires Valid(Snapshot()) && ViewerKnown(Snapshot(), req)
      modifies this
      ensures Response(Snapshot(), outcome) == OtherProfileResponse(old(Snapshot()), req, target)
    {
      if req.viewer.None? {
        return Err(NotLoggedIn);
      }
      if target !in users {
        return Err(NotFound);
      }
      var v := req.viewer.value;
      EnsureProfile(target);
      EnsureProfile(v);
      if req.verb == POST {
        var mine := profiles[v];
        if "follow" in req.data {
          profiles := profiles[v := mine.(following := mine.following + {target})];
        } else if "unfollow" in req.data {
          profiles := profiles[v := mine.(following := mine.following - {target})];
        }
        return Redirect(OtherProfileRoute(target));
      }
      var amFollowing := target in profiles[v].following;
      var other := users[target];
      var theirs := profiles[target];
      outcome := Ok(OtherProfilePage(target, FullName(other), theirs.bio, theirs.picture,
                                     !amFollowing && target != v, amFollowing && target != v,
                                     other.username));
    }

    method GlobalStreamJson(req: Request) returns (outcome: Outcome)
      requires Valid(Snapshot()) && ViewerKnown(Snapshot(), req)
      ensures Response(Snapshot(), outcome) == GlobalStreamJsonResponse(Snapshot(), req)
    {
      if req.viewer.None? {
        return Err(NotLoggedIn);
      }
      if req.verb != GET {
        return Err(MethodNotAllowed);
      }
      var feed := GlobalFeed(Snapshot());
      StorePostsKnown(Snapshot(), feed);
      var data := BuildPostsJson(Snapshot(), feed);
      outcome := Ok(PostsJsonBody(data));
    }

    method FollowerStreamJson(req: Request) returns (outcome: Outcome)
      requires Valid(Snapshot()) && ViewerKnown(Snapshot(), req)
      ensures Response(Snapshot(), outcome) == FollowerStreamJsonResponse(Snapshot(), req)
    {
      if req.viewer.None? {
        return Err(NotLoggedIn);
      }
      if req.verb != GET {
        return Err(MethodNotAllowed);
      }
      if req.viewer.value !in profiles {
        return Err(ServerError);
      }
      var feed := FollowingFeedJson(Snapshot(), req.viewer.value);
      StorePostsKnown(Snapshot(), feed);
      var data := BuildPostsJson(Snapshot(), feed);
      outcome := Ok(PostsJsonBody(data));
    }

    method AddComment(req: Request, now: Time) returns (outcome: Outcome)
      requires Valid(Snapshot()) && ViewerKnown(Snapshot(), req)
      modifies this
      ensures Response(Snapshot(), outcome) == AddCommentResponse(old(Snapshot()), req, now)
    {
      if req.verb != POST {
        return Err(MethodNotAllowed);
      }
      if req.viewer.None? {
        return Err(NotLoggedIn);
      }
      var text := Get(req.data, "comment_text");
      var postIdText := Get(req.data, "post_id");
      if text.None? || text.value == "" || postIdText.None? || postIdText.value == "" {
        return Err(BadRequest);
      }
      var id := PyInt(postIdText.value);
      if id.None? {
        return Err(BadRequest);
      }
      if id.value < 0 || id.value as nat !in PostIds(posts) {
        return Err(BadRequest);
      }
      var c := Comment(nextCommentId, req.viewer.value, id.value as nat, text.value, now);
      comments := comments + [c];
      nextCommentId := nextCommentId + 1;
      outcome := Ok(CommentJsonBody(CommentRecord(Snapshot(), c)));
    }
  }
}

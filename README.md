# A Dafny model of the socialnetwork application

This project models the core of a small Django social network. Users
register and get a profile. They post short texts to a global stream and
follow other users' profiles, which gives them a follower stream. They
comment on posts from the browser. Two pieces of JavaScript poll JSON
endpoints and merge new posts and comments into the page.

The model has six modules.

- `Text` covers the string primitives the application relies on:
  - whitespace stripping, as done by form fields (Python's `str.strip`) and
    by JavaScript's `trim`, each with its own whitespace set;
  - `split` on one character, and the cut at the last `@` of an address;
  - lower-casing;
  - decimal rendering of ids;
  - Python's `int()` applied to a request parameter.
- `Models` holds the entities (user, profile, post, comment) and the store
  that holds them. It states the schema's invariants as `Valid`, covers the
  `__str__` texts, and proves that the delete cascades keep the store
  consistent.
- `Forms` covers field cleaning (`CharField`, `EmailField`), the login
  form, and the registration form. The registration form is a class whose
  `Clean` method adds the password-mismatch error in place. The module also
  covers the fields that the post form and the profile form bind.
- `Feeds` covers the orderings and the global and following feeds. It also
  holds the JSON records and the two loops that build them (methods proved
  equal to their specification functions).
- `Views` covers the handlers.
  - Each handler is a function from the store and a request to a new store
    and an outcome: a page, a redirect, or an error status (401, 404, 405,
    400 or 500).
  - Lemmas state what each handler promises.
  - The `Database` class holds the tables as fields. Its methods perform
    the handlers' steps in place and are proved to answer as the functions
    do.
- `Client` covers the browser side. `getCookie` is a function with its
  lemmas. The page is a class: post divs from top to bottom, and comment
  divs with the post whose container holds them. Its methods add a post,
  add a comment, and run the refresh loops, and are proved against
  functions on `PageView`. The comment box's trimming guard is modelled
  too. One lemma connects the comment box to the comment endpoint.

`global.js` and `follower.js` hold the same helpers and differ only in the
endpoint they poll. The model has one copy of each helper. The rows below
cite `global.js`; `follower.js` has the same code at these lines:

| helper | lines in `follower.js` |
|---|---|
| `getCookie` | 2-10 |
| existence checks | 20-26 |
| `addPostToDOM` | 28-53 |
| `addCommentToDOM` | 55-74 |
| refresh | 76-99 |
| `addComment` | 101-129 |

The following decisions shape the model.

- Creation times are natural numbers. The clock is a parameter (`now`).
- The logged-in user is part of the request and is a registered user.
- Stripping takes the runtime as a parameter. Form fields and `int()`
  strip Python's whitespace set (`str.isspace`), which includes the
  separators U+001C to U+001F and U+0085. The browser's `trim` strips
  JavaScript's set, which includes U+FEFF instead.
- Every text field also rejects a NUL character (Django's
  `ProhibitNullCharactersValidator`, which `CharField` always adds).
- The e-mail address check is the parameter `isEmail`.
- `create_user` normalises the username to Unicode NFKC. That
  normalisation is the parameter `normalizeUsername`. It can turn a
  username the form found free into one a user already holds; the insert
  then breaks the uniqueness constraint and the request is a server error
  (500) that stores nothing.
- `create_user` also normalises the address: the text after its last `@`
  is lower-cased. `NormalizeEmail` models this.
- The uploaded picture is an input describing what was submitted.
- `order_by` fixes no order for equal creation times. So each feed is
  specified as a rearrangement of what it selects whose times never go the
  wrong way. `SortBy` is one such arrangement.
- The follower stream only handles a post when the submitted data has the
  key `posttext`. The post form itself reads the key `text`. The model
  follows the code as written: the guard checks `posttext` and the form
  reads `text`.

## Model

| member | source | states |
|---|---|---|
| Text.TrimIsSlice | socialnetwork/forms.py:13 | stripping removes only a run of whitespace at each end: the result is a contiguous slice with whitespace before and after it |
| Text.TrimEmptyIffAllSpace | socialnetwork/forms.py:13 | a value strips to nothing exactly when it is all whitespace (a required field then reports it missing) |
| Text.TrimEnds | socialnetwork/static/socialnetwork/global.js:136 | a stripped value is empty or neither starts nor ends with whitespace |
| Text.TrimIdempotent | socialnetwork/static/socialnetwork/global.js:136 | stripping twice is stripping once |
| Text.Split | socialnetwork/static/socialnetwork/global.js:4 | `split` gives at least one piece, no piece holds the separator, joining the pieces restores the text, the first piece is the text before the first separator |
| Text.SplitSecond | socialnetwork/static/socialnetwork/global.js:6 | after a prefix free of the separator and one separator, the second piece is what follows up to the next separator |
| Text.NatToString | socialnetwork/models.py:47 | an id is rendered as a nonempty run of digits without a leading zero |
| Text.DigitsValueOfNatToString | socialnetwork/models.py:47 | reading the rendered digits back gives the id |
| Text.NatToStringInjective | socialnetwork/models.py:47 | different ids render differently |
| Text.PyInt | socialnetwork/views.py:325 | `int()` succeeds only on a value that is not blank after stripping |
| Text.PyIntOfNatToString | socialnetwork/views.py:324-327 | `int()` of a rendered id gives the id back, so a post id sent as text is never refused as malformed |
| Models.EmptyStoreValid | socialnetwork/models.py:6-47 | the empty database satisfies every schema invariant |
| Models.FollowingNotSymmetric | socialnetwork/models.py:17 | following is not symmetric: a consistent store exists where user 1 follows 2 and 2 does not follow 1 |
| Models.ProfileStrIdentifies | socialnetwork/models.py:22-23 | since usernames are unique, equal profile texts belong to the same profile |
| Models.PostStrAuthor | socialnetwork/models.py:36-37 | for a username without a space, a post's text starts with "Post by " and the word after it is the author's username |
| Models.CommentStrInjective | socialnetwork/models.py:46-47 | equal comment texts name the same author and the same post |
| Models.Filter | socialnetwork/views.py:151 | a filtered list keeps exactly the elements that pass, no more of them than there were |
| Models.DeletePostValid | socialnetwork/models.py:42 | deleting a post deletes its comments, leaves no comment on it, and keeps the store consistent |
| Models.DeleteUserPostsValid | socialnetwork/models.py:28 | deleting a user deletes their posts, and the remaining posts are consistent |
| Models.DeleteUserCommentsValid | socialnetwork/models.py:41-42 | deleting a user deletes their comments and the comments on their posts, and the remaining comments are consistent |
| Models.DeleteUserValid | socialnetwork/models.py:8 | deleting a user deletes their profile and every follow edge to it; the store stays consistent and nothing refers to the user |
| Forms.CleanChar | socialnetwork/forms.py:13 | a text field accepts the stripped value exactly when it is nonempty (or the field is optional), within `max_length` and free of NUL characters; otherwise it reports "required" alone, or "too long" exactly when over the bound and "null character" exactly when a NUL is present |
| Forms.CleanEmail | socialnetwork/forms.py:22 | the address is accepted exactly when its stripped value is nonempty, at most 50 characters, free of NUL characters and a valid address |
| Forms.Bind | socialnetwork/forms.py:12-24 | every declared field lands in exactly one of the cleaned data and the errors; a cleaned field holds its accepted value, an erroneous one its rejection's errors |
| Forms.LoginFormBounds | socialnetwork/forms.py:8-10 | the login form is valid exactly when the stripped username has 1 to 20 characters and the stripped password 1 to 200, neither holding a NUL character |
| Forms.CleanUsername | socialnetwork/forms.py:14-19 | the username is accepted unchanged exactly when no user has it |
| Forms.FieldAcceptedIff | socialnetwork/forms.py:13-24 | each registration field is accepted exactly when it meets its declared bounds and holds no NUL character, and then holds its stripped value |
| Forms.RegisterForm.constructor | socialnetwork/forms.py:12-24 | binding the submitted data cleans every declared field |
| Forms.RegisterForm.AddError | socialnetwork/forms.py:32 | `add_error` records the error on the field and removes the field from the cleaned data |
| Forms.RegisterForm.Clean | socialnetwork/forms.py:27-33 | `clean` reports a mismatch on `confirm_password` when both passwords cleaned and differ, and changes nothing otherwise |
| Forms.TakenUsernameRejected | socialnetwork/forms.py:17-18 | a username already taken is reported on the username field |
| Forms.PasswordMismatchReported | socialnetwork/forms.py:31-32 | the mismatch error appears exactly when both passwords are within bounds, hold no NUL character and differ after stripping |
| Forms.ValidateRegisterIff | socialnetwork/forms.py:12-33 | the registration form is valid exactly when every field meets its bounds and holds no NUL character, the username is free and the passwords agree; its cleaned data then holds every field's stripped value |
| Forms.ValidRegisterCleaned | socialnetwork/forms.py:13-24 | a valid registration has a free username and holds the stripped username, address and names |
| Forms.PostForm | socialnetwork/forms.py:52-55 | the post form binds only `text`: it is accepted exactly when the stripped text has 1 to 280 characters and no NUL character, and then holds it |
| Forms.ProfileForm | socialnetwork/forms.py:35-38 | the profile form changes only bio and picture: the bio is rejected exactly when its stripped value exceeds 500 characters or holds a NUL character, the picture exactly when the upload is not an image or is combined with "clear"; owner and follows are kept |
| Feeds.SortBy | socialnetwork/views.py:115 | `order_by` rearranges the posts (same multiset) so that creation times never go the wrong way |
| Feeds.GlobalFeed | socialnetwork/views.py:115 | the global feed holds every post exactly as often as the table does, newest first |
| Feeds.FollowedPosts | socialnetwork/views.py:146-151 | the followed authors' posts are exactly the posts whose author the viewer follows, in table order |
| Feeds.FollowingFeed | socialnetwork/views.py:151 | the follower page lists exactly the posts of followed authors, newest first |
| Feeds.FollowingFeedJson | socialnetwork/views.py:283 | the follower JSON lists exactly the posts of followed authors, oldest first |
| Feeds.OwnPostsExcluded | socialnetwork/views.py:146-151 | a viewer who does not follow themself sees none of their own posts in either following feed |
| Feeds.OrderedUnique | socialnetwork/views.py:283 | two arrangements of the same posts in the same order, with no two creation times equal, are identical |
| Feeds.FollowingJsonIsReversed | socialnetwork/views.py:283 | with distinct creation times, the follower JSON is the follower page's list reversed |
| Feeds.FeedIdsDistinct | socialnetwork/views.py:115 | no feed lists a post id twice |
| Feeds.PostComments | socialnetwork/views.py:243 | a post's comments are exactly the comments on it, newest first |
| Feeds.BuildCommentsJson | socialnetwork/views.py:244-254 | the inner loop builds one record per comment, in order |
| Feeds.BuildPostsJson | socialnetwork/views.py:240-264 | the outer loop builds one record per post, in order, each with its comments |
| Views.SetProfile | socialnetwork/views.py:172 | saving a profile replaces only that profile and keeps the store consistent |
| Views.GetOrCreateProfile | socialnetwork/views.py:143 | `get_or_create` adds an empty profile when there is none and otherwise changes nothing |
| Views.GetOrCreateIdempotent | socialnetwork/views.py:167 | `get_or_create` twice is `get_or_create` once |
| Views.GetOrCreateBoth | socialnetwork/views.py:199-202 | creating the viewed and the viewing profile keeps every existing profile and the viewer's follows |
| Views.Follow | socialnetwork/views.py:205 | following adds the target to the follower's set and changes nothing else |
| Views.Unfollow | socialnetwork/views.py:207 | unfollowing removes the target from the follower's set and changes nothing else |
| Views.FollowersOfFollow | socialnetwork/models.py:15-20 | after a follow the target's `followers` gain exactly the follower, and no other profile's `followers` change |
| Views.FollowersOfUnfollow | socialnetwork/models.py:15-20 | after an unfollow the target's `followers` lose exactly the follower, and no other profile's `followers` change |
| Views.FollowIdempotent | socialnetwork/views.py:205 | following twice is following once |
| Views.UnfollowAbsent | socialnetwork/views.py:207 | unfollowing a profile that is not followed changes nothing |
| Views.SavePost | socialnetwork/views.py:107-109 | saving a post appends it with a fresh id, the given author, text and time |
| Views.SaveComment | socialnetwork/views.py:336-337 | saving a comment appends it with a fresh id and keeps the store consistent |
| Views.NormalizeEmailSplit | socialnetwork/views.py:84-90 | `create_user` keeps an address's local part and lower-cases the domain after its last `@` |
| Views.NormalizeEmailIdempotent | socialnetwork/views.py:84-90 | normalising an address twice is normalising it once |
| Views.CreateAccount | socialnetwork/views.py:84-94 | adds the user with the values it is given (the caller normalises them first) and then an empty profile, under a fresh id |
| Views.RegisterResponse | socialnetwork/views.py:65-98 | registration keeps the store consistent, including when the normalised username is taken |
| Views.CreatePost | socialnetwork/views.py:105-109 | posting keeps the store consistent |
| Views.GlobalStreamResponse | socialnetwork/views.py:100-120 | the global stream keeps the store consistent |
| Views.FollowerStreamResponse | socialnetwork/views.py:123-157 | the follower stream keeps the store consistent |
| Views.MyProfileResponse | socialnetwork/views.py:159-186 | the profile page keeps the store consistent |
| Views.OtherProfileResponse | socialnetwork/views.py:189-222 | another user's page keeps the store consistent |
| Views.GlobalStreamJsonResponse | socialnetwork/views.py:225-266 | the global JSON endpoint changes nothing |
| Views.FollowerStreamJsonResponse | socialnetwork/views.py:268-308 | the follower JSON endpoint changes nothing |
| Views.AddCommentResponse | socialnetwork/views.py:311-349 | the comment endpoint keeps the store consistent |
| Views.RegisterCreatesAccount | socialnetwork/views.py:83-98 | a valid registration whose normalised username is free creates exactly one user, holding the stripped values with the username normalised and the address's domain lower-cased, and one empty profile, then redirects to the global stream |
| Views.RegisterNormalizedClash | socialnetwork/views.py:84-91 | a valid registration whose normalised username is already held is a server error that stores nothing; this happens only when normalising changed the username |
| Views.RegisterRejected | socialnetwork/views.py:80-81 | an invalid registration creates nothing and shows the form with its errors |
| Views.RegisterTakenUsername | socialnetwork/views.py:80-81 | registering a taken username creates nothing |
| Views.GlobalStreamPost | socialnetwork/views.py:104-110 | a post to the global stream saves one post by the viewer with the stripped text, changing nothing else, when that text has 1 to 280 characters and no NUL character; otherwise it stores nothing; either way it redirects |
| Views.GlobalStreamPage | socialnetwork/views.py:115-120 | the global page changes nothing and lists every post, newest first |
| Views.FollowerStreamPost | socialnetwork/views.py:131-138 | a post to the follower stream (with a `posttext` key) saves one post by the viewer with the stripped `text` value, changing nothing else, when that text has 1 to 280 characters and no NUL character; otherwise it stores nothing; either way it redirects |
| Views.FollowerStreamPage | socialnetwork/views.py:142-157 | the follower page only gets or creates the viewer's profile, and lists exactly the followed authors' posts, newest first |
| Views.MyProfileSubmit | socialnetwork/views.py:167-186 | an edit saves the bound profile and redirects when the form is valid; otherwise the store is only the get-or-create and the page shows the bound instance's bio and picture, the viewer's follows and the form's errors; other profiles and the viewer's follows are untouched |
| Views.MyProfileView | socialnetwork/views.py:167-186 | any other verb leaves the store as get-or-create of the viewer's profile (unchanged if it existed) and shows that profile's bio, picture and follows with no form errors |
| Views.OtherProfileUnknown | socialnetwork/views.py:197 | an unknown user id gives 404 and creates no profile |
| Views.OtherProfileSubmit | socialnetwork/views.py:199-208 | after getting or creating both profiles, a post with `follow` adds the edge; otherwise one with `unfollow` removes it; otherwise nothing more changes; `follow` wins when both are present; the new store is exactly that; then it redirects |
| Views.OtherProfileSubmitTwice | socialnetwork/views.py:203-208 | repeating a follow or unfollow request changes nothing further |
| Views.OtherProfileButtons | socialnetwork/views.py:211-219 | the follow button shows exactly when not following and the unfollow button exactly when following, and neither on one's own page |
| Views.GlobalStreamJsonBody | socialnetwork/views.py:237-264 | the global JSON changes nothing and has one record per post, newest first, with the post's id, author, text, time and author's names, and under it one record per comment on the post, newest first, with the comment's id, author, text, time and author's names |
| Views.FollowerStreamJsonBody | socialnetwork/views.py:269-306 | the follower JSON changes nothing and answers 401, then 405, then 500 without a profile; otherwise one record per followed post, oldest first, each with the same post and comment contents as the global JSON |
| Views.AddCommentErrors | socialnetwork/views.py:312-333 | the comment endpoint answers 405, then 401, then 400 for a missing or empty field, then 400 for a malformed id, then 400 for an unknown post; it stores nothing on error and succeeds exactly when none applies |
| Views.AddCommentStores | socialnetwork/views.py:336-348 | a successful comment stores exactly one new comment by the viewer on the named post with the text unchanged, and echoes it |
| Views.Database.constructor | socialnetwork/models.py:6-47 | a new database is empty |
| Views.Database.EnsureProfile | socialnetwork/views.py:143 | performs `get_or_create` in place |
| Views.Database.InsertPost | socialnetwork/views.py:107-109 | saves a post in place |
| Views.Database.InsertAccount | socialnetwork/views.py:84-94 | creates the user and the profile in place |
| Views.Database.Register | socialnetwork/views.py:65-98 | binding, cleaning and saving in place gives the store and outcome of `RegisterResponse` |
| Views.Database.GlobalStream | socialnetwork/views.py:100-120 | in place, gives the store and outcome of `GlobalStreamResponse` |
| Views.Database.FollowerStream | socialnetwork/views.py:123-157 | in place, gives the store and outcome of `FollowerStreamResponse` |
| Views.Database.MyProfile | socialnetwork/views.py:159-186 | in place, gives the store and outcome of `MyProfileResponse` |
| Views.Database.OtherProfile | socialnetwork/views.py:189-222 | in place, gives the store and outcome of `OtherProfileResponse` |
| Views.Database.GlobalStreamJson | socialnetwork/views.py:225-266 | with the building loops, answers as `GlobalStreamJsonResponse` and changes nothing |
| Views.Database.FollowerStreamJson | socialnetwork/views.py:268-308 | with the building loops, answers as `FollowerStreamJsonResponse` and changes nothing |
| Views.Database.AddComment | socialnetwork/views.py:311-349 | in place, gives the store and outcome of `AddCommentResponse` |
| Client.CookieEntries | socialnetwork/static/socialnetwork/global.js:4 | the kept entries all start with `name=` and are no more than the entries |
| Client.GetCookie | socialnetwork/static/socialnetwork/global.js:2-7 | a value found holds no `=` |
| Client.GetCookieNone | socialnetwork/static/socialnetwork/global.js:3-5 | `getCookie` gives null exactly when the cookie string is empty or no trimmed entry starts with `name=` |
| Client.GetCookieValue | socialnetwork/static/socialnetwork/global.js:4-6 | the first matching entry wins, and the value is its text after `name=` up to the next `=` |
| Client.GetCookieRoundTrip | socialnetwork/static/socialnetwork/global.js:2-7 | the cookie string `name=value` gives `value` back |
| Client.Container | socialnetwork/static/socialnetwork/global.js:82 | a post's comment container holds exactly the comment divs added for that post |
| Client.WithPost | socialnetwork/static/socialnetwork/global.js:43-77 | after `addPostToDOM` the post is on the page and every post that was there still is |
| Client.WithComment | socialnetwork/static/socialnetwork/global.js:80-101 | after `addCommentToDOM` the comment is on the page, every comment that was there still is, and the posts are unchanged |
| Client.ShowComments | socialnetwork/static/socialnetwork/global.js:123-125 | adding a record's comments keeps the posts and every comment shown |
| Client.ShowPost | socialnetwork/static/socialnetwork/global.js:120-126 | after a record is merged its post is on the page |
| Client.Page.AddPost | socialnetwork/static/socialnetwork/global.js:43-77 | in place: nothing when the post's div exists, otherwise the div goes on top |
| Client.Page.AddComment | socialnetwork/static/socialnetwork/global.js:80-101 | in place: nothing when the comment's div exists anywhere on the page, otherwise it is appended to the post's container |
| Client.Page.Refresh | socialnetwork/static/socialnetwork/global.js:117-127 | the nested `forEach` loops give the page of `Refreshed` |
| Client.Page.AddComments | socialnetwork/static/socialnetwork/global.js:123-125 | the inner `forEach` gives the page of `ShowComments` |
| Client.WithPostWellFormed | socialnetwork/static/socialnetwork/global.js:44-46 | the existence check keeps post divs unique |
| Client.WithCommentWellFormed | socialnetwork/static/socialnetwork/global.js:81-100 | the existence check keeps comment divs unique, each in a shown post's container |
| Client.WithCommentAppends | socialnetwork/static/socialnetwork/global.js:82-100 | a new comment div goes at the end of its post's container, after the ones already there |
| Client.RefreshedWellFormed | socialnetwork/static/socialnetwork/global.js:120-126 | a refresh never shows a post or comment twice and never leaves a comment outside a shown post |
| Client.RefreshedCovers | socialnetwork/static/socialnetwork/global.js:120-126 | a refresh removes nothing and shows every post and comment of the answer |
| Client.RefreshedSettled | socialnetwork/static/socialnetwork/global.js:44-46 | merging an answer whose posts and comments are all shown changes nothing |
| Client.RefreshIdempotent | socialnetwork/static/socialnetwork/global.js:105-131 | polling twice with the same answer gives the page of polling once |
| Client.RefreshedNewPosts | socialnetwork/static/socialnetwork/global.js:76 | posts new to the page go on top in the reverse of the order they arrive in |
| Client.GlobalFirstLoad | socialnetwork/static/socialnetwork/global.js:120-126 | on a page without posts the first global refresh shows the feed reversed, so the oldest post is on top |
| Client.FollowerFirstLoad | socialnetwork/static/socialnetwork/follower.js:89-94 | on a page without posts the first follower refresh shows the followed posts newest first, the order of the follower page |
| Client.CommentToSendSpec | socialnetwork/static/socialnetwork/global.js:136-137 | nothing is sent exactly when the box holds only whitespace; otherwise the trimmed text is sent, which is nonempty and trims to itself |
| Client.ClientCommentAccepted | socialnetwork/static/socialnetwork/global.js:142-144 | what the comment box sends for a shown post is accepted by the comment endpoint, which stores the trimmed text and echoes it |

## Left out

- Authentication and sessions are not modelled: the logged-in user is an input. This covers `login`, `logout`, `login_action`, `logout_action` and the CSRF check.
- Templates and HTML rendering are not modelled. A page is the data the view passes to its template; in the browser only the ids of the divs are modelled, not their markup.
- URL routing (`webapps/urls.py`) is not modelled.
- The ORM and the database engine are not modelled. Queries are functions on the store, and concurrent requests are not modelled.
- Password hashing is not modelled. `create_user` stores a hash, and the model's user record has no password.
- Image storage and image decoding are not modelled. An upload is an input that says whether it is an image.
- The clock, `isoformat` and `formatDate` are not modelled. Times are numbers.
- The syntax check of `EmailField` is a parameter.
- `decodeURIComponent` is not modelled: the value is returned undecoded.
- `fetch`, promises, `setInterval` and `console.log` are not modelled. A refresh is the merge of one answer that has arrived; a failed request changes nothing.
- Clearing the comment box after sending is not modelled.
- Text.PyInt: only ASCII digits are modelled. Python's `int()` also accepts other Unicode decimal digits.
- Models.CommentsValid: does not bound comment text by 280. The comment endpoint saves whatever text it receives without validating it, and the database column bound is not modelled.
- Views.NormalizeEmailSplit: lower-cases ASCII letters only. Python's `str.lower` also lower-cases other letters of the domain.
- Views.RegisterCreatesAccount: the database's own bound on the username column (150 characters) is not modelled. NFKC can lengthen a username, and the model does not say what the database does with one beyond that bound.
- Models.PostStrAuthor: stated only for usernames without a space. The form accepts inner spaces, and then the text alone does not show where the username ends.
- Feeds.FollowingJsonIsReversed: holds only when creation times are distinct. `order_by` does not fix the order of equal times.
- Client.FollowerFirstLoad: holds only when creation times are distinct, for the same reason.
- Client.GetCookieValue: stated only for a cookie name that holds no `=`. The general case follows the same split but is not stated.

# Hack or Snooze client: story and favorites bookkeeping

A Dafny model of the browser client of the "Hack or Snooze" story site. The
client keeps two kinds of in-memory collection of stories:

- the global story list (`StoryList.stories`), the stories shown on the page;
- the current user's `favorites` and `ownStories`.

The model covers how those collections change when the user adds, deletes,
edits, favorites and pages through stories. The source updates its arrays in
place (`unshift`, `splice`, indexed assignment, `push`). The model keeps each
array as a `seq` field of its class, and a method that updates the array in
place reassigns that field instead. Stories are immutable values keyed by
`storyId`.

The server is never called. Every operation takes it as a parameter
`api: Request -> Response`. The operation's contract names the request it
sends, so the contract also says what is sent (the token, `skip`, the edit
payload). A failed reply, or a 2xx reply without the body the code reads, is
a rejected promise (`Result.Threw`). A failure that the login paths catch
becomes `null`.

Files:

- `api.dfy` (module `Api`): JavaScript values read from plain objects
  (`undefined` when a property is absent), records, and the requests and
  replies of the REST endpoints.
- `models.dfy` (module `Models`, for `js/models.js`):
  - the `Story` datatype and its constructor `StoryOf`;
  - the array primitives the code relies on, with JavaScript's semantics:
    `FindIndex`, `Find`, `SpliceOne` (`splice(start, 1)`, where a negative
    start counts back from the end) and `AssignAt` (indexed assignment);
  - the classes `StoryList` and `User` with their methods;
  - lemmas on the element sequences.
- `stories.dfy` (module `Stories`, for `js/stories.js`):
  - the favorites bookkeeping as functions (`WithoutId`, `Toggled`, `Synced`)
    with lemmas about them;
  - a class `Page` that holds the page's globals (`storyList`, `currentUser`,
    `scroll`) and models the four handlers with the DOM work removed.

The model follows the code where it behaves in surprising ways, and does not
correct it:

- `removeStory` with an id that is absent gets `-1` from `findIndex`, and
  `splice(-1, 1)` then removes the last story (`RemoveAbsent`). One might
  expect a no-op here; the code removes the last story.
- `editStory` with an id that is absent assigns to index `-1`. That creates a
  property that is not an element, so the story sequence is unchanged, and the
  method still returns the new Story. No error is raised.
- Favorites are a sequence, not a set. `addFavorite` does not check for
  duplicates, and `removeFavorite` splices whatever index it is given.
- The favorites view renders stars for favorites that may not be in the story
  list. A click on such a star finds no listed story, so `removeFavorite` gets
  `undefined`. It splices the favorite out and then throws reading
  `undefined.storyId`, so the server never hears of the removal.
- `loadMoreStories` sets `scroll` before it awaits the fetch. If the fetch
  rejects, `scroll` is never cleared, and no later scroll loads anything. The
  same happens when stories were appended but nobody is logged in, because the
  logged-in UI refresh then reads `currentUser.favorites` of a missing user.

`RemoveTwice`, `ToggleTwice` and `ToggleTwiceFromFavorite` say what happens
when one click runs a handler twice. That can happen on the page: `updateFavorites` and
`updateRemoveButtons` bind their handlers again to every star and trash can
after each page load (js/stories.js:111, js/stories.js:144). A handler run
twice on the star of a story that was not a favorite leaves the favorites as
they were. Run twice on the star of a favorite, it splices the favorite out
and then appends the listed story at the end. So the favorites are reordered,
and hold the listed copy of the story. A handler run twice on a trash can
also removes the last listed story.

## Model

| member | source | states |
|---|---|---|
| `Models.StoryOf` | js/models.js:15-22 | Each of the six story properties of the Story is the same-named property of the record, `undefined` when the record lacks it. |
| `Models.StoryCopiesExactlySix` | js/models.js:15-22 | Read back as a record, a constructed Story holds exactly the record's `storyId`, `title`, `author`, `url`, `username` and `createdAt` properties, and no other property. |
| `Models.StoryRoundTrip` | js/models.js:15-22 | Constructing a Story from a Story's own record gives back the same Story. |
| `Models.StoryIgnoresUpdatedAt` | js/models.js:117-119 | Deleting `updatedAt` before construction makes no difference, and the constructed Story has no `updatedAt`. |
| `Models.StoriesOf` | js/models.js:64 | Mapping records to Stories keeps the length, and element i is the Story built from record i. |
| `Models.FindIndex` | js/models.js:98 | The result is -1 exactly when no story has the id. Otherwise it is the first index whose story has the id. |
| `Models.Find` | js/stories.js:118 | Gives no story exactly when none has the id. Otherwise it gives the story at the first index whose story has the id. |
| `Models.SpliceOne` | js/models.js:99 | `splice(start, 1)` removes one element at the start position (a negative start counts from the end) when that position is inside the array. Otherwise it removes nothing. The elements before the position stay, and the elements after it move up by one. |
| `Models.AssignAt` | js/models.js:119 | Assigning at an element index replaces only that element. Assigning at -1 leaves the elements unchanged. The length never changes. |
| `Models.RemovePresent` | js/models.js:98-99 | Removing a present id drops exactly the first story with that id. The list shrinks by one and the other stories keep their order. |
| `Models.RemoveAbsent` | js/models.js:98-99 | Removing an absent id drops the last story. An empty list stays empty. |
| `Models.RemoveLeavesNoId` | js/models.js:98-99 | When the ids are unique, no story with the id remains after a removal, and the ids stay unique. |
| `Models.RemoveTwice` | js/models.js:98-99 | Removing the same present id twice also drops the last remaining story. |
| `Models.EditPresent` | js/models.js:116-119 | Editing a present id replaces only the entry at the first index with that id. |
| `Models.EditKeepsUnique` | js/models.js:116-119 | If the edited story keeps its id, editing keeps the ids unique. |
| `Models.AddKeepsUnique` | js/models.js:91 | Putting a story with a new id at the front keeps the ids unique. |
| `Models.StoryList.constructor` | js/models.js:38-40 | The list holds exactly the given stories. |
| `Models.StoryList.GetStories` | js/models.js:50-68 | Sends a request with limit 10 and the given skip, 0 by default. On a stories reply it returns a new list of the reply's records as Stories, in order. Otherwise it rejects. |
| `Models.StoryList.AddStory` | js/models.js:77-94 | Posts the fields with the user's token. On a story reply the new Story is first, followed by the old list unchanged, and it is returned. On a failure nothing changes. |
| `Models.StoryList.RemoveStory` | js/models.js:96-106 | The list becomes the splice at `findIndex(id)` whether or not the delete request succeeds. The result reports the request's outcome. |
| `Models.StoryList.EditStory` | js/models.js:108-122 | Sends the patch. On a story reply it assigns the Story built without `updatedAt` at `findIndex(id)` and returns that Story. On a failure nothing changes. |
| `Models.EditInfoPayload` | js/models.js:277 | The payload is exactly `{name}` when the password is empty, and exactly `{name, password}` otherwise. |
| `Models.InitOf` | js/models.js:173-180 | The constructor argument copies the reply user's username, name, createdAt and favorites, and its `ownStories` is the reply's `stories`. The same mapping is used at js/models.js:205-212 and js/models.js:235-242. |
| `Models.User.constructor` | js/models.js:136-154 | Copies username, name and createdAt. Builds favorites and ownStories element-wise from their records, each empty when absent. Stores the given token. |
| `Models.User.Signup` | js/models.js:163-187 | Returns a user exactly when the signup reply succeeds with a `{user, token}` body. That user is built from the reply's user, with `stories` becoming `ownStories`, and holds the reply's token, `undefined` if the body has none. Otherwise it returns null. |
| `Models.User.Login` | js/models.js:195-219 | The same as Signup, for the login request. |
| `Models.User.LoginViaStoredCredentials` | js/models.js:225-249 | Fetches the profile with the stored token. On a `{user}` body it returns a user built from it that holds that same token, and it ignores any token in the body. It returns null on any failure. |
| `Models.User.AddFavorite` | js/models.js:252-261 | The favorites become the old favorites followed by the story, with no duplicate check, before the request is answered. |
| `Models.User.RemoveFavorite` | js/models.js:264-273 | The favorites become the splice at the given index, whatever the story is. The story only names the favorite in the request. When the story is `undefined`, the splice still happens, no request is sent, and the call rejects with a TypeError. |
| `Models.User.EditInfo` | js/models.js:275-296 | Sends the name or name-and-password payload. On a `{user}` reply it returns a new User built from it that keeps this user's token. This user is not changed. |
| `Stories.WithoutId` | js/stories.js:155 | Keeps exactly the favorites without the deleted id, so none with that id is left. |
| `Stories.WithoutIdAppend` | js/stories.js:155 | The filter distributes over concatenation, so the remaining favorites keep their relative order. |
| `Stories.WithoutIdAbsent` | js/stories.js:155 | If no favorite has the id, filtering leaves the favorites unchanged. |
| `Stories.WithoutIdIsSplice` | js/stories.js:152-155 | When the ids are unique and the id is a favorite, the filter equals splicing out the favorite at its index. |
| `Stories.Toggled` | js/stories.js:118-125 | When no favorite has the id, the listed story is appended. Otherwise the first favorite with the id is removed and the others keep their order. The story list is needed only in the first case. |
| `Stories.ToggleTouchesOnlyId` | js/stories.js:118-125 | A star click leaves the favorites with other ids unchanged. |
| `Stories.ToggleFlips` | js/stories.js:118-125 | When the ids are unique, a click makes the story a favorite exactly when it was not one, and keeps the ids unique. |
| `Stories.ToggleTwice` | js/stories.js:118-125 | Starting without the story as a favorite, two clicks give back the original favorites. |
| `Stories.ToggleTwiceFromFavorite` | js/stories.js:118-125 | When the ids are unique and the story is a favorite, two clicks splice it out and then append the listed story at the end. |
| `Stories.Synced` | js/stories.js:188-191 | The length never changes. If some favorite has the id, the first such favorite becomes the updated story. Otherwise the favorites are unchanged. |
| `Stories.EditAgrees` | js/stories.js:181-191 | After editing a story that is listed and a favorite, the list and the favorites both find the updated story under its id, and both keep their ids unique. |
| `Stories.Page.HandleFavorite` | js/stories.js:116-128 | The current user's favorites become the toggle: the listed story is appended when no favorite has its id, and the favorite at the first match is spliced out otherwise, whether or not the story is listed. |
| `Stories.Page.RemoveAStory` | js/stories.js:147-159 | The story list becomes the splice at `findIndex(id)`, and the favorites are filtered free of the id. |
| `Stories.Page.EditStory` | js/stories.js:170-192 | On a story reply the list is edited and the favorites are synced with the same updated story. On a failure it rejects, and neither collection changes. |
| `Stories.Page.LoadMoreStories` | js/stories.js:224-251 | Near the bottom it requests skip = the current list length and appends the fetched stories after the unchanged list. An empty page changes nothing. A reentrant call changes nothing. A rejected fetch leaves `scroll` set. |

## Left out

- HTTP: every `axios` call is replaced by the `api` parameter. Network
  errors, status codes and response parsing are reduced to the `Response`
  shapes.
- Ordering of promises: the local splice in `removeStory`, `addFavorite` and
  `removeFavorite` happens before the request and is never rolled back. That
  is modelled. Interleavings of callbacks that the page does not await are not
  modelled. Nor is the outcome of a request whose promise the handler drops
  (`HandleFavorite`, `RemoveAStory`).
- `addFavorite` and `removeFavorite` read the global `currentUser` for the
  request URL and token. The model reads the same fields of the object itself,
  which is the current user whenever the page calls them.
- `alert` and `console` output in `signup`, `login`,
  `loginViaStoredCredentials` and `editInfo`. A login failure is modelled
  only as returning null. A failure that carries no server response makes the
  `alert` itself throw; that case is not modelled.
- `Story.getHostName`: it is an unimplemented stub that returns a constant.
- All DOM rendering and event wiring in js/stories.js, and js/nav.js
  entirely. The scroll-geometry test becomes the parameter `nearBottom`.
  `addANewStory` and `getAndShowStoriesOnStart` only call `AddStory` or
  `GetStories` and re-render, so they are not modelled separately.
- Stories.Page.HandleFavorite: requires the clicked id to be listed or a
  favorite. The favorites view can break this. After a click removes a
  favorite that is not listed, its star stays on the page, and a second click
  makes `addFavorite` push `undefined` into the favorites and then throw. The
  model does not capture that push. Favorites are a sequence of Stories, and
  an `undefined` element would make every later `findIndex` over them throw.
- Arrays: each source array becomes a `seq` field, and each in-place update
  (`unshift`, `splice`, indexed assignment, `push`) becomes a reassignment of
  that field. The two cannot be told apart here, because no array is shared
  between objects. `favorites` and `ownStories` are built fresh by the
  constructor, and `storyList.stories` belongs to its list.
- Reply bodies: each reply carries exactly one body shape. A body that holds
  several shapes at once, say both `stories` and `user`, is not modelled.
- Models.AssignAt: requires an index below the length, because `findIndex`
  never returns one that is larger. Assignment past the end, which would
  leave holes, is not modelled, and neither is the `-1` property that an
  assignment at -1 leaves on the array.
- Models.StoryList.GetStories: does not promise at most 10 stories, because
  the client only sends the limit and never checks it.
- Unique story ids are not enforced anywhere in the code. The lemmas take
  them as a hypothesis where they matter.
- A reply of the right kind with missing scalar fields yields `undefined`
  properties. The model keeps that for the Story and User fields, but every
  request and reply envelope has its fields present.

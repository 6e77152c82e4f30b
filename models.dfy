/** Stories, the story list and the current user, with the client-side
    bookkeeping that keeps the two in-memory collections of stories. */
module Models {
  import opened Api

  /* ---------------------------------------------------------------------
     Story
     --------------------------------------------------------------------- */

  /** A Story instance: exactly the six properties its constructor copies. */
  datatype Story = Story(storyId: Value, title: Value, author: Value, url: Value, username: Value, createdAt: Value)

  const StoryKeys: set<string> := {"storyId", "title", "author", "url", "username", "createdAt"}

  /** `new Story(data)`: destructures the six named properties of `data`; every other property is dropped. */
  function StoryOf(r: Record): (s: Story)
    ensures forall k :: k in StoryKeys ==> Field(s, k) == Get(r, k)
  {
    Story(Get(r, "storyId"), Get(r, "title"), Get(r, "author"), Get(r, "url"), Get(r, "username"), Get(r, "createdAt"))
  }

  /** The property of a Story instance named `k` (`undefined` for any other name). */
  function Field(s: Story, k: string): Value
  {
    if k == "storyId" then s.storyId
    else if k == "title" then s.title
    else if k == "author" then s.author
    else if k == "url" then s.url
    else if k == "username" then s.username
    else if k == "createdAt" then s.createdAt
    else Undefined
  }

  /** A Story instance read back as a plain record: its defined properties. */
  function RecordOf(s: Story): (r: Record)
    ensures r.Keys <= StoryKeys
  {
    map k | k in StoryKeys && Field(s, k).Str? :: Field(s, k).s
  }

  /** Constructing a Story keeps exactly the six story properties of the record and nothing else. */
  lemma StoryCopiesExactlySix(r: Record)
    ensures RecordOf(StoryOf(r)) == map k | k in r && k in StoryKeys :: r[k]
  {
  }

  /** A Story survives being read back as a record and constructed again. */
  lemma StoryRoundTrip(s: Story)
    ensures StoryOf(RecordOf(s)) == s
  {
  }

  /** Deleting `updatedAt` before construction, as the edit does, changes nothing:
      the constructor never copies it. */
  lemma StoryIgnoresUpdatedAt(r: Record)
    ensures StoryOf(r - {"updatedAt"}) == StoryOf(r)
    ensures "updatedAt" !in RecordOf(StoryOf(r))
  {
  }

  /** `records.map(s => new Story(s))`. */
  function StoriesOf(rs: seq<Record>): (r: seq<Story>)
    ensures |r| == |rs|
    ensures forall i :: 0 <= i < |rs| ==> r[i] == StoryOf(rs[i])
  {
    if rs == [] then [] else [StoryOf(rs[0])] + StoriesOf(rs[1..])
  }

  /** A default parameter `= []`: it applies when the property is `undefined`. */
  function OrEmpty(o: Option<seq<Record>>): seq<Record>
  {
    if o.Some? then o.value else []
  }

  /* ---------------------------------------------------------------------
     The array primitives the bookkeeping uses, with JavaScript's semantics
     --------------------------------------------------------------------- */

  /** `story.storyId === id`. */
  predicate HasId(s: Story, id: string)
  {
    s.storyId == Str(id)
  }

  /** No two stories of the collection share an id. Nothing in the code enforces it; lemmas
      that need it take it as a hypothesis. */
  predicate UniqueIds(s: seq<Story>)
  {
    forall i, j :: 0 <= i < j < |s| ==> s[i].storyId != s[j].storyId
  }

  /** `stories.findIndex(s => s.storyId === id)`: the first matching index, or -1. */
  function FindIndex(s: seq<Story>, id: string): (i: int)
    ensures -1 <= i < |s|
    ensures i == -1 <==> forall j :: 0 <= j < |s| ==> !HasId(s[j], id)
    ensures 0 <= i ==> HasId(s[i], id) && forall j :: 0 <= j < i ==> !HasId(s[j], id)
  {
    if s == [] then -1
    else if HasId(s[0], id) then 0
    else
      var k := FindIndex(s[1..], id);
      if k == -1 then -1 else k + 1
  }

  /** `stories.find(s => s.storyId === id)`: the first matching story, or `undefined`. */
  function Find(s: seq<Story>, id: string): (r: Option<Story>)
    ensures r.None? <==> forall j :: 0 <= j < |s| ==> !HasId(s[j], id)
    ensures r.Some? ==> r.value in s && HasId(r.value, id)
    ensures r.Some? ==> r.value == s[FindIndex(s, id)]
  {
    var i := FindIndex(s, id);
    if i == -1 then None else Some(s[i])
  }

  /** Where `splice(start, ...)` starts on an array of length `n`: a negative start counts back from the end. */
  function SpliceStart(n: nat, start: int): (k: nat)
    ensures k <= n
  {
    if start < 0 then (if n + start < 0 then 0 else n + start)
    else if start > n then n
    else start
  }

  /** The array after `arr.splice(start, 1)`. */
  function SpliceOne<T>(s: seq<T>, start: int): (r: seq<T>)
    ensures SpliceStart(|s|, start) < |s| ==> |r| == |s| - 1
    ensures SpliceStart(|s|, start) == |s| ==> r == s
    ensures forall j :: 0 <= j < |r| && j < SpliceStart(|s|, start) ==> r[j] == s[j]
    ensures forall j :: SpliceStart(|s|, start) <= j < |r| ==> r[j] == s[j + 1]
  {
    var k := SpliceStart(|s|, start);
    if k < |s| then s[..k] + s[k + 1..] else s
  }

  /** The elements after `arr[i] = x`, for an index that `findIndex` can return: a
      negative index names a property that is not an element, so the elements stay. */
  function AssignAt<T>(s: seq<T>, i: int, x: T): (r: seq<T>)
    requires i < |s|
    ensures |r| == |s|
    ensures forall j :: 0 <= j < |s| && j != i ==> r[j] == s[j]
    ensures 0 <= i ==> r[i] == x
    ensures i < 0 ==> r == s
  {
    if 0 <= i then s[i := x] else s
  }

  /* ---------------------------------------------------------------------
     What the story-list operations do to the element sequence
     --------------------------------------------------------------------- */

  /** `removeStory` of a present id drops the first entry with that id and keeps the rest in order. */
  lemma RemovePresent(s: seq<Story>, id: string)
    requires exists j :: 0 <= j < |s| && HasId(s[j], id)
    ensures var k := FindIndex(s, id);
      && 0 <= k && HasId(s[k], id) && (forall j :: 0 <= j < k ==> !HasId(s[j], id))
      && SpliceOne(s, k) == s[..k] + s[k + 1..]
      && |SpliceOne(s, k)| == |s| - 1
  {
  }

  /** `removeStory` of an absent id: `findIndex` gives -1 and `splice(-1, 1)` drops the last entry. */
  lemma RemoveAbsent(s: seq<Story>, id: string)
    requires forall j :: 0 <= j < |s| ==> !HasId(s[j], id)
    ensures SpliceOne(s, FindIndex(s, id)) == if s == [] then [] else s[..|s| - 1]
  {
  }

  /** With unique ids, after `removeStory` no entry has the id, and the ids stay unique. */
  lemma RemoveLeavesNoId(s: seq<Story>, id: string)
    requires UniqueIds(s)
    ensures var r := SpliceOne(s, FindIndex(s, id));
      UniqueIds(r) && forall j :: 0 <= j < |r| ==> !HasId(r[j], id)
  {
  }

  /** Removing the same id twice (a second handler for the same click) also drops
      the last remaining story. */
  lemma RemoveTwice(s: seq<Story>, id: string)
    requires UniqueIds(s)
    requires exists j :: 0 <= j < |s| && HasId(s[j], id)
    ensures var once := SpliceOne(s, FindIndex(s, id));
      SpliceOne(once, FindIndex(once, id)) == if once == [] then [] else once[..|once| - 1]
  {
  }

  /** `editStory` of a present id replaces only the first entry with that id. */
  lemma EditPresent(s: seq<Story>, id: string, x: Story)
    requires exists j :: 0 <= j < |s| && HasId(s[j], id)
    ensures var k := FindIndex(s, id);
      && 0 <= k && HasId(s[k], id) && (forall j :: 0 <= j < k ==> !HasId(s[j], id))
      && AssignAt(s, k, x) == s[k := x]
  {
  }

  /** `editStory` keeps the ids unique when the server returns the story under the same id. */
  lemma EditKeepsUnique(s: seq<Story>, id: string, x: Story)
    requires UniqueIds(s)
    requires HasId(x, id)
    ensures UniqueIds(AssignAt(s, FindIndex(s, id), x))
  {
  }

  /** `addStory` keeps the ids unique when the server assigns a fresh id. */
  lemma AddKeepsUnique(s: seq<Story>, x: Story)
    requires UniqueIds(s)
    requires forall j :: 0 <= j < |s| ==> s[j].storyId != x.storyId
    ensures UniqueIds([x] + s)
  {
  }

  /* ---------------------------------------------------------------------
     StoryList
     --------------------------------------------------------------------- */

  /** The ordered working set of stories shown on the page. */
  class StoryList {
    var stories: seq<Story>

    constructor (stories: seq<Story>)
      ensures this.stories == stories
    {
      this.stories := stories;
    }

    /** Fetches one page (`limit` 10, offset `skip`, by default 0) and wraps each record in a Story. */
    static method GetStories(api: Request -> Response, skip: nat := 0) returns (r: Result<StoryList>)
      ensures var resp := api(ListStories(PageLimit, skip));
        && (r.Ok? <==> resp.StoriesBody?)
        && (r.Ok? ==> fresh(r.value) && r.value.stories == StoriesOf(resp.stories))
        && (r.Threw? ==> r.error == ErrorOf(resp))
    {
      var resp := api(ListStories(PageLimit, skip));
      if !resp.StoriesBody? {
        return Threw(ErrorOf(resp));
      }
      var list := new StoryList(StoriesOf(resp.stories));
      return Ok(list);
    }

    /** Posts the story, then puts the Story built from the reply at the front and returns it.
        A failed post changes nothing. */
    method AddStory(user: User, newStory: Record, api: Request -> Response) returns (r: Result<Story>)
      modifies this
      ensures var resp := api(PostStory(user.loginToken, newStory));
        if resp.StoryBody? then
          r == Ok(StoryOf(resp.story)) && stories == [r.value] + old(stories)
        else
          r == Threw(ErrorOf(resp)) && stories == old(stories)
    {
      var resp := api(PostStory(user.loginToken, newStory));
      if !resp.StoryBody? {
        return Threw(ErrorOf(resp));
      }
      var story := StoryOf(resp.story);
      stories := [story] + stories;
      return Ok(story);
    }

    /** Splices out the entry at `findIndex` before the delete request is answered; a failed
        request is reported but the local removal stays. */
    method RemoveStory(user: User, removeId: string, api: Request -> Response) returns (r: Result<()>)
      modifies this
      ensures stories == SpliceOne(old(stories), FindIndex(old(stories), removeId))
      ensures r == Acknowledged(api(DeleteStory(Str(removeId), user.loginToken)))
    {
      var removeIdx := FindIndex(stories, removeId);
      stories := SpliceOne(stories, removeIdx);
      var resp := api(DeleteStory(Str(removeId), user.loginToken));
      return Acknowledged(resp);
    }

    /** Patches the story, then assigns the Story built from the reply (without `updatedAt`)
        at the `findIndex` position and returns it. With the id absent the index is -1: the
        elements stay, and reading `stories[-1]` back yields the new Story all the same. */
    method EditStory(user: User, storyId: string, editFields: Record, api: Request -> Response) returns (r: Result<Story>)
      modifies this
      ensures var resp := api(PatchStory(Str(storyId), user.loginToken, editFields));
        if resp.StoryBody? then
          r == Ok(StoryOf(resp.story - {"updatedAt"}))
          && stories == AssignAt(old(stories), FindIndex(old(stories), storyId), r.value)
        else
          r == Threw(ErrorOf(resp)) && stories == old(stories)
    {
      var resp := api(PatchStory(Str(storyId), user.loginToken, editFields));
      if !resp.StoryBody? {
        return Threw(ErrorOf(resp));
      }
      var storyIdx := FindIndex(stories, storyId);
      var updatedStory := resp.story - {"updatedAt"};
      var story := StoryOf(updatedStory);
      stories := AssignAt(stories, storyIdx, story);
      return Ok(story);
    }
  }

  /* ---------------------------------------------------------------------
     User
     --------------------------------------------------------------------- */

  /** The argument object of the User constructor. */
  datatype UserInit = UserInit(username: Value, name: Value, createdAt: Value,
                               favorites: Option<seq<Record>>, ownStories: Option<seq<Record>>)

  /** The argument object every login path builds from the server's user: its
      `stories` array becomes `ownStories`. */
  function InitOf(user: UserRecord): (init: UserInit)
    ensures init.ownStories == user.stories && init.favorites == user.favorites
    ensures forall k :: k in UserKeys ==> Scalar(init, k) == Get(user.props, k)
  {
    UserInit(Get(user.props, "username"), Get(user.props, "name"), Get(user.props, "createdAt"),
             user.favorites, user.stories)
  }

  const UserKeys: set<string> := {"username", "name", "createdAt"}

  /** The scalar property of the constructor's argument named `k`. */
  function Scalar(init: UserInit, k: string): Value
  {
    if k == "username" then init.username
    else if k == "name" then init.name
    else if k == "createdAt" then init.createdAt
    else Undefined
  }

  /** The profile update `editInfo` sends: an empty password means "keep the password". */
  function EditInfoPayload(name: string, password: string): (p: Record)
    ensures p.Keys == if password == "" then {"name"} else {"name", "password"}
    ensures p["name"] == name
    ensures "password" in p ==> p["password"] == password
  {
    if password == "" then map["name" := name] else map["name" := name, "password" := password]
  }

  /** The current user: account data, favorites, authored stories and the login token. */
  class User {
    var username: Value
    var name: Value
    var createdAt: Value
    var favorites: seq<Story>
    var ownStories: seq<Story>
    var loginToken: Value

    /** The state of a User made from the server's user object and a token. */
    ghost predicate BuiltFrom(user: UserRecord, token: Value)
      reads this
    {
      && username == Get(user.props, "username")
      && name == Get(user.props, "name")
      && createdAt == Get(user.props, "createdAt")
      && favorites == StoriesOf(OrEmpty(user.favorites))
      && ownStories == StoriesOf(OrEmpty(user.stories))
      && loginToken == token
    }

    /** Copies the scalar properties, wraps both story arrays element-wise (each defaulting
        to empty) and keeps the token. */
    constructor (init: UserInit, token: Value)
      ensures username == init.username && name == init.name && createdAt == init.createdAt
      ensures favorites == StoriesOf(OrEmpty(init.favorites))
      ensures ownStories == StoriesOf(OrEmpty(init.ownStories))
      ensures loginToken == token
    {
      username := init.username;
      name := init.name;
      createdAt := init.createdAt;
      favorites := StoriesOf(OrEmpty(init.favorites));
      ownStories := StoriesOf(OrEmpty(init.ownStories));
      loginToken := token;
    }

    /** Registers an account; any failure yields no user. */
    static method Signup(username: string, password: string, name: string, api: Request -> Response) returns (u: User?)
      ensures var resp := api(PostSignup(Str(username), password, name));
        && (u != null <==> resp.UserBody?)
        && (u != null ==> fresh(u) && u.BuiltFrom(resp.user, resp.token))
    {
      var resp := api(PostSignup(Str(username), password, name));
      if !resp.UserBody? {
        return null;
      }
      u := new User(InitOf(resp.user), resp.token);
    }

    /** Logs an existing account in; any failure yields no user. */
    static method Login(username: string, password: string, api: Request -> Response) returns (u: User?)
      ensures var resp := api(PostLogin(Str(username), password));
        && (u != null <==> resp.UserBody?)
        && (u != null ==> fresh(u) && u.BuiltFrom(resp.user, resp.token))
    {
      var resp := api(PostLogin(Str(username), password));
      if !resp.UserBody? {
        return null;
      }
      u := new User(InitOf(resp.user), resp.token);
    }

    /** Restores a session from a stored token: the profile is fetched, the token reused. */
    static method LoginViaStoredCredentials(token: string, username: string, api: Request -> Response) returns (u: User?)
      ensures var resp := api(GetUser(Str(username), Str(token)));
        && (u != null <==> resp.UserBody?)
        && (u != null ==> fresh(u) && u.BuiltFrom(resp.user, Str(token)))
    {
      var resp := api(GetUser(Str(username), Str(token)));
      if !resp.UserBody? {
        return null;
      }
      u := new User(InitOf(resp.user), Str(token));
    }

    /** Appends the story to the favorites (no duplicate check) before the request is answered. */
    method AddFavorite(story: Story, api: Request -> Response) returns (r: Result<()>)
      modifies this`favorites
      ensures favorites == old(favorites) + [story]
      ensures r == Acknowledged(api(PostFavorite(username, story.storyId, loginToken)))
    {
      favorites := favorites + [story];
      var resp := api(PostFavorite(username, story.storyId, loginToken));
      return Acknowledged(resp);
    }

    /** Splices out the favorite at `storyIdx`, whatever `story` is; `story` only names the
        favorite in the request. When `story` is `undefined` (`None`), reading its id for the
        request URL throws after the splice, and no request is sent. */
    method RemoveFavorite(story: Option<Story>, storyIdx: int, api: Request -> Response) returns (r: Result<()>)
      modifies this`favorites
      ensures favorites == SpliceOne(old(favorites), storyIdx)
      ensures story.None? ==> r == Threw("TypeError")
      ensures story.Some? ==> r == Acknowledged(api(DeleteFavorite(username, story.value.storyId, loginToken)))
    {
      favorites := SpliceOne(favorites, storyIdx);
      if story.None? {
        return Threw("TypeError");
      }
      var resp := api(DeleteFavorite(username, story.value.storyId, loginToken));
      return Acknowledged(resp);
    }

    /** Sends the profile update and returns a new User built from the reply with the old
        token; this object is not changed. */
    method EditInfo(name: string, password: string, api: Request -> Response) returns (r: Result<User>)
      ensures var resp := api(PatchUser(username, loginToken, EditInfoPayload(name, password)));
        && (r.Ok? <==> resp.UserBody?)
        && (r.Ok? ==> fresh(r.value) && r.value.BuiltFrom(resp.user, loginToken))
        && (r.Threw? ==> r.error == ErrorOf(resp))
    {
      var newInfo := EditInfoPayload(name, password);
      var resp := api(PatchUser(username, loginToken, newInfo));
      if !resp.UserBody? {
        return Threw(ErrorOf(resp));
      }
      var updated := new User(InitOf(resp.user), loginToken);
      return Ok(updated);
    }
  }
}

/** The client's view of the remote REST API: the requests it sends and the
    replies it can receive. Nothing here talks to a network; every operation of
    the model takes the server as a function from request to reply. */
module Api {

  datatype Option<+T> = None | Some(value: T)

  /** How an awaited call ends: with a value, or with a rejected promise. */
  datatype Result<+T> = Ok(value: T) | Threw(error: string)

  /** A property read from a JavaScript object: an absent property reads as `undefined`. */
  datatype Value = Undefined | Str(s: string)

  /** A plain data object exchanged with the server: its own properties and their values. */
  type Record = map<string, string>

  /** `obj[key]` on a plain record. */
  function Get(r: Record, key: string): Value
  {
    if key in r then Str(r[key]) else Undefined
  }

  /** The user object of a reply: scalar properties, and the two arrays of story
      records, which may be absent. The server calls the authored stories `stories`. */
  datatype UserRecord = UserRecord(props: Record, favorites: Option<seq<Record>>, stories: Option<seq<Record>>)

  /** The page size the client asks for when it lists stories. */
  const PageLimit: nat := 10

  /** One request per endpoint the client uses. */
  datatype Request =
    | ListStories(limit: nat, skip: nat)                          // GET /stories
    | PostStory(token: Value, story: Record)                      // POST /stories
    | DeleteStory(storyId: Value, token: Value)                   // DELETE /stories/{id}
    | PatchStory(storyId: Value, token: Value, story: Record)     // PATCH /stories/{id}
    | PostSignup(username: Value, password: string, name: string) // POST /signup
    | PostLogin(username: Value, password: string)               // POST /login
    | GetUser(username: Value, token: Value)                      // GET /users/{username}
    | PostFavorite(username: Value, storyId: Value, token: Value)   // POST /users/{u}/favorites/{id}
    | DeleteFavorite(username: Value, storyId: Value, token: Value) // DELETE /users/{u}/favorites/{id}
    | PatchUser(username: Value, token: Value, user: Record)        // PATCH /users/{username}

  /** A reply: a failure (no answer, or a non-2xx status, which the HTTP client
      turns into a rejected promise), or a 2xx reply with one of the body shapes. */
  datatype Response =
    | Failed(message: string)
    | Empty
    | StoriesBody(stories: seq<Record>)
    | StoryBody(story: Record)
    | UserBody(user: UserRecord, token: Value)  // `{user, token}`; `token` is `undefined` when absent

  /** The endpoints whose body the client ignores succeed on any 2xx reply. */
  function Acknowledged(resp: Response): (r: Result<()>)
    ensures r.Ok? <==> !resp.Failed?
  {
    if resp.Failed? then Threw(resp.message) else Ok(())
  }

  /** Why an awaited call rejects when the reply is not the body it reads:
      the server's error, or a TypeError from reading a property of `undefined`. */
  function ErrorOf(resp: Response): string
  {
    if resp.Failed? then resp.message else "TypeError"
  }
}

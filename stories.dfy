/** The page's story handlers with the rendering left out: what favoriting,
    deleting, editing and loading more stories do to the global story list and
    to the current user's favorites. */
module Stories {
  import opened Api
  import opened Models

  /* ---------------------------------------------------------------------
     Favorites bookkeeping as functions on sequences
     --------------------------------------------------------------------- */

  /** Some favorite has the id. */
  predicate Favorited(f: seq<Story>, id: string)
  {
    exists j :: 0 <= j < |f| && HasId(f[j], id)
  }

  /** `favorites.filter(story => story.storyId !== id)`. */
  function WithoutId(f: seq<Story>, id: string): (r: seq<Story>)
    ensures |r| <= |f|
    ensures forall x :: x in r <==> x in f && !HasId(x, id)
  {
    if f == [] then []
    else (if HasId(f[0], id) then [] else [f[0]]) + WithoutId(f[1..], id)
  }

  /** The filter distributes over concatenation, so the kept favorites keep their relative order. */
  lemma {:induction false} WithoutIdAppend(a: seq<Story>, b: seq<Story>, id: string)
    ensures WithoutId(a + b, id) == WithoutId(a, id) + WithoutId(b, id)
  {
    if a != [] {
      var head := if HasId(a[0], id) then [] else [a[0]];
      assert (a + b)[0] == a[0] && (a + b)[1..] == a[1..] + b;
      assert WithoutId(a + b, id) == head + WithoutId(a[1..] + b, id);
      WithoutIdAppend(a[1..], b, id);
      assert WithoutId(a, id) == head + WithoutId(a[1..], id);
    } else {
      assert a + b == b;
    }
  }

  /** Filtering out an id that no favorite has changes nothing. */
  lemma {:induction false} WithoutIdAbsent(f: seq<Story>, id: string)
    requires !Favorited(f, id)
    ensures WithoutId(f, id) == f
  {
    if f != [] {
      assert !Favorited(f[1..], id) by {
        forall j | 0 <= j < |f[1..]| ensures !HasId(f[1..][j], id) { assert f[1..][j] == f[j + 1]; }
      }
      WithoutIdAbsent(f[1..], id);
    }
  }

  /** Dropping the entry at an index that has the id leaves the filtered favorites as they were. */
  lemma WithoutIdSkipsMatch(f: seq<Story>, k: nat, id: string)
    requires k < |f| && HasId(f[k], id)
    ensures WithoutId(f[..k] + f[k + 1..], id) == WithoutId(f, id)
  {
    assert f == f[..k] + ([f[k]] + f[k + 1..]);
    WithoutIdAppend(f[..k], [f[k]] + f[k + 1..], id);
    WithoutIdAppend([f[k]], f[k + 1..], id);
    WithoutIdAppend(f[..k], f[k + 1..], id);
  }

  /** With unique ids, the filter of a deleted story removes exactly the one favorite
      that `removeFavorite` would splice out at its index. */
  lemma WithoutIdIsSplice(f: seq<Story>, id: string)
    requires UniqueIds(f)
    requires Favorited(f, id)
    ensures var k := FindIndex(f, id); 0 <= k && WithoutId(f, id) == SpliceOne(f, k)
  {
    var k := FindIndex(f, id);
    RemovePresent(f, id);
    RemoveLeavesNoId(f, id);
    var rest := f[..k] + f[k + 1..];
    assert !Favorited(rest, id);
    WithoutIdAbsent(rest, id);
    WithoutIdSkipsMatch(f, k, id);
  }

  /** The favorites after the star of `id` is clicked: added from the story list when no
      favorite has the id, otherwise spliced out at the first match. The story list is only
      consulted on the adding branch; a favorite missing from the list can still be removed. */
  function Toggled(f: seq<Story>, list: seq<Story>, id: string): (r: seq<Story>)
    requires Find(list, id).Some? || Favorited(f, id)
    ensures !Favorited(f, id) ==> r == f + [Find(list, id).value]
    ensures forall k :: 0 <= k < |f| && HasId(f[k], id) && (forall j :: 0 <= j < k ==> !HasId(f[j], id))
                        ==> r == f[..k] + f[k + 1..]
  {
    var i := FindIndex(f, id);
    if i == -1 then f + [Find(list, id).value] else SpliceOne(f, i)
  }

  /** A click touches no favorite with another id. */
  lemma ToggleTouchesOnlyId(f: seq<Story>, list: seq<Story>, id: string)
    requires Find(list, id).Some? || Favorited(f, id)
    ensures WithoutId(Toggled(f, list, id), id) == WithoutId(f, id)
  {
    var i := FindIndex(f, id);
    if i == -1 {
      WithoutIdAppend(f, [Find(list, id).value], id);
    } else {
      RemovePresent(f, id);
      WithoutIdSkipsMatch(f, i, id);
    }
  }

  /** With unique ids, a click flips whether the story is a favorite and keeps the ids unique. */
  lemma ToggleFlips(f: seq<Story>, list: seq<Story>, id: string)
    requires UniqueIds(f)
    requires Find(list, id).Some? || Favorited(f, id)
    ensures UniqueIds(Toggled(f, list, id))
    ensures Favorited(Toggled(f, list, id), id) <==> !Favorited(f, id)
  {
    var r := Toggled(f, list, id);
    if FindIndex(f, id) == -1 {
      var s := Find(list, id).value;
      assert r == f + [s] && r[|f|] == s;
      forall i, j | 0 <= i < j < |r|
        ensures r[i].storyId != r[j].storyId
      {
        if j == |f| { assert r[i] == f[i] && !HasId(f[i], id); }
      }
    } else {
      RemoveLeavesNoId(f, id);
    }
  }

  /** Two clicks on a story that was not a favorite give back the original favorites. */
  lemma ToggleTwice(f: seq<Story>, list: seq<Story>, id: string)
    requires Find(list, id).Some?
    requires !Favorited(f, id)
    ensures Toggled(Toggled(f, list, id), list, id) == f
  {
    var once := Toggled(f, list, id);
    assert once == f + [Find(list, id).value];
    var k := FindIndex(once, id);
    assert k == |f| by {
      assert HasId(once[|f|], id);
    }
    assert SpliceStart(|once|, k) == |f|;
    assert SpliceOne(once, k) == once[..|f|];
  }

  /** Two clicks on a story that was a favorite do not give back the favorites: the first
      click splices it out, the second appends the listed story at the end. */
  lemma ToggleTwiceFromFavorite(f: seq<Story>, list: seq<Story>, id: string)
    requires UniqueIds(f)
    requires Favorited(f, id)
    requires Find(list, id).Some?
    ensures Toggled(Toggled(f, list, id), list, id) == SpliceOne(f, FindIndex(f, id)) + [Find(list, id).value]
  {
    RemoveLeavesNoId(f, id);
  }

  /** The favorites after an edit: the first favorite with the id becomes the edited story. */
  function Synced(f: seq<Story>, updated: Story, id: string): (r: seq<Story>)
    ensures |r| == |f|
    ensures !Favorited(f, id) ==> r == f
    ensures forall k :: 0 <= k < |f| && HasId(f[k], id) && (forall j :: 0 <= j < k ==> !HasId(f[j], id))
                        ==> r == f[k := updated]
  {
    var favStoryIdx := FindIndex(f, id);
    if favStoryIdx != -1 then f[favStoryIdx := updated] else f
  }

  /** After an edit of a story that is both listed and a favorite, the list and the
      favorites find the same story under its id, and both keep their ids unique. */
  lemma EditAgrees(list: seq<Story>, f: seq<Story>, updated: Story, id: string)
    requires UniqueIds(list) && UniqueIds(f)
    requires HasId(updated, id)
    requires Find(list, id).Some? && Favorited(f, id)
    ensures var list' := AssignAt(list, FindIndex(list, id), updated);
      var f' := Synced(f, updated, id);
      && UniqueIds(list') && UniqueIds(f')
      && Find(list', id) == Find(f', id) == Some(updated)
  {
    var list' := AssignAt(list, FindIndex(list, id), updated);
    var f' := Synced(f, updated, id);
    EditKeepsUnique(list, id, updated);
    EditKeepsUnique(f, id, updated);
    assert f' == AssignAt(f, FindIndex(f, id), updated);
    FirstIsOnly(list', id, FindIndex(list, id));
    FirstIsOnly(f', id, FindIndex(f, id));
  }

  /** In a sequence with unique ids, the entry that has the id is the one `find` returns. */
  lemma FirstIsOnly(s: seq<Story>, id: string, k: nat)
    requires UniqueIds(s)
    requires k < |s| && HasId(s[k], id)
    ensures Find(s, id) == Some(s[k])
  {
  }

  /* ---------------------------------------------------------------------
     The page's global state and its handlers
     --------------------------------------------------------------------- */

  /** The globals the handlers share: the story list, the current user (null when
      nobody is logged in) and the flag that keeps a scroll from loading twice. */
  class Page {
    var storyList: StoryList
    var currentUser: User?
    var scroll: bool

    constructor (storyList: StoryList, currentUser: User?)
      ensures this.storyList == storyList && this.currentUser == currentUser && !scroll
    {
      this.storyList := storyList;
      this.currentUser := currentUser;
      scroll := false;
    }

    /** A click on the star of `clickedStoryId`, a listed story or a favorite (the favorites
        view renders stars for favorites that the story list may not hold). The request is
        not awaited, so its outcome does not reach the handler. */
    method HandleFavorite(clickedStoryId: string, api: Request -> Response)
      requires currentUser != null
      requires Find(storyList.stories, clickedStoryId).Some? || Favorited(currentUser.favorites, clickedStoryId)
      modifies currentUser`favorites
      ensures currentUser.favorites == Toggled(old(currentUser.favorites), storyList.stories, clickedStoryId)
    {
      var clickedStory := Find(storyList.stories, clickedStoryId);
      var favStoryIdx := FindIndex(currentUser.favorites, clickedStoryId);
      if favStoryIdx == -1 {
        var _ := currentUser.AddFavorite(clickedStory.value, api);
      } else {
        var _ := currentUser.RemoveFavorite(clickedStory, favStoryIdx, api);
      }
    }

    /** A click on the trash can of `removeId`: the list entry is spliced out (the delete
        request is not awaited) and every favorite with that id is filtered out. */
    method RemoveAStory(removeId: string, api: Request -> Response)
      requires currentUser != null
      modifies storyList, currentUser`favorites
      ensures storyList.stories == SpliceOne(old(storyList.stories), FindIndex(old(storyList.stories), removeId))
      ensures currentUser.favorites == WithoutId(old(currentUser.favorites), removeId)
    {
      var _ := storyList.RemoveStory(currentUser, removeId, api);
      currentUser.favorites := WithoutId(currentUser.favorites, removeId);
    }

    /** The submitted edit form: the story list is edited and, once the reply is in, the
        first favorite with that id is replaced by the updated story. A failed edit
        rejects before either collection changes. */
    method EditStory(storyId: string, editFields: Record, api: Request -> Response) returns (r: Result<()>)
      requires currentUser != null
      modifies storyList, currentUser`favorites
      ensures var resp := api(PatchStory(Str(storyId), currentUser.loginToken, editFields));
        if resp.StoryBody? then
          var updated := StoryOf(resp.story - {"updatedAt"});
          && r == Ok(())
          && storyList.stories == AssignAt(old(storyList.stories), FindIndex(old(storyList.stories), storyId), updated)
          && currentUser.favorites == Synced(old(currentUser.favorites), updated, storyId)
        else
          && r == Threw(ErrorOf(resp))
          && storyList.stories == old(storyList.stories)
          && currentUser.favorites == old(currentUser.favorites)
    {
      var edited := storyList.EditStory(currentUser, storyId, editFields, api);
      if edited.Threw? {
        return Threw(edited.error);
      }
      var updatedStory := edited.value;
      var favStoryIdx := FindIndex(currentUser.favorites, storyId);
      if favStoryIdx != -1 {
        currentUser.favorites := currentUser.favorites[favStoryIdx := updatedStory];
      }
      return Ok(());
    }

    /** A scroll event; `nearBottom` stands for the page geometry test. Near the bottom the
        next page is requested with skip = the number of listed stories and appended. A
        rejected fetch, or the logged-in refresh with nobody logged in, ends the handler
        before `scroll` is cleared, so the flag stays set. */
    method LoadMoreStories(nearBottom: bool, api: Request -> Response) returns (r: Result<()>)
      modifies this`scroll, storyList`stories
      ensures old(scroll) ==> scroll && storyList.stories == old(storyList.stories) && r == Ok(())
      ensures !old(scroll) && !nearBottom ==> !scroll && storyList.stories == old(storyList.stories) && r == Ok(())
      ensures !old(scroll) && nearBottom ==>
        var resp := api(ListStories(PageLimit, |old(storyList.stories)|));
        if !resp.StoriesBody? then
          scroll && storyList.stories == old(storyList.stories) && r == Threw(ErrorOf(resp))
        else if resp.stories == [] then
          !scroll && storyList.stories == old(storyList.stories) && r == Ok(())
        else
          && storyList.stories == old(storyList.stories) + StoriesOf(resp.stories)
          && (scroll <==> currentUser == null)
          && (r.Ok? <==> currentUser != null)
    {
      if scroll {
        return Ok(());
      }
      scroll := true;
      if nearBottom {
        var numStories := |storyList.stories|;
        var moreStories := StoryList.GetStories(api, numStories);
        if moreStories.Threw? {
          return Threw(moreStories.error);
        }
        if |moreStories.value.stories| != 0 {
          storyList.stories := storyList.stories + moreStories.value.stories;
          if currentUser == null {
            return Threw("TypeError");
          }
        }
      }
      scroll := false;
      return Ok(());
    }
  }
}

/**
 * The admin post list (src/components/admin/PostsList.tsx): the filter and
 * title search, the counters, and the publish toggle and delete handlers.
 */
module PostsList {
  import opened Common
  import opened Posts

  // ---------------------------------------------------------------------------
  // filteredPosts and the counters
  // ---------------------------------------------------------------------------

  /** The filter dropdown: 'all' | 'published' | 'draft'. */
  datatype PostFilter = AllPosts | PublishedOnly | DraftsOnly

  predicate MatchesFilter(p: Post, filter: PostFilter)
  {
    filter == AllPosts || (filter == PublishedOnly && p.published) || (filter == DraftsOnly && !p.published)
  }

  /** An empty query matches every post; otherwise the lowercased title in the current language must contain it, lowercased. */
  predicate MatchesSearch(p: Post, query: string, language: string)
  {
    query == "" || Contains(ToLower(LocalizedTitle(p, language)), ToLower(query))
  }

  /** The search ignores the case of the query. */
  lemma SearchIgnoresQueryCase(p: Post, query: string, language: string)
    ensures MatchesSearch(p, ToLower(query), language) == MatchesSearch(p, query, language)
  {
    ToLowerIdempotent(query);
  }

  /** Any piece of the title in the current language, typed in any case, finds the post. */
  lemma SearchFindsTitlePart(p: Post, part: string, language: string)
    requires Contains(LocalizedTitle(p, language), part)
    ensures MatchesSearch(p, part, language)
  {
    ContainsLowered(LocalizedTitle(p, language), part);
  }

  predicate Shown(p: Post, filter: PostFilter, query: string, language: string)
  {
    MatchesFilter(p, filter) && MatchesSearch(p, query, language)
  }

  function FilteredPosts(posts: seq<Post>, filter: PostFilter, query: string, language: string): (r: seq<Post>)
    ensures forall i | 0 <= i < |r| :: r[i] in posts && Shown(r[i], filter, query, language)
    ensures forall i | 0 <= i < |posts| :: Shown(posts[i], filter, query, language) ==> posts[i] in r
  {
    Filter(posts, (p: Post) => Shown(p, filter, query, language))
  }

  /** The shown posts appear in the order of the full list. */
  lemma FilteredInOrder(posts: seq<Post>, filter: PostFilter, query: string, language: string)
    ensures IsSubsequence(FilteredPosts(posts, filter, query, language), posts)
  {
    FilterIsSubsequence(posts, (p: Post) => Shown(p, filter, query, language));
  }

  /** With the 'all' filter and an empty query the whole list is shown. */
  lemma NoFilterShowsAll(posts: seq<Post>, language: string)
    ensures FilteredPosts(posts, AllPosts, "", language) == posts
  {
    FilterKeepsAll(posts, (p: Post) => Shown(p, AllPosts, "", language));
  }

  /** Filtering by status and then searching gives the same list as the combined test: the two are joined by AND. */
  lemma FilterThenSearch(posts: seq<Post>, filter: PostFilter, query: string, language: string)
    ensures Filter(Filter(posts, (p: Post) => MatchesFilter(p, filter)), (p: Post) => MatchesSearch(p, query, language))
            == FilteredPosts(posts, filter, query, language)
  {
    FilterTwice(posts, (p: Post) => MatchesFilter(p, filter), (p: Post) => MatchesSearch(p, query, language),
                (p: Post) => Shown(p, filter, query, language));
  }

  /** 'published' shows exactly the published posts and 'draft' exactly the others. */
  lemma StatusFilters(posts: seq<Post>, language: string, p: Post)
    requires p in posts
    ensures p in FilteredPosts(posts, PublishedOnly, "", language) <==> p.published
    ensures p in FilteredPosts(posts, DraftsOnly, "", language) <==> !p.published
  {
  }

  function PublishedCount(posts: seq<Post>): nat
  {
    |Filter(posts, (p: Post) => p.published)|
  }

  function DraftCount(posts: seq<Post>): nat
  {
    |Filter(posts, (p: Post) => !p.published)|
  }

  /** Every post is either published or a draft: the two counters add up to the total. */
  lemma CountsAddUp(posts: seq<Post>)
    ensures PublishedCount(posts) + DraftCount(posts) == |posts|
  {
    FilterSplit(posts, (p: Post) => p.published, (p: Post) => !p.published);
  }

  // ---------------------------------------------------------------------------
  // togglePublished and handleDelete
  // ---------------------------------------------------------------------------

  /** The local update after a successful toggle: every post with that id has its flag flipped. */
  function FlipPublished(posts: seq<Post>, id: string): (r: seq<Post>)
    ensures |r| == |posts|
    ensures forall i | 0 <= i < |posts| ::
              r[i] == (if posts[i].id == id then posts[i].(published := !posts[i].published) else posts[i])
  {
    seq(|posts|, i requires 0 <= i < |posts| =>
      if posts[i].id == id then posts[i].(published := !posts[i].published) else posts[i])
  }

  /** Toggling twice restores the list. */
  lemma FlipTwice(posts: seq<Post>, id: string)
    ensures FlipPublished(FlipPublished(posts, id), id) == posts
  {
  }

  /** The local update after a successful delete: the posts with other ids, in order. */
  function WithoutPost(posts: seq<Post>, id: string): (r: seq<Post>)
    ensures forall i | 0 <= i < |r| :: r[i] in posts && r[i].id != id
    ensures forall i | 0 <= i < |posts| :: posts[i].id != id ==> posts[i] in r
  {
    Filter(posts, (p: Post) => p.id != id)
  }

  lemma WithoutPostInOrder(posts: seq<Post>, id: string)
    ensures IsSubsequence(WithoutPost(posts, id), posts)
    ensures (forall i | 0 <= i < |posts| :: posts[i].id != id) ==> WithoutPost(posts, id) == posts
  {
    FilterIsSubsequence(posts, (p: Post) => p.id != id);
    if forall i | 0 <= i < |posts| :: posts[i].id != id {
      forall p | p in posts ensures p.id != id {
        var i :| 0 <= i < |posts| && posts[i] == p;
      }
      FilterKeepsAll(posts, (p: Post) => p.id != id);
    }
  }

  /** The requests the list makes: an image removal, a row delete, a flag update. */
  datatype RemoteCall = RemoveImage(path: string) | DeleteRow(id: string) | UpdatePublished(id: string, published: bool)

  /** Post i is the first one with that id, the one `posts.find(p => p.id === id)` returns. */
  predicate FirstWithId(posts: seq<Post>, id: string, i: int)
  {
    0 <= i < |posts| && posts[i].id == id && forall k | 0 <= k < i :: posts[k].id != id
  }

  /** `posts.find(p => p.id === id)` finds exactly the first post with that id. */
  lemma FindFirstWithId(posts: seq<Post>, id: string)
    ensures var found := FindFirst(posts, (p: Post) => p.id == id);
            (found.Some? ==> FirstWithId(posts, id, found.value)) &&
            (forall i | FirstWithId(posts, id, i) :: found == Some(i))
  {
    var found := FindFirst(posts, (p: Post) => p.id == id);
    forall i | FirstWithId(posts, id, i) ensures found == Some(i) {
      assert found.Some?;
    }
  }

  class PostsBoard {
    var posts: seq<Post>
    var error: Option<string>
    var deletingId: Option<string>
    /** Requests made, in order. */
    var calls: seq<RemoteCall>

    constructor (posts: seq<Post>)
      ensures this.posts == posts && error == None && deletingId == None && calls == []
    {
      this.posts := posts;
      error, deletingId, calls := None, None, [];
    }

    /** The image of the first post with that id (`posts.find`), when it has a non-empty one (`post?.image_path`). */
    function ImageOf(id: string): (r: Option<string>)
      reads this
      ensures r.Some? ==> r.value != ""
      ensures r.Some? <==> exists i :: FirstWithId(posts, id, i) && Present(posts[i].image_path)
      ensures forall i | FirstWithId(posts, id, i) :: Present(posts[i].image_path) ==> r == posts[i].image_path
    {
      FindFirstWithId(posts, id);
      match FindFirst(posts, (p: Post) => p.id == id)
      case None => None
      case Some(i) => if Present(posts[i].image_path) then posts[i].image_path else None
    }

    /** togglePublished: one update request; on success the flag flips locally, on failure only the message changes. */
    method TogglePublished(post: Post, db: Outcome)
      modifies this
      ensures calls == old(calls) + [UpdatePublished(post.id, !post.published)]
      ensures deletingId == old(deletingId)
      ensures db.Done? ==> posts == FlipPublished(old(posts), post.id) && error == old(error)
      ensures db.Failed? ==> posts == old(posts) && error == Some(ErrorText(db, "Failed to update post"))
    {
      calls := calls + [UpdatePublished(post.id, !post.published)];
      if db.Failed? {
        error := Some(ErrorText(db, "Failed to update post"));
      } else {
        posts := FlipPublished(posts, post.id);
      }
    }

    /**
     * handleDelete: after the user confirms, remove the post's image (only
     * when it has one) and then delete the row. A removal that throws
     * (`removal` is `Failed`) aborts before the row delete; an error the
     * removal merely reports is ignored.
     */
    method Delete(id: string, confirmed: bool, removal: Outcome, db: Outcome)
      modifies this
      ensures !confirmed ==> posts == old(posts) && error == old(error) && calls == old(calls) &&
                             deletingId == old(deletingId)
      ensures confirmed ==> deletingId == None
      ensures confirmed ==>
                var image := old(ImageOf(id));
                var removalCalls := if image.Some? then [RemoveImage(image.value)] else [];
                (image.Some? && removal.Failed? ==>
                   calls == old(calls) + removalCalls && posts == old(posts) &&
                   error == Some(ErrorText(removal, "Failed to delete post"))) &&
                (!(image.Some? && removal.Failed?) ==>
                   calls == old(calls) + removalCalls + [DeleteRow(id)] &&
                   (db.Done? ==> posts == WithoutPost(old(posts), id) && error == old(error)) &&
                   (db.Failed? ==> posts == old(posts) && error == Some(ErrorText(db, "Failed to delete post"))))
    {
      if !confirmed {
        return;
      }
      deletingId := Some(id);
      var image := ImageOf(id);
      if image.Some? {
        calls := calls + [RemoveImage(image.value)];
        if removal.Failed? {
          error := Some(ErrorText(removal, "Failed to delete post"));
          deletingId := None;
          return;
        }
      }
      calls := calls + [DeleteRow(id)];
      if db.Failed? {
        error := Some(ErrorText(db, "Failed to delete post"));
      } else {
        posts := WithoutPost(posts, id);
      }
      deletingId := None;
    }
  }
}

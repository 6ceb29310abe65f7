/** The post feed of a group (PostFeed): the empty state, and the sanitising
    of posts before each is handed to a card. */
module PostFeed {
  import opened Basics
  import CommentModal

  /** A post as the feed receives it; `mediaUrls` and `comments` may be missing. */
  datatype FeedPost = FeedPost(
    id: string, userId: string, content: string, createdAt: string,
    likesCount: Option<nat>, commentsCount: Option<nat>, likedByUser: Option<bool>,
    mediaUrls: Option<seq<string>>, comments: Option<seq<CommentModal.Comment>>)

  /** `{...post, media_urls: post.media_urls || [], comments: post.comments || []}` */
  function Sanitize(post: FeedPost): FeedPost {
    post.(mediaUrls := Some(if post.mediaUrls.Some? then post.mediaUrls.value else []),
          comments := Some(if post.comments.Some? then post.comments.value else []))
  }

  /** `safePosts`: same length and order; missing media and comments become
      empty lists, present ones and every other field are kept. */
  function SafePosts(posts: seq<FeedPost>): (r: seq<FeedPost>)
    ensures |r| == |posts|
    ensures forall i :: 0 <= i < |r| ==> r[i].(mediaUrls := posts[i].mediaUrls, comments := posts[i].comments) == posts[i]
    ensures forall i :: 0 <= i < |r| ==> r[i].mediaUrls == (if posts[i].mediaUrls.Some? then posts[i].mediaUrls else Some([]))
    ensures forall i :: 0 <= i < |r| ==> r[i].comments == (if posts[i].comments.Some? then posts[i].comments else Some([]))
  {
    seq(|posts|, i requires 0 <= i < |posts| => Sanitize(posts[i]))
  }

  /** What the feed renders: the empty state (the owner's or the visitor's
      message), or one card per post. */
  datatype FeedView = EmptyState(forOwner: bool) | Cards(cards: seq<FeedPost>)

  /** `PostFeed`: an omitted list counts as empty; an empty list renders the
      empty state chosen by `isGroupOwner` and no cards; otherwise the cards
      show the sanitised posts. */
  function RenderFeed(posts: Option<seq<FeedPost>>, isGroupOwner: bool): (r: FeedView)
    ensures r.EmptyState? <==> posts.None? || |posts.value| == 0
    ensures r.EmptyState? ==> r.forOwner == isGroupOwner
    ensures r.Cards? ==> r.cards == SafePosts(posts.value)
  {
    var list := if posts.Some? then posts.value else [];
    if |list| == 0 then EmptyState(isGroupOwner) else Cards(SafePosts(list))
  }

  /** The React keys of the rendered cards. */
  function CardKeys(view: FeedView): seq<string> {
    match view
    case EmptyState(_) => []
    case Cards(cards) => seq(|cards|, i requires 0 <= i < |cards| => cards[i].id)
  }

  /** There is one card per post, keyed by the post's id, in the posts' order. */
  lemma OneCardPerPost(posts: seq<FeedPost>, isGroupOwner: bool)
    ensures |CardKeys(RenderFeed(Some(posts), isGroupOwner))| == |posts|
    ensures forall i :: 0 <= i < |posts| ==> CardKeys(RenderFeed(Some(posts), isGroupOwner))[i] == posts[i].id
  {
    var view := RenderFeed(Some(posts), isGroupOwner);
    if |posts| > 0 {
      forall i | 0 <= i < |posts| ensures CardKeys(view)[i] == posts[i].id {
        assert view.cards[i].id == SafePosts(posts)[i].id;
        assert SafePosts(posts)[i].(mediaUrls := posts[i].mediaUrls, comments := posts[i].comments) == posts[i];
      }
    }
  }
}

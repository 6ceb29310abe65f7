/** The unread-post badges of the secondary navigation bar (NavbarSub).

    For every followed group the bar keeps an unread count. The count is
    recomputed from the user's read-status rows and the posts table, zeroed
    when the user opens a group, and bumped by realtime post inserts. Every
    backend answer (read-status rows, the posts table, failing count queries,
    the session's user id) is an input of the model. */
module UnreadCounter {
  import opened Basics

  /** A followed group (only the fields the counter looks at). */
  datatype Group = Group(id: string, ownerId: string)

  /** A `user_group_read_status` row of the current user; timestamps are integers. */
  datatype ReadStatus = ReadStatus(groupId: string, lastReadAt: int)

  /** A row of the `posts` table. */
  datatype Post = Post(groupId: string, authorId: string, createdAt: int)

  /** The `new` record of a realtime INSERT on `posts`. */
  datatype NewPost = NewPost(groupId: string, authorId: string)

  /** The route of a group's page. */
  function GroupPath(id: string): string {
    "/groups/" + id
  }

  /** The ids of the first `n` followed groups. */
  function GroupIdsBelow(groups: seq<Group>, n: nat): set<string>
    requires n <= |groups|
  {
    set j | 0 <= j < n :: groups[j].id
  }

  function GroupIds(groups: seq<Group>): set<string> {
    GroupIdsBelow(groups, |groups|)
  }

  /** Two followed groups with the same id have the same owner (ids are keys). */
  predicate OwnersAgree(groups: seq<Group>) {
    forall i, j :: 0 <= i < |groups| && 0 <= j < |groups| && groups[i].id == groups[j].id ==>
      groups[i].ownerId == groups[j].ownerId
  }

  /** Is `g` among the followed groups (`groups.find(g => g.id === id)` succeeds)? */
  predicate Follows(groups: seq<Group>, id: string) {
    exists i :: 0 <= i < |groups| && groups[i].id == id
  }

  // ---------------------------------------------------------------------------
  // Read status lookup: `readStatusData?.find(s => s.group_id === id)?.last_read_at`
  // ---------------------------------------------------------------------------

  function FirstReadAt(rows: seq<ReadStatus>, id: string): (r: Option<int>)
    ensures r.None? <==> forall i :: 0 <= i < |rows| ==> rows[i].groupId != id
    ensures r.Some? ==> exists i :: 0 <= i < |rows| && rows[i].groupId == id && rows[i].lastReadAt == r.value
                                    && forall j :: 0 <= j < i ==> rows[j].groupId != id
  {
    if rows == [] then None
    else if rows[0].groupId == id then
      assert rows[0].groupId == id;
      Some(rows[0].lastReadAt)
    else
      var r := FirstReadAt(rows[1..], id);
      assert forall i :: 0 < i < |rows| ==> rows[i] == rows[1..][i - 1];
      if r.Some? then
        var i :| 0 <= i < |rows[1..]| && rows[1..][i].groupId == id && rows[1..][i].lastReadAt == r.value
                 && forall j :: 0 <= j < i ==> rows[1..][j].groupId != id;
        assert rows[i + 1].groupId == id && rows[i + 1].lastReadAt == r.value;
        r
      else r
  }

  /** The last-read time of a group; a failed read-status query (`data` is null)
      means no group has one. */
  function LastReadAt(rows: Option<seq<ReadStatus>>, id: string): (r: Option<int>)
    ensures rows.None? ==> r.None?
    ensures rows.Some? ==> r == FirstReadAt(rows.value, id)
  {
    if rows.None? then None else FirstReadAt(rows.value, id)
  }

  // ---------------------------------------------------------------------------
  // The count query: same group, other author, newer than the last read
  // ---------------------------------------------------------------------------

  predicate IsUnread(p: Post, groupId: string, userId: string, lastRead: Option<int>) {
    && p.groupId == groupId
    && p.authorId != userId
    && (lastRead.Some? ==> p.createdAt > lastRead.value)
  }

  /** The rows (by position) among the first `n` posts that the count query selects. */
  ghost function UnreadRowsBelow(posts: seq<Post>, n: nat, groupId: string, userId: string, lastRead: Option<int>): set<nat>
    requires n <= |posts|
  {
    set i: nat | i < n && IsUnread(posts[i], groupId, userId, lastRead)
  }

  /** The rows the count query selects. */
  ghost function UnreadRows(posts: seq<Post>, groupId: string, userId: string, lastRead: Option<int>): set<nat> {
    UnreadRowsBelow(posts, |posts|, groupId, userId, lastRead)
  }

  /** The count the backend reports for the query over the first `n` posts. */
  function CountUnreadBelow(posts: seq<Post>, n: nat, groupId: string, userId: string, lastRead: Option<int>): nat
    requires n <= |posts|
  {
    if n == 0 then 0
    else CountUnreadBelow(posts, n - 1, groupId, userId, lastRead)
         + (if IsUnread(posts[n - 1], groupId, userId, lastRead) then 1 else 0)
  }

  /** `count` of `select("id", {count: "exact"})` over the filtered posts. */
  function CountUnread(posts: seq<Post>, groupId: string, userId: string, lastRead: Option<int>): nat {
    CountUnreadBelow(posts, |posts|, groupId, userId, lastRead)
  }

  /** The reported count is the number of rows the filter selects. */
  lemma {:induction false} CountIsCardinalityBelow(posts: seq<Post>, n: nat, groupId: string, userId: string, lastRead: Option<int>)
    requires n <= |posts|
    ensures CountUnreadBelow(posts, n, groupId, userId, lastRead) == |UnreadRowsBelow(posts, n, groupId, userId, lastRead)|
  {
    if n == 0 {
      assert UnreadRowsBelow(posts, n, groupId, userId, lastRead) == {};
    } else {
      CountIsCardinalityBelow(posts, n - 1, groupId, userId, lastRead);
      var before := UnreadRowsBelow(posts, n - 1, groupId, userId, lastRead);
      var now := UnreadRowsBelow(posts, n, groupId, userId, lastRead);
      if IsUnread(posts[n - 1], groupId, userId, lastRead) {
        assert now == before + {n - 1};
        assert n - 1 !in before;
      } else {
        assert now == before;
      }
    }
  }

  lemma CountIsCardinality(posts: seq<Post>, groupId: string, userId: string, lastRead: Option<int>)
    ensures CountUnread(posts, groupId, userId, lastRead) == |UnreadRows(posts, groupId, userId, lastRead)|
  {
    CountIsCardinalityBelow(posts, |posts|, groupId, userId, lastRead);
  }

  /** A post of one's own is never counted, whatever else holds. */
  lemma OwnPostsNeverCounted(posts: seq<Post>, groupId: string, userId: string, lastRead: Option<int>)
    requires forall i :: 0 <= i < |posts| && posts[i].groupId == groupId ==> posts[i].authorId == userId
    ensures CountUnread(posts, groupId, userId, lastRead) == 0
  {
    CountIsCardinality(posts, groupId, userId, lastRead);
    assert UnreadRows(posts, groupId, userId, lastRead) == {};
  }

  // ---------------------------------------------------------------------------
  // fetchUnreadCounts
  // ---------------------------------------------------------------------------

  /** What the recompute stores for one followed group: 0 when its count query
      fails, 0 when its page is open or the user owns it, otherwise the number
      of unread rows. */
  ghost function ExpectedCount(g: Group, userId: string, pathname: string, rows: Option<seq<ReadStatus>>,
                               posts: seq<Post>, failing: set<string>): nat
  {
    if g.id in failing then 0
    else if pathname == GroupPath(g.id) || g.ownerId == userId then 0
    else |UnreadRows(posts, g.id, userId, LastReadAt(rows, g.id))|
  }

  /** The loop of `fetchUnreadCounts`: one entry per followed group, keyed by
      exactly the followed groups' ids. `failing` holds the groups whose count
      query returns an error. */
  method FetchUnreadCounts(groups: seq<Group>, userId: string, pathname: string, rows: Option<seq<ReadStatus>>,
                           posts: seq<Post>, failing: set<string>)
    returns (counts: map<string, nat>)
    requires OwnersAgree(groups)
    ensures counts.Keys == GroupIds(groups)
    ensures forall i :: 0 <= i < |groups| ==>
      counts[groups[i].id] == ExpectedCount(groups[i], userId, pathname, rows, posts, failing)
  {
    counts := map[];
    for i := 0 to |groups|
      invariant counts.Keys == GroupIdsBelow(groups, i)
      invariant forall j :: 0 <= j < i ==>
        counts[groups[j].id] == ExpectedCount(groups[j], userId, pathname, rows, posts, failing)
    {
      var group := groups[i];
      var lastReadTime := LastReadAt(rows, group.id);
      var count := CountUnread(posts, group.id, userId, lastReadTime);
      CountIsCardinality(posts, group.id, userId, lastReadTime);
      if group.id in failing {
        counts := counts[group.id := 0];
      } else if pathname == GroupPath(group.id) || group.ownerId == userId {
        counts := counts[group.id := 0];
      } else {
        counts := counts[group.id := count];
      }
      assert GroupIdsBelow(groups, i + 1) == GroupIdsBelow(groups, i) + {group.id};
    }
    assert GroupIdsBelow(groups, |groups|) == GroupIds(groups);
  }

  // ---------------------------------------------------------------------------
  // The realtime INSERT handler
  // ---------------------------------------------------------------------------

  /** The counts after a realtime post insert. */
  function AfterInsert(counts: map<string, nat>, groups: seq<Group>, userId: Option<string>, pathname: string,
                       post: NewPost): (r: map<string, nat>)
    ensures userId == Some(post.authorId) ==> r == counts
    ensures !Follows(groups, post.groupId) || pathname == GroupPath(post.groupId) ==> r == counts
    ensures userId != Some(post.authorId) && Follows(groups, post.groupId) && pathname != GroupPath(post.groupId) ==>
      && r.Keys == counts.Keys + {post.groupId}
      && r[post.groupId] == (if post.groupId in counts then counts[post.groupId] else 0) + 1
      && forall id :: id in counts && id != post.groupId ==> r[id] == counts[id]
  {
    if userId == Some(post.authorId) then counts
    else if !Follows(groups, post.groupId) || pathname == GroupPath(post.groupId) then counts
    else counts[post.groupId := (if post.groupId in counts then counts[post.groupId] else 0) + 1]
  }

  /** The recompute zeroes a group the user owns, but a realtime insert into
      that group by someone else still raises its count. */
  lemma OwnedGroupAsymmetry(counts: map<string, nat>, groups: seq<Group>, i: nat, userId: string,
                            pathname: string, rows: Option<seq<ReadStatus>>, posts: seq<Post>,
                            failing: set<string>, post: NewPost)
    requires i < |groups| && groups[i].ownerId == userId
    requires post.groupId == groups[i].id && post.authorId != userId && pathname != GroupPath(post.groupId)
    ensures ExpectedCount(groups[i], userId, pathname, rows, posts, failing) == 0
    ensures AfterInsert(counts, groups, Some(userId), pathname, post)[post.groupId] >= 1
  {
    assert Follows(groups, post.groupId);
  }

  // ---------------------------------------------------------------------------
  // The badge
  // ---------------------------------------------------------------------------

  /** `unreadCounts[group.id] || 0` */
  function DisplayedCount(counts: map<string, nat>, id: string): (n: nat)
    ensures id !in counts ==> n == 0
    ensures id in counts ==> n == counts[id]
  {
    if id in counts then counts[id] else 0
  }

  /** The badge over a group's avatar: none for 0, "99+" above 99, otherwise the
      count's numeral, which is at most two characters long. */
  function BadgeText(count: nat): (r: Option<string>)
    ensures r.None? <==> count == 0
    ensures r == Some("99+") <==> count > 99
    ensures 0 < count <= 99 ==>
      r.Some? && 1 <= |r.value| <= 2 && AllDigits(r.value) && r.value[0] != '0' && DecimalValue(r.value) == count
  {
    if count == 0 then None
    else if count > 99 then Some("99+")
    else
      DecimalRoundTrip(count);
      Some(DecimalText(count))
  }

  // ---------------------------------------------------------------------------
  // The component's state
  // ---------------------------------------------------------------------------

  class NavbarSub {
    /** The signed-in user, from the session; null until the session loads. */
    var userId: Option<string>
    /** `unreadCounts`: group id to number of unread posts. */
    var unreadCounts: map<string, nat>

    constructor ()
      ensures userId == None && unreadCounts == map[]
    {
      userId := None;
      unreadCounts := map[];
    }

    /** `setUserId(session?.user?.id || null)` */
    method SessionLoaded(sessionUserId: Option<string>)
      modifies this`userId
      ensures userId == (if Truthy(sessionUserId) then sessionUserId else None)
    {
      userId := if Truthy(sessionUserId) then sessionUserId else None;
    }

    /** Opening a group: with a user, upsert the read time (reported by `upserted`)
        and zero that group's count; without one, nothing happens. */
    method MarkGroupAsRead(groupId: string) returns (upserted: bool)
      modifies this`unreadCounts
      ensures upserted <==> Truthy(userId)
      ensures !upserted ==> unreadCounts == old(unreadCounts)
      ensures upserted ==> unreadCounts.Keys == old(unreadCounts).Keys + {groupId}
      ensures upserted ==> unreadCounts[groupId] == 0
      ensures upserted ==> forall id :: id in old(unreadCounts) && id != groupId ==> unreadCounts[id] == old(unreadCounts)[id]
    {
      if !Truthy(userId) {
        return false;
      }
      upserted := true;
      unreadCounts := unreadCounts[groupId := 0];
    }

    /** The effect's recompute: skipped without followed groups or without a
        user; otherwise the whole map is replaced by a fresh one. */
    method Recompute(groups: seq<Group>, pathname: string, rows: Option<seq<ReadStatus>>,
                     posts: seq<Post>, failing: set<string>)
      requires OwnersAgree(groups)
      modifies this`unreadCounts
      ensures |groups| == 0 || !Truthy(userId) ==> unreadCounts == old(unreadCounts)
      ensures |groups| > 0 && Truthy(userId) ==>
        && unreadCounts.Keys == GroupIds(groups)
        && forall i :: 0 <= i < |groups| ==>
             unreadCounts[groups[i].id] == ExpectedCount(groups[i], userId.value, pathname, rows, posts, failing)
    {
      if |groups| == 0 || !Truthy(userId) {
        return;
      }
      unreadCounts := FetchUnreadCounts(groups, userId.value, pathname, rows, posts, failing);
    }

    /** The realtime INSERT listener. It is subscribed by the same effect as the
        recompute, after that effect's guard, so it exists only while there is a
        user and at least one followed group. */
    method OnPostInserted(groups: seq<Group>, pathname: string, post: NewPost)
      requires Truthy(userId) && |groups| > 0
      modifies this`unreadCounts
      ensures unreadCounts == AfterInsert(old(unreadCounts), groups, userId, pathname, post)
    {
      if userId == Some(post.authorId) {
        return;
      }
      if !Follows(groups, post.groupId) || pathname == GroupPath(post.groupId) {
        return;
      }
      var previous := if post.groupId in unreadCounts then unreadCounts[post.groupId] else 0;
      unreadCounts := unreadCounts[post.groupId := previous + 1];
    }

    /** The badge shown over a followed group. */
    function Badge(id: string): (r: Option<string>)
      reads this
      ensures r.Some? <==> id in unreadCounts && unreadCounts[id] > 0
    {
      BadgeText(DisplayedCount(unreadCounts, id))
    }
  }
}

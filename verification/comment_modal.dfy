/** The comment modals of a post (ProfileCommentModal and DashboardCommentModal,
    whose logic is the same): the avatar URL rule, the fallback for a comment
    whose joined user is missing, the displayed name, and the submit handler
    with its blank / re-entry guard. Storage URLs and the insert's answer are
    inputs. */
module CommentModal {
  import opened Basics

  /** The joined `user:user_id(id, username, avatar_url)` record. */
  datatype CommentUser = CommentUser(id: string, username: Option<string>, avatarUrl: Option<string>)

  /** A comment with its joined user, which the backend may return as null. */
  datatype Comment = Comment(
    id: string, postId: string, userId: string, content: string, createdAt: string,
    user: Option<CommentUser>)

  /** The row a submit inserts. */
  datatype NewComment = NewComment(postId: string, userId: string, content: string)

  /** The insert's answer: the stored row with its joined user, or an error. */
  datatype InsertReply = Inserted(row: Comment) | InsertFailed

  const Placeholder: string := "https://placehold.co/32"

  /** `getAvatarPublicUrl`: the placeholder for a missing or empty path, an
      absolute http(s) URL as it is, otherwise the storage's public URL
      (`publicUrl`), or the placeholder when that is empty. Never empty. */
  function AvatarPublicUrl(path: Option<string>, publicUrl: string -> string): (r: string)
    ensures !Truthy(path) ==> r == Placeholder
    ensures Truthy(path) && (StartsWith(path.value, "http://") || StartsWith(path.value, "https://")) ==> r == path.value
    ensures Truthy(path) && !StartsWith(path.value, "http://") && !StartsWith(path.value, "https://") ==>
      r == (if publicUrl(path.value) != "" then publicUrl(path.value) else Placeholder)
    ensures r != ""
  {
    if !Truthy(path) then Placeholder
    else if StartsWith(path.value, "http://") || StartsWith(path.value, "https://") then path.value
    else OrElse(Some(publicUrl(path.value)), Placeholder)
  }

  /** `c.user || { id: c.user_id, username: null, avatar_url: null }` */
  function WithUser(c: Comment): Comment {
    if c.user.Some? then c else c.(user := Some(CommentUser(c.userId, None, None)))
  }

  /** `safeComments`: every comment gets a user; a missing one becomes the
      default record for its `user_id`; length, order and every other field are kept. */
  function SafeComments(raw: seq<Comment>): (r: seq<Comment>)
    ensures |r| == |raw|
    ensures forall i :: 0 <= i < |r| ==> r[i].user.Some? && r[i].(user := raw[i].user) == raw[i]
    ensures forall i :: 0 <= i < |r| && raw[i].user.Some? ==> r[i] == raw[i]
    ensures forall i :: 0 <= i < |r| && raw[i].user.None? ==> r[i].user == Some(CommentUser(raw[i].userId, None, None))
  {
    seq(|raw|, i requires 0 <= i < |raw| => WithUser(raw[i]))
  }

  /** The name shown above a comment: the username, or "Unnamed User". */
  function DisplayName(user: Option<CommentUser>): (r: string)
    ensures user.Some? && Truthy(user.value.username) ==> r == user.value.username.value
    ensures !(user.Some? && Truthy(user.value.username)) ==> r == "Unnamed User"
    ensures r != ""
  {
    if user.Some? then OrElse(user.value.username, "Unnamed User") else "Unnamed User"
  }

  /** A submit goes ahead only with non-blank text and no submit in flight
      (also the send button's enabled state). */
  predicate CanSubmit(text: string, isSubmitting: bool) {
    Trim(text) != "" && !isSubmitting
  }

  /** Text made only of white space never submits. */
  lemma CanSubmitIffNotBlank(text: string, isSubmitting: bool)
    ensures CanSubmit(text, isSubmitting) <==> !isSubmitting && !AllSpace(text)
  {
    TrimEmptyIffBlank(text);
  }

  class CommentModal {
    var comments: seq<Comment>
    var commentText: string
    var isLoading: bool
    var isSubmitting: bool

    constructor ()
      ensures comments == [] && commentText == "" && isLoading && !isSubmitting
    {
      comments := [];
      commentText := "";
      isLoading := true;
      isSubmitting := false;
    }

    /** The initial fetch answered `data` (null on failure). */
    method CommentsLoaded(data: Option<seq<Comment>>)
      modifies this`comments, this`isLoading
      ensures data.Some? ==> comments == SafeComments(data.value)
      ensures data.None? ==> comments == old(comments)
      ensures !isLoading
    {
      if data.Some? {
        comments := SafeComments(data.value);
      }
      isLoading := false;
    }

    /** The input's `onChange`. */
    method EditText(text: string)
      modifies this`commentText
      ensures commentText == text
    {
      commentText := text;
    }

    /** The first half of `handleCommentSubmit`, up to the insert: a blank text or
        a submit in flight changes nothing and sends nothing; otherwise the
        trimmed text is sent and the modal is marked as submitting. */
    method StartSubmit(postId: string, userId: string) returns (sent: Option<NewComment>)
      modifies this`isSubmitting
      ensures !CanSubmit(old(commentText), old(isSubmitting)) ==> sent.None? && isSubmitting == old(isSubmitting)
      ensures CanSubmit(old(commentText), old(isSubmitting)) ==>
        sent == Some(NewComment(postId, userId, Trim(commentText))) && isSubmitting
    {
      if Trim(commentText) == "" || isSubmitting {
        return None;
      }
      isSubmitting := true;
      sent := Some(NewComment(postId, userId, Trim(commentText)));
    }

    /** The second half, once the insert answered `reply`: success appends the
        returned row, clears the text and asks the parent to update the post's
        count (`countUpdatedFor`); failure alerts and keeps list and text.
        Either way the submit is over. */
    method CompleteSubmit(postId: string, reply: InsertReply) returns (countUpdatedFor: Option<string>, alerted: bool)
      requires isSubmitting
      modifies this`comments, this`commentText, this`isSubmitting
      ensures !isSubmitting
      ensures reply.Inserted? ==>
        && comments == old(comments) + [reply.row]
        && commentText == ""
        && countUpdatedFor == Some(postId) && !alerted
      ensures reply.InsertFailed? ==>
        && comments == old(comments) && commentText == old(commentText)
        && countUpdatedFor.None? && alerted
    {
      match reply {
        case Inserted(row) =>
          comments := comments + [row];
          commentText := "";
          countUpdatedFor, alerted := Some(postId), false;
        case InsertFailed =>
          countUpdatedFor, alerted := None, true;
      }
      isSubmitting := false;
    }
  }
}

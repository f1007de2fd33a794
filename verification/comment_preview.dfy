/**
  The preview (components/comment-preview.tsx) as a view model: which parts of
  each comment item are shown, and which store operation each button and the
  reply form are wired to. Rendering itself is not modelled; only the facts
  the markup is derived from are.
 */
module CommentPreview {
  import opened Wrappers
  import opened CommentTree
  import opened Languages
  import Seqs
  import CommentTreeProps

  /** A callback call the preview makes, with the ids it passes. */
  datatype Action =
    | DeleteCommentAction(id: string)
    | DeleteReplyAction(parentId: string, replyId: string)
    | OpenReplyForm(id: string)

  /** What one comment item displays. */
  datatype ItemView = ItemView(
    userName: string,
    text: string,
    avatarSrc: string,
    image: Option<string>,
    timeValue: int,
    timeLabel: Option<string>,
    totalReactions: int,
    showLike: bool,
    showReply: bool,
    showSummary: bool,
    likeBadge: bool,
    loveBadge: bool,
    otherBadge: bool,
    onDelete: Action,
    onReply: Option<Action>)

  /** A top-level comment with its reply items and, when open, its reply form. */
  datatype Block = Block(item: ItemView, replies: seq<ItemView>, replyFormOpen: bool)

  /** The whole preview: a placeholder for an empty list, else one block per comment. */
  datatype PreviewView = Placeholder | Blocks(blocks: seq<Block>)

  /** The avatar shown when a comment has none. */
  const PlaceholderAvatar: string := "/placeholder.svg"

  /** One comment item. The reaction total is the sum of the three counts;
      the like label and the summary row appear when it is positive, and in
      the summary row each badge appears when its own count is positive. The
      reply button needs a reply callback and is never shown on a reply. */
  function Item(c: Comment, language: Language, onDelete: Action, onReply: Option<Action>, isReply: bool)
    : (v: ItemView)
    ensures v.totalReactions == c.likes + c.loves + c.reactions
    ensures v.showLike <==> v.totalReactions > 0
    ensures v.showSummary <==> v.totalReactions > 0
    ensures v.likeBadge <==> v.showSummary && c.likes > 0
    ensures v.loveBadge <==> v.showSummary && c.loves > 0
    ensures v.otherBadge <==> v.showSummary && c.reactions > 0
    ensures v.showSummary <==> v.likeBadge || v.loveBadge || v.otherBadge
    ensures c.likes >= 0 && c.loves >= 0 && c.reactions >= 0 ==>
              (v.likeBadge <==> c.likes > 0) && (v.loveBadge <==> c.loves > 0) &&
              (v.otherBadge <==> c.reactions > 0)
    ensures v.showReply <==> !isReply && onReply.Some?
    ensures v.onDelete == onDelete
  {
    var total := c.likes + c.loves + c.reactions;
    var unitKey := UnitKey(c.timeUnit);
    ItemView(
      c.userName,
      c.text,
      if c.avatarUrl == "" then PlaceholderAvatar else c.avatarUrl,
      if c.imageUrl.Some? && c.imageUrl.value != "" then c.imageUrl else None,
      c.timeValue,
      if unitKey in language.translations then Some(language.translations[unitKey]) else None,
      total,
      total > 0,
      !isReply && onReply.Some?,
      total > 0,
      total > 0 && c.likes > 0,
      total > 0 && c.loves > 0,
      total > 0 && c.reactions > 0,
      onDelete,
      onReply)
  }

  /** The item of the `j`-th reply of `parent`: its delete button deletes that
      reply of that parent, and it offers no reply button. */
  function ReplyItem(parent: Comment, j: nat, language: Language): (v: ItemView)
    requires j < |parent.replies|
    ensures v.userName == parent.replies[j].userName && v.text == parent.replies[j].text
    ensures v.onDelete == DeleteReplyAction(parent.id, parent.replies[j].id)
    ensures !v.showReply
  {
    var reply := parent.replies[j];
    Item(reply, language, DeleteReplyAction(parent.id, reply.id), None, true)
  }

  /** The block of a top-level comment: only its own replies are listed; the
      replies of those replies are never looked at. */
  function BlockOf(c: Comment, language: Language, replyingTo: Option<string>): (b: Block)
    ensures b.item.userName == c.userName && b.item.showReply
    ensures b.item.onDelete == DeleteCommentAction(c.id)
    ensures b.item.onReply == Some(OpenReplyForm(c.id))
    ensures b.replyFormOpen <==> replyingTo == Some(c.id)
    ensures |b.replies| == |c.replies|
    ensures forall j :: 0 <= j < |c.replies| ==>
              b.replies[j].userName == c.replies[j].userName && !b.replies[j].showReply &&
              b.replies[j].onDelete == DeleteReplyAction(c.id, c.replies[j].id)
  {
    Block(
      Item(c, language, DeleteCommentAction(c.id), Some(OpenReplyForm(c.id)), false),
      seq(|c.replies|, j requires 0 <= j < |c.replies| => ReplyItem(c, j, language)),
      replyingTo == Some(c.id))
  }

  /** The preview of a snapshot, given the id whose reply form is open. */
  function Preview(cs: seq<Comment>, language: Language, replyingTo: Option<string>): (v: PreviewView)
    ensures v.Placeholder? <==> cs == []
    ensures v.Blocks? ==> |v.blocks| == |cs|
  {
    if |cs| == 0 then Placeholder
    else Blocks(seq(|cs|, i requires 0 <= i < |cs| => BlockOf(cs[i], language, replyingTo)))
  }

  /** The page state the preview acts on: the snapshot and the open reply form. */
  datatype PageState = PageState(comments: seq<Comment>, replyingTo: Option<string>)

  /** The effect of a button: deletions go to the store, the reply button opens
      the reply form for its comment. */
  function Dispatch(st: PageState, a: Action): (r: PageState)
    ensures !a.OpenReplyForm? ==> r.replyingTo == st.replyingTo
    ensures a.OpenReplyForm? ==> r.comments == st.comments && r.replyingTo == Some(a.id)
    ensures a.DeleteCommentAction? ==>
              forall c :: c in r.comments <==> c in st.comments && c.id != a.id
    ensures a.DeleteReplyAction? ==>
              |r.comments| == |st.comments| &&
              forall i :: 0 <= i < |st.comments| ==> SameHeader(r.comments[i], st.comments[i])
  {
    match a
    case DeleteCommentAction(id) => st.(comments := DeleteComment(st.comments, id))
    case DeleteReplyAction(p, r) => st.(comments := DeleteReply(st.comments, p, r))
    case OpenReplyForm(id) => st.(replyingTo := Some(id))
  }

  /** Submitting the reply form of comment `parentId` adds the reply under that
      comment and closes the form. */
  function SubmitReplyForm(st: PageState, parentId: string, d: Draft, newId: string): (r: PageState)
    ensures r.replyingTo.None? && |r.comments| == |st.comments|
    ensures forall i :: 0 <= i < |st.comments| && st.comments[i].id == parentId ==>
              r.comments[i].replies == st.comments[i].replies + [NewComment(d, newId)]
    ensures forall i :: 0 <= i < |st.comments| && st.comments[i].id != parentId ==>
              r.comments[i] == st.comments[i]
  {
    PageState(AddReply(st.comments, parentId, d, newId), None)
  }

  /** The cancel button closes the reply form and leaves the comments alone. */
  function CancelReplyForm(st: PageState): (r: PageState)
    ensures r.comments == st.comments && r.replyingTo.None?
  {
    st.(replyingTo := None)
  }

  // ---------------------------------------------------------------------------
  // Properties
  // ---------------------------------------------------------------------------

  /** The shape of the preview and the wiring of its buttons: an empty list
      shows the placeholder; otherwise block `i` shows comment `i` with a
      reply button and a delete button for that comment, and one item per
      reply, in order, whose delete button names the parent and the reply and
      which offers no reply button. Only the block of `replyingTo` shows the
      reply form. */
  lemma PreviewRouting(cs: seq<Comment>, language: Language, replyingTo: Option<string>)
    ensures Preview(cs, language, replyingTo).Placeholder? <==> cs == []
    ensures cs != [] ==>
              var bs := Preview(cs, language, replyingTo).blocks;
              |bs| == |cs| &&
              forall i :: 0 <= i < |cs| ==>
                bs[i].item.userName == cs[i].userName &&
                bs[i].item.showReply && bs[i].item.onReply == Some(OpenReplyForm(cs[i].id)) &&
                bs[i].item.onDelete == DeleteCommentAction(cs[i].id) &&
                (bs[i].replyFormOpen <==> replyingTo == Some(cs[i].id)) &&
                |bs[i].replies| == |cs[i].replies| &&
                forall j :: 0 <= j < |cs[i].replies| ==>
                  bs[i].replies[j].userName == cs[i].replies[j].userName &&
                  !bs[i].replies[j].showReply &&
                  bs[i].replies[j].onDelete == DeleteReplyAction(cs[i].id, cs[i].replies[j].id)
  {
  }

  /** The delete button of a top-level item removes that comment (and every
      comment sharing its id) and keeps the others in order. */
  lemma DeleteCommentButton(st: PageState, language: Language, i: nat)
    requires i < |st.comments|
    ensures var bs := Preview(st.comments, language, st.replyingTo).blocks;
            var after := Dispatch(st, bs[i].item.onDelete).comments;
            st.comments[i] !in after &&
            Seqs.IsSubseq(after, st.comments) &&
            forall c :: c in st.comments && c.id != st.comments[i].id ==> c in after
  {
  }

  /** The delete button of a reply item removes that reply from its parent and
      changes nothing at the top level. */
  lemma DeleteReplyButton(st: PageState, language: Language, i: nat, j: nat)
    requires i < |st.comments| && j < |st.comments[i].replies|
    ensures var bs := Preview(st.comments, language, st.replyingTo).blocks;
            var after := Dispatch(st, bs[i].replies[j].onDelete).comments;
            |after| == |st.comments| &&
            st.comments[i].replies[j] !in after[i].replies &&
            CommentTreeProps.NoSuchReply(after, st.comments[i].id, st.comments[i].replies[j].id) &&
            forall k :: 0 <= k < |after| ==> SameHeader(after[k], st.comments[k])
  {
  }

  /** Pressing the reply button of item `i` and submitting the form appends
      the reply to comment `i`, leaves the comments with other ids alone and
      closes the form. */
  lemma ReplyButtonThenSubmit(st: PageState, language: Language, i: nat, d: Draft, newId: string)
    requires i < |st.comments|
    ensures var bs := Preview(st.comments, language, st.replyingTo).blocks;
            var st1 := Dispatch(st, bs[i].item.onReply.value);
            var after := SubmitReplyForm(st1, st.comments[i].id, d, newId);
            st1.comments == st.comments &&
            Preview(st1.comments, language, st1.replyingTo).blocks[i].replyFormOpen &&
            after.replyingTo.None? &&
            |after.comments| == |st.comments| &&
            after.comments[i].replies == st.comments[i].replies + [NewComment(d, newId)] &&
            forall k :: 0 <= k < |st.comments| && st.comments[k].id != st.comments[i].id ==>
              after.comments[k] == st.comments[k]
  {
  }

  /** Pressing the reply button of item `i` and then the cancel button closes
      every reply form again and leaves the comments as they were. */
  lemma ReplyButtonThenCancel(st: PageState, language: Language, i: nat)
    requires i < |st.comments|
    ensures var bs := Preview(st.comments, language, st.replyingTo).blocks;
            var after := CancelReplyForm(Dispatch(st, bs[i].item.onReply.value));
            after.comments == st.comments &&
            forall k :: 0 <= k < |after.comments| ==>
              !Preview(after.comments, language, after.replyingTo).blocks[k].replyFormOpen
  {
  }

  /** The snapshot with the replies of replies dropped: what one level of
      nesting can show. */
  function TrimDeep(cs: seq<Comment>): seq<Comment>
  {
    seq(|cs|, i requires 0 <= i < |cs| =>
      cs[i].(replies := seq(|cs[i].replies|, j requires 0 <= j < |cs[i].replies| =>
        cs[i].replies[j].(replies := []))))
  }

  /** The preview never shows replies of replies: it is the same for a
      snapshot and for the snapshot with those dropped. */
  lemma PreviewIgnoresDeepReplies(cs: seq<Comment>, language: Language, replyingTo: Option<string>)
    ensures Preview(TrimDeep(cs), language, replyingTo) == Preview(cs, language, replyingTo)
  {
    var t := TrimDeep(cs);
    if cs != [] {
      forall i | 0 <= i < |cs|
        ensures BlockOf(t[i], language, replyingTo) == BlockOf(cs[i], language, replyingTo)
      {
        forall j | 0 <= j < |cs[i].replies|
          ensures ReplyItem(t[i], j, language) == ReplyItem(cs[i], j, language)
        {
        }
      }
    }
  }

  /** On a snapshot that keeps the depth bound, which is every reachable one,
      dropping the replies of replies loses nothing: the preview shows all of it. */
  lemma TrimDeepKeepsShallow(cs: seq<Comment>)
    requires CommentTreeProps.Shallow(cs)
    ensures TrimDeep(cs) == cs
  {
    var t := TrimDeep(cs);
    forall i | 0 <= i < |cs| ensures t[i] == cs[i] {
      assert cs[i] in cs;
      forall j | 0 <= j < |cs[i].replies| ensures t[i].replies[j] == cs[i].replies[j] {
        assert cs[i].replies[j] in cs[i].replies;
      }
    }
  }
}

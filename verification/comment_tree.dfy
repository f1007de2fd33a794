/**
  The comment/reply store of the page component (app/page.tsx): an ordered
  sequence of comments, each holding an ordered sequence of replies, and the
  four snapshot-to-snapshot operations the page hands to its children.

  Identifiers are supplied by the caller (the page takes them from the clock),
  so every operation that creates a comment takes its id as a parameter.
 */
module CommentTree {
  import opened Wrappers
  import Seqs

  /** The six units a relative timestamp can be expressed in. */
  datatype TimeUnit = Min | Hour | Day | Week | Month | Year

  /** The string a time unit is stored as, and looked up under in label tables. */
  function UnitKey(u: TimeUnit): string
  {
    match u
    case Min => "min"
    case Hour => "hour"
    case Day => "day"
    case Week => "week"
    case Month => "month"
    case Year => "year"
  }

  /** A comment as the page stores it. The type is recursive, as in the
      program; that replies never hold replies of their own is a property of
      the operations (see Shallow), not of the type. */
  datatype Comment = Comment(
    id: string,
    userName: string,
    avatarUrl: string,
    text: string,
    imageUrl: Option<string>,
    timeValue: int,
    timeUnit: TimeUnit,
    likes: int,
    loves: int,
    reactions: int,
    replies: seq<Comment>)

  /** What a form submits: every field of a comment except `id` and `replies`. */
  datatype Draft = Draft(
    userName: string,
    avatarUrl: string,
    text: string,
    imageUrl: Option<string>,
    timeValue: int,
    timeUnit: TimeUnit,
    likes: int,
    loves: int,
    reactions: int)

  /** The draft part of a comment: everything but `id` and `replies`. */
  function DraftOf(c: Comment): Draft
  {
    Draft(c.userName, c.avatarUrl, c.text, c.imageUrl, c.timeValue, c.timeUnit,
          c.likes, c.loves, c.reactions)
  }

  /** The comment built from a draft: the draft's fields, the given id, no replies. */
  function NewComment(d: Draft, id: string): (c: Comment)
    ensures c.id == id && c.replies == []
    ensures DraftOf(c) == d
  {
    Comment(id, d.userName, d.avatarUrl, d.text, d.imageUrl, d.timeValue, d.timeUnit,
            d.likes, d.loves, d.reactions, [])
  }

  /** `a` and `b` agree on every field except, possibly, `replies`. */
  predicate SameHeader(a: Comment, b: Comment)
  {
    a.id == b.id && DraftOf(a) == DraftOf(b)
  }

  /** Some top-level comment of `cs` has the given id. */
  predicate HasId(cs: seq<Comment>, id: string)
  {
    exists i :: 0 <= i < |cs| && cs[i].id == id
  }

  /** The filter predicate "the comment's id is `id`". */
  function IdIs(id: string): Comment -> bool
  {
    (c: Comment) => c.id == id
  }

  /** The filter predicate "the comment's id is not `id`". */
  function IdIsNot(id: string): Comment -> bool
  {
    (c: Comment) => c.id != id
  }

  // ---------------------------------------------------------------------------
  // The four operations
  // ---------------------------------------------------------------------------

  /** Appends the comment built from `d` with id `id`; earlier comments keep
      their places and contents. */
  function AddComment(cs: seq<Comment>, d: Draft, id: string): (r: seq<Comment>)
    ensures |r| == |cs| + 1
    ensures r[..|cs|] == cs
    ensures r[|cs|].id == id && r[|cs|].replies == [] && DraftOf(r[|cs|]) == d
  {
    cs + [NewComment(d, id)]
  }

  /** Appends the reply built from `d` with id `id` to every top-level comment
      whose id is `parentId`. An unknown parent is not an error: nothing
      matches, and the snapshot comes back equal to the input
      (CommentTreeProps.AddReplyUnknownParent). */
  function AddReply(cs: seq<Comment>, parentId: string, d: Draft, id: string): (r: seq<Comment>)
    ensures |r| == |cs|
    ensures forall i :: 0 <= i < |cs| ==> SameHeader(r[i], cs[i])
    ensures forall i :: 0 <= i < |cs| && cs[i].id == parentId ==>
              r[i].replies == cs[i].replies + [NewComment(d, id)]
    ensures forall i :: 0 <= i < |cs| && cs[i].id != parentId ==> r[i] == cs[i]
  {
    if cs == [] then []
    else
      var c := cs[0];
      var c' := if c.id == parentId then c.(replies := c.replies + [NewComment(d, id)]) else c;
      [c'] + AddReply(cs[1..], parentId, d, id)
  }

  /** Removes every top-level comment whose id is `id`, together with its
      replies; the others keep their relative order and their replies. */
  function DeleteComment(cs: seq<Comment>, id: string): (r: seq<Comment>)
    ensures Seqs.IsSubseq(r, cs)
    ensures forall c :: c in r <==> c in cs && c.id != id
    ensures |r| == Seqs.Count(cs, IdIsNot(id))
  {
    var r := Seqs.Filter(cs, IdIsNot(id));
    Seqs.SubseqMembers(r, cs);
    r
  }

  /** Removes the replies with id `replyId` from every top-level comment whose
      id is `parentId`. Nothing else changes: the top-level sequence keeps its
      length and order, and parents keep all their other fields. */
  function DeleteReply(cs: seq<Comment>, parentId: string, replyId: string): (r: seq<Comment>)
    ensures |r| == |cs|
    ensures forall i :: 0 <= i < |cs| ==> SameHeader(r[i], cs[i])
    ensures forall i :: 0 <= i < |cs| && cs[i].id != parentId ==> r[i] == cs[i]
    ensures forall i :: 0 <= i < |cs| && cs[i].id == parentId ==>
              Seqs.IsSubseq(r[i].replies, cs[i].replies) &&
              (forall x :: x in r[i].replies <==> x in cs[i].replies && x.id != replyId) &&
              |r[i].replies| == Seqs.Count(cs[i].replies, IdIsNot(replyId))
  {
    if cs == [] then []
    else
      var c := cs[0];
      var c' := if c.id == parentId then PruneReplies(c, replyId) else c;
      [c'] + DeleteReply(cs[1..], parentId, replyId)
  }

  /** `c` without its replies whose id is `replyId`. */
  function PruneReplies(c: Comment, replyId: string): (c': Comment)
    ensures SameHeader(c', c)
    ensures Seqs.IsSubseq(c'.replies, c.replies)
    ensures forall x :: x in c'.replies <==> x in c.replies && x.id != replyId
    ensures |c'.replies| == Seqs.Count(c.replies, IdIsNot(replyId))
  {
    var rs := Seqs.Filter(c.replies, IdIsNot(replyId));
    Seqs.SubseqMembers(rs, c.replies);
    c.(replies := rs)
  }
}

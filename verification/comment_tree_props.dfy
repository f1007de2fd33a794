/**
  Properties of the comment store that relate several calls: idempotent
  deletion, deletions of absent ids, the one-level depth bound of every
  reachable snapshot, and uniqueness of ids when the caller supplies fresh ones.
 */
module CommentTreeProps {
  import opened Wrappers
  import Seqs
  import opened CommentTree

  // ---------------------------------------------------------------------------
  // Replies to an unknown parent
  // ---------------------------------------------------------------------------

  /** Replying to a parent id that no top-level comment carries signals no
      error and returns a snapshot equal to the input. */
  lemma AddReplyUnknownParent(cs: seq<Comment>, parentId: string, d: Draft, id: string)
    requires !HasId(cs, parentId)
    ensures AddReply(cs, parentId, d, id) == cs
  {
  }

  // ---------------------------------------------------------------------------
  // Deletion
  // ---------------------------------------------------------------------------

  /** Deleting a comment twice is deleting it once. */
  lemma DeleteCommentIdempotent(cs: seq<Comment>, id: string)
    ensures DeleteComment(DeleteComment(cs, id), id) == DeleteComment(cs, id)
  {
    Seqs.FilterIdempotent(cs, IdIsNot(id));
  }

  /** Deleting an id that no top-level comment carries returns the snapshot unchanged. */
  lemma DeleteCommentAbsent(cs: seq<Comment>, id: string)
    requires !HasId(cs, id)
    ensures DeleteComment(cs, id) == cs
  {
    Seqs.FilterKeepsAll(cs, IdIsNot(id));
  }

  /** Pruning a comment's replies twice is pruning them once. */
  lemma PruneRepliesIdempotent(c: Comment, replyId: string)
    ensures PruneReplies(PruneReplies(c, replyId), replyId) == PruneReplies(c, replyId)
  {
    Seqs.FilterIdempotent(c.replies, IdIsNot(replyId));
  }

  /** Deleting a reply twice is deleting it once. */
  lemma {:induction false} DeleteReplyIdempotent(cs: seq<Comment>, parentId: string, replyId: string)
    ensures DeleteReply(DeleteReply(cs, parentId, replyId), parentId, replyId)
         == DeleteReply(cs, parentId, replyId)
    decreases |cs|
  {
    if cs != [] {
      DeleteReplyIdempotent(cs[1..], parentId, replyId);
      if cs[0].id == parentId {
        PruneRepliesIdempotent(cs[0], replyId);
      }
    }
  }

  /** No parent with id `parentId` holds a reply with id `replyId`. */
  predicate NoSuchReply(cs: seq<Comment>, parentId: string, replyId: string)
  {
    forall i, j :: 0 <= i < |cs| && cs[i].id == parentId && 0 <= j < |cs[i].replies| ==>
      cs[i].replies[j].id != replyId
  }

  /** Deleting a reply that is not there (unknown parent or unknown reply)
      returns the snapshot unchanged. */
  lemma {:induction false} DeleteReplyAbsent(cs: seq<Comment>, parentId: string, replyId: string)
    requires NoSuchReply(cs, parentId, replyId)
    ensures DeleteReply(cs, parentId, replyId) == cs
    decreases |cs|
  {
    if cs != [] {
      assert NoSuchReply(cs[1..], parentId, replyId) by {
        forall i, j | 0 <= i < |cs[1..]| && cs[1..][i].id == parentId && 0 <= j < |cs[1..][i].replies|
          ensures cs[1..][i].replies[j].id != replyId
        {
          assert cs[1..][i] == cs[i + 1];
        }
      }
      DeleteReplyAbsent(cs[1..], parentId, replyId);
      if cs[0].id == parentId {
        Seqs.FilterKeepsAll(cs[0].replies, IdIsNot(replyId));
        assert PruneReplies(cs[0], replyId) == cs[0];
      }
      assert cs == [cs[0]] + cs[1..];
    }
  }

  /** After the deletion no parent with id `parentId` holds a reply with id `replyId`. */
  lemma DeleteReplyRemoves(cs: seq<Comment>, parentId: string, replyId: string)
    ensures NoSuchReply(DeleteReply(cs, parentId, replyId), parentId, replyId)
  {
  }

  // ---------------------------------------------------------------------------
  // Depth bound
  // ---------------------------------------------------------------------------

  /** No reply holds replies of its own: the tree has at most two levels. */
  predicate Shallow(cs: seq<Comment>)
  {
    forall c :: c in cs ==> forall x :: x in c.replies ==> x.replies == []
  }

  /** One call of an operation of the store, with the arguments the page passes. */
  datatype Op =
    | AddCommentOp(draft: Draft, id: string)
    | AddReplyOp(parentId: string, draft: Draft, id: string)
    | DeleteCommentOp(id: string)
    | DeleteReplyOp(parentId: string, replyId: string)

  /** The snapshot after one operation. */
  function Apply(cs: seq<Comment>, op: Op): (r: seq<Comment>)
    ensures op.AddCommentOp? ==> |r| == |cs| + 1
    ensures op.AddReplyOp? || op.DeleteReplyOp? ==> |r| == |cs|
    ensures op.DeleteCommentOp? ==> |r| <= |cs|
  {
    match op
    case AddCommentOp(d, id) => AddComment(cs, d, id)
    case AddReplyOp(p, d, id) => AddReply(cs, p, d, id)
    case DeleteCommentOp(id) => DeleteComment(cs, id)
    case DeleteReplyOp(p, rid) => DeleteReply(cs, p, rid)
  }

  /** The snapshot reached from the page's initial empty list by `ops`, in order. */
  function Run(ops: seq<Op>): (r: seq<Comment>)
    ensures |r| <= |ops|
    decreases |ops|
  {
    if ops == [] then [] else Apply(Run(ops[..|ops| - 1]), ops[|ops| - 1])
  }

  /** Every operation keeps the depth bound. */
  lemma ApplyKeepsShallow(cs: seq<Comment>, op: Op)
    requires Shallow(cs)
    ensures Shallow(Apply(cs, op))
  {
  }

  /** Starting from the empty list, no sequence of operations produces a reply
      that holds replies. */
  lemma {:induction false} ReachableShallow(ops: seq<Op>)
    ensures Shallow(Run(ops))
    decreases |ops|
  {
    if ops != [] {
      ReachableShallow(ops[..|ops| - 1]);
      ApplyKeepsShallow(Run(ops[..|ops| - 1]), ops[|ops| - 1]);
    }
  }

  /** A run of `addComment` calls alone yields one comment per call, in call
      order, each carrying its call's draft and id and no replies. */
  lemma {:induction false} AddCommentsInOrder(ops: seq<Op>)
    requires forall k :: 0 <= k < |ops| ==> ops[k].AddCommentOp?
    ensures |Run(ops)| == |ops|
    ensures forall k :: 0 <= k < |ops| ==>
              Run(ops)[k].id == ops[k].id && DraftOf(Run(ops)[k]) == ops[k].draft &&
              Run(ops)[k].replies == []
    decreases |ops|
  {
    if ops != [] {
      var init := ops[..|ops| - 1];
      AddCommentsInOrder(init);
      var r := Run(ops);
      assert r == AddComment(Run(init), ops[|ops| - 1].draft, ops[|ops| - 1].id);
      forall k | 0 <= k < |ops|
        ensures r[k].id == ops[k].id && DraftOf(r[k]) == ops[k].draft && r[k].replies == []
      {
        if k < |init| {
          assert r[k] == r[..|init|][k] == Run(init)[k];
          assert ops[k] == init[k];
        }
      }
    }
  }

  /** Add a comment with id `x` to the empty list, reply to it, then delete
      it: one comment with no replies, then one comment with one reply, then
      the empty list again. */
  lemma AddReplyDeleteScenario(d1: Draft, d2: Draft, x: string, y: string)
    ensures var s1 := AddComment([], d1, x);
            |s1| == 1 && s1[0].id == x && s1[0].replies == []
    ensures var s2 := AddReply(AddComment([], d1, x), x, d2, y);
            |s2| == 1 && |s2[0].replies| == 1 && s2[0].replies[0].id == y
    ensures DeleteComment(AddReply(AddComment([], d1, x), x, d2, y), x) == []
  {
  }

  // ---------------------------------------------------------------------------
  // Uniqueness of ids under fresh-id calls
  // ---------------------------------------------------------------------------

  /** Every id in the tree rooted at `c`, in document order. */
  function IdsOf(c: Comment): seq<string>
    decreases c
  {
    [c.id] + IdsOfAll(c.replies)
  }

  /** Every id in the forest `cs`, in document order. */
  function IdsOfAll(cs: seq<Comment>): seq<string>
    decreases cs
  {
    if cs == [] then [] else IdsOf(cs[0]) + IdsOfAll(cs[1..])
  }

  /** No id occurs twice. */
  predicate Distinct(ids: seq<string>)
  {
    forall x :: x in multiset(ids) ==> multiset(ids)[x] <= 1
  }

  /** The ids of two forests side by side are the ids of each, in order. */
  lemma {:induction false} IdsOfAllAppend(a: seq<Comment>, b: seq<Comment>)
    ensures IdsOfAll(a + b) == IdsOfAll(a) + IdsOfAll(b)
    decreases |a|
  {
    if a == [] {
      assert a + b == b;
    } else {
      assert (a + b)[0] == a[0];
      assert (a + b)[1..] == a[1..] + b;
      IdsOfAllAppend(a[1..], b);
      calc {
        IdsOfAll(a + b);
        IdsOf(a[0]) + IdsOfAll(a[1..] + b);
        IdsOf(a[0]) + (IdsOfAll(a[1..]) + IdsOfAll(b));
        (IdsOf(a[0]) + IdsOfAll(a[1..])) + IdsOfAll(b);
      }
    }
  }

  /** Appending a comment adds exactly its id to the end of the id list. */
  lemma AddCommentIds(cs: seq<Comment>, d: Draft, id: string)
    ensures IdsOfAll(AddComment(cs, d, id)) == IdsOfAll(cs) + [id]
  {
    IdsOfAllAppend(cs, [NewComment(d, id)]);
  }

  /** Each top-level comment with id `p` contributes one occurrence of `p`. */
  lemma {:induction false} TopCountBelowIds(cs: seq<Comment>, p: string)
    ensures Seqs.Count(cs, IdIs(p)) <= multiset(IdsOfAll(cs))[p]
    decreases |cs|
  {
    if cs != [] {
      TopCountBelowIds(cs[1..], p);
    }
  }

  /** `n` copies of `x`. */
  function Copies(x: string, n: nat): multiset<string>
  {
    multiset{}[x := n]
  }

  /** The ids of `[c] + t` are those of `c` followed by those of `t`. */
  lemma IdsOfAllCons(c: Comment, t: seq<Comment>)
    ensures IdsOfAll([c] + t) == IdsOf(c) + IdsOfAll(t)
  {
  }

  /** Appending a reply `n` to `c` appends the ids of `n` to those of `c`. */
  lemma IdsOfGrafted(c: Comment, n: Comment)
    ensures IdsOf(c.(replies := c.replies + [n])) == IdsOf(c) + IdsOf(n)
  {
    IdsOfAllAppend(c.replies, [n]);
    IdsOfAllCons(n, []);
  }

  /** Multiset arithmetic of the step where a parent matches: the new id sits
      between the parent's ids and those of the rest. */
  lemma CopiesStep(a: seq<string>, t: seq<string>, b: seq<string>, id: string, k: nat)
    requires multiset(b) == multiset(t) + Copies(id, k)
    ensures multiset(a + [id] + b) == multiset(a + t) + Copies(id, k + 1)
  {
  }

  /** The id multiset after adding a reply under a forest `t`, as AddReplyIds states it. */
  predicate AddsCopies(t: seq<Comment>, p: string, d: Draft, id: string)
  {
    multiset(IdsOfAll(AddReply(t, p, d, id)))
      == multiset(IdsOfAll(t)) + Copies(id, Seqs.Count(t, IdIs(p)))
  }

  /** Inductive step of AddReplyIds when the head comment is the parent. */
  lemma AddReplyIdsHit(c: Comment, t: seq<Comment>, p: string, d: Draft, id: string)
    requires c.id == p
    requires AddsCopies(t, p, d, id)
    ensures AddsCopies([c] + t, p, d, id)
  {
    var n := NewComment(d, id);
    var c' := c.(replies := c.replies + [n]);
    var rest := AddReply(t, p, d, id);
    assert ([c] + t)[1..] == t;
    assert AddReply([c] + t, p, d, id) == [c'] + rest;
    assert Seqs.Count([c] + t, IdIs(p)) == Seqs.Count(t, IdIs(p)) + 1;
    IdsOfAllCons(c, t);
    IdsOfAllCons(c', rest);
    IdsOfGrafted(c, n);
    IdsOfAllCons(n, []);
    CopiesStep(IdsOf(c), IdsOfAll(t), IdsOfAll(rest), id, Seqs.Count(t, IdIs(p)));
  }

  /** Inductive step of AddReplyIds when the head comment is not the parent. */
  lemma AddReplyIdsMiss(c: Comment, t: seq<Comment>, p: string, d: Draft, id: string)
    requires c.id != p
    requires AddsCopies(t, p, d, id)
    ensures AddsCopies([c] + t, p, d, id)
  {
  }

  /** Adding a reply adds its id once for every parent that matched. */
  lemma {:induction false} AddReplyIds(cs: seq<Comment>, p: string, d: Draft, id: string)
    ensures multiset(IdsOfAll(AddReply(cs, p, d, id)))
         == multiset(IdsOfAll(cs)) + Copies(id, Seqs.Count(cs, IdIs(p)))
    decreases |cs|
  {
    if cs == [] {
      assert Copies(id, 0) == multiset{};
    } else {
      AddReplyIds(cs[1..], p, d, id);
      assert cs == [cs[0]] + cs[1..];
      if cs[0].id == p {
        AddReplyIdsHit(cs[0], cs[1..], p, d, id);
      } else {
        AddReplyIdsMiss(cs[0], cs[1..], p, d, id);
      }
    }
  }

  /** Taking a subsequence of a forest can only drop ids. */
  lemma {:induction false} SubseqIds(a: seq<Comment>, b: seq<Comment>)
    requires Seqs.IsSubseq(a, b)
    ensures multiset(IdsOfAll(a)) <= multiset(IdsOfAll(b))
    decreases |b|
  {
    if a != [] {
      if a[0] == b[0] && Seqs.IsSubseq(a[1..], b[1..]) {
        SubseqIds(a[1..], b[1..]);
      } else {
        SubseqIds(a, b[1..]);
      }
    }
  }

  /** Deleting a reply can only drop ids. */
  lemma {:induction false} DeleteReplyIds(cs: seq<Comment>, p: string, rid: string)
    ensures multiset(IdsOfAll(DeleteReply(cs, p, rid))) <= multiset(IdsOfAll(cs))
    decreases |cs|
  {
    if cs != [] {
      DeleteReplyIds(cs[1..], p, rid);
      var r := DeleteReply(cs, p, rid);
      assert r[1..] == DeleteReply(cs[1..], p, rid);
      if cs[0].id == p {
        SubseqIds(PruneReplies(cs[0], rid).replies, cs[0].replies);
      }
    }
  }

  /** The id an operation creates is not yet in the snapshot it is applied to. */
  predicate FreshFor(cs: seq<Comment>, op: Op)
  {
    match op
    case AddCommentOp(_, id) => id !in IdsOfAll(cs)
    case AddReplyOp(_, _, id) => id !in IdsOfAll(cs)
    case DeleteCommentOp(_) => true
    case DeleteReplyOp(_, _) => true
  }

  /** Every operation of the run creates a fresh id. */
  predicate FreshRun(ops: seq<Op>)
    decreases |ops|
  {
    ops == [] ||
    (FreshRun(ops[..|ops| - 1]) && FreshFor(Run(ops[..|ops| - 1]), ops[|ops| - 1]))
  }

  /** Dropping ids keeps them unique. */
  lemma DistinctSubMultiset(a: seq<string>, b: seq<string>)
    requires multiset(a) <= multiset(b)
    requires Distinct(b)
    ensures Distinct(a)
  {
    forall x | x in multiset(a) ensures multiset(a)[x] <= 1 {
      assert x in multiset(b);
    }
  }

  /** Adding a comment with a fresh id keeps ids unique. */
  lemma AddCommentKeepsDistinct(cs: seq<Comment>, d: Draft, id: string)
    requires Distinct(IdsOfAll(cs))
    requires id !in IdsOfAll(cs)
    ensures Distinct(IdsOfAll(AddComment(cs, d, id)))
  {
    AddCommentIds(cs, d, id);
    var before := multiset(IdsOfAll(cs));
    assert multiset(IdsOfAll(AddComment(cs, d, id))) == before + multiset{id};
    assert before[id] == 0;
  }

  /** Adding a reply with a fresh id keeps ids unique: since the parent id
      occurs at most once, the reply is added at most once. */
  lemma AddReplyKeepsDistinct(cs: seq<Comment>, p: string, d: Draft, id: string)
    requires Distinct(IdsOfAll(cs))
    requires id !in IdsOfAll(cs)
    ensures Distinct(IdsOfAll(AddReply(cs, p, d, id)))
  {
    AddReplyIds(cs, p, d, id);
    TopCountBelowIds(cs, p);
    var before := multiset(IdsOfAll(cs));
    assert before[id] == 0;
    assert before[p] <= 1;
  }

  /** Deleting a comment keeps ids unique. */
  lemma DeleteCommentKeepsDistinct(cs: seq<Comment>, id: string)
    requires Distinct(IdsOfAll(cs))
    ensures Distinct(IdsOfAll(DeleteComment(cs, id)))
  {
    SubseqIds(DeleteComment(cs, id), cs);
    DistinctSubMultiset(IdsOfAll(DeleteComment(cs, id)), IdsOfAll(cs));
  }

  /** Deleting a reply keeps ids unique. */
  lemma DeleteReplyKeepsDistinct(cs: seq<Comment>, p: string, rid: string)
    requires Distinct(IdsOfAll(cs))
    ensures Distinct(IdsOfAll(DeleteReply(cs, p, rid)))
  {
    DeleteReplyIds(cs, p, rid);
    DistinctSubMultiset(IdsOfAll(DeleteReply(cs, p, rid)), IdsOfAll(cs));
  }

  /** An operation given a fresh id keeps ids unique. */
  lemma ApplyKeepsDistinct(cs: seq<Comment>, op: Op)
    requires Distinct(IdsOfAll(cs))
    requires FreshFor(cs, op)
    ensures Distinct(IdsOfAll(Apply(cs, op)))
  {
    match op
    case AddCommentOp(d, id) => AddCommentKeepsDistinct(cs, d, id);
    case AddReplyOp(p, d, id) => AddReplyKeepsDistinct(cs, p, d, id);
    case DeleteCommentOp(id) => DeleteCommentKeepsDistinct(cs, id);
    case DeleteReplyOp(p, rid) => DeleteReplyKeepsDistinct(cs, p, rid);
  }

  /** Starting from the empty list, a run whose added ids are fresh never
      holds two comments or replies with the same id. */
  lemma {:induction false} ReachableDistinct(ops: seq<Op>)
    requires FreshRun(ops)
    ensures Distinct(IdsOfAll(Run(ops)))
    decreases |ops|
  {
    if ops != [] {
      ReachableDistinct(ops[..|ops| - 1]);
      ApplyKeepsDistinct(Run(ops[..|ops| - 1]), ops[|ops| - 1]);
    }
  }
}

# Comment-thread simulator: a Dafny model of the comment store and its forms

This project models the state logic of a browser tool that composes mock
social-media comment threads. The page keeps an ordered list of comments. Each
comment holds an ordered list of replies. Four operations replace the list
with a new snapshot: add a comment, add a reply to a parent, delete a comment,
and delete a reply of a parent. Around the store sit three small pure pieces,
which are modelled too:

- the comment form's submit handler: validation, draft construction, reset, and the numeric input fallbacks;
- the preview's derived display facts: reaction total, badges, which buttons appear, and the ids each button passes;
- the language picker: lookup by code, and the case-insensitive search over code, name and native name.

Modules, one per source file plus two helpers:

| module | file | models |
|---|---|---|
| `Wrappers` | `wrappers.dfy` | `Option` (for `undefined` and "no match") |
| `Seqs` | `seqs.dfy` | order-preserving `filter` and the subsequence relation |
| `CommentTree` | `comment_tree.dfy` | `Comment`, drafts and the four store operations (`app/page.tsx`) |
| `CommentTreeProps` | `comment_tree_props.dfy` | idempotent deletion, the depth bound, id uniqueness over whole runs |
| `Languages` | `languages.dfy` | the `Language` record (its table is data outside the model) |
| `CommentForm` | `comment_form.dfy` | `components/comment-form.tsx` |
| `CommentPreview` | `comment_preview.dfy` | `components/comment-preview.tsx` |
| `LanguageSelector` | `language_selector.dfy` | `components/language-selector.tsx` |

In these places the code behaves differently from what one might expect; the model follows the code:

- Adding a reply under an unknown parent signals nothing. The `map` matches no comment, and the snapshot comes back equal to the input.
- Replies are `Comment`s, so the type is recursive. "Replies never hold replies" is proved of every reachable snapshot (`ReachableShallow`). It is not built into the type.
- The time value may be stored negative. The input only turns `0` and NaN into `1`, and reaction counts are not clamped either. Such a form is never submitted, though: the browser's validation of the inputs' `required` and `min` attributes stops the submit event before the handler runs (`CommentForm.SubmitButton`). The handler itself only checks for an empty name or text.
- Ids come from the clock and are not guaranteed unique. The model takes each id as a parameter. Uniqueness is proved for runs that pass fresh ids.
- The add operations return nothing. They do not return the new id.

## Model

| member | source | states |
|---|---|---|
| `CommentTree.NewComment` | app/page.tsx:31-36 | a new comment carries the draft's fields unchanged (`DraftOf` recovers the draft), the supplied id and no replies |
| `CommentTree.AddComment` | app/page.tsx:31-38 | the result is one longer; its prefix is the old list, so earlier comments are unchanged and in order; the last element is the draft's comment with the given id and empty replies |
| `CommentTree.AddReply` | app/page.tsx:40-52 | top-level length and ids/fields are unchanged; each comment whose id is the parent gains exactly the new reply, appended after its old replies; every other comment is returned unchanged |
| `CommentTree.DeleteComment` | app/page.tsx:54-56 | the result is a subsequence of the input (order kept), contains exactly the input comments whose id differs (with their replies intact), and has as many elements as there are such comments |
| `CommentTree.DeleteReply` | app/page.tsx:58-69 | top-level length and parent fields other than `replies` are unchanged; non-matching comments are untouched; a matching parent's replies become an order-preserving subsequence holding exactly the old replies whose id differs, as many as there are (so, by `Seqs.FilterUnique`, exactly the filtered list) |
| `CommentTree.PruneReplies` | app/page.tsx:62-65 | one parent's reply filter: same header, replies an order-preserving subsequence without the deleted id, with every other reply, and as long as the number of replies whose id differs |
| `CommentTreeProps.AddReplyUnknownParent` | app/page.tsx:47-51 | replying to a parent id that no top-level comment carries signals no error and returns a list equal to the input |
| `Seqs.Filter` | app/page.tsx:55 | `filter` keeps the elements satisfying the predicate, each one it meets, in their original order, and as many as satisfy it |
| `Seqs.FilterUnique` | app/page.tsx:55 | the three clauses of `Filter`'s contract determine its result: any subsequence that keeps only satisfying elements and as many as there are is the filter's result |
| `CommentTreeProps.DeleteCommentIdempotent` | app/page.tsx:54-56 | deleting a comment id twice equals deleting it once |
| `CommentTreeProps.DeleteCommentAbsent` | app/page.tsx:55 | deleting an id no top-level comment carries returns the list unchanged |
| `CommentTreeProps.PruneRepliesIdempotent` | app/page.tsx:64 | filtering a parent's replies by the same id twice equals doing it once |
| `CommentTreeProps.DeleteReplyIdempotent` | app/page.tsx:58-69 | deleting a reply twice equals deleting it once |
| `CommentTreeProps.DeleteReplyAbsent` | app/page.tsx:58-69 | when the parent id or the reply id matches nothing, deleting the reply returns the list unchanged |
| `CommentTreeProps.DeleteReplyRemoves` | app/page.tsx:58-69 | afterwards no parent with that id holds a reply with that id |
| `CommentTreeProps.Apply` | app/page.tsx:37-67 | one `setComments` call: adding a comment lengthens the list by one, a reply or a reply deletion keeps its length, a comment deletion never lengthens it; `ApplyKeepsShallow` and `ApplyKeepsDistinct` state what each call preserves |
| `CommentTreeProps.Run` | app/page.tsx:28-67 | the list reached from `useState([])` by a sequence of calls has at most one comment per call; `ReachableShallow` and `ReachableDistinct` state its invariants |
| `CommentTreeProps.ApplyKeepsShallow` | app/page.tsx:31-69 | each of the four operations preserves "no reply holds replies" |
| `CommentTreeProps.ReachableShallow` | app/page.tsx:28-69 | from the initial empty list, every sequence of operations reaches a snapshot in which no reply holds replies |
| `CommentTreeProps.AddCommentsInOrder` | app/page.tsx:28-38 | a run of add-comment calls from the empty list yields one comment per call, in call order, each with its call's draft and id and no replies |
| `CommentTreeProps.AddReplyDeleteScenario` | app/page.tsx:31-56 | add a comment, reply to it, delete it: one comment with no replies, then one comment with one reply, then the empty list |
| `CommentTreeProps.AddCommentIds` | app/page.tsx:31-37 | adding a comment appends exactly its id to the list of all ids |
| `CommentTreeProps.AddReplyIds` | app/page.tsx:40-51 | adding a reply adds its id once per parent that matched, and changes no other id |
| `CommentTreeProps.AddCommentKeepsDistinct` | app/page.tsx:31-37 | adding a comment whose id is fresh keeps all ids of the snapshot pairwise distinct |
| `CommentTreeProps.AddReplyKeepsDistinct` | app/page.tsx:40-51 | adding a reply whose id is fresh keeps all ids distinct: with unique ids the parent matches at most once, so the reply is added at most once |
| `CommentTreeProps.DeleteCommentKeepsDistinct` | app/page.tsx:54-56 | deleting a comment keeps ids distinct (its own id and its replies' ids leave with it) |
| `CommentTreeProps.DeleteReplyKeepsDistinct` | app/page.tsx:58-69 | deleting a reply keeps ids distinct |
| `CommentTreeProps.ApplyKeepsDistinct` | app/page.tsx:31-69 | an operation whose new id is fresh keeps all ids (comments and replies) pairwise distinct; deletions only drop ids |
| `CommentTreeProps.ReachableDistinct` | app/page.tsx:28-69 | from the empty list, every run that passes fresh ids reaches a snapshot without duplicate ids |
| `CommentForm.TimeInput` | components/comment-form.tsx:206 | the stored time value is the parsed integer unless it is 0 or NaN, which give 1; so it is never 0, but negatives are kept |
| `CommentForm.CountInput` | components/comment-form.tsx:233 | the stored count is the parsed integer, or 0 for NaN; negatives are kept |
| `CommentForm.Step` | components/comment-form.tsx:118-256 | an edit submits nothing and changes only its own field (name, text, avatar, image, time through `TimeInput`, unit, each count through `CountInput`); the submit button submits exactly when the form passes validation; `DriveKeepsTimeNonZero` states the invariant over sequences of steps |
| `CommentForm.Drive` | components/comment-form.tsx:28-260 | a sequence of events submits at most one draft per event and none without a press of the submit button |
| `CommentForm.Submit` | components/comment-form.tsx:60-86 | an empty name or text submits nothing and leaves the state alone (both directions); otherwise the draft carries name, text, time and counts as held, the default avatar for an empty avatar, no image for an empty image, and the state resets to the initial values |
| `CommentForm.SubmitButton` | components/comment-form.tsx:112-260 | the submit button produces a draft exactly when name and text are non-empty (`required`), the time is at least 1 (`min="1"`) and every count is non-negative (`min="0"`); otherwise the state is unchanged; a submitted draft is well formed, keeps name, text and unit, and the form resets |
| `CommentForm.SubmitStateOf` | components/comment-form.tsx:64-74 | round trip: filling the form from a draft and submitting yields that draft exactly when the draft is well formed (name, text and avatar present, image absent or non-empty) |
| `CommentForm.SubmitButtonStateOf` | components/comment-form.tsx:112-260 | round trip through the button: filling the form from a draft and pressing submit yields that draft exactly when it is well formed, its time is at least 1 and its counts are non-negative |
| `CommentForm.SubmitAfterSubmitRejected` | components/comment-form.tsx:77-85 | the reset state is the initial state, which refuses a second submission |
| `CommentForm.DriveKeepsTimeNonZero` | components/comment-form.tsx:28-256 | from the initial state, no sequence of field edits, unit selections and submissions reaches a time value of 0, and every submitted draft is well formed, with a time value of at least 1 and non-negative counts, although a negative time value can be stored |
| `CommentForm.TimeUnitLabel` | components/comment-form.tsx:88-101 | without a language the label is the table entry for a unit in the table and the unit itself otherwise; with a language, the label is the language's translation of the unit, and there is none exactly when the language does not translate it |
| `CommentForm.DefaultLabelsForUnits` | components/comment-form.tsx:89-98 | without a language, the six units get six distinct labels, none equal to its key, and any other string is its own label |
| `CommentPreview.Item` | components/comment-preview.tsx:95-160 | the reaction total is likes + loves + reactions; the like label and the summary row appear iff it is positive; each badge appears iff the row does and its own count is positive; the row is shown iff at least one badge is; with non-negative counts each badge is shown iff its own count is positive; the reply button appears iff the item is not a reply and has a reply callback |
| `CommentPreview.ReplyItem` | components/comment-preview.tsx:52-59 | a reply's item shows the reply's name and text, its delete button passes the parent's and the reply's ids, and it has no reply button |
| `CommentPreview.BlockOf` | components/comment-preview.tsx:40-80 | a comment's block shows its item with a reply button and a delete button for its id, one reply item per reply, in order, each wired to delete that reply, and its reply form open iff the comment is the one being replied to |
| `CommentPreview.Preview` | components/comment-preview.tsx:28-83 | the placeholder exactly for an empty list, otherwise one block per comment; `PreviewRouting` states the wiring of every block |
| `CommentPreview.Dispatch` | components/comment-preview.tsx:44-56 | the reply button opens the form for its comment and leaves the list alone; the delete buttons leave the open form alone; a comment deletion keeps exactly the comments with other ids; a reply deletion keeps the top-level length and every comment's header |
| `CommentPreview.SubmitReplyForm` | components/comment-preview.tsx:69-72 | submitting the reply form appends the reply to each comment with the parent id, leaves every other comment unchanged, keeps the top-level length and closes the form |
| `CommentPreview.CancelReplyForm` | components/comment-preview.tsx:76 | the cancel button closes the reply form and leaves the list unchanged |
| `CommentPreview.PreviewRouting` | components/comment-preview.tsx:28-80 | an empty list shows the placeholder; otherwise block i shows comment i with a reply button and a delete button for its id, its reply form open iff it is the one being replied to, and one item per reply, in order, whose delete button passes parent and reply ids and which has no reply button |
| `CommentPreview.DeleteCommentButton` | components/comment-preview.tsx:44 | a top-level delete button removes that comment and keeps all comments with other ids, in order |
| `CommentPreview.DeleteReplyButton` | components/comment-preview.tsx:56 | a reply's delete button removes that reply from its parent and keeps the top-level length and every comment's header |
| `CommentPreview.ReplyButtonThenCancel` | components/comment-preview.tsx:45-76 | the reply button followed by the cancel button leaves the list unchanged and no block with an open reply form |
| `CommentPreview.ReplyButtonThenSubmit` | components/comment-preview.tsx:45-72 | the reply button opens the form on that comment without changing the list; submitting appends the reply to that comment, leaves comments with other ids alone, and closes the form |
| `CommentPreview.PreviewIgnoresDeepReplies` | components/comment-preview.tsx:50-61 | only one level of replies is shown: the preview does not change when replies of replies are dropped |
| `CommentPreview.TrimDeepKeepsShallow` | components/comment-preview.tsx:50-61 | on snapshots with no reply holding replies (every reachable one), dropping replies of replies changes nothing, so the preview shows the whole tree |
| `LanguageSelector.FindByCode` | components/language-selector.tsx:20 | the result is absent iff no language has the code; otherwise it is the language at the first position whose code matches |
| `LanguageSelector.Matches` | components/language-selector.tsx:25-31 | the search predicate: code, name or native name, lower-cased, includes the lower-cased search; `FilterLanguages`, `EmptySearchShortcut` and `SearchIgnoresCase` state what it selects |
| `LanguageSelector.FilterLanguages` | components/language-selector.tsx:22-32 | an empty search lists every language unchanged; otherwise the list is an order-preserving subsequence, every listed language matches (code, name or native name, lower-cased, includes the lower-cased search), every matching language is listed, and the count equals the number of matches |
| `LanguageSelector.EmptySearchShortcut` | components/language-selector.tsx:23-31 | the early return for an empty search agrees with the general filter, since every string includes the empty string |
| `LanguageSelector.SearchIgnoresCase` | components/language-selector.tsx:25-31 | two searches that lower-case to the same string list the same languages |
| `LanguageSelector.Choose` | components/language-selector.tsx:71-75 | choosing an entry passes that very entry on, closes the popover and clears the search |
| `LanguageSelector.ChooseRoundTrip` | components/language-selector.tsx:71-75 | choosing a listed entry closes the picker and clears the search, which lists every language again; with unique codes, looking the chosen code up again finds the chosen language |

## Left out

- PNG export (`app/page.tsx:71-87`): a DOM lookup and an asynchronous call into an image library.
- File uploads (`components/comment-form.tsx:38-58`): asynchronous browser file reading. Avatar and image values are opaque strings, and `SetAvatar`/`SetImage` events carry the finished result.
- Id generation from the clock (`app/page.tsx:34`, `app/page.tsx:43`) and the clock-based React key of the reply form. Ids are parameters, and freshness is a precondition of the uniqueness lemmas.
- The contents of the language table and its translations (`@/lib/languages`). `lib/languages` is not part of this model. Languages are always a parameter.
- `Number.parseInt` itself. Its result enters the model as `Option<int>`, with `None` for NaN.
- Floating point. The program holds times and counts as JavaScript doubles; the model holds them as exact integers. `Option<int>` leaves out `Infinity` (a digit string of more than about 309 digits parses to it, and `|| 1` / `|| 0` keep it), the rounding of values above 2^53 by `parseInt`, and the rounding of the reaction total `likes + loves + reactions` above 2^53, including `Infinity + -Infinity` giving NaN, which hides the like label and the summary row.
- All markup, styling, React state plumbing and the UI component library. Only the facts the markup is derived from are modelled.
- `LanguageSelector.Lower`: maps only the ASCII letters. The Unicode case mappings of `toLowerCase` are not modelled.
- `CommentForm.TimeUnitLabel`: reads the built-in label table as a plain map. In the program, a property inherited from the object prototype (for example `"toString"`) would be found too. The select box only asks for the six unit keys.
- `CommentPreview.Item`: keeps the timestamp as the time value and the translated label. It does not build the formatted text. It also leaves out the first-letter avatar fallback.

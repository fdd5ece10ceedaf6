# Forum state logic, modelled in Dafny

This project models the state logic of a small React Native forum app. The app has two
tabs: a question-and-answer forum, and a feed of "thoughts" from experts. The app keeps
all of its data in memory. Three parts of it change data, and the model covers those:

- **The shared forum store** (`src/context/ForumContext.js`). It is a reducer over a state
  with two collections, `questions` and `thoughts`. It handles the tagged actions
  `SET_DATA` (shallow merge), `LIKE_POST` (one more like on every post with the given id)
  and `ADD_COMMENT` (append a comment to every post with the given id). Any other action
  returns the state as it was. It is modelled as the pure function `ForumContext.Step`
  over a `State` datatype and an `Action` datatype.
- **The forum screen** (`src/screens/ForumScreen.js`). It keeps its own question list.
  - The filter keeps the questions whose category matches (or the category is "All") and
    whose lower-cased text contains the lower-cased search text.
  - Adding a question prepends it. Adding an answer appends it to the chosen question.
  - Two handlers raise the like or dislike count of one answer.
  - The filter and the list updaters are pure functions. The screen's state cells are the
    fields of the class `ForumScreen.Screen`, and its handlers are methods of that class
    (validate, update the list, clear the text box, close the modal).
- **The forum list component** (`src/components/ForumList.js`). It holds sample data and a
  like handler that moves an item's count by a signed amount, clamped at zero. It is
  modelled as the pure function `ForumList.HandleLikeChange`.

Supporting modules:

- `Seqs` models JavaScript's `Array.prototype.map` and `filter`, and defines what an
  order-preserving subsequence is.
- `Text` models `toLowerCase`, `trim` and `includes` on strings.
- `Shared` holds an `Option` type and the two collection names.

The `Date.now()` reading that becomes a new id is a parameter (`now`) of the handler
methods.

On three points the model follows the code as written:

- An unknown category is not a silent no-op in the reducer. `state[category].map` fails
  when `category` names no collection. So `LIKE_POST` and `ADD_COMMENT` require a
  collection name (`Dispatchable`).
- Like counts are clamped at zero only in `ForumList.js`. The reducer and the forum screen
  only ever add 1. That they keep counts non-negative is proved as an invariant
  (`StepKeepsLikesNonNegative`, `Screen.Valid`).
- Ids are not unique. Two creations in the same millisecond get the same id. So the model
  states every update for *every* item whose id matches, and claims no uniqueness.

## Model

| member | source | states |
|---|---|---|
| Seqs.Map | src/context/ForumContext.js:16-18 | `.map` keeps the length and puts the image of each element at that element's index |
| Seqs.Filter | src/screens/ForumScreen.js:63-67 | `.filter` returns only elements of the input that pass the test; it keeps every element that passes with all its occurrences (the result's multiset is contained in the input's and agrees with it on every passing element); it is never longer than the input |
| Seqs.FilterSameTest | src/screens/ForumScreen.js:63-67 | two tests that agree on every element of the input filter it to the same result |
| Seqs.FilterIsSubsequence | src/screens/ForumScreen.js:63-67 | what a filter returns is an order-preserving subsequence of its input |
| Seqs.FilterKeepsAll | src/screens/ForumScreen.js:63-67 | a filter that every element passes returns its input unchanged |
| Text.LowerChar | src/screens/ForumScreen.js:65 | the result is never an upper-case letter; an upper-case letter maps to the lower-case letter at the same alphabet position; every other character is kept |
| Text.ToLower | src/screens/ForumScreen.js:65 | lower-casing keeps the length and maps each character to its lower-case counterpart at the same index, so no upper-case letter is left and every other character is kept |
| Text.ToLowerIdempotent | src/screens/ForumScreen.js:65 | lower-casing twice is the same as lower-casing once |
| Text.TrimStart | src/screens/ForumScreen.js:70 | the result is a suffix of the input; everything dropped is whitespace; the result does not start with whitespace |
| Text.TrimEnd | src/screens/ForumScreen.js:70 | the result is a prefix of the input; everything dropped is whitespace; the result does not end with whitespace |
| Text.Trim | src/screens/ForumScreen.js:70 | `trim()` removes only leading and trailing whitespace: the result occurs in the input right after the leading whitespace, everything before and after it is whitespace, and it neither starts nor ends with whitespace; it is empty exactly when the input is all whitespace, so `!text.trim()` means "blank" |
| Text.Contains | src/screens/ForumScreen.js:65 | `includes` holds when the needle occurs as a contiguous piece of the text at some index, which needs the needle to be no longer than the text |
| Text.ContainsEmpty | src/screens/ForumScreen.js:65 | every string includes the empty string, so an empty search matches every question |
| ForumContext.InitialState | src/context/ForumContext.js:3-6 | the store starts with both collections empty |
| ForumContext.Put | src/context/ForumContext.js:14-16 | `{ ...state, [category]: posts }` replaces the named collection and keeps the other one |
| ForumContext.Step | src/context/ForumContext.js:8-34 | no action except `SET_DATA` adds, removes or reorders posts in any collection (the ids of every collection are kept); an unrecognised action returns the state unchanged |
| ForumContext.SetDataMerges | src/context/ForumContext.js:10-11 | after `SET_DATA`, each collection in the payload replaces the state's own, and a collection absent from the payload keeps its old value |
| ForumContext.LikePostEffect | src/context/ForumContext.js:13-19 | `LIKE_POST`: each post with the id gains exactly one like and keeps its id, comments and other fields; every other post is unchanged; the collection keeps its length and order; the other collection is untouched |
| ForumContext.LikePostMissingId | src/context/ForumContext.js:16-17 | `LIKE_POST` for an id that no post in the collection has returns a state equal to the old one |
| ForumContext.AddCommentEffect | src/context/ForumContext.js:21-29 | `ADD_COMMENT`: each post with the id has one more comment, the new comment comes last, the old comments stay as a prefix, and its other fields are kept; every other post is unchanged; the collection keeps its length and order; the other collection is untouched |
| ForumContext.AddCommentMissingId | src/context/ForumContext.js:24-27 | `ADD_COMMENT` for an id that no post in the collection has returns a state equal to the old one |
| ForumContext.AddCommentTwice | src/context/ForumContext.js:21-28 | two `ADD_COMMENT`s on one post leave its old comments followed by the two new ones, in dispatch order |
| ForumContext.StepKeepsLikesNonNegative | src/context/ForumContext.js:8-34 | if no like count is negative before an action, none is after it (for `SET_DATA`, provided the payload has none negative) |
| ForumScreen.FilterQuestions | src/screens/ForumScreen.js:63-67 | the questions shown form an order-preserving subsequence of the list; a question is shown exactly when its category matches (or "All" is selected) and its lower-cased text contains the lower-cased search text; a shown question keeps all its occurrences |
| ForumScreen.ShowAllWhenUnfiltered | src/screens/ForumScreen.js:64-65 | with category "All" and an empty search, every question is shown |
| ForumScreen.SearchIgnoresQueryCase | src/screens/ForumScreen.js:65 | for every list, category and search text, lower-casing the search text first shows the same questions |
| ForumScreen.SearchCaseExample | src/screens/ForumScreen.js:65 | searching "foo" in category "Ayurveda" finds the "Ayurveda" question whose text is "Foo" |
| ForumScreen.WithNewQuestion | src/screens/ForumScreen.js:74-84 | the new list is the new question followed by the old list (length + 1); the new question has the given id, category and text, zero likes and dislikes, and no answers |
| ForumScreen.WithNewAnswer | src/screens/ForumScreen.js:94-107 | every question with the chosen id gets exactly one new answer (given id and text, zero counts) after its old answers, and nothing else of it changes; other questions are unchanged; count and order are kept |
| ForumScreen.VoteOnAnswer | src/screens/ForumScreen.js:112-142 | only answers with the answer id, inside questions with the question id, change: their like (or dislike) count goes up by 1 and their other count, id and text are kept; all other answers and questions are unchanged; no list changes length |
| ForumScreen.NewQuestionKeepsCountsNonNegative | src/screens/ForumScreen.js:74-84 | adding a question makes no like or dislike count negative |
| ForumScreen.NewAnswerKeepsCountsNonNegative | src/screens/ForumScreen.js:94-107 | adding an answer makes no like or dislike count negative |
| ForumScreen.VoteKeepsCountsNonNegative | src/screens/ForumScreen.js:112-142 | a vote on an answer makes no count negative |
| ForumScreen.Screen.Shown | src/screens/ForumScreen.js:63-67 | every question on screen is in the screen's list and matches the selected category and the search text |
| ForumScreen.Screen.constructor | src/screens/ForumScreen.js:23-54 | the screen starts on category "All" with an empty search, the two seed questions, both modals closed, empty text boxes, "All" as the new question's category, and no chosen question |
| ForumScreen.Screen.AddQuestion | src/screens/ForumScreen.js:69-87 | rejected exactly when the text is blank, and then nothing changes; otherwise the question list gets the new question (trimmed text, current category, id `now`) in front, the text box is cleared and the modal closes; counts stay non-negative |
| ForumScreen.Screen.OpenAnswerModal | src/screens/ForumScreen.js:213-216 | the pressed question becomes the chosen one and the answer modal opens |
| ForumScreen.Screen.AddAnswer | src/screens/ForumScreen.js:89-110 | rejected exactly when the text is blank, and then nothing changes; otherwise the trimmed answer is appended to the chosen question (to none if no question was chosen), the text box is cleared and the modal closes; counts stay non-negative |
| ForumScreen.Screen.IncrementAnswerLike | src/screens/ForumScreen.js:112-126 | the list becomes `VoteOnAnswer(old list, questionId, answerId, Like)`; no other cell changes; counts stay non-negative |
| ForumScreen.Screen.IncrementAnswerDislike | src/screens/ForumScreen.js:128-142 | the list becomes `VoteOnAnswer(old list, questionId, answerId, Dislike)`; no other cell changes; counts stay non-negative |
| ForumList.ClampAtZero | src/components/ForumList.js:22 | `Math.max(0, n)` is non-negative, at least `n`, and equal to `n` or 0 |
| ForumList.HandleLikeChange | src/components/ForumList.js:18-25 | each item with the id in the named collection gets `max(0, likes + delta)` likes and keeps all its other fields; other items are unchanged; the collection keeps its length and order; the other collection is untouched |
| ForumList.UnlikeAtZeroStaysZero | src/components/ForumList.js:22 | a thumbs-down on an item with 0 likes leaves it at 0 |
| ForumList.LikeAddsOne | src/components/ForumList.js:22 | a thumbs-up on an item with a non-negative count raises it by exactly 1 |
| ForumList.LikeThenUnlikeRestores | src/components/ForumList.js:22 | a thumbs-up followed by a thumbs-down on the same id restores the data, when no count is negative |
| ForumList.HandleLikeChangeKeepsNonNegative | src/components/ForumList.js:18-25 | one like change of any amount keeps every count non-negative |
| ForumList.InitialDataNonNegative | src/components/ForumList.js:5-13 | the sample data has no negative count |
| ForumList.ChangesKeepNonNegative | src/components/ForumList.js:18-25 | any sequence of like changes keeps every count non-negative |
| ForumList.LikesNeverNegative | src/components/ForumList.js:5-25 | starting from the sample data, no sequence of like changes makes a count negative |

## Left out

- Rendering, layout, styles, modals as views, `KeyboardAvoidingView` and `Alert.alert`
  are not modelled. A rejected question or answer is the `rejected` result of the handler.
- The loading timer (`setTimeout` / `clearTimeout`) and the screen's `loading` cell are
  not modelled. They only delay the first render.
- `Date.now()` is the `now` parameter. `addAnswer` reads the clock once for each matching
  question. The model uses one reading for the whole update.
- `src/components/ThoughtsList.js`, `src/screens/ThoughtsScreen.js` and `App.js` are not
  part of this model. They hold no state logic: a console log, navigation wiring, and one
  `SET_DATA` dispatch of a data file.
- Text setters bound directly to inputs and tags (`setSearchQuery`, `setSelectedCategory`,
  `setNewQuestionText`, `setNewAnswerText`, `setNewQuestionCategory`, and the Cancel
  buttons) are plain assignments to the fields of `Screen`. They have no methods.
- `Text.ToLower` lower-cases the ASCII letters only. `Text.Trim` treats the ASCII
  whitespace, the no-break space, the byte-order mark and U+2028/U+2029 as whitespace.
  The other Unicode case mappings and space separators of JavaScript are not modelled.
- `SET_DATA` payload keys other than `questions` and `thoughts` are not modelled. The
  source would copy them into the state.
- A post is `{id, likes, comments}` plus its other properties as a name-to-text map. A
  post without a `comments` array, such as a thought, is not modelled. In the source,
  `ADD_COMMENT` on such a post fails.
- Numbers are unbounded integers. JavaScript's floating-point counts and ids, and the
  `(a.likes || 0)` fallback for a missing answer count, are not modelled. Every modelled
  answer has both counts.

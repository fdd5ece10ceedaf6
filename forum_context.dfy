/**
 * The shared forum store: its initial state and its reducer, a pure
 * transition function over tagged actions (`SET_DATA`, `LIKE_POST`,
 * `ADD_COMMENT`, anything else).
 */
module ForumContext {
  import Seqs
  import opened Shared

  type Comment = string

  /**
   * A post of either collection. `fields` stands for the post's remaining
   * properties (author, text, category, ...), which the reducer copies as they are.
   */
  datatype Post = Post(id: int, likes: int, comments: seq<Comment>, fields: map<string, string>)

  datatype State = State(questions: seq<Post>, thoughts: seq<Post>)

  datatype Action =
    | SetData(payload: map<string, seq<Post>>)
    | LikePost(category: string, id: int)
    | AddComment(category: string, id: int, comment: Comment)
    | Unrecognized(tag: string)

  /** `state[k]` for a collection name `k`. */
  function Get(s: State, k: string): seq<Post>
    requires IsCollectionKey(k)
  {
    if k == "questions" then s.questions else s.thoughts
  }

  /** `{ ...s, [k]: posts }`: collection `k` replaced, the other one kept. */
  function Put(s: State, k: string, posts: seq<Post>): (r: State)
    requires IsCollectionKey(k)
    ensures Get(r, k) == posts
    ensures forall c :: IsCollectionKey(c) && c != k ==> Get(r, c) == Get(s, c)
  {
    if k == "questions" then s.(questions := posts) else s.(thoughts := posts)
  }

  /**
   * What the reducer can be given without failing: `LIKE_POST` and
   * `ADD_COMMENT` index the state by their category, which must name a
   * collection; `SET_DATA` carries only collections; a tag outside the three
   * handled ones is the default case.
   */
  predicate Dispatchable(a: Action)
  {
    match a
    case SetData(payload) => forall k | k in payload :: IsCollectionKey(k)
    case LikePost(category, _) => IsCollectionKey(category)
    case AddComment(category, _, _) => IsCollectionKey(category)
    case Unrecognized(tag) => tag != "SET_DATA" && tag != "LIKE_POST" && tag != "ADD_COMMENT"
  }

  /** The store starts with both collections empty. */
  function InitialState(): (s: State)
    ensures forall k :: IsCollectionKey(k) ==> Get(s, k) == []
  {
    State([], [])
  }

  /** The post with its like count raised by one when its id is `id`. */
  function LikeIfMatch(id: int, p: Post): Post
  {
    if p.id == id then p.(likes := p.likes + 1) else p
  }

  /** The post with `comment` appended to its comments when its id is `id`. */
  function CommentIfMatch(id: int, comment: Comment, p: Post): Post
  {
    if p.id == id then p.(comments := p.comments + [comment]) else p
  }

  /** The ids of a collection, in order. */
  function Ids(posts: seq<Post>): seq<int>
  {
    Seqs.Map((p: Post) => p.id, posts)
  }

  /**
   * The reducer. Apart from `SET_DATA`, no action adds, removes or reorders
   * posts in any collection; an unrecognised action changes nothing.
   */
  function Step(s: State, a: Action): (r: State)
    requires Dispatchable(a)
    ensures !a.SetData? ==> forall k :: IsCollectionKey(k) ==> Ids(Get(r, k)) == Ids(Get(s, k))
    ensures a.Unrecognized? ==> r == s
  {
    match a
    case SetData(payload) =>
      State(if "questions" in payload then payload["questions"] else s.questions,
            if "thoughts" in payload then payload["thoughts"] else s.thoughts)
    case LikePost(category, id) =>
      var posts := Get(s, category);
      var r := Put(s, category, Seqs.Map((p: Post) => LikeIfMatch(id, p), posts));
      IdsKept(posts, Get(r, category));
      r
    case AddComment(category, id, comment) =>
      var posts := Get(s, category);
      var r := Put(s, category, Seqs.Map((p: Post) => CommentIfMatch(id, comment, p), posts));
      IdsKept(posts, Get(r, category));
      r
    case Unrecognized(_) => s
  }

  /** Two collections of the same length whose posts agree on ids have the same ids. */
  lemma IdsKept(old_posts: seq<Post>, new_posts: seq<Post>)
    requires |new_posts| == |old_posts|
    requires forall i :: 0 <= i < |old_posts| ==> new_posts[i].id == old_posts[i].id
    ensures Ids(new_posts) == Ids(old_posts)
  {
  }

  /** Runs a sequence of actions through the reducer, as successive dispatches do. */
  function Run(s: State, actions: seq<Action>): State
    requires forall i :: 0 <= i < |actions| ==> Dispatchable(actions[i])
    decreases |actions|
  {
    if actions == [] then s else Run(Step(s, actions[0]), actions[1..])
  }

  /** `SET_DATA`: a collection in the payload replaces the state's; one absent from it is kept. */
  lemma SetDataMerges(s: State, payload: map<string, seq<Post>>)
    requires Dispatchable(SetData(payload))
    ensures forall k :: IsCollectionKey(k) ==>
      Get(Step(s, SetData(payload)), k) == if k in payload then payload[k] else Get(s, k)
  {
  }

  /**
   * `LIKE_POST`: in the chosen collection every post whose id matches gains
   * exactly one like and keeps every other field; every other post, and the
   * other collection, are unchanged; length and order are kept.
   */
  lemma LikePostEffect(s: State, category: string, id: int)
    requires IsCollectionKey(category)
    ensures var before, after := Get(s, category), Get(Step(s, LikePost(category, id)), category);
      |after| == |before| &&
      forall i :: 0 <= i < |before| ==>
        if before[i].id == id then
          after[i].likes == before[i].likes + 1 && after[i].id == id &&
          after[i].comments == before[i].comments && after[i].fields == before[i].fields
        else after[i] == before[i]
    ensures forall k :: IsCollectionKey(k) && k != category ==>
      Get(Step(s, LikePost(category, id)), k) == Get(s, k)
  {
  }

  /** `LIKE_POST` for an id no post of the collection carries changes nothing. */
  lemma {:induction false} LikePostMissingId(s: State, category: string, id: int)
    requires IsCollectionKey(category)
    requires forall i :: 0 <= i < |Get(s, category)| ==> Get(s, category)[i].id != id
    ensures Step(s, LikePost(category, id)) == s
  {
    var before := Get(s, category);
    var after := Get(Step(s, LikePost(category, id)), category);
    assert after == before;
  }

  /**
   * `ADD_COMMENT`: every matching post of the chosen collection gets `comment`
   * appended after its old comments, which stay as a prefix; every other post,
   * and the other collection, are unchanged; length and order are kept.
   */
  lemma AddCommentEffect(s: State, category: string, id: int, comment: Comment)
    requires IsCollectionKey(category)
    ensures var before, after := Get(s, category), Get(Step(s, AddComment(category, id, comment)), category);
      |after| == |before| &&
      forall i :: 0 <= i < |before| ==>
        if before[i].id == id then
          |after[i].comments| == |before[i].comments| + 1 &&
          after[i].comments[..|before[i].comments|] == before[i].comments &&
          after[i].comments[|before[i].comments|] == comment &&
          after[i].id == id && after[i].likes == before[i].likes && after[i].fields == before[i].fields
        else after[i] == before[i]
    ensures forall k :: IsCollectionKey(k) && k != category ==>
      Get(Step(s, AddComment(category, id, comment)), k) == Get(s, k)
  {
  }

  /** `ADD_COMMENT` for an id no post of the collection carries changes nothing. */
  lemma {:induction false} AddCommentMissingId(s: State, category: string, id: int, comment: Comment)
    requires IsCollectionKey(category)
    requires forall i :: 0 <= i < |Get(s, category)| ==> Get(s, category)[i].id != id
    ensures Step(s, AddComment(category, id, comment)) == s
  {
    var before := Get(s, category);
    var after := Get(Step(s, AddComment(category, id, comment)), category);
    assert after == before;
  }

  /**
   * Two `ADD_COMMENT`s on the same post: its comments grow by two, the old
   * ones first, then the two new ones in dispatch order.
   */
  lemma AddCommentTwice(s: State, category: string, id: int, c1: Comment, c2: Comment, i: nat)
    requires IsCollectionKey(category)
    requires i < |Get(s, category)| && Get(s, category)[i].id == id
    ensures var after := Get(Run(s, [AddComment(category, id, c1), AddComment(category, id, c2)]), category);
      i < |after| && after[i].comments == Get(s, category)[i].comments + [c1, c2]
  {
    var mid := Step(s, AddComment(category, id, c1));
    AddCommentEffect(s, category, id, c1);
    AddCommentEffect(mid, category, id, c2);
    var a1, a2 := AddComment(category, id, c1), AddComment(category, id, c2);
    assert [a1, a2][1..] == [a2];
    assert Run(s, [a1, a2]) == Run(mid, [a2]) == Step(mid, a2);
  }

  /** No post of any collection has a negative like count. */
  ghost predicate LikesNonNegative(s: State)
  {
    forall k, i :: IsCollectionKey(k) && 0 <= i < |Get(s, k)| ==> Get(s, k)[i].likes >= 0
  }

  /**
   * The reducer only ever adds likes: every action keeps like counts
   * non-negative, provided a `SET_DATA` payload brings none negative.
   */
  lemma StepKeepsLikesNonNegative(s: State, a: Action)
    requires LikesNonNegative(s) && Dispatchable(a)
    requires a.SetData? ==> forall k, i | k in a.payload && 0 <= i < |a.payload[k]| :: a.payload[k][i].likes >= 0
    ensures LikesNonNegative(Step(s, a))
  {
    if a.LikePost? {
      LikePostEffect(s, a.category, a.id);
    } else if a.AddComment? {
      AddCommentEffect(s, a.category, a.id, a.comment);
    }
  }
}

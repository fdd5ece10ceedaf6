/**
 * The forum list component: its sample data and its like handler, which
 * moves an item's like count by a signed amount but never below zero.
 */
module ForumList {
  import Seqs
  import opened Shared

  /** An entry of the list: a community question or an expert thought. */
  datatype Item =
    | QuestionItem(id: int, user: string, question: string, likes: int, comments: seq<string>)
    | ThoughtItem(id: int, doctor: string, thought: string, likes: int)

  datatype ForumData = ForumData(questions: seq<Item>, thoughts: seq<Item>)

  /** The sample data the list starts with. */
  const InitialData: ForumData := ForumData(
    [ QuestionItem(1, "User1", "What are the benefits of Ayurveda?", 10, []),
      QuestionItem(2, "User2", "Can Ayurveda help with migraines?", 5, []) ],
    [ ThoughtItem(1, "Dr. Sharma", "Ayurveda is a holistic approach to health.", 15) ])

  /** `forumData[type]` for a collection name `type`. */
  function Get(data: ForumData, kind: string): seq<Item>
    requires IsCollectionKey(kind)
  {
    if kind == "questions" then data.questions else data.thoughts
  }

  /** `Math.max(0, n)`: the least count that is neither negative nor below `n`. */
  function ClampAtZero(n: int): (r: int)
    ensures r >= 0 && r >= n
    ensures r == n || r == 0
  {
    if n < 0 then 0 else n
  }

  function AdjustIfMatch(id: int, delta: int, item: Item): Item
  {
    if item.id == id then item.(likes := ClampAtZero(item.likes + delta)) else item
  }

  /**
   * `handleLikeChange(type, id, delta)`: in collection `kind`, every item
   * whose id is `id` gets `max(0, likes + delta)` likes and keeps everything
   * else; every other item, the other collection, and the length and order
   * of both are unchanged.
   */
  function HandleLikeChange(data: ForumData, kind: string, id: int, delta: int): (r: ForumData)
    requires IsCollectionKey(kind)
    ensures |Get(r, kind)| == |Get(data, kind)|
    ensures forall i :: 0 <= i < |Get(data, kind)| ==>
      var before, after := Get(data, kind)[i], Get(r, kind)[i];
      if before.id == id then
        after.likes == ClampAtZero(before.likes + delta) && after == before.(likes := after.likes)
      else after == before
    ensures forall k :: IsCollectionKey(k) && k != kind ==> Get(r, k) == Get(data, k)
  {
    var items := Seqs.Map((item: Item) => AdjustIfMatch(id, delta, item), Get(data, kind));
    if kind == "questions" then data.(questions := items) else data.(thoughts := items)
  }

  /** A thumbs-down on an item with no likes leaves it at zero. */
  lemma {:induction false} UnlikeAtZeroStaysZero(data: ForumData, kind: string, i: nat)
    requires IsCollectionKey(kind)
    requires i < |Get(data, kind)| && Get(data, kind)[i].likes == 0
    ensures Get(HandleLikeChange(data, kind, Get(data, kind)[i].id, -1), kind)[i].likes == 0
  {
  }

  /** A thumbs-up on an item with a non-negative count adds exactly one like. */
  lemma {:induction false} LikeAddsOne(data: ForumData, kind: string, i: nat)
    requires IsCollectionKey(kind)
    requires i < |Get(data, kind)| && Get(data, kind)[i].likes >= 0
    ensures Get(HandleLikeChange(data, kind, Get(data, kind)[i].id, 1), kind)[i].likes
         == Get(data, kind)[i].likes + 1
  {
  }

  /** Every item of both collections has a non-negative like count. */
  ghost predicate LikesNonNegative(data: ForumData)
  {
    (forall i :: 0 <= i < |data.questions| ==> data.questions[i].likes >= 0) &&
    (forall i :: 0 <= i < |data.thoughts| ==> data.thoughts[i].likes >= 0)
  }

  /**
   * Thumbs-up followed by thumbs-down on the same item restores the data,
   * as long as no count in that collection was negative.
   */
  lemma {:induction false} LikeThenUnlikeRestores(data: ForumData, kind: string, id: int)
    requires IsCollectionKey(kind) && LikesNonNegative(data)
    ensures HandleLikeChange(HandleLikeChange(data, kind, id, 1), kind, id, -1) == data
  {
    var mid := HandleLikeChange(data, kind, id, 1);
    var r := HandleLikeChange(mid, kind, id, -1);
    assert Get(r, kind) == Get(data, kind);
  }

  /** One like change, whatever its amount, leaves no count negative. */
  lemma {:induction false} HandleLikeChangeKeepsNonNegative(data: ForumData, kind: string, id: int, delta: int)
    requires IsCollectionKey(kind) && LikesNonNegative(data)
    ensures LikesNonNegative(HandleLikeChange(data, kind, id, delta))
  {
    var r := HandleLikeChange(data, kind, id, delta);
    forall i | 0 <= i < |Get(r, kind)| ensures Get(r, kind)[i].likes >= 0 {
    }
  }

  /** A press of a like button: the collection, the item id and the amount. */
  datatype Change = Change(kind: string, id: int, delta: int)

  /** The data after a sequence of presses, each applied to the result of the one before. */
  function ApplyChanges(data: ForumData, changes: seq<Change>): ForumData
    requires forall i :: 0 <= i < |changes| ==> IsCollectionKey(changes[i].kind)
    decreases |changes|
  {
    if changes == [] then data
    else ApplyChanges(HandleLikeChange(data, changes[0].kind, changes[0].id, changes[0].delta), changes[1..])
  }

  /** The sample data has no negative count. */
  lemma InitialDataNonNegative()
    ensures LikesNonNegative(InitialData)
  {
  }

  /** From the sample data, no sequence of presses makes a count negative. */
  lemma {:induction false} LikesNeverNegative(changes: seq<Change>)
    requires forall i :: 0 <= i < |changes| ==> IsCollectionKey(changes[i].kind)
    ensures LikesNonNegative(ApplyChanges(InitialData, changes))
  {
    InitialDataNonNegative();
    ChangesKeepNonNegative(InitialData, changes);
  }

  /** Any sequence of presses keeps counts non-negative. */
  lemma {:induction false} ChangesKeepNonNegative(data: ForumData, changes: seq<Change>)
    requires forall i :: 0 <= i < |changes| ==> IsCollectionKey(changes[i].kind)
    requires LikesNonNegative(data)
    ensures LikesNonNegative(ApplyChanges(data, changes))
    decreases |changes|
  {
    if changes != [] {
      var c := changes[0];
      HandleLikeChangeKeepsNonNegative(data, c.kind, c.id, c.delta);
      ChangesKeepNonNegative(HandleLikeChange(data, c.kind, c.id, c.delta), changes[1..]);
    }
  }
}

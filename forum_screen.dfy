/**
 * The question-and-answer forum screen: which questions are shown for a
 * category and a search text, the updaters it hands to its question list,
 * and the screen's own state cells with the handlers that change them.
 */
module ForumScreen {
  import Seqs
  import opened Shared
  import opened Text

  datatype Answer = Answer(id: int, text: string, likes: int, dislikes: int)

  datatype Question = Question(
    id: int, category: string, text: string, likes: int, dislikes: int, answers: seq<Answer>)

  /** The category tags offered; the first, "All", selects every category. */
  const Categories: seq<string> := ["All", "Health", "Ayurveda", "Nutrition", "Mental Wellness"]

  /** The two questions the screen starts with. */
  const SeedQuestions: seq<Question> := [
    Question(1, "Health", "How to improve immunity?", 2, 0,
             [Answer(1, "Eat healthy and sleep well.", 0, 0)]),
    Question(2, "Ayurveda", "Best herbs for digestion?", 1, 1, [])
  ]

  // ---------------------------------------------------------------- filtering

  predicate CategoryMatch(q: Question, selectedCategory: string)
  {
    selectedCategory == "All" || q.category == selectedCategory
  }

  /** The question's text contains the search text, ignoring case. */
  predicate SearchMatch(q: Question, searchQuery: string)
  {
    Contains(ToLower(q.text), ToLower(searchQuery))
  }

  predicate IsShown(q: Question, selectedCategory: string, searchQuery: string)
  {
    CategoryMatch(q, selectedCategory) && SearchMatch(q, searchQuery)
  }

  /**
   * The questions shown: exactly those of `questions` that match both the
   * category and the search text, in their original order.
   */
  function FilterQuestions(questions: seq<Question>, selectedCategory: string, searchQuery: string)
    : (r: seq<Question>)
    ensures Seqs.IsSubsequence(r, questions)
    ensures forall i :: 0 <= i < |r| ==> r[i] in questions && IsShown(r[i], selectedCategory, searchQuery)
    ensures forall i :: 0 <= i < |questions| && IsShown(questions[i], selectedCategory, searchQuery) ==>
      questions[i] in r
    ensures forall i :: 0 <= i < |questions| && IsShown(questions[i], selectedCategory, searchQuery) ==>
      multiset(r)[questions[i]] == multiset(questions)[questions[i]]
  {
    var shown := (q: Question) => IsShown(q, selectedCategory, searchQuery);
    Seqs.FilterIsSubsequence(shown, questions);
    Seqs.Filter(shown, questions)
  }

  /** Category "All" with an empty search shows every question. */
  lemma {:induction false} ShowAllWhenUnfiltered(questions: seq<Question>)
    ensures FilterQuestions(questions, "All", "") == questions
  {
    assert ToLower("") == "";
    forall i | 0 <= i < |questions| ensures IsShown(questions[i], "All", "") {
      ContainsEmpty(ToLower(questions[i].text));
    }
    Seqs.FilterKeepsAll((q: Question) => IsShown(q, "All", ""), questions);
  }

  /** The case of the search text does not matter: lower-casing it first shows the same questions. */
  lemma {:induction false} SearchIgnoresQueryCase(questions: seq<Question>, selectedCategory: string, searchQuery: string)
    ensures FilterQuestions(questions, selectedCategory, ToLower(searchQuery))
         == FilterQuestions(questions, selectedCategory, searchQuery)
  {
    ToLowerIdempotent(searchQuery);
    Seqs.FilterSameTest(
      (q: Question) => IsShown(q, selectedCategory, ToLower(searchQuery)),
      (q: Question) => IsShown(q, selectedCategory, searchQuery),
      questions);
  }

  /** An example of the case-blind search: "foo" finds a question whose text is "Foo". */
  lemma SearchCaseExample()
    ensures var q := Question(1, "Ayurveda", "Foo", 0, 0, []);
      FilterQuestions([q], "Ayurveda", "foo") == [q]
  {
    var q := Question(1, "Ayurveda", "Foo", 0, 0, []);
    assert ToLower("Foo") == "foo";
    assert ToLower("foo") == "foo";
    assert OccursAt("foo", "foo", 0);
    Seqs.FilterKeepsAll((q: Question) => IsShown(q, "Ayurveda", "foo"), [q]);
  }

  // ---------------------------------------------------------------- updaters

  /**
   * The list after adding a question: the new question (its id, the chosen
   * category, the already trimmed text, no votes, no answers) followed by the
   * old list.
   */
  function WithNewQuestion(questions: seq<Question>, id: int, category: string, text: string)
    : (r: seq<Question>)
    ensures |r| == |questions| + 1 && r[1..] == questions
    ensures r[0].id == id && r[0].category == category && r[0].text == text
    ensures r[0].likes == 0 && r[0].dislikes == 0 && r[0].answers == []
  {
    [Question(id, category, text, 0, 0, [])] + questions
  }

  function AnswerIfMatch(questionId: Option<int>, answer: Answer, q: Question): Question
  {
    if Some(q.id) == questionId then q.(answers := q.answers + [answer]) else q
  }

  /**
   * The list after answering question `questionId`: every question with that
   * id gets one new answer (its id, the already trimmed text, no votes) after its old
   * ones; all other questions, the count and the order stay as they were.
   */
  function WithNewAnswer(questions: seq<Question>, questionId: Option<int>, id: int, text: string)
    : (r: seq<Question>)
    ensures |r| == |questions|
    ensures forall i :: 0 <= i < |questions| ==>
      if Some(questions[i].id) == questionId then
        r[i].answers == questions[i].answers + [Answer(id, text, 0, 0)] &&
        r[i] == questions[i].(answers := r[i].answers)
      else r[i] == questions[i]
  {
    var answer := Answer(id, text, 0, 0);
    Seqs.Map((q: Question) => AnswerIfMatch(questionId, answer, q), questions)
  }

  /** Which counter of an answer a vote raises. */
  datatype Vote = Like | Dislike

  function VoteIfMatch(answerId: int, vote: Vote, a: Answer): Answer
  {
    if a.id != answerId then a
    else if vote == Like then a.(likes := a.likes + 1)
    else a.(dislikes := a.dislikes + 1)
  }

  function VoteInQuestion(questionId: int, answerId: int, vote: Vote, q: Question): Question
  {
    if q.id != questionId then q
    else q.(answers := Seqs.Map((a: Answer) => VoteIfMatch(answerId, vote, a), q.answers))
  }

  /**
   * The list after a vote on answer `answerId` of question `questionId`: that
   * answer's like (or dislike) count goes up by one and nothing else of it
   * changes; every other answer and every other question is unchanged, and
   * no list changes length.
   */
  function VoteOnAnswer(questions: seq<Question>, questionId: int, answerId: int, vote: Vote)
    : (r: seq<Question>)
    ensures |r| == |questions|
    ensures forall i :: 0 <= i < |questions| && questions[i].id != questionId ==> r[i] == questions[i]
    ensures forall i :: 0 <= i < |questions| && questions[i].id == questionId ==>
      |r[i].answers| == |questions[i].answers| &&
      r[i] == questions[i].(answers := r[i].answers)
    ensures forall i, j ::
      0 <= i < |questions| && questions[i].id == questionId && 0 <= j < |questions[i].answers| ==>
      var before, after := questions[i].answers[j], r[i].answers[j];
      if before.id == answerId then
        after.likes == before.likes + (if vote == Like then 1 else 0) &&
        after.dislikes == before.dislikes + (if vote == Dislike then 1 else 0) &&
        after.id == before.id && after.text == before.text
      else after == before
  {
    Seqs.Map((q: Question) => VoteInQuestion(questionId, answerId, vote, q), questions)
  }

  /** No question and no answer has a negative like or dislike count. */
  ghost predicate CountsNonNegative(questions: seq<Question>)
  {
    forall i :: 0 <= i < |questions| ==>
      questions[i].likes >= 0 && questions[i].dislikes >= 0 &&
      forall j :: 0 <= j < |questions[i].answers| ==>
        questions[i].answers[j].likes >= 0 && questions[i].answers[j].dislikes >= 0
  }

  /** Adding a question never makes a count negative. */
  lemma {:induction false} NewQuestionKeepsCountsNonNegative(questions: seq<Question>, id: int, category: string, text: string)
    requires CountsNonNegative(questions)
    ensures CountsNonNegative(WithNewQuestion(questions, id, category, text))
  {
    var r := WithNewQuestion(questions, id, category, text);
    forall i | 1 <= i < |r| ensures r[i] == questions[i - 1] {
      assert r[i] == r[1..][i - 1];
    }
  }

  /** Adding an answer never makes a count negative. */
  lemma {:induction false} NewAnswerKeepsCountsNonNegative(questions: seq<Question>, questionId: Option<int>, id: int, text: string)
    requires CountsNonNegative(questions)
    ensures CountsNonNegative(WithNewAnswer(questions, questionId, id, text))
  {
    var r := WithNewAnswer(questions, questionId, id, text);
    forall i | 0 <= i < |r|
      ensures r[i].likes >= 0 && r[i].dislikes >= 0
      ensures forall j :: 0 <= j < |r[i].answers| ==> r[i].answers[j].likes >= 0 && r[i].answers[j].dislikes >= 0
    {
      var q := questions[i];
      if Some(q.id) == questionId {
        assert r[i].answers == q.answers + [Answer(id, text, 0, 0)];
        forall j | 0 <= j < |r[i].answers| ensures r[i].answers[j].likes >= 0 && r[i].answers[j].dislikes >= 0 {
          if j < |q.answers| {
            assert r[i].answers[j] == q.answers[j];
          }
        }
      }
    }
  }

  /** A vote only ever raises a count, so counts stay non-negative. */
  lemma {:induction false} VoteKeepsCountsNonNegative(questions: seq<Question>, questionId: int, answerId: int, vote: Vote)
    requires CountsNonNegative(questions)
    ensures CountsNonNegative(VoteOnAnswer(questions, questionId, answerId, vote))
  {
  }

  // ---------------------------------------------------------------- the screen's state

  /** The screen's state cells and the handlers that update them. */
  class Screen {
    var selectedCategory: string
    var searchQuery: string
    var questions: seq<Question>
    var modalVisible: bool
    var newQuestionText: string
    var newQuestionCategory: string
    var answerModalVisible: bool
    var currentQuestionId: Option<int>
    var newAnswerText: string

    ghost predicate Valid()
      reads this
    {
      CountsNonNegative(questions)
    }

    constructor ()
      ensures Valid()
      ensures selectedCategory == "All" && searchQuery == "" && questions == SeedQuestions
      ensures !modalVisible && newQuestionText == "" && newQuestionCategory == Categories[0]
      ensures !answerModalVisible && currentQuestionId == None && newAnswerText == ""
    {
      selectedCategory := "All";
      searchQuery := "";
      questions := SeedQuestions;
      modalVisible := false;
      newQuestionText := "";
      newQuestionCategory := Categories[0];
      answerModalVisible := false;
      currentQuestionId := None;
      newAnswerText := "";
    }

    /** The questions currently on screen. */
    function Shown(): (r: seq<Question>)
      reads this
      ensures forall i :: 0 <= i < |r| ==> r[i] in questions && IsShown(r[i], selectedCategory, searchQuery)
    {
      FilterQuestions(questions, selectedCategory, searchQuery)
    }

    /**
     * "Add" in the new-question modal, at clock reading `now`. Blank text is
     * rejected with an alert and nothing changes; otherwise the new question
     * goes in front, the text box is cleared and the modal closes.
     */
    method AddQuestion(now: int) returns (rejected: bool)
      requires Valid()
      modifies this`questions, this`newQuestionText, this`modalVisible
      ensures Valid()
      ensures rejected <==> IsBlank(old(newQuestionText))
      ensures rejected ==>
        questions == old(questions) && newQuestionText == old(newQuestionText) && modalVisible == old(modalVisible)
      ensures !rejected ==>
        questions == WithNewQuestion(old(questions), now, newQuestionCategory, Trim(old(newQuestionText))) &&
        newQuestionText == "" && !modalVisible
    {
      var text := Trim(newQuestionText);
      if text == "" {
        return true;
      }
      NewQuestionKeepsCountsNonNegative(questions, now, newQuestionCategory, text);
      questions := WithNewQuestion(questions, now, newQuestionCategory, text);
      newQuestionText := "";
      modalVisible := false;
      return false;
    }

    /** "+ Add Answer" on a question: remembers it and opens the answer modal. */
    method OpenAnswerModal(questionId: int)
      modifies this`currentQuestionId, this`answerModalVisible
      ensures currentQuestionId == Some(questionId) && answerModalVisible
    {
      currentQuestionId := Some(questionId);
      answerModalVisible := true;
    }

    /**
     * "Add" in the answer modal, at clock reading `now`. Blank text is
     * rejected and nothing changes; otherwise the answer is appended to the
     * remembered question (to none when no question was chosen), the text
     * box is cleared and the modal closes.
     */
    method AddAnswer(now: int) returns (rejected: bool)
      requires Valid()
      modifies this`questions, this`newAnswerText, this`answerModalVisible
      ensures Valid()
      ensures rejected <==> IsBlank(old(newAnswerText))
      ensures rejected ==>
        questions == old(questions) && newAnswerText == old(newAnswerText) &&
        answerModalVisible == old(answerModalVisible)
      ensures !rejected ==>
        questions == WithNewAnswer(old(questions), currentQuestionId, now, Trim(old(newAnswerText))) &&
        newAnswerText == "" && !answerModalVisible
    {
      var text := Trim(newAnswerText);
      if text == "" {
        return true;
      }
      NewAnswerKeepsCountsNonNegative(questions, currentQuestionId, now, text);
      questions := WithNewAnswer(questions, currentQuestionId, now, text);
      newAnswerText := "";
      answerModalVisible := false;
      return false;
    }

    /** Thumbs-up on an answer. */
    method IncrementAnswerLike(questionId: int, answerId: int)
      requires Valid()
      modifies this`questions
      ensures Valid()
      ensures questions == VoteOnAnswer(old(questions), questionId, answerId, Like)
    {
      VoteKeepsCountsNonNegative(questions, questionId, answerId, Like);
      questions := VoteOnAnswer(questions, questionId, answerId, Like);
    }

    /** Thumbs-down on an answer. */
    method IncrementAnswerDislike(questionId: int, answerId: int)
      requires Valid()
      modifies this`questions
      ensures Valid()
      ensures questions == VoteOnAnswer(old(questions), questionId, answerId, Dislike)
    {
      VoteKeepsCountsNonNegative(questions, questionId, answerId, Dislike);
      questions := VoteOnAnswer(questions, questionId, answerId, Dislike);
    }
  }
}

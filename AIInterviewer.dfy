/**
 * The AI interviewer's question feed: a fixed list of five questions, a cursor into it,
 * and the list of questions asked so far. Each "Ask Next Question" click appends the
 * question under the cursor and advances the cursor; once the list is used up a click
 * does nothing.
 *
 * `AskNext` specifies one click on the pair (asked questions, cursor); `Interviewer`
 * holds that pair in fields and performs the click. The time-of-day string a question
 * is stamped with (`new Date().toLocaleTimeString()`) is a parameter.
 */
module AIInterviewer {

  /** One asked question: its 1-based number, its text and the time it was asked. */
  datatype Question = Question(id: int, text: string, timestamp: string)

  const PredefinedQuestions: seq<string> := [
    "Can you tell me about your background and experience?",
    "What interests you about this position?",
    "How do you handle challenging situations at work?",
    "Where do you see yourself in five years?",
    "What are your key strengths and weaknesses?"
  ]

  /** The component's state: `questions` and `currentQuestionIndex`. */
  datatype Feed = Feed(questions: seq<Question>, currentQuestionIndex: nat)

  const InitialFeed := Feed([], 0)

  /**
   * The invariant of every reachable feed: the cursor is within the list, one question has
   * been asked per step of the cursor, and the i-th asked question is number i + 1 with
   * the i-th predefined text.
   */
  predicate Consistent(f: Feed) {
    f.currentQuestionIndex <= |PredefinedQuestions| &&
    |f.questions| == f.currentQuestionIndex &&
    forall i :: 0 <= i < |f.questions| ==>
      f.questions[i].id == i + 1 && f.questions[i].text == PredefinedQuestions[i]
  }

  /** `askNextQuestion`, stamped with `timestamp`. Asked questions are only ever appended to. */
  function AskNext(f: Feed, timestamp: string): (r: Feed)
    ensures f.questions <= r.questions
    ensures |r.questions| <= |f.questions| + 1
  {
    if f.currentQuestionIndex < |PredefinedQuestions| then
      Feed(f.questions + [Question(|f.questions| + 1, PredefinedQuestions[f.currentQuestionIndex], timestamp)],
           f.currentQuestionIndex + 1)
    else
      f
  }

  /** Consecutive clicks, the k-th stamped with `timestamps[k]`. */
  function AskMany(f: Feed, timestamps: seq<string>): Feed
    decreases |timestamps|
  {
    if timestamps == [] then f else AskMany(AskNext(f, timestamps[0]), timestamps[1..])
  }

  /** The texts of the asked questions, in order. */
  function Texts(qs: seq<Question>): seq<string> {
    seq(|qs|, i requires 0 <= i < |qs| => qs[i].text)
  }

  /**
   * While questions remain, a click appends exactly one question, numbered one past the
   * previous count and carrying the text under the cursor, and advances the cursor by one.
   */
  lemma AskNextAppendsOne(f: Feed, timestamp: string)
    requires f.currentQuestionIndex < |PredefinedQuestions|
    ensures var r := AskNext(f, timestamp);
      |r.questions| == |f.questions| + 1 &&
      r.questions[..|f.questions|] == f.questions &&
      r.questions[|f.questions|] == Question(|f.questions| + 1, PredefinedQuestions[f.currentQuestionIndex], timestamp) &&
      r.currentQuestionIndex == f.currentQuestionIndex + 1
  {
  }

  /** Once the cursor has reached the end of the list a click changes nothing: no wrap-around. */
  lemma AskNextWhenExhausted(f: Feed, timestamp: string)
    requires f.currentQuestionIndex == |PredefinedQuestions|
    ensures AskNext(f, timestamp) == f
  {
  }

  /** A click keeps the invariant. */
  lemma AskNextKeepsConsistent(f: Feed, timestamp: string)
    requires Consistent(f)
    ensures Consistent(AskNext(f, timestamp))
  {
  }

  /** In a consistent feed the asked texts are exactly a prefix of the predefined list. */
  lemma TextsArePrefix(f: Feed)
    requires Consistent(f)
    ensures Texts(f.questions) == PredefinedQuestions[..|f.questions|]
  {
  }

  /**
   * Clicks from a consistent feed keep it consistent, keep the questions already asked,
   * ask min(remaining, clicks) new ones, and stamp the k-th new question with the k-th
   * click's timestamp.
   */
  lemma {:induction false} AskManyFromConsistent(f: Feed, timestamps: seq<string>)
    requires Consistent(f)
    ensures var r := AskMany(f, timestamps);
      Consistent(r) &&
      |r.questions| == (if |f.questions| + |timestamps| <= |PredefinedQuestions|
                        then |f.questions| + |timestamps| else |PredefinedQuestions|) &&
      r.questions[..|f.questions|] == f.questions &&
      forall i :: |f.questions| <= i < |r.questions| ==> r.questions[i].timestamp == timestamps[i - |f.questions|]
    decreases |timestamps|
  {
    if timestamps != [] {
      var g := AskNext(f, timestamps[0]);
      AskNextKeepsConsistent(f, timestamps[0]);
      AskManyFromConsistent(g, timestamps[1..]);
      var r := AskMany(g, timestamps[1..]);
      assert r == AskMany(f, timestamps);
      if f.currentQuestionIndex < |PredefinedQuestions| {
        assert g.questions[..|f.questions|] == f.questions;
        assert r.questions[..|f.questions|] == r.questions[..|g.questions|][..|f.questions|];
        forall i | |f.questions| <= i < |r.questions|
          ensures r.questions[i].timestamp == timestamps[i - |f.questions|]
        {
          if i == |f.questions| {
            assert r.questions[i] == r.questions[..|g.questions|][i];
          }
        }
      } else {
        assert g == f;
      }
    }
  }

  /** Clicking through one list of timestamps and then another is clicking through both. */
  lemma {:induction false} AskManyConcat(f: Feed, a: seq<string>, b: seq<string>)
    ensures AskMany(f, a + b) == AskMany(AskMany(f, a), b)
    decreases |a|
  {
    if a != [] {
      assert (a + b)[0] == a[0] && (a + b)[1..] == a[1..] + b;
      AskManyConcat(AskNext(f, a[0]), a[1..], b);
    } else {
      assert a + b == b;
    }
  }

  /**
   * From the initial state, five clicks ask all five questions in their original order,
   * numbered 1 to 5 and stamped in click order, and a sixth click changes nothing.
   */
  lemma AskAllThenNoOp(timestamps: seq<string>)
    requires |timestamps| == |PredefinedQuestions| + 1
    ensures var five := AskMany(InitialFeed, timestamps[..|PredefinedQuestions|]);
      |five.questions| == |PredefinedQuestions| &&
      (forall i :: 0 <= i < |PredefinedQuestions| ==>
         five.questions[i] == Question(i + 1, PredefinedQuestions[i], timestamps[i])) &&
      AskMany(InitialFeed, timestamps) == five
  {
    var n := |PredefinedQuestions|;
    var first := timestamps[..n];
    AskManyFromConsistent(InitialFeed, first);
    var five := AskMany(InitialFeed, first);
    assert timestamps == first + [timestamps[n]];
    AskManyConcat(InitialFeed, first, [timestamps[n]]);
    assert AskMany(five, [timestamps[n]]) == AskMany(AskNext(five, timestamps[n]), []);
  }

  /** The `AIInterviewer` component's state, updated in place by its click handler. */
  class Interviewer {
    var questions: seq<Question>
    var currentQuestionIndex: nat

    function State(): Feed
      reads this
    {
      Feed(questions, currentQuestionIndex)
    }

    ghost predicate Valid()
      reads this
    {
      Consistent(State())
    }

    /** The initial `useState` values: nothing asked, cursor at the first question. */
    constructor ()
      ensures Valid() && State() == InitialFeed
    {
      questions, currentQuestionIndex := [], 0;
    }

    /** `askNextQuestion`, with `new Date().toLocaleTimeString()` given as `timestamp`. */
    method AskNextQuestion(timestamp: string)
      modifies this
      ensures old(Valid()) ==> Valid()
      ensures State() == AskNext(old(State()), timestamp)
    {
      if currentQuestionIndex < |PredefinedQuestions| {
        var newQuestion := Question(|questions| + 1, PredefinedQuestions[currentQuestionIndex], timestamp);
        questions := questions + [newQuestion];
        currentQuestionIndex := currentQuestionIndex + 1;
      }
    }
  }
}

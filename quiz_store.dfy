/** The `quiz` store of stores/Quiz/useQuizStore.ts: the quiz being edited,
    whose question list the actions change in place. */
module QuizStore {
  import opened QuizTypes

  /** The edited quiz object; the store and any other holder share it. */
  class QuizDraft {
    var id: int
    var questions: seq<Question>

    constructor(id: int, questions: seq<Question>)
      ensures this.id == id && this.questions == questions
    {
      this.id := id;
      this.questions := questions;
    }
  }

  function QuestionId(q: Question): int {
    q.id
  }

  class Store {
    var quiz: QuizDraft?

    /** The initial state: no quiz. */
    constructor()
      ensures quiz == null
    {
      quiz := null;
    }

    /** `addQuestion(q)`: with a quiz, `q` goes at the end of its list;
        without one, nothing happens. */
    method AddQuestion(q: Question)
      modifies quiz
      ensures quiz == old(quiz)
      ensures quiz != null ==> quiz.questions == old(quiz.questions) + [q] && quiz.id == old(quiz.id)
    {
      if quiz != null {
        quiz.questions := quiz.questions + [q];
      }
    }

    /** `removeQuestion(id)`: with a quiz, its list loses every question with
        that id; without one, nothing happens. */
    method RemoveQuestion(questionId: int)
      modifies quiz
      ensures quiz == old(quiz)
      ensures quiz != null ==>
                quiz.questions == WithoutId(old(quiz.questions), questionId, QuestionId) && quiz.id == old(quiz.id)
    {
      if quiz != null {
        quiz.questions := WithoutId(quiz.questions, questionId, QuestionId);
      }
    }

    /** `resetQuiz()` */
    method ResetQuiz()
      modifies this`quiz
      ensures quiz == null
    {
      quiz := null;
    }
  }

  /** Adding a question with a fresh id and removing that id again restores
      the list. */
  method AddThenRemove(store: Store, q: Question)
    requires store.quiz != null
    requires forall k :: 0 <= k < |store.quiz.questions| ==> store.quiz.questions[k].id != q.id
    modifies store.quiz
    ensures store.quiz == old(store.quiz)
    ensures store.quiz.questions == old(store.quiz.questions)
  {
    ghost var before := store.quiz.questions;
    store.AddQuestion(q);
    store.RemoveQuestion(q.id);
    WithoutIdAppend(before, [q], q.id, QuestionId);
    WithoutAbsentId(before, q.id, QuestionId);
    assert WithoutId([q], q.id, QuestionId) == [];
  }
}

/** The `question` store of stores/Question/useQuestionStore.ts: the question
    being edited, whose answer list the actions change in place. */
module QuestionStore {
  import opened QuizTypes

  /** The edited question object; the store and any other holder share it. */
  class QuestionDraft {
    var id: int
    var answers: seq<Choice>

    constructor(id: int, answers: seq<Choice>)
      ensures this.id == id && this.answers == answers
    {
      this.id := id;
      this.answers := answers;
    }
  }

  function ChoiceId(c: Choice): int {
    c.id
  }

  class Store {
    var question: QuestionDraft?

    /** The initial state: no question. */
    constructor()
      ensures question == null
    {
      question := null;
    }

    /** `addChoice(a)`: with a question, `a` goes at the end of its answers;
        without one, nothing happens. */
    method AddChoice(a: Choice)
      modifies question
      ensures question == old(question)
      ensures question != null ==> question.answers == old(question.answers) + [a] && question.id == old(question.id)
    {
      if question != null {
        question.answers := question.answers + [a];
      }
    }

    /** `removeChoice(id)`: with a question, its answers lose every choice with
        that id; without one, nothing happens. */
    method RemoveChoice(answerId: int)
      modifies question
      ensures question == old(question)
      ensures question != null ==>
                question.answers == WithoutId(old(question.answers), answerId, ChoiceId)
                && question.id == old(question.id)
    {
      if question != null {
        question.answers := WithoutId(question.answers, answerId, ChoiceId);
      }
    }

    /** `resetQuestion()` */
    method ResetQuestion()
      modifies this`question
      ensures question == null
    {
      question := null;
    }
  }
}

/** The `questionModal` store of stores/Question/questionModal.ts: whether
    the question dialog is open, the question it shows, and the quiz it
    belongs to. */
module QuestionModal {
  import opened Common
  import opened QuizTypes

  class ModalStore {
    var isToggleQuestion: bool
    var currentQuestion: Option<Question>
    var quizId: Option<int>

    /** The initial state: closed, no question, no quiz. */
    constructor()
      ensures !isToggleQuestion && currentQuestion == None && quizId == None
    {
      isToggleQuestion := false;
      currentQuestion := None;
      quizId := None;
    }

    /** `toggleQuestionModal(state)`: sets only the open flag. */
    method ToggleQuestionModal(state: bool)
      modifies this`isToggleQuestion
      ensures isToggleQuestion == state
      ensures currentQuestion == old(currentQuestion) && quizId == old(quizId)
    {
      isToggleQuestion := state;
    }

    /** `setCurrentQuestion(question)`: sets only the shown question. */
    method SetCurrentQuestion(question: Option<Question>)
      modifies this`currentQuestion
      ensures currentQuestion == question
      ensures isToggleQuestion == old(isToggleQuestion) && quizId == old(quizId)
    {
      currentQuestion := question;
    }

    /** `setQuizId(id)`: sets only the quiz id. */
    method SetQuizId(id: int)
      modifies this`quizId
      ensures quizId == Some(id)
      ensures isToggleQuestion == old(isToggleQuestion) && currentQuestion == old(currentQuestion)
    {
      quizId := Some(id);
    }

    /** `openDialog(x = null)`: opens the dialog on `x`, on no question when
        called without one; the quiz id is kept. */
    method OpenDialog(question: Option<Question> := None)
      modifies this`currentQuestion, this`isToggleQuestion
      ensures isToggleQuestion && currentQuestion == question
      ensures quizId == old(quizId)
    {
      currentQuestion := question;
      isToggleQuestion := true;
    }

    /** `closeDialog()`: closes the dialog and forgets the question; the quiz
        id is kept. */
    method CloseDialog()
      modifies this`currentQuestion, this`isToggleQuestion
      ensures !isToggleQuestion && currentQuestion == None
      ensures quizId == old(quizId)
    {
      currentQuestion := None;
      isToggleQuestion := false;
    }
  }

  /** Opening and then closing the dialog returns a fresh store to its initial
      state except for the quiz id that was set in between. */
  method OpenThenClose(question: Question, id: int) returns (store: ModalStore)
    ensures !store.isToggleQuestion && store.currentQuestion == None
    ensures store.quizId == Some(id)
  {
    store := new ModalStore();
    store.OpenDialog(Some(question));
    store.SetQuizId(id);
    store.CloseDialog();
  }
}

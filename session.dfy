/**
 * The per-browser session state the app keeps between interactions, and the two
 * handlers that move through an exam or reset it.
 */
module Session {
  import opened Wrappers
  import Leveling
  import Catalog
  import Store

  /**
   * One answered question as the exam keeps it: the option chosen, the correct option and
   * whether they agree. The code that appends these lies outside this model; here they are only stored and cleared.
   */
  datatype AnswerResult = AnswerResult(selected: string, correctAnswer: string, isCorrect: bool)

  /** The exam part of the session: the deck being studied, the position in it, the pending answer, whether the explanation shows, the results so far. */
  datatype ExamView = ExamView(exam: Option<seq<Store.Question>>, index: int, answer: Option<string>, revealed: bool, results: seq<AnswerResult>)

  /** The exam part of a session that has no exam under way. */
  const NoExam: ExamView := ExamView(None, 0, None, false, [])

  /** The exam part after moving to the next question. */
  function Next(v: ExamView): (r: ExamView)
    ensures r.index == v.index + 1 && r.answer == None && !r.revealed
    ensures r.exam == v.exam && r.results == v.results
  {
    v.(index := v.index + 1, answer := None, revealed := false)
  }

  /** The exam part after `k` moves to the next question. */
  function Skip(v: ExamView, k: nat): (r: ExamView)
    decreases k
  {
    if k == 0 then v else Skip(Next(v), k - 1)
  }

  /** `k` moves advance the position by exactly `k`, clear the pending answer and keep the deck and the results. */
  lemma {:induction false} SkipAdvances(v: ExamView, k: nat)
    ensures Skip(v, k).index == v.index + k
    ensures Skip(v, k).exam == v.exam && Skip(v, k).results == v.results
    ensures k > 0 ==> Skip(v, k).answer == None && !Skip(v, k).revealed
    decreases k
  {
    if k > 0 {
      SkipAdvances(Next(v), k - 1);
    }
  }

  /** Starting over and then moving `k` times puts the position at `k` with no deck and no results. */
  lemma RestartThenSkip(k: nat)
    ensures Skip(NoExam, k).index == k && Skip(NoExam, k).exam == None && Skip(NoExam, k).results == []
  {
    SkipAdvances(NoExam, k);
  }

  class SessionState {
    var page: string
    var extractedContent: Option<string>
    var currentExam: Option<seq<Store.Question>>
    var currentQuestionIndex: int
    var userAnswer: Option<string>
    var showExplanation: bool
    var examResults: seq<AnswerResult>
    /** Outcome of the sign-in widget: none yet, accepted or refused. */
    var authenticationStatus: Option<bool>
    var userLevel: string
    var materiaActual: string
    var sistemaActual: string
    var lastLoginName: Option<string>

    /** The exam fields of the session, read together. */
    function Exam(): (v: ExamView)
      reads this
    {
      ExamView(currentExam, currentQuestionIndex, userAnswer, showExplanation, examResults)
    }

    /** The defaults a new session starts from. */
    constructor ()
      ensures page == "Cargar Contenido" && extractedContent == None
      ensures Exam() == NoExam
      ensures authenticationStatus == None && lastLoginName == None
      ensures userLevel == Leveling.DefaultLevel
      ensures materiaActual == Catalog.Materias[0] && sistemaActual == Catalog.Sistemas[0]
    {
      page := "Cargar Contenido";
      extractedContent := None;
      currentExam := None;
      currentQuestionIndex := 0;
      userAnswer := None;
      showExplanation := false;
      examResults := [];
      authenticationStatus := None;
      userLevel := Leveling.DefaultLevel;
      materiaActual := Catalog.Materias[0];
      sistemaActual := Catalog.Sistemas[0];
      lastLoginName := None;
    }

    /** True when every field other than the exam fields equals its value in the old state. */
    twostate predicate OnlyExamChanged()
      reads this
    {
      && page == old(page) && extractedContent == old(extractedContent)
      && authenticationStatus == old(authenticationStatus) && userLevel == old(userLevel)
      && materiaActual == old(materiaActual) && sistemaActual == old(sistemaActual)
      && lastLoginName == old(lastLoginName)
    }

    /** `go_to_next_question`: one step forward, the pending answer and the explanation cleared. */
    method GoToNextQuestion()
      modifies this
      ensures Exam() == Next(old(Exam()))
      ensures currentQuestionIndex == old(currentQuestionIndex) + 1
      ensures currentExam == old(currentExam) && examResults == old(examResults)
      ensures userAnswer == None && !showExplanation
      ensures OnlyExamChanged()
    {
      currentQuestionIndex := currentQuestionIndex + 1;
      userAnswer := None;
      showExplanation := false;
    }

    /** `restart_exam`: the exam fields go back to their start-of-session values, whatever they held. */
    method RestartExam()
      modifies this
      ensures Exam() == NoExam
      ensures OnlyExamChanged()
    {
      currentExam := None;
      currentQuestionIndex := 0;
      userAnswer := None;
      showExplanation := false;
      examResults := [];
    }
  }

  /** Moving through a deck and restarting: a restart undoes any number of moves. */
  method WalkAndRestart(deck: seq<Store.Question>)
  {
    var s := new SessionState();
    s.currentExam := Some(deck);
    s.GoToNextQuestion();
    s.GoToNextQuestion();
    assert s.currentQuestionIndex == 2 && s.currentExam == Some(deck);
    s.RestartExam();
    assert s.Exam() == NoExam && s.page == "Cargar Contenido";
  }
}

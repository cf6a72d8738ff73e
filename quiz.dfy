/**
  The quiz screen's state machine (`HomeScreen` in app/index.tsx): stage,
  question index, correct/wrong counters, the one-shot answer lock and the
  countdown timer, with the grade and the pass decision.
*/
module QuizFlow {
  import opened Wrappers
  import opened Shuffling
  import opened Questions
  import opened Grading

  /** `'catalog' | 'start' | 'quiz' | 'result'` */
  datatype Stage = Catalog | Start | Quiz | Result

  /** `totalPerguntas`: the loaded batch's size, or the prepared quiz's when nothing is loaded. */
  function TotalQuestions(base: seq<Pergunta>, perguntas: seq<Pergunta>): (n: nat)
    ensures |base| > 0 ==> n == |base|
    ensures |base| == 0 ==> n == |perguntas|
    ensures n == 0 <==> |base| == 0 && |perguntas| == 0
  {
    if |base| > 0 then |base| else |perguntas|
  }

  /** The index points into the quiz, or is 0 when the quiz is empty. */
  predicate IndexInRange(indice: nat, len: nat) {
    if len == 0 then indice == 0 else indice < len
  }

  class QuizScreen {
    var stage: Stage
    var indice: nat
    var acertos: nat
    var erros: nat
    /** The prepared quiz of the current attempt. */
    var perguntas: seq<Pergunta>
    /** The questions as loaded for the opened quiz. */
    var basePerguntas: seq<Pergunta>
    /** `lockedRef.current`: an answer or a timeout has been taken for the current question. */
    var locked: bool
    /** The countdown animation is running (started and neither stopped nor finished). */
    var timerRunning: bool

    ghost predicate Valid()
      reads this
    {
      IndexInRange(indice, |perguntas|)
    }

    /** The initial `useState`/`useRef` values. */
    constructor ()
      ensures Valid()
      ensures stage == Catalog && indice == 0 && acertos == 0 && erros == 0
      ensures perguntas == [] && basePerguntas == [] && !locked && !timerRunning
    {
      stage := Catalog;
      indice, acertos, erros := 0, 0, 0;
      perguntas, basePerguntas := [], [];
      locked, timerRunning := false, false;
    }

    function Total(): nat
      reads this
    {
      TotalQuestions(basePerguntas, perguntas)
    }

    /** `aprovado`: the result screen's verdict. */
    function Approved(): (b: bool)
      reads this
      ensures b <==> Total() > 0 && 10 * acertos >= 6 * Total()
    {
      Passed(acertos, Total())
    }

    /** `perguntaAtual = perguntas[indice]`, undefined past the end. */
    function CurrentQuestion(): (q: Option<Pergunta>)
      reads this
      ensures q.Some? <==> indice < |perguntas|
      ensures q.Some? ==> q.value == perguntas[indice]
    {
      if indice < |perguntas| then Some(perguntas[indice]) else None
    }

    /**
      The successful end of `abrirQuestionario`: the fetched questions
      become the base batch and the start screen shows with fresh counters.
    */
    method Open(questions: seq<Pergunta>)
      modifies this`basePerguntas, this`perguntas, this`indice, this`acertos, this`erros, this`stage
      ensures Valid()
      ensures basePerguntas == questions && perguntas == []
      ensures indice == 0 && acertos == 0 && erros == 0 && stage == Start
    {
      basePerguntas := questions;
      perguntas := [];
      indice, acertos, erros := 0, 0, 0;
      stage := Start;
    }

    /** `iniciarQuiz`: counters and index to zero, lock released, a freshly prepared quiz. */
    method Begin(d: Draws)
      requires ValidFor(basePerguntas, d)
      modifies this`acertos, this`erros, this`indice, this`locked, this`perguntas, this`stage
      ensures Valid()
      ensures acertos == 0 && erros == 0 && indice == 0 && !locked && stage == Quiz
      ensures perguntas == PreparedQuiz(basePerguntas, d)
      ensures |perguntas| == |basePerguntas|
    {
      var prepared := PrepareQuestions(basePerguntas, d);
      acertos, erros, indice := 0, 0, 0;
      locked := false;
      perguntas := prepared;
      stage := Quiz;
    }

    /** `refazerMesmoQuiz`: stops the countdown, then starts a new attempt as `iniciarQuiz` does. */
    method Retry(d: Draws)
      requires ValidFor(basePerguntas, d)
      modifies this`timerRunning, this`acertos, this`erros, this`indice, this`locked, this`perguntas, this`stage
      ensures Valid()
      ensures !timerRunning
      ensures acertos == 0 && erros == 0 && indice == 0 && !locked && stage == Quiz
      ensures perguntas == PreparedQuiz(basePerguntas, d)
    {
      timerRunning := false;
      Begin(d);
    }

    /** `reiniciar`: stops the countdown and goes back to the catalog with zeroed counters; the lock is left as it is. */
    method Restart()
      modifies this`timerRunning, this`stage, this`acertos, this`erros, this`indice
      ensures Valid()
      ensures !timerRunning && stage == Catalog && acertos == 0 && erros == 0 && indice == 0
    {
      timerRunning := false;
      stage := Catalog;
      acertos, erros, indice := 0, 0, 0;
    }

    /**
      `startTimer`: with no measured height nothing happens; otherwise the
      countdown (re)starts and the lock is released for the question shown.
    */
    method StartTimer(height: nat)
      requires Valid()
      modifies this`timerRunning, this`locked
      ensures Valid()
      ensures height == 0 ==> timerRunning == old(timerRunning) && locked == old(locked)
      ensures height > 0 ==> timerRunning && !locked
    {
      if height == 0 {
        return;
      }
      timerRunning := true;
      locked := false;
    }

    /**
      `avancarPergunta`: the next question while there is one; otherwise
      the result stage, with the index left on the last question.
    */
    method Advance()
      requires Valid()
      modifies this`indice, this`stage
      ensures Valid()
      ensures old(indice) + 1 < |perguntas| ==> indice == old(indice) + 1 && stage == old(stage)
      ensures old(indice) + 1 >= |perguntas| ==> indice == old(indice) && stage == Result
    {
      var proximo := indice + 1;
      if proximo >= |perguntas| {
        stage := Result;
      } else {
        indice := proximo;
      }
    }

    /**
      `selecionarAlternativa(alt)`: ignored while locked or outside the quiz;
      otherwise takes the lock, stops the countdown and counts the answer as
      correct or wrong.  `accepted` tells the caller that `Advance` follows
      200 ms later.
    */
    method Select(alt: string) returns (accepted: bool)
      requires Valid()
      modifies this`locked, this`timerRunning, this`acertos, this`erros
      ensures Valid()
      ensures accepted <==> !old(locked) && stage == Quiz
      ensures !accepted ==> locked == old(locked) && timerRunning == old(timerRunning)
      ensures !accepted ==> acertos == old(acertos) && erros == old(erros)
      ensures accepted ==> locked && !timerRunning
      ensures accepted && CurrentQuestion().Some? && CurrentQuestion().value.respostaCorreta == alt ==>
                acertos == old(acertos) + 1 && erros == old(erros)
      ensures accepted && !(CurrentQuestion().Some? && CurrentQuestion().value.respostaCorreta == alt) ==>
                erros == old(erros) + 1 && acertos == old(acertos)
    {
      if locked || stage != Quiz {
        return false;
      }
      locked := true;
      timerRunning := false;
      var current := CurrentQuestion();
      var correta := current.Some? && current.value.respostaCorreta == alt;
      if correta {
        acertos := acertos + 1;
      } else {
        erros := erros + 1;
      }
      accepted := true;
    }

    /**
      The countdown's completion callback.  A stopped countdown never
      completes.  In the quiz and unlocked, it takes the lock, counts a
      wrong answer and advances as `avancarPergunta` does.
    */
    method TimerFinished()
      requires Valid()
      modifies this`timerRunning, this`locked, this`erros, this`indice, this`stage
      ensures Valid()
      ensures !timerRunning && acertos == old(acertos)
      ensures var fires := old(timerRunning) && old(stage) == Quiz && !old(locked);
        if fires then
          locked && erros == old(erros) + 1 &&
          (old(indice) + 1 < |perguntas| ==> indice == old(indice) + 1 && stage == Quiz) &&
          (old(indice) + 1 >= |perguntas| ==> indice == old(indice) && stage == Result)
        else
          locked == old(locked) && erros == old(erros) && indice == old(indice) && stage == old(stage)
    {
      if !timerRunning {
        return;
      }
      timerRunning := false;
      if stage == Quiz && !locked {
        locked := true;
        erros := erros + 1;
        Advance();
      }
    }
  }

  /** A started attempt at the one-question quiz "Who built the ark?" (answer "Noah"). */
  method StartedQuiz() returns (screen: QuizScreen)
    ensures fresh(screen) && screen.Valid()
    ensures screen.stage == Quiz && screen.acertos == 0 && screen.erros == 0 && screen.indice == 0
    ensures |screen.perguntas| == 1 && screen.perguntas[0].respostaCorreta == "Noah"
    ensures screen.Total() == 1
  {
    var q := Pergunta("1", "Who built the ark?", [], "Noah");
    screen := new QuizScreen();
    screen.Open([q]);
    var d := Draws([0], [0], [[]]);
    assert FisherYates([q], [0]) == [q];
    assert ValidFor([q], d);
    screen.Begin(d);
    PreparedQuizFacts([q], d);
  }

  /**
    The question is answered correctly: a second tap and the countdown's
    late completion are both ignored, and advancing past the last question
    ends the attempt with a pass.
  */
  method AnsweredRun()
  {
    var screen := StartedQuiz();
    screen.StartTimer(600);
    var ok := screen.Select("Noah");
    var again := screen.Select("Moses");
    screen.TimerFinished();
    assert ok && !again && screen.acertos == 1 && screen.erros == 0;
    screen.Advance();
    assert screen.stage == Result && screen.indice == 0 && screen.Approved();
  }

  /** The countdown runs out on the only question: one wrong answer, the result stage, no pass. */
  method TimedOutRun()
  {
    var screen := StartedQuiz();
    screen.StartTimer(600);
    screen.TimerFinished();
    assert screen.stage == Result && screen.indice == 0;
    assert screen.acertos == 0 && screen.erros == 1 && !screen.Approved();
  }
}

/** The assessment view (src/components/QuestionInterface.tsx): a session over
    a fixed list of three sample questions, with a selected answer, a
    reveal flag, a per-question countdown, a score and an attempt counter.

    The six pieces of component state are the fields of class Session; each
    handler is a method of it. The pure State datatype and the After*
    functions are the specification those methods are proved against, and
    the lemmas below state what the handlers promise about it. */
module Assessment {
  import opened Text
  import opened Badge

  datatype Question = Question(
    id: int,
    text: string,
    optionA: string,
    optionB: string,
    optionC: string,
    optionD: string,
    answer: string,
    difficulty: string,
    tags: string)

  /** The three sample questions the view runs through, in order. */
  const SampleQuestions: seq<Question> := [
    Question(1, "The ratio 5 : 4 expressed as a percent equals:",
      "12.5%", "40%", "80%", "125%", "d", "Very easy", "Percentages"),
    Question(2, "3.5 can be expressed in terms of percentage as:",
      "0.35%", "3.5%", "35%", "350%", "d", "Very easy", "Percentages"),
    Question(3, "Half of 1 percent written as a decimal is:",
      "0.005", "0.05", "0.02", "0.2", "a", "Very easy", "Percentages")
  ]

  /** The labels of the four option buttons. */
  const OptionLabels: seq<string> := ["a", "b", "c", "d"]

  /** Seconds on the clock when a question starts. */
  const QuestionTime: int := 60

  predicate ValidIndex(i: int) { 0 <= i < |SampleQuestions| }

  /** A snapshot of the component state; `selected == ""` means nothing is
      selected. */
  datatype State = State(
    index: int,
    selected: string,
    showResult: bool,
    timeLeft: int,
    score: int,
    attempted: int)

  /** What every reachable state satisfies. */
  predicate Inv(s: State)
  {
    && ValidIndex(s.index)
    && 0 <= s.timeLeft <= QuestionTime
    && 0 <= s.score <= s.attempted
  }

  /** The initial values of the six useState hooks. */
  function Initial(): (r: State)
    ensures Inv(r)
  {
    State(0, "", false, QuestionTime, 0, 0)
  }

  function Answer(s: State): string
    requires ValidIndex(s.index)
  {
    SampleQuestions[s.index].answer
  }

  lemma SampleAnswersAreLabels()
    ensures forall q :: q in SampleQuestions ==> q.answer in OptionLabels
  {
  }

  /** isCorrect: the selection is the current question's answer. */
  function IsCorrect(s: State): (b: bool)
    requires ValidIndex(s.index)
    ensures b ==> s.selected != "" && s.selected in OptionLabels
  {
    s.selected == Answer(s)
  }

  /** handleSubmit's guard: something is selected or the clock is at 0. */
  predicate SubmitFires(s: State)
  {
    s.selected != "" || s.timeLeft == 0
  }

  // ---------------------------------------------------------------------
  // The handlers, as functions of the state.
  // ---------------------------------------------------------------------

  /** handleAnswerSelect: records the option while the result is hidden. */
  function AfterSelect(s: State, option: string): (r: State)
    ensures r.selected == (if s.showResult then s.selected else option)
    ensures r.index == s.index && r.showResult == s.showResult && r.timeLeft == s.timeLeft
    ensures r.score == s.score && r.attempted == s.attempted
    ensures Inv(s) ==> Inv(r)
  {
    if !s.showResult then s.(selected := option) else s
  }

  /** handleSubmit: with no showResult guard of its own. */
  function AfterSubmit(s: State): (r: State)
    requires ValidIndex(s.index)
    ensures !SubmitFires(s) ==> r == s
    ensures SubmitFires(s) ==> r.showResult
    ensures r.attempted == s.attempted + 1 <==> SubmitFires(s)
    ensures r.attempted == s.attempted || r.attempted == s.attempted + 1
    ensures r.score == s.score + 1 <==> SubmitFires(s) && IsCorrect(s)
    ensures r.score == s.score || r.score == s.score + 1
    ensures s.selected == "" ==> r.score == s.score
    ensures r.index == s.index && r.selected == s.selected && r.timeLeft == s.timeLeft
    ensures Inv(s) ==> Inv(r)
  {
    if SubmitFires(s) then
      s.(showResult := true,
         attempted := s.attempted + 1,
         score := if s.selected == Answer(s) then s.score + 1 else s.score)
    else
      s
  }

  /** handleNext: moves on unless the current question is the last one. */
  function AfterNext(s: State): (r: State)
    ensures s.index < |SampleQuestions| - 1 ==>
      r.index == s.index + 1 && r.selected == "" && !r.showResult && r.timeLeft == QuestionTime
    ensures s.index >= |SampleQuestions| - 1 ==> r == s
    ensures r.score == s.score && r.attempted == s.attempted
    ensures ValidIndex(s.index) ==> ValidIndex(r.index)
    ensures Inv(s) ==> Inv(r)
  {
    if s.index < |SampleQuestions| - 1 then
      s.(index := s.index + 1, selected := "", showResult := false, timeLeft := QuestionTime)
    else
      s
  }

  /** handleRestart: back to the first question with nothing counted. */
  function AfterRestart(s: State): (r: State)
    ensures r.index == 0 && r.selected == "" && !r.showResult && r.timeLeft == QuestionTime
    ensures r.score == 0 && r.attempted == 0
    ensures Inv(r)
  {
    Initial()
  }

  /** One run of the timer effect: while time remains and the result is
      hidden, the scheduled timeout takes one second off the clock; once the
      clock reads 0 the effect calls handleSubmit, whether or not the result
      is already shown. */
  function AfterTimerStep(s: State): (r: State)
    requires ValidIndex(s.index)
    ensures s.timeLeft > 0 && !s.showResult ==> r == s.(timeLeft := s.timeLeft - 1)
    ensures s.timeLeft == 0 ==> r == AfterSubmit(s)
    ensures s.timeLeft != 0 && s.showResult ==> r == s
    ensures r.timeLeft == s.timeLeft || r.timeLeft == s.timeLeft - 1
    ensures r.timeLeft < s.timeLeft ==> 0 < s.timeLeft && !s.showResult
    ensures Inv(s) ==> Inv(r)
  {
    if s.timeLeft > 0 && !s.showResult then s.(timeLeft := s.timeLeft - 1)
    else if s.timeLeft == 0 then AfterSubmit(s)
    else s
  }

  // ---------------------------------------------------------------------
  // What the rendered buttons let a user do.
  // ---------------------------------------------------------------------

  /** The option buttons are disabled once the result is shown. */
  predicate OptionEnabled(s: State) { !s.showResult }

  /** "Submit Answer" is rendered only while the result is hidden and is
      disabled without a selection. */
  predicate SubmitEnabled(s: State) { !s.showResult && s.selected != "" }

  /** "Next Question" is rendered after the reveal, before the last question. */
  predicate NextVisible(s: State) { s.showResult && s.index < |SampleQuestions| - 1 }

  /** "Complete Assessment" (which restarts) replaces it on the last question. */
  predicate CompleteVisible(s: State) { s.showResult && s.index >= |SampleQuestions| - 1 }

  /** The action area holds exactly one of "Submit Answer", "Next Question"
      and "Complete Assessment"; an enabled Submit always fires, at a time
      when the options are still enabled; Next moves to the following
      question. */
  lemma ActionButtons(s: State)
    ensures !s.showResult ==> !NextVisible(s) && !CompleteVisible(s)
    ensures s.showResult ==> (NextVisible(s) <==> !CompleteVisible(s))
    ensures SubmitEnabled(s) ==> OptionEnabled(s) && SubmitFires(s)
    ensures NextVisible(s) ==> AfterNext(s).index == s.index + 1
  {
  }

  /** What can happen to a session: a click on one of the buttons, or a run
      of the timer effect. */
  datatype Event =
    | ChooseOption(option: string)
    | ClickSubmit
    | ClickNext
    | ClickRestart
    | ClickComplete
    | TimerStep

  predicate IsUserEvent(e: Event) { !e.TimerStep? }

  predicate IsReset(e: Event) { e.ClickRestart? || e.ClickComplete? }

  /** The effect of one event; a click on a disabled or absent button does
      nothing. */
  function Apply(s: State, e: Event): (r: State)
    requires ValidIndex(s.index)
    ensures ValidIndex(r.index)
    ensures Inv(s) ==> Inv(r)
    ensures !IsReset(e) ==> s.score <= r.score && s.attempted <= r.attempted
    ensures IsUserEvent(e) && !IsReset(e) ==> r.attempted <= s.attempted + 1
    ensures r.timeLeft > s.timeLeft ==> r.timeLeft == QuestionTime && !r.showResult
  {
    match e
    case ChooseOption(o) => if OptionEnabled(s) then AfterSelect(s, o) else s
    case ClickSubmit => if SubmitEnabled(s) then AfterSubmit(s) else s
    case ClickNext => if NextVisible(s) then AfterNext(s) else s
    case ClickRestart => AfterRestart(s)
    case ClickComplete => if CompleteVisible(s) then AfterRestart(s) else s
    case TimerStep => AfterTimerStep(s)
  }

  predicate NoReset(es: seq<Event>) { forall i :: 0 <= i < |es| ==> !IsReset(es[i]) }

  predicate UserOnly(es: seq<Event>) { forall i :: 0 <= i < |es| ==> IsUserEvent(es[i]) }

  /** Every attempt so far belongs to a question that has been revealed: one
      per question before the current one, plus the current one once shown. */
  predicate Paced(s: State)
  {
    s.attempted == s.index + (if s.showResult then 1 else 0)
  }

  /** The state after a sequence of events. */
  function Run(s: State, es: seq<Event>): (r: State)
    requires ValidIndex(s.index)
    ensures ValidIndex(r.index)
    ensures Inv(s) ==> Inv(r)
    ensures NoReset(es) ==> s.score <= r.score && s.attempted <= r.attempted
    ensures Inv(s) && Paced(s) && UserOnly(es) ==> Paced(r) && r.attempted <= |SampleQuestions|
    decreases |es|
  {
    if es == [] then s
    else
      var s' := Apply(s, es[0]);
      assert Inv(s) && Paced(s) && IsUserEvent(es[0]) ==> Paced(s');
      Run(s', es[1..])
  }

  /** Every state reachable from the initial one satisfies Inv. */
  lemma ReachableInv(es: seq<Event>)
    ensures Inv(Run(Initial(), es))
    ensures UserOnly(es) ==> Run(Initial(), es).attempted <= |SampleQuestions|
  {
  }

  /** One event keeps Paced, except the effect's second handleSubmit at a
      timeout: the run with the clock at 0 and the result already shown. */
  lemma PacedPreserved(s: State, e: Event)
    requires Inv(s) && Paced(s)
    requires !(e.TimerStep? && s.timeLeft == 0 && s.showResult)
    ensures Paced(Apply(s, e))
  {
  }

  /** `n` runs of the timer effect in a row. */
  function Steps(s: State, n: nat): (r: State)
    requires ValidIndex(s.index)
    ensures ValidIndex(r.index)
    decreases n
  {
    if n == 0 then s else AfterTimerStep(Steps(s, n - 1))
  }

  /** While the result is hidden, each run of the effect takes exactly one
      second off the clock and changes nothing else. */
  lemma {:induction false} Countdown(s: State, n: nat)
    requires ValidIndex(s.index)
    requires !s.showResult && n <= s.timeLeft
    ensures Steps(s, n) == s.(timeLeft := s.timeLeft - n)
    decreases n
  {
    if n > 0 {
      Countdown(s, n - 1);
    }
  }

  /** A question left unanswered: the clock runs down from its value to 0,
      the next run of the effect submits (counted, not scored), and since that
      submission flips showResult the effect runs once more and submits
      again; after that neither dependency of the effect changes, so it
      does not run again. */
  lemma TimeoutSubmitsTwice(s: State)
    requires Inv(s) && !s.showResult && s.selected == ""
    ensures var t := Steps(s, s.timeLeft);
      t.timeLeft == 0 && !t.showResult && t.attempted == s.attempted && t.score == s.score
    ensures var u := Steps(s, s.timeLeft + 1);
      u.showResult && u.attempted == s.attempted + 1 && u.score == s.score && u.index == s.index
    ensures var v := Steps(s, s.timeLeft + 2);
      v.showResult && v.timeLeft == 0 && v.attempted == s.attempted + 2 && v.score == s.score
  {
    Countdown(s, s.timeLeft);
  }

  /** The same with a correct answer selected but not submitted: the timeout
      scores it twice. */
  lemma TimeoutScoresSelectedTwice(s: State)
    requires Inv(s) && !s.showResult && IsCorrect(s)
    ensures var v := Steps(s, s.timeLeft + 2);
      v.showResult && v.attempted == s.attempted + 2 && v.score == s.score + 2
  {
    Countdown(s, s.timeLeft);
  }

  /** So the bound attempted <= number of questions does not hold once the
      timer is involved: a question left unanswered until the clock runs out
      leaves two attempts behind for it, and Paced is lost. */
  lemma TimeoutBreaksPacing(s: State)
    requires Inv(s) && Paced(s) && !s.showResult && s.selected == ""
    ensures var v := Steps(s, s.timeLeft + 2);
      Inv(v) && v.index == s.index && v.attempted == s.index + 2 && !Paced(v)
  {
    TimeoutSubmitsTwice(s);
  }

  /** handleSubmit is not idempotent: called again after the reveal with a
      selection still present, it counts a second attempt. */
  lemma SubmitTwiceCountsTwice(s: State)
    requires ValidIndex(s.index) && s.selected != ""
    ensures AfterSubmit(AfterSubmit(s)).attempted == s.attempted + 2
  {
  }

  // ---------------------------------------------------------------------
  // Presentation helpers of the same component.
  // ---------------------------------------------------------------------

  /** getDifficultyColor: the badge variant for a question's difficulty,
      compared case-insensitively. */
  function DifficultyColor(difficulty: string): (r: Variant)
    ensures r == Default <==> LowerStr(difficulty) == "easy"
    ensures r == Outline <==> LowerStr(difficulty) == "moderate"
    ensures r == Destructive <==> LowerStr(difficulty) == "difficult"
    ensures r == Secondary <==> LowerStr(difficulty) !in ["easy", "moderate", "difficult"]
  {
    var d := LowerStr(difficulty);
    if d == "very easy" then Secondary
    else if d == "easy" then Default
    else if d == "moderate" then Outline
    else if d == "difficult" then Destructive
    else Secondary
  }

  /** The styles an option button can take: the selection before the
      reveal is highlighted in the primary colour, other options stay plain;
      after the reveal the answer takes the success colours, a wrong
      selection the error colours, and the rest are muted. */
  datatype OptionStyle = Highlighted | Plain | Correct | Wrong | Muted

  /** getOptionStyles: before the reveal only the selection is highlighted;
      after it the answer is marked correct, a wrong selection is marked
      wrong, and everything else is muted. */
  function OptionStyleOf(s: State, option: string): (r: OptionStyle)
    requires ValidIndex(s.index)
    ensures !s.showResult ==> (r == Highlighted <==> option == s.selected)
    ensures !s.showResult ==> (r == Plain <==> option != s.selected)
    ensures s.showResult ==> (r == Correct <==> option == Answer(s))
    ensures s.showResult ==> (r == Wrong <==> option == s.selected && option != Answer(s))
    ensures s.showResult ==> (r == Muted <==> option != Answer(s) && option != s.selected)
  {
    if !s.showResult then
      (if s.selected == option then Highlighted else Plain)
    else if option == Answer(s) then Correct
    else if s.selected == option && option != Answer(s) then Wrong
    else Muted
  }

  /** After the reveal exactly one option button is marked correct, and one
      is marked wrong exactly when the feedback panel says "Incorrect" for a
      selection among the four options. */
  lemma RevealMarks(s: State)
    requires ValidIndex(s.index) && s.showResult
    ensures exists o :: o in OptionLabels && OptionStyleOf(s, o) == Correct
    ensures forall o, o' ::
      (o in OptionLabels && o' in OptionLabels &&
       OptionStyleOf(s, o) == Correct && OptionStyleOf(s, o') == Correct) ==> o == o'
    ensures (exists o :: o in OptionLabels && OptionStyleOf(s, o) == Wrong) <==>
      !IsCorrect(s) && s.selected in OptionLabels
  {
    SampleAnswersAreLabels();
    assert SampleQuestions[s.index] in SampleQuestions;
    var a := Answer(s);
    assert OptionStyleOf(s, a) == Correct;
    if !IsCorrect(s) && s.selected in OptionLabels {
      assert OptionStyleOf(s, s.selected) == Wrong;
    }
  }

  /** JavaScript's `%`, whose result takes the sign of the dividend. */
  function JsRem(a: int, b: int): (r: int)
    requires b > 0
    ensures a >= 0 ==> 0 <= r < b
    ensures a < 0 ==> -b < r <= 0
    ensures (a - r) % b == 0
  {
    var n := if a >= 0 then a else -a;
    var q, m := n / b, n % b;
    assert n == q * b + m;
    var r := if a >= 0 then m else -m;
    assert a - r == (if a >= 0 then q else -q) * b;
    MultipleMod(if a >= 0 then q else -q, b);
    r
  }

  /** A multiple of b leaves no remainder. */
  lemma MultipleMod(k: int, b: int)
    requires b > 0
    ensures (k * b) % b == 0
  {
    var q, r := (k * b) / b, (k * b) % b;
    var d := k - q;
    assert d * b == r by {
      assert k * b == q * b + r;
      assert d * b == k * b - q * b;
    }
    if d >= 1 {
      MulAtLeast(d, b);
    } else if d <= -1 {
      MulAtLeast(-d, b);
    }
  }

  lemma {:induction false} MulAtLeast(d: int, b: int)
    requires d >= 1 && b > 0
    ensures d * b >= b
    decreases d
  {
    if d > 1 {
      MulAtLeast(d - 1, b);
      assert d * b == (d - 1) * b + b;
    }
  }

  /** The clock as rendered: Math.floor(t / 60), a colon, then t % 60 padded
      to two digits with '0'. (Dafny's `/` by a positive divisor rounds
      down, as Math.floor does.) */
  function TimerDisplay(t: int): (r: string)
    ensures 0 <= t < 600 ==> |r| == 4 && r[1] == ':'
    ensures 0 <= t ==> |r| >= 4 && r[|r| - 3] == ':'
    ensures |r| > 4 ==> r[0] != '0'
  {
    IntToString(t / 60) + ":" + PadStart(IntToString(JsRem(t, 60)), 2, '0')
  }

  /** The seconds field: always two digits, reading back as the seconds. */
  lemma PaddedSeconds(n: nat)
    requires n < 60
    ensures var p := PadStart(NatToDecimal(n), 2, '0');
      |p| == 2 && AllDigits(p) && DecimalValue(p) == n
  {
    var d := NatToDecimal(n);
    var p := PadStart(d, 2, '0');
    DecimalRoundTrip(n);
    if n < 10 {
      assert p == ['0'] + d;
      assert p[..1] == ['0'];
    }
  }

  /** The rendered clock reads back as the number of seconds left. */
  lemma TimerDisplayRoundTrip(t: int)
    requires 0 <= t
    ensures var r := TimerDisplay(t);
      AllDigits(r[..|r| - 3]) && AllDigits(r[|r| - 2..]) &&
      DecimalValue(r[..|r| - 3]) == t / 60 && DecimalValue(r[|r| - 2..]) == t % 60 &&
      DecimalValue(r[..|r| - 3]) * 60 + DecimalValue(r[|r| - 2..]) == t
  {
    var minutes, seconds := t / 60, t % 60;
    var m, p := NatToDecimal(minutes), PadStart(NatToDecimal(seconds), 2, '0');
    assert TimerDisplay(t) == m + ":" + p;
    PaddedSeconds(seconds);
    DecimalRoundTrip(minutes);
    var r := TimerDisplay(t);
    assert r[..|r| - 3] == m;
    assert r[|r| - 2..] == p;
  }

  // ---------------------------------------------------------------------
  // The component itself.
  // ---------------------------------------------------------------------

  /** One mounted QuestionInterface: its six pieces of state. */
  class Session {
    var index: int
    var selected: string
    var showResult: bool
    var timeLeft: int
    var score: int
    var attempted: int

    function Snapshot(): State
      reads this
    {
      State(index, selected, showResult, timeLeft, score, attempted)
    }

    predicate Valid()
      reads this
    {
      Inv(Snapshot())
    }

    constructor ()
      ensures Valid() && Snapshot() == Initial()
    {
      index, selected, showResult := 0, "", false;
      timeLeft, score, attempted := QuestionTime, 0, 0;
    }

    /** handleAnswerSelect */
    method SelectAnswer(option: string)
      requires Valid()
      modifies this
      ensures Valid() && Snapshot() == AfterSelect(old(Snapshot()), option)
    {
      if !showResult {
        selected := option;
      }
    }

    /** handleSubmit */
    method Submit()
      requires Valid()
      modifies this
      ensures Valid() && Snapshot() == AfterSubmit(old(Snapshot()))
    {
      if selected != "" || timeLeft == 0 {
        showResult := true;
        attempted := attempted + 1;
        if selected == SampleQuestions[index].answer {
          score := score + 1;
        }
      }
    }

    /** handleNext */
    method Next()
      requires Valid()
      modifies this
      ensures Valid() && Snapshot() == AfterNext(old(Snapshot()))
    {
      if index < |SampleQuestions| - 1 {
        index := index + 1;
        selected := "";
        showResult := false;
        timeLeft := QuestionTime;
      }
    }

    /** handleRestart */
    method Restart()
      requires Valid()
      modifies this
      ensures Valid() && Snapshot() == AfterRestart(old(Snapshot()))
    {
      index := 0;
      selected := "";
      showResult := false;
      timeLeft := QuestionTime;
      score := 0;
      attempted := 0;
    }

    /** One run of the timer effect. */
    method TimerStep()
      requires Valid()
      modifies this
      ensures Valid() && Snapshot() == AfterTimerStep(old(Snapshot()))
    {
      if timeLeft > 0 && !showResult {
        timeLeft := timeLeft - 1;
      } else if timeLeft == 0 {
        Submit();
      }
    }
  }

  /** Answering all three questions correctly, with Next between them, ends
      on the last question, revealed, with three of three. */
  method AllCorrectSession() returns (index: int, shown: bool, score: int, attempted: int)
    ensures index == 2 && shown && score == 3 && attempted == 3
  {
    var session := new Session();
    session.SelectAnswer("d");
    session.Submit();
    session.Next();
    session.SelectAnswer("d");
    session.Submit();
    session.Next();
    session.SelectAnswer("a");
    session.Submit();
    index, shown := session.index, session.showResult;
    score, attempted := session.score, session.attempted;
  }
}

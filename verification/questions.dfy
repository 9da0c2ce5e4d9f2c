/** The questionnaire pages (src/app/create/questions/page.tsx and
    app/create/questions/page.tsx): one question at a time, an answer map
    keyed by question index, previous and next buttons, and a hand-off to the
    source-selection page after the last question. The questions endpoint's
    answer is a parameter; only the number of questions matters here. */
module Questions {
  import opened Wrappers

  /** The navigation state. `current` is an `int` because nothing in the
      page's code keeps it from leaving the range. */
  datatype Quiz = Quiz(topic: string, count: nat, current: int, answers: map<int, string>)

  /** Where the last next-click sends the learner. */
  datatype Navigation = ToSources(topic: string, answers: map<int, string>)

  datatype NextResult = Moved(quiz: Quiz) | Leave(to: Navigation)

  /** The endpoint: `data.success` with the questions, `data.error` (maybe
      absent) otherwise, or an exception. */
  datatype QuestionsResponse = Generated(count: nat) | Refused(error: Option<string>) | Threw

  datatype Screen = RedirectHome | Loaded(quiz: Quiz) | Failed(message: string)

  const DefaultError := "Erro ao gerar perguntas"
  const ConnectionError := "Falha na conex\U{E3}o. Tente novamente."

  predicate InRange(q: Quiz) {
    0 <= q.current < q.count
  }

  /** The effect on mount and `generateQuestions`: no topic sends the learner
      home without asking for questions. */
  function Start(topic: Option<string>, response: QuestionsResponse): (s: Screen)
    ensures s.RedirectHome? <==> topic.None? || topic.value == ""
    ensures s.Loaded? ==> response.Generated? && s.quiz == Quiz(topic.value, response.count, 0, map[])
    ensures s.Failed? && response.Threw? ==> s.message == ConnectionError
    ensures s.Failed? && response.Refused? ==>
              s.message == (if response.error.Some? && response.error.value != "" then response.error.value else DefaultError)
  {
    if topic.None? || topic.value == "" then RedirectHome
    else match response
      case Generated(n) => Loaded(Quiz(topic.value, n, 0, map[]))
      case Refused(e) => Failed(if e.Some? && e.value != "" then e.value else DefaultError)
      case Threw => Failed(ConnectionError)
  }

  /** `handleAnswer`: the current question's entry, and only it, is set. */
  function Answer(q: Quiz, optionId: string): (r: Quiz)
    ensures r.current == q.current && r.count == q.count && r.topic == q.topic
    ensures q.current in r.answers && r.answers[q.current] == optionId
    ensures forall k :: k != q.current ==> (k in r.answers <==> k in q.answers)
    ensures forall k :: k != q.current && k in q.answers ==> r.answers[k] == q.answers[k]
  {
    q.(answers := q.answers[q.current := optionId])
  }

  /** `nextQuestion` when the decision reads the current index. */
  function Next(q: Quiz): (r: NextResult)
    ensures r.Moved? <==> q.current < q.count - 1
    ensures r.Moved? ==> r.quiz == q.(current := q.current + 1)
    ensures r.Leave? ==> r.to == ToSources(q.topic, q.answers)
  {
    if q.current < q.count - 1 then Moved(q.(current := q.current + 1))
    else Leave(ToSources(q.topic, q.answers))
  }

  /** `prevQuestion` when the decision reads the current index. */
  function Prev(q: Quiz): (r: Quiz)
    ensures q.current > 0 ==> r == q.(current := q.current - 1)
    ensures q.current <= 0 ==> r == q
  {
    if q.current > 0 then q.(current := q.current - 1) else q
  }

  /** Neither button leaves the range. */
  lemma NavigationKeepsRange(q: Quiz)
    requires InRange(q)
    ensures Next(q).Moved? ==> InRange(Next(q).quiz)
    ensures InRange(Prev(q))
  {
  }

  /** Going forward then back returns to the same question, answers intact. */
  lemma NextThenPrev(q: Quiz)
    requires InRange(q) && Next(q).Moved?
    ensures Prev(Next(q).quiz) == q
  {
  }

  /** The previous button is disabled on the first question, the next
      button until the current question has a (non-empty) answer. */
  predicate PrevEnabled(q: Quiz) {
    q.current != 0
  }

  predicate NextEnabled(q: Quiz) {
    q.current in q.answers && q.answers[q.current] != ""
  }

  /** After answering, next is enabled (for a non-empty option id). */
  lemma AnswerEnablesNext(q: Quiz, optionId: string)
    requires optionId != ""
    ensures NextEnabled(Answer(q, optionId))
  {
  }

  predicate IsLast(q: Quiz) {
    q.current == q.count - 1
  }

  /** Next leaves the questionnaire exactly on the last question. */
  lemma LeavesOnlyFromLast(q: Quiz)
    requires InRange(q)
    ensures Next(q).Leave? <==> IsLast(q)
  {
  }

  /** The progress bar: `(current + 1) / count * 100`. */
  function Progress(q: Quiz): (p: real)
    requires InRange(q)
    ensures 0.0 < p <= 100.0
    ensures p == 100.0 <==> IsLast(q)
  {
    var c := (q.current + 1) as real;
    var n := q.count as real;
    assert c <= n;
    assert c / n <= 1.0;
    assert c == n ==> c / n == 1.0;
    assert c < n ==> c / n < 1.0;
    (c / n) * 100.0
  }

  /** Moving to the next question moves the bar forward. */
  lemma ProgressGrows(q: Quiz)
    requires InRange(q) && Next(q).Moved?
    ensures Progress(q) < Progress(Next(q).quiz)
  {
    var n := q.count as real;
    var a := (q.current + 1) as real;
    assert a / n < (a + 1.0) / n;
  }

  /** The next button's label on the older page. */
  function NextLabel(q: Quiz): (s: string)
    ensures s == "Finalizar" <==> IsLast(q)
  {
    if IsLast(q) then "Finalizar" else "Pr\U{F3}xima"
  }

  /** The next button's label on the newer page. */
  function NextLabelTimed(q: Quiz): (s: string)
    ensures s == "Criar Trilha" <==> IsLast(q)
  {
    if IsLast(q) then "Criar Trilha" else "Pr\U{F3}xima"
  }
}

/** The newer questionnaire (app/create/questions/page.tsx) acts 300 ms after
    each click, through a callback that was created with the index at click
    time. The navigation buttons stay enabled meanwhile, so two quick clicks
    both act on the same remembered index. `Fire` runs the oldest pending
    callback as the page's code does; `FireFixed` makes the same decision on
    the index as it is when the callback runs. */
module TimedQuestions {
  import opened Wrappers
  import Questions

  type Quiz = Questions.Quiz

  /** A scheduled callback and what it remembered when it was created. */
  datatype Pending = PendingNext(seen: int, seenAnswers: map<int, string>) | PendingPrev(seen: int)

  datatype Page = Page(quiz: Quiz, transitioning: bool, pending: seq<Pending>, navigation: Option<Questions.Navigation>)

  datatype Event = ClickNext | ClickPrev | Choose(optionId: string) | Tick

  function Loaded(q: Quiz): Page {
    Page(q, false, [], None)
  }

  /** Clicks on enabled buttons schedule a callback; clicks on disabled
      buttons do nothing. `Choose` is accepted even while a transition is
      pending, although the page shows the options only when it is not, so
      the events allowed here are a superset of what the page allows; a
      property proved for every event sequence holds for the page's. */
  function Click(p: Page, e: Event): (r: Page)
    requires !e.Tick?
    ensures r.quiz.current == p.quiz.current && r.quiz.count == p.quiz.count
    ensures |r.pending| <= |p.pending| + 1
  {
    match e
    case ClickNext =>
      if Questions.NextEnabled(p.quiz) then
        p.(transitioning := true, pending := p.pending + [PendingNext(p.quiz.current, p.quiz.answers)])
      else p
    case ClickPrev =>
      if Questions.PrevEnabled(p.quiz) then
        p.(transitioning := true, pending := p.pending + [PendingPrev(p.quiz.current)])
      else p
    case Choose(o) => p.(quiz := Questions.Answer(p.quiz, o))
  }

  /** The oldest callback, as written: the test reads the remembered index,
      the update applies to the latest one. */
  function Fire(p: Page): (r: Page)
    ensures p.pending == [] ==> r == p
    ensures p.pending != [] ==> |r.pending| == |p.pending| - 1 && !r.transitioning
    ensures p.pending != [] && p.pending[0].PendingNext? && p.pending[0].seen < p.quiz.count - 1 ==>
              r.quiz.current == p.quiz.current + 1
    ensures p.pending != [] && p.pending[0].PendingPrev? && p.pending[0].seen > 0 ==>
              r.quiz.current == p.quiz.current - 1
  {
    if p.pending == [] then p
    else
      var cb := p.pending[0];
      var q := p.quiz;
      var p1 := p.(pending := p.pending[1..], transitioning := false);
      match cb
      case PendingNext(seen, seenAnswers) =>
        if seen < q.count - 1 then p1.(quiz := q.(current := q.current + 1))
        else p1.(navigation := Some(Questions.ToSources(q.topic, seenAnswers)))
      case PendingPrev(seen) =>
        if seen > 0 then p1.(quiz := q.(current := q.current - 1)) else p1
  }

  /** The oldest callback deciding on the index as it is now. */
  function FireFixed(p: Page): (r: Page)
    ensures p.pending == [] ==> r == p
    ensures p.pending != [] ==> |r.pending| == |p.pending| - 1 && !r.transitioning
    ensures p.pending != [] && p.pending[0].PendingNext? ==>
              match Questions.Next(p.quiz)
              case Moved(q) => r.quiz == q && r.navigation == p.navigation
              case Leave(nav) => r.quiz == p.quiz && r.navigation == Some(nav)
    ensures p.pending != [] && p.pending[0].PendingPrev? ==>
              r.quiz == Questions.Prev(p.quiz) && r.navigation == p.navigation
  {
    if p.pending == [] then p
    else
      var p1 := p.(pending := p.pending[1..], transitioning := false);
      match p.pending[0]
      case PendingNext(_, _) =>
        (match Questions.Next(p.quiz)
         case Moved(q) => p1.(quiz := q)
         case Leave(nav) => p1.(navigation := Some(nav)))
      case PendingPrev(_) => p1.(quiz := Questions.Prev(p.quiz))
  }

  function Run(p: Page, events: seq<Event>): Page
    decreases |events|
  {
    if |events| == 0 then p
    else
      var p1 := if events[0].Tick? then Fire(p) else Click(p, events[0]);
      Run(p1, events[1..])
  }

  function RunFixed(p: Page, events: seq<Event>): Page
    decreases |events|
  {
    if |events| == 0 then p
    else
      var p1 := if events[0].Tick? then FireFixed(p) else Click(p, events[0]);
      RunFixed(p1, events[1..])
  }

  /** Two quick next-clicks on the second of three questions: both callbacks
      remember index 1 and both move forward, so the index reaches 3. The
      question at index 3 is undefined, and rendering its category throws,
      so the page crashes. */
  lemma DoubleNextLeavesRange()
    ensures var q := Questions.Quiz("react", 3, 1, map[1 := "a"]);
            && Questions.InRange(q)
            && Run(Loaded(q), [ClickNext, ClickNext, Tick, Tick]).quiz.current == 3
  {
    var q := Questions.Quiz("react", 3, 1, map[1 := "a"]);
    var p0 := Loaded(q);
    var p1 := Click(p0, ClickNext);
    var p2 := Click(p1, ClickNext);
    assert p2.pending == [PendingNext(1, q.answers), PendingNext(1, q.answers)];
    var p3 := Fire(p2);
    assert p3.quiz.current == 2 && p3.pending == [PendingNext(1, q.answers)];
    var p4 := Fire(p3);
    assert p4.quiz.current == 3;
    assert Run(p0, [ClickNext, ClickNext, Tick, Tick]) == Run(p1, [ClickNext, Tick, Tick]);
    assert Run(p1, [ClickNext, Tick, Tick]) == Run(p2, [Tick, Tick]);
    assert Run(p2, [Tick, Tick]) == Run(p3, [Tick]);
    assert Run(p3, [Tick]) == Run(p4, []);
  }

  /** Two quick previous-clicks on the second question reach index -1. */
  lemma DoublePrevLeavesRange()
    ensures var q := Questions.Quiz("react", 3, 1, map[]);
            && Questions.InRange(q)
            && Run(Loaded(q), [ClickPrev, ClickPrev, Tick, Tick]).quiz.current == -1
  {
    var q := Questions.Quiz("react", 3, 1, map[]);
    var p0 := Loaded(q);
    var p1 := Click(p0, ClickPrev);
    var p2 := Click(p1, ClickPrev);
    var p3 := Fire(p2);
    assert p3.quiz.current == 0 && p3.pending == [PendingPrev(1)];
    var p4 := Fire(p3);
    assert p4.quiz.current == -1;
    assert Run(p0, [ClickPrev, ClickPrev, Tick, Tick]) == Run(p1, [ClickPrev, Tick, Tick]);
    assert Run(p1, [ClickPrev, Tick, Tick]) == Run(p2, [Tick, Tick]);
    assert Run(p2, [Tick, Tick]) == Run(p3, [Tick]);
    assert Run(p3, [Tick]) == Run(p4, []);
  }

  /** With the decision made on the latest index, no sequence of clicks,
      answers and timer callbacks leaves the range. */
  lemma {:induction false} FixedStaysInRange(p: Page, events: seq<Event>)
    requires Questions.InRange(p.quiz)
    ensures Questions.InRange(RunFixed(p, events).quiz)
    decreases |events|
  {
    if |events| > 0 {
      var p1 := if events[0].Tick? then FireFixed(p) else Click(p, events[0]);
      if events[0].Tick? && p.pending != [] {
        Questions.NavigationKeepsRange(p.quiz);
      }
      assert Questions.InRange(p1.quiz);
      FixedStaysInRange(p1, events[1..]);
    }
  }

  /** Without overlapping clicks the two agree: a callback fired before the
      next click saw the index it acts on. */
  lemma FixedAgreesWhenNotOverlapping(p: Page)
    requires |p.pending| == 1 && p.pending[0].seen == p.quiz.current && Questions.InRange(p.quiz)
    ensures FireFixed(p).quiz == Fire(p).quiz
  {
  }
}

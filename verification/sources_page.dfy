/** The source-selection page (app/create/sources/page.tsx): the learner
    toggles sources on and off, the insights endpoint may recommend a
    selection, and continuing needs at least one source. The insights
    endpoint's answer is a parameter. */
module SourcesPage {
  import opened Wrappers
  import opened Text

  datatype Insight = Insight(insightText: string, recommendedSources: Option<seq<string>>)

  /** The `answers` URL parameter after `JSON.parse`: an array, an object
      (of which the values are taken, in order), or text that does not parse. */
  datatype AnswersParam = NoAnswers | AnswerArray(items: seq<string>) | AnswerObject(values: seq<string>) | Unparsable

  /** The insights endpoint: an ok response carries `success` and maybe
      `insights`. */
  datatype InsightsResponse = InsightsOk(success: bool, insights: Option<Insight>) | InsightsNotOk | InsightsThrew

  datatype State = State(
    topic: string,
    answers: seq<string>,
    selected: seq<string>,
    insights: Option<Insight>,
    isLoadingInsights: bool,
    useAISuggestions: bool)

  const NoInsightsText := "N\U{E3}o foi poss\U{ED}vel gerar insights personalizados. Por favor, selecione as fontes manualmente."
  const ErrorInsightsText := "Erro ao gerar insights personalizados. Por favor, selecione as fontes manualmente."

  // ---------------------------------------------------------------------
  // Toggling.

  /** `prev.filter(id => id !== sourceId)`. */
  function Remove(s: seq<string>, x: string): (r: seq<string>)
    ensures |r| <= |s|
    ensures forall y :: y in r <==> y in s && y != x
  {
    if |s| == 0 then []
    else (if s[0] == x then [] else [s[0]]) + Remove(s[1..], x)
  }

  /** Removing an absent id changes nothing. */
  lemma {:induction false} RemoveAbsent(s: seq<string>, x: string)
    requires x !in s
    ensures Remove(s, x) == s
  {
    if |s| > 0 {
      assert x !in s[1..];
      RemoveAbsent(s[1..], x);
      assert s == [s[0]] + s[1..];
    }
  }

  lemma {:induction false} RemoveAppend(a: seq<string>, b: seq<string>, x: string)
    ensures Remove(a + b, x) == Remove(a, x) + Remove(b, x)
  {
    if |a| == 0 {
      assert a + b == b;
    } else {
      assert (a + b)[0] == a[0];
      assert (a + b)[1..] == a[1..] + b;
      RemoveAppend(a[1..], b, x);
      var h := if a[0] == x then [] else [a[0]];
      assert h + (Remove(a[1..], x) + Remove(b, x)) == (h + Remove(a[1..], x)) + Remove(b, x);
    }
  }

  /** `toggleSource`: a selected id is removed (every copy), any other id is
      appended at the end. */
  function Toggle(selected: seq<string>, id: string): (r: seq<string>)
    ensures id in selected ==> id !in r && forall y :: y != id ==> (y in r <==> y in selected)
    ensures id !in selected ==> r == selected + [id]
  {
    if id in selected then Remove(selected, id) else selected + [id]
  }

  /** Toggling twice restores membership of every id, and restores the very
      same list when the id was not selected to begin with. */
  lemma ToggleTwice(selected: seq<string>, id: string)
    ensures forall y :: y in Toggle(Toggle(selected, id), id) <==> y in selected
    ensures id !in selected ==> Toggle(Toggle(selected, id), id) == selected
  {
    if id !in selected {
      RemoveAppend(selected, [id], id);
      RemoveAbsent(selected, id);
      assert Remove([id], id) == [];
    }
  }

  // ---------------------------------------------------------------------
  // Answers and insights.

  /** `Array.isArray(parsed) ? parsed : Object.values(parsed)`; nothing when
      the parameter is absent or does not parse. */
  function ParseAnswers(p: AnswersParam): (r: Option<seq<string>>)
    ensures p.AnswerArray? ==> r == Some(p.items)
    ensures p.AnswerObject? ==> r == Some(p.values)
    ensures r.None? <==> p.NoAnswers? || p.Unparsable?
  {
    match p
    case AnswerArray(items) => Some(items)
    case AnswerObject(values) => Some(values)
    case _ => None
  }

  /** The effect reading the URL: the topic when present, the answers when
      they parse and differ from the current ones. */
  function ReadParams(s: State, topic: Option<string>, answers: AnswersParam): (t: State)
    ensures t.selected == s.selected && t.insights == s.insights && t.useAISuggestions == s.useAISuggestions
    ensures ParseAnswers(answers).None? ==> t.answers == s.answers
    ensures ParseAnswers(answers).Some? ==> t.answers == ParseAnswers(answers).value
  {
    var s1 := if topic.Some? && topic.value != "" then s.(topic := topic.value) else s;
    match ParseAnswers(answers)
    case Some(a) => if a != s1.answers then s1.(answers := a) else s1
    case None => s1
  }

  /** Reading the same parameters again changes nothing, which is what stops
      the effect from re-running forever. */
  lemma ReadParamsSettles(s: State, topic: Option<string>, answers: AnswersParam)
    ensures ReadParams(ReadParams(s, topic, answers), topic, answers) == ReadParams(s, topic, answers)
  {
  }

  /** The effect that asks for insights. */
  predicate ShouldGenerate(s: State) {
    |s.answers| > 0 && s.insights.None? && !s.isLoadingInsights
  }

  /** The effect over `[answers, insights, isLoadingInsights]`: insights are
      asked for once there are answers, and the page then holds some. */
  function OnAnswers(s: State, response: InsightsResponse): (t: State)
    ensures !ShouldGenerate(s) ==> t == s
    ensures ShouldGenerate(s) ==> t == GenerateInsights(s, response) && t.insights.Some?
    ensures t.answers == s.answers && t.topic == s.topic
  {
    if ShouldGenerate(s) then GenerateInsights(s, response) else s
  }

  /** Insights are asked for at most once: the effect firing again, whatever
      the endpoint would answer, changes nothing. */
  lemma OnAnswersOnce(s: State, r1: InsightsResponse, r2: InsightsResponse)
    ensures OnAnswers(OnAnswers(s, r1), r2) == OnAnswers(s, r1)
  {
  }

  /** The effect over `[insights, useAISuggestions]`: with suggestions on,
      any recommendation list, even an empty one, becomes the selection. */
  function ApplySuggestions(s: State): (t: State)
    ensures t == s.(selected := t.selected)
    ensures s.useAISuggestions && s.insights.Some? && s.insights.value.recommendedSources.Some? ==>
              t.selected == s.insights.value.recommendedSources.value
    ensures !s.useAISuggestions || s.insights.None? || s.insights.value.recommendedSources.None? ==>
              t.selected == s.selected
  {
    if s.useAISuggestions && s.insights.Some? && s.insights.value.recommendedSources.Some? then
      s.(selected := s.insights.value.recommendedSources.value)
    else s
  }

  /** `generateInsights` followed by the effect it triggers. A response
      without usable insights installs a fallback recommending nothing. */
  function GenerateInsights(s: State, response: InsightsResponse): (t: State)
    ensures s.isLoadingInsights ==> t == s
    ensures !s.isLoadingInsights ==> t.insights.Some? && !t.isLoadingInsights
    ensures !s.isLoadingInsights && response.InsightsThrew? ==> t.insights == Some(Insight(ErrorInsightsText, Some([])))
    ensures !s.isLoadingInsights && (response.InsightsNotOk? || (response.InsightsOk? && !(response.success && response.insights.Some?))) ==>
              t.insights == Some(Insight(NoInsightsText, Some([])))
    ensures !s.isLoadingInsights && response.InsightsOk? && response.success && response.insights.Some? ==>
              t.insights == response.insights
  {
    if s.isLoadingInsights then s
    else
      var s1 := match response
        case InsightsOk(success, insights) =>
          if success && insights.Some? then
            var rec := insights.value.recommendedSources;
            var sel := if rec.Some? && |rec.value| > 0 then rec.value else s.selected;
            s.(insights := insights, selected := sel)
          else s.(insights := Some(Insight(NoInsightsText, Some([]))))
        case InsightsNotOk => s.(insights := Some(Insight(NoInsightsText, Some([]))))
        case InsightsThrew => s.(insights := Some(Insight(ErrorInsightsText, Some([]))));
      ApplySuggestions(s1)
  }

  /** With suggestions on, a failed insights request clears the selection. */
  lemma FailureClearsSelection(s: State, response: InsightsResponse)
    requires !s.isLoadingInsights && s.useAISuggestions
    requires !response.InsightsOk? || !response.success || response.insights.None?
    ensures GenerateInsights(s, response).selected == []
  {
  }

  /** With suggestions on, a successful request selects what it recommends. */
  lemma SuccessSelectsRecommended(s: State, insight: Insight)
    requires !s.isLoadingInsights && s.useAISuggestions && insight.recommendedSources.Some?
    ensures GenerateInsights(s, InsightsOk(true, Some(insight))).selected == insight.recommendedSources.value
  {
  }

  /** The switch: turning suggestions off keeps the selection. */
  function SetUseAISuggestions(s: State, on: bool): (t: State)
    ensures t.useAISuggestions == on
    ensures !on ==> t.selected == s.selected
    ensures t.insights == s.insights && t.answers == s.answers
  {
    ApplySuggestions(s.(useAISuggestions := on))
  }

  // ---------------------------------------------------------------------
  // Continuing.

  datatype Navigation = ToProcessing(topic: string, answers: seq<string>, sources: seq<string>)

  /** `handleContinue`: nowhere to go without a source. */
  function Continue(s: State): (r: Option<Navigation>)
    ensures r.None? <==> s.selected == []
    ensures r.Some? ==> r.value.topic == s.topic && r.value.answers == s.answers && r.value.sources == s.selected
  {
    if |s.selected| == 0 then None else Some(ToProcessing(s.topic, s.answers, s.selected))
  }

  /** Whether the continue button is enabled. */
  predicate CanContinue(s: State) {
    |s.selected| > 0
  }

  lemma ContinueEnabledIffNavigates(s: State)
    ensures CanContinue(s) <==> Continue(s).Some?
  {
  }

  /** The counter under the list. */
  function CounterLabel(n: nat): (r: string)
    ensures n == 0 ==> r == "Selecione pelo menos uma fonte"
  {
    if n == 0 then "Selecione pelo menos uma fonte"
    else
      var plural := if n > 1 then "s" else "";
      NatToString(n) + " fonte" + plural + " selecionada" + plural
  }

  /** A non-empty selection's label starts with its count written in digits,
      and the words are plural exactly when more than one is selected. */
  lemma CounterLabelCount(n: nat)
    requires n > 0
    ensures var r := CounterLabel(n);
            exists k :: 0 < k <= |r| && AllDigits(r[..k]) && DigitsValue(r[..k]) == n
                        && r[k..] == (if n > 1 then " fontes selecionadas" else " fonte selecionada")
  {
    var d := NatToString(n);
    var r := CounterLabel(n);
    if n > 1 {
      assert r == d + " fontes selecionadas";
    } else {
      assert r == d + " fonte selecionada";
    }
    assert r[..|d|] == d;
  }

  lemma CounterLabelOne()
    ensures CounterLabel(1) == "1 fonte selecionada"
  {
    assert NatToString(1) == "1";
  }
}

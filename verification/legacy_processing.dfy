/** The earlier processing page (app/create/processing/page.tsx): only the
    search step does work; the other three merely pass through processing to
    completed, and the page completes after the fourth step. When the
    discover request throws, four demonstration items about the topic are
    shown instead. */
module LegacyProcessing {
  import opened Wrappers
  import opened Steps
  import MockDiscover

  type Item = MockDiscover.MockItem

  datatype SearchResult = SearchOk(content: Option<seq<Item>>) | SearchNotOk | SearchThrew

  datatype Page = Page(
    topic: string,
    sources: seq<string>,
    steps: seq<Step>,
    content: seq<Item>,
    isComplete: bool,
    hasStarted: bool,
    currentStep: nat)

  function InitialPage(topic: string, sources: seq<string>): Page {
    Page(topic, sources, InitialSteps(), [], false, false, 0)
  }

  const DemoIntro := "Introdu\U{E7}\U{E3}o ao "
  const DemoIntroDesc := "Um guia completo para iniciantes"
  const DemoVideoUrl := "https://www.youtube.com/watch?v=dQw4w9WgXcQ"
  const DemoThumb := "https://i.ytimg.com/vi/dQw4w9WgXcQ/hq720.jpg"
  const DemoProject := " - Projeto Pr\U{E1}tico"
  const DemoProjectDesc := "Reposit\U{F3}rio com exemplos pr\U{E1}ticos de c\U{F3}digo para aprender."
  const DemoRepoUrl := "https://github.com/example/repo"
  const DemoArticle := "Artigo sobre "
  const DemoArticleDesc := "Um artigo aprofundado sobre os conceitos avan\U{E7}ados."
  const DemoArticleUrl := "https://medium.com/example/article"
  const DemoBook := "Livro: Dominando "
  const DemoBookDesc := "Um livro abrangente para se tornar um especialista."
  const DemoBookUrl := "https://example.com/book"

  /** The four items shown when the discover request throws. */
  function DemoContent(topic: string): (items: seq<Item>)
    ensures |items| == 4
    ensures forall i :: 0 <= i < 4 ==> items[i].id == ["1", "2", "3", "4"][i] && items[i].rating.Some?
    ensures items[0].title == DemoIntro + topic
    ensures items[3].title == DemoBook + topic
  {
    [ MockDiscover.MockItem("1", DemoIntro + topic, DemoIntroDesc, DemoVideoUrl, "youtube", "video",
        Some("15 min"), Some("Tech Expert"), Some(4.8), Some(DemoThumb)),
      MockDiscover.MockItem("2", topic + DemoProject, DemoProjectDesc, DemoRepoUrl, "github", "repository",
        None, Some("DevCommunity"), Some(4.5), None),
      MockDiscover.MockItem("3", DemoArticle + topic, DemoArticleDesc, DemoArticleUrl, "medium", "article",
        None, Some("Knowledge Hub"), Some(4.2), None),
      MockDiscover.MockItem("4", DemoBook + topic, DemoBookDesc, DemoBookUrl, "books", "book",
        None, Some("Master Minds"), Some(4.9), None) ]
  }

  /** The content after the search step. */
  function SearchContent(current: seq<Item>, topic: string, search: SearchResult): (r: seq<Item>)
    ensures search.SearchOk? ==> r == search.content.GetOr([])
    ensures search.SearchNotOk? ==> r == current
    ensures search.SearchThrew? ==> |r| == 4 && r == DemoContent(topic)
  {
    match search
    case SearchOk(c) => c.GetOr([])
    case SearchNotOk => current
    case SearchThrew => DemoContent(topic)
  }

  /** `processStep(stepIndex)`: every existing step ends completed; only the
      search step touches the content. */
  function ProcessStep(p: Page, index: nat, search: SearchResult): (q: Page)
    ensures |q.steps| == |p.steps|
    ensures forall j :: 0 <= j < |q.steps| ==> q.steps[j].id == p.steps[j].id
    ensures forall j :: 0 <= j < |q.steps| && j != index ==> q.steps[j] == p.steps[j]
    ensures index < |p.steps| ==> q.steps[index].status == Completed
    ensures index < |p.steps| && p.steps[index].id == Search ==> q.content == SearchContent(p.content, p.topic, search)
    ensures index >= |p.steps| || p.steps[index].id != Search ==> q.content == p.content
    ensures q.isComplete == p.isComplete && q.hasStarted == p.hasStarted && q.topic == p.topic
  {
    if index >= |p.steps| then p
    else
      var marked := p.(steps := SetStatus(p.steps, index, Processing));
      var content := if p.steps[index].id == Search then SearchContent(p.content, p.topic, search) else p.content;
      marked.(content := content, steps := SetStatus(marked.steps, index, Completed))
  }

  /** The loop of `startProcessing` from step `from` on. */
  function RunFrom(p: Page, from: nat, search: SearchResult): (q: Page)
    requires from <= |p.steps|
    ensures |q.steps| == |p.steps|
    ensures forall j :: 0 <= j < |q.steps| ==> q.steps[j].id == p.steps[j].id
    ensures forall j :: 0 <= j < from ==> q.steps[j] == p.steps[j]
    ensures forall j :: from <= j < |q.steps| ==> q.steps[j].status == Completed
    ensures (forall j :: from <= j < |p.steps| ==> p.steps[j].id != Search) ==> q.content == p.content
    ensures q.isComplete == p.isComplete && q.hasStarted == p.hasStarted && q.topic == p.topic
    decreases |p.steps| - from
  {
    if from == |p.steps| then p
    else RunFrom(ProcessStep(p.(currentStep := from), from, search), from + 1, search)
  }

  /** `startProcessing`: a no-op once started; otherwise every step runs and
      the page completes. */
  function StartProcessing(p: Page, search: SearchResult): (q: Page)
    ensures q.hasStarted
    ensures p.hasStarted ==> q == p
    ensures !p.hasStarted ==> q.isComplete
    ensures !p.hasStarted ==> |q.steps| == |p.steps| && forall j :: 0 <= j < |q.steps| ==> q.steps[j].status == Completed
  {
    if p.hasStarted then p
    else RunFrom(p.(hasStarted := true), 0, search).(isComplete := true)
  }

  /** The effect that starts the run. */
  predicate ShouldStart(p: Page) {
    p.topic != "" && |p.sources| > 0 && !p.hasStarted
  }

  /** The effect over `[topic, sources, startProcessing]`: with a topic and a
      source the page runs and completes; without, it waits. */
  function OnMount(p: Page, search: SearchResult): (q: Page)
    ensures q.hasStarted <==> p.hasStarted || (p.topic != "" && |p.sources| > 0)
    ensures !ShouldStart(p) ==> q == p
    ensures ShouldStart(p) ==> q.isComplete && q == StartProcessing(p, search)
  {
    if ShouldStart(p) then StartProcessing(p, search) else p
  }

  /** The effect firing again changes nothing. */
  lemma OnMountOnce(p: Page, s1: SearchResult, s2: SearchResult)
    ensures OnMount(OnMount(p, s1), s2) == OnMount(p, s1)
  {
  }

  /** A run from the initial page ends with exactly the search step's content. */
  lemma RunShowsSearchResult(topic: string, sources: seq<string>, search: SearchResult)
    ensures var q := StartProcessing(InitialPage(topic, sources), search);
            q.isComplete && q.content == SearchContent([], topic, search)
  {
    var p0 := InitialPage(topic, sources).(hasStarted := true);
    var p1 := ProcessStep(p0, 0, search);
    assert p1.content == SearchContent([], topic, search);
    assert RunFrom(p0, 0, search) == RunFrom(p1, 1, search);
  }

  /** The second call does nothing. */
  lemma StartOnce(p: Page, s1: SearchResult, s2: SearchResult)
    ensures StartProcessing(StartProcessing(p, s1), s2) == StartProcessing(p, s1)
  {
  }
}

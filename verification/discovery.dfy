/** The content discovery service (src/services/content/discovery.service.ts):
    three searches whose network results arrive as parameters, the helpers that
    turn a raw result into a `ContentItem`, and `discoverContent`, which joins
    the per-type batches in a fixed order, adds a cultural score, sorts by the
    combined score and keeps the first `limit` items. */
module Discovery {
  import opened Wrappers
  import opened Text
  import opened Types
  import opened JsMath
  import opened StableSort
  import Duration
  import ScrapedText

  // ---------------------------------------------------------------------
  // Reading time: `Math.ceil(content.split(' ').length / 200)`.

  const WordsPerMinute: nat := 200

  function CountSpaces(s: string): (n: nat)
    ensures n <= |s|
    ensures n == multiset(s)[' ']
  {
    if |s| == 0 then 0
    else
      assert s == [s[0]] + s[1..];
      (if s[0] == ' ' then 1 else 0) + CountSpaces(s[1..])
  }

  /** `s.split(' ')`: the pieces between single spaces, empty pieces kept. */
  function SplitOnSpace(s: string): (parts: seq<string>)
    ensures |parts| == CountSpaces(s) + 1
    ensures forall i :: 0 <= i < |parts| ==> ' ' !in parts[i]
  {
    if |s| == 0 then [""]
    else
      var rest := SplitOnSpace(s[1..]);
      if s[0] == ' ' then [""] + rest
      else [[s[0]] + rest[0]] + rest[1..]
  }

  /** `parts.join(' ')`. */
  function JoinOnSpace(parts: seq<string>): string
    requires |parts| > 0
  {
    if |parts| == 1 then parts[0] else parts[0] + " " + JoinOnSpace(parts[1..])
  }

  /** Splitting on spaces loses nothing: joining the pieces restores the text. */
  lemma {:induction false} SplitJoin(s: string)
    ensures JoinOnSpace(SplitOnSpace(s)) == s
  {
    if |s| > 0 {
      var rest := SplitOnSpace(s[1..]);
      SplitJoin(s[1..]);
      if s[0] == ' ' {
        assert ([""] + rest)[1..] == rest;
      } else {
        var parts := [[s[0]] + rest[0]] + rest[1..];
        if |rest| == 1 {
          assert JoinOnSpace(rest) == rest[0];
        } else {
          assert parts[1..] == rest[1..];
          assert JoinOnSpace(rest) == rest[0] + " " + JoinOnSpace(rest[1..]);
        }
      }
    }
  }

  function EstimateReadingTime(content: string): (minutes: nat)
    ensures minutes >= 1
    ensures (minutes as real) - 1.0 < ((CountSpaces(content) + 1) as real) / (WordsPerMinute as real)
    ensures ((CountSpaces(content) + 1) as real) / (WordsPerMinute as real) <= minutes as real
  {
    var wordCount := |SplitOnSpace(content)|;
    CeilRatio(wordCount, WordsPerMinute)
  }

  /** A text reads in one minute exactly when it has fewer than 200 spaces,
      that is at most 200 words; the empty text counts as one word. */
  lemma ShortTextReadsInOneMinute(content: string)
    ensures EstimateReadingTime(content) == 1 <==> CountSpaces(content) < 200
  {
    var m := EstimateReadingTime(content);
    var w := ((CountSpaces(content) + 1) as real) / (WordsPerMinute as real);
    if CountSpaces(content) < 200 {
      assert w <= 1.0;
      assert (m as real) - 1.0 < w;
    } else {
      assert w > 1.0;
      assert w <= m as real;
    }
  }

  // ---------------------------------------------------------------------
  // Difficulty label.

  /** `difficulty.toLowerCase()` compared with the three labels. */
  function ParseDifficulty(name: string): (level: int)
    ensures Lower(name) == "beginner" <==> level == 1
    ensures Lower(name) == "intermediate" <==> level == 3
    ensures Lower(name) == "advanced" <==> level == 5
    ensures level in {1, 2, 3, 5}
  {
    var l := Lower(name);
    if l == "beginner" then 1
    else if l == "intermediate" then 3
    else if l == "advanced" then 5
    else 2
  }

  /** The label each non-default level comes from. */
  function DifficultyLabel(level: int): (name: Option<string>)
    ensures level in {1, 3, 5} <==> name.Some?
  {
    if level == 1 then Some("beginner")
    else if level == 3 then Some("intermediate")
    else if level == 5 then Some("advanced")
    else None
  }

  lemma LowerIdempotent(s: string)
    ensures Lower(Lower(s)) == Lower(s)
  {
    var l := Lower(s);
    assert forall i :: 0 <= i < |s| ==> LowerChar(l[i]) == l[i];
  }

  /** Each level's label parses back to it. */
  lemma DifficultyRoundTrip(level: int)
    ensures DifficultyLabel(level).Some? ==> ParseDifficulty(DifficultyLabel(level).value) == level
  {
    if level == 1 {
      LowerNoUpper("beginner");
    } else if level == 3 {
      LowerNoUpper("intermediate");
    } else if level == 5 {
      LowerNoUpper("advanced");
    }
  }

  /** The label's case does not matter. */
  lemma DifficultyIgnoresCase(name: string)
    ensures ParseDifficulty(Lower(name)) == ParseDifficulty(name)
  {
    LowerIdempotent(name);
  }

  lemma UpperCaseExample()
    ensures ParseDifficulty("Beginner") == 1
    ensures ParseDifficulty("EXPERT") == 2
  {
    LowerBeginner();
    LowerExpert();
  }

  lemma LowerBeginner()
    ensures Lower("Beginner") == "beginner"
  {
    var r := Lower("Beginner");
    assert LowerChar('B') == 'b';
    assert forall i :: 0 <= i < 8 ==> r[i] == "beginner"[i];
  }

  lemma LowerExpert()
    ensures |Lower("EXPERT")| == 6
  {
  }

  // ---------------------------------------------------------------------
  // Search results. Each search either is not configured, throws, finds no
  // `items`, or returns its raw records; the first three give [].

  datatype SearchOutcome<T> = NotConfigured | Threw | NoItems | Items(results: seq<T>)

  /** A YouTube video from the details request; `quality` is the computed
      quality score. */
  datatype Video = Video(id: string, title: string, description: Option<string>, isoDuration: string, quality: real)

  /** The article page fetch: `extractMainContent` of the text left after tag
      stripping, or null when the response is not ok or the fetch throws. */
  datatype PageFetch = PageOk(stripped: string) | PageNotOk | PageThrew

  /** A Google Custom Search hit. */
  datatype Article = Article(link: string, title: string, snippet: string, page: PageFetch, quality: real)

  /** A GitHub repository; `readme` is None when the README fetch fails. */
  datatype Repo = Repo(id: nat, name: string, htmlUrl: string, description: Option<string>, readme: Option<string>, quality: real)

  function Results<T>(o: SearchOutcome<T>): (r: seq<T>)
    ensures !o.Items? ==> r == []
    ensures o.Items? ==> r == o.results
  {
    match o
    case Items(results) => results
    case _ => []
  }

  function VideoItem(v: Video, difficulty: string): (c: ContentItem)
    ensures c.contentType == Types.Video && c.id == v.id && c.qualityScore == v.quality
    ensures c.url == "https://www.youtube.com/watch?v=" + v.id
    ensures c.description == Some(OrElse(v.description, ""))
    ensures c.duration == Some(Duration.ParseYouTubeDuration(v.isoDuration))
  {
    ContentItem(
      id := v.id, title := v.title, url := "https://www.youtube.com/watch?v=" + v.id,
      contentType := Types.Video, source := Some("youtube"),
      description := Some(OrElse(v.description, "")),
      duration := Some(Duration.ParseYouTubeDuration(v.isoDuration)),
      difficulty := Some(ParseDifficulty(difficulty)),
      author := None, rating := None, thumbnail := None,
      culturalScore := 0.0, qualityScore := v.quality,
      isCompleted := None, isApproved := None)
  }

  /** `fetchFullArticleContent`: the cleaned page text, or null. */
  function FullDescription(page: PageFetch): (r: Option<string>)
    ensures page.PageOk? <==> r.Some?
  {
    match page
    case PageOk(stripped) => Some(ScrapedText.ExtractMainContent(stripped))
    case _ => None
  }

  function ArticleItem(a: Article, difficulty: string): (c: ContentItem)
    ensures c.contentType == Types.Article && c.id == a.link && c.url == a.link
    ensures Truthy(FullDescription(a.page)) ==> c.description == FullDescription(a.page)
    ensures !Truthy(FullDescription(a.page)) ==> c.description == Some(a.snippet)
    ensures c.duration == Some(EstimateReadingTime(c.description.value))
  {
    var text := OrElse(FullDescription(a.page), a.snippet);
    ContentItem(
      id := a.link, title := a.title, url := a.link,
      contentType := Types.Article, source := Some("web-article"),
      description := Some(text),
      duration := Some(EstimateReadingTime(text)),
      difficulty := Some(ParseDifficulty(difficulty)),
      author := None, rating := None, thumbnail := None,
      culturalScore := 0.0, qualityScore := a.quality,
      isCompleted := None, isApproved := None)
  }

  /** `readmeContent || item.description || ""`. */
  function RepoText(r: Repo): (t: string)
    ensures Truthy(r.readme) ==> t == r.readme.value
    ensures !Truthy(r.readme) && Truthy(r.description) ==> t == r.description.value
    ensures !Truthy(r.readme) && !Truthy(r.description) ==> t == ""
  {
    OrElse(r.readme, OrElse(r.description, ""))
  }

  function RepoItem(r: Repo, difficulty: string): (c: ContentItem)
    ensures c.contentType == Tutorial && c.url == r.htmlUrl && c.description == Some(RepoText(r))
    ensures AllDigits(c.id) && DigitsValue(c.id) == r.id
  {
    var text := RepoText(r);
    ContentItem(
      id := NatToString(r.id), title := r.name, url := r.htmlUrl,
      contentType := Tutorial, source := Some("github"),
      description := Some(text),
      duration := Some(EstimateReadingTime(text)),
      difficulty := Some(ParseDifficulty(difficulty)),
      author := None, rating := None, thumbnail := None,
      culturalScore := 0.0, qualityScore := r.quality,
      isCompleted := None, isApproved := None)
  }

  function SearchYouTube(o: SearchOutcome<Video>, difficulty: string): (r: seq<ContentItem>)
    ensures |r| == |Results(o)|
    ensures forall i :: 0 <= i < |r| ==> r[i] == VideoItem(Results(o)[i], difficulty)
    ensures forall i :: 0 <= i < |r| ==> r[i].contentType == Types.Video
  {
    var vs := Results(o);
    seq(|vs|, i requires 0 <= i < |vs| => VideoItem(vs[i], difficulty))
  }

  function SearchGoogle(o: SearchOutcome<Article>, difficulty: string): (r: seq<ContentItem>)
    ensures |r| == |Results(o)|
    ensures forall i :: 0 <= i < |r| ==> r[i] == ArticleItem(Results(o)[i], difficulty)
    ensures forall i :: 0 <= i < |r| ==> r[i].contentType == Types.Article
  {
    var arts := Results(o);
    seq(|arts|, i requires 0 <= i < |arts| => ArticleItem(arts[i], difficulty))
  }

  function SearchGitHub(o: SearchOutcome<Repo>, difficulty: string): (r: seq<ContentItem>)
    ensures |r| == |Results(o)|
    ensures forall i :: 0 <= i < |r| ==> r[i] == RepoItem(Results(o)[i], difficulty)
    ensures forall i :: 0 <= i < |r| ==> r[i].contentType == Tutorial
  {
    var repos := Results(o);
    seq(|repos|, i requires 0 <= i < |repos| => RepoItem(repos[i], difficulty))
  }

  /** A failed search contributes nothing, whatever the other searches do. */
  lemma FailedSearchIsEmpty(v: SearchOutcome<Video>, a: SearchOutcome<Article>, g: SearchOutcome<Repo>, difficulty: string)
    ensures !v.Items? ==> SearchYouTube(v, difficulty) == []
    ensures !a.Items? ==> SearchGoogle(a, difficulty) == []
    ensures !g.Items? ==> SearchGitHub(g, difficulty) == []
  {
  }

  // ---------------------------------------------------------------------
  // Aggregation.

  /** The network results the three searches see. */
  datatype Searches = Searches(videos: SearchOutcome<Video>, articles: SearchOutcome<Article>, repos: SearchOutcome<Repo>)

  datatype DiscoveryRequest = DiscoveryRequest(difficulty: string, contentTypes: seq<ContentType>, limit: nat)

  /** Position of a type's batch in the gathered list. */
  function Rank(t: ContentType): nat {
    match t
    case Video => 0
    case Article => 1
    case _ => 2
  }

  predicate Searched(t: ContentType) {
    t == Types.Video || t == Types.Article || t == Tutorial
  }

  /** Three single-type batches, each of a requested type, concatenated
      video, article, tutorial: every item is of a requested, searched type
      and the types never go back in that order. */
  lemma ThreeBands(vs: seq<ContentItem>, arts: seq<ContentItem>, gs: seq<ContentItem>, types: seq<ContentType>)
    requires forall i :: 0 <= i < |vs| ==> vs[i].contentType == Types.Video
    requires forall i :: 0 <= i < |arts| ==> arts[i].contentType == Types.Article
    requires forall i :: 0 <= i < |gs| ==> gs[i].contentType == Tutorial
    requires |vs| > 0 ==> Types.Video in types
    requires |arts| > 0 ==> Types.Article in types
    requires |gs| > 0 ==> Tutorial in types
    ensures var r := vs + arts + gs;
            forall i :: 0 <= i < |r| ==> r[i].contentType in types && Searched(r[i].contentType)
    ensures var r := vs + arts + gs;
            forall i, j :: 0 <= i < j < |r| ==> Rank(r[i].contentType) <= Rank(r[j].contentType)
  {
    var r := vs + arts + gs;
    forall i | 0 <= i < |r|
      ensures r[i].contentType in types && Searched(r[i].contentType)
      ensures Rank(r[i].contentType) == (if i < |vs| then 0 else if i < |vs| + |arts| then 1 else 2)
    {
      if i < |vs| {
        assert r[i] == vs[i];
      } else if i < |vs| + |arts| {
        assert r[i] == arts[i - |vs|];
      } else {
        assert r[i] == gs[i - |vs| - |arts|];
      }
    }
  }

  /** The batches of the requested types, videos first, then articles, then
      repositories. */
  function Gather(req: DiscoveryRequest, net: Searches): (r: seq<ContentItem>)
    ensures forall i :: 0 <= i < |r| ==> r[i].contentType in req.contentTypes && Searched(r[i].contentType)
    ensures forall i, j :: 0 <= i < j < |r| ==> Rank(r[i].contentType) <= Rank(r[j].contentType)
  {
    var vs := if Types.Video in req.contentTypes then SearchYouTube(net.videos, req.difficulty) else [];
    var arts := if Types.Article in req.contentTypes then SearchGoogle(net.articles, req.difficulty) else [];
    var gs := if Tutorial in req.contentTypes then SearchGitHub(net.repos, req.difficulty) else [];
    ThreeBands(vs, arts, gs, req.contentTypes);
    vs + arts + gs
  }

  /** Only which types are requested matters, not their order or repetition. */
  lemma GatherIgnoresOrder(req1: DiscoveryRequest, req2: DiscoveryRequest, net: Searches)
    requires req1.difficulty == req2.difficulty
    requires forall t :: t in req1.contentTypes <==> t in req2.contentTypes
    ensures Gather(req1, net) == Gather(req2, net)
  {
  }

  /** `scoreContentCulturally`: every item gets the score the scorer gives its
      position; nothing else about it changes. */
  function ScoreCulturally(items: seq<ContentItem>, cultural: nat -> real): (r: seq<ContentItem>)
    ensures |r| == |items|
    ensures forall i :: 0 <= i < |r| ==> r[i].culturalScore == cultural(i)
    ensures forall i :: 0 <= i < |r| ==> r[i].(culturalScore := 0.0) == items[i].(culturalScore := 0.0)
    ensures forall i :: 0 <= i < |r| ==> r[i].contentType == items[i].contentType
  {
    seq(|items|, i requires 0 <= i < |items| => items[i].(culturalScore := cultural(i)))
  }

  function CombinedScore(c: ContentItem): real {
    c.qualityScore + c.culturalScore
  }

  /** `discoverContent`: gather, score, sort by combined score (stable,
      highest first) and keep the first `limit`. */
  function DiscoverContent(req: DiscoveryRequest, net: Searches, cultural: nat -> real): (r: seq<ContentItem>)
    ensures IsTop(r, ScoreCulturally(Gather(req, net), cultural), CombinedScore, req.limit)
    ensures forall i :: 0 <= i < |r| ==> r[i].contentType in req.contentTypes && Searched(r[i].contentType)
  {
    var scored := ScoreCulturally(Gather(req, net), cultural);
    ScoredTypes(req, net, cultural);
    var r := TopN(scored, CombinedScore, req.limit);
    SubMultisetTypes(r, scored, req.contentTypes);
    r
  }

  /** Whether an item is of a requested type that some search handles. */
  predicate OfRequested(c: ContentItem, types: seq<ContentType>) {
    c.contentType in types && Searched(c.contentType)
  }

  /** Scoring keeps the gathered items' types. */
  lemma ScoredTypes(req: DiscoveryRequest, net: Searches, cultural: nat -> real)
    ensures var scored := ScoreCulturally(Gather(req, net), cultural);
            forall i :: 0 <= i < |scored| ==> OfRequested(scored[i], req.contentTypes)
  {
  }

  /** Items of a sub-multiset are of a requested type when all items of the
      whole are. */
  lemma SubMultisetTypes(r: seq<ContentItem>, s: seq<ContentItem>, types: seq<ContentType>)
    requires multiset(r) <= multiset(s)
    requires forall i :: 0 <= i < |s| ==> OfRequested(s[i], types)
    ensures forall i :: 0 <= i < |r| ==> OfRequested(r[i], types)
  {
    forall i | 0 <= i < |r|
      ensures OfRequested(r[i], types)
    {
      assert r[i] in multiset(r);
      assert r[i] in s;
    }
  }

  /** A request for types no search handles (a book, say) finds nothing. */
  lemma UnsearchedTypesFindNothing(req: DiscoveryRequest, net: Searches, cultural: nat -> real)
    requires forall t :: t in req.contentTypes ==> !Searched(t)
    ensures DiscoverContent(req, net, cultural) == []
  {
    var g := Gather(req, net);
  }
}

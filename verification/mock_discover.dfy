/** The older discover endpoint (app/api/content/discover/route.ts): each
    known source tag adds a fixed batch of sample items built from the topic,
    in request order; the items are sorted by rating, highest first, and the
    first ten returned. The timestamp in the sample ids is a parameter,
    and one timestamp stands for every `Date.now()` call of a response,
    although the code reads the clock once per item, with awaits between
    batches, so ids from different batches may carry different times. */
module MockDiscover {
  import opened Wrappers
  import opened Text
  import opened Types
  import opened StableSort

  /** The route's own item record. `kind` is the JSON field `type`. */
  datatype MockItem = MockItem(
    id: string,
    title: string,
    description: string,
    url: string,
    source: string,
    kind: string,
    duration: Option<string>,
    author: Option<string>,
    rating: Option<real>,
    thumbnail: Option<string>)

  datatype SourcesField = NoSources | NotArray | SourceArray(tags: seq<string>)
  datatype Body = Malformed | Body(topic: Option<string>, sources: SourcesField)
  datatype Response = Failure(status: nat, error: string) | Success(content: seq<MockItem>)

  const MaxResults: nat := 10

  /** `(x.rating || 0)`, the sort key. */
  function RatingKey(x: MockItem): real {
    x.rating.GetOr(0.0)
  }

  function Stamp(prefix: string, now: nat, k: nat): string {
    prefix + "-" + NatToString(now) + "-" + NatToString(k)
  }

  // The fixed texts of the sample items, around the topic.
  const YtTitle1 := " - Tutorial Completo para Iniciantes"
  const YtDesc1 := " do zero com este tutorial abrangente e pr\U{E1}tico"
  const YtUrl1 := "https://youtube.com/watch?v=example1"
  const YtThumb1 := "/placeholder.svg?height=120&width=200&text=YouTube+Video"
  const YtTitle2 := " na Pr\U{E1}tica - Projeto Real"
  const YtDesc2a := "Construa um projeto real usando "
  const YtDesc2b := " e aprenda na pr\U{E1}tica"
  const YtUrl2 := "https://youtube.com/watch?v=example2"
  const YtThumb2 := "/placeholder.svg?height=120&width=200&text=YouTube+Project"
  const GhDesc1 := "Uma lista curada dos melhores recursos, ferramentas e bibliotecas para "
  const GhUrl1 := "https://github.com/awesome/"
  const GhDesc2 := "Exemplos pr\U{E1}ticos e projetos demonstrando conceitos de "
  const GhUrl2 := "https://github.com/examples/"
  const WebTitle := "Guia Definitivo de "
  const WebDesc := "Um guia completo cobrindo todos os aspectos fundamentais de "
  const WebUrl := "https://example.com/"
  const MediumDesc := "Estrat\U{E9}gias e dicas de especialistas para acelerar seu aprendizado em "
  const MediumUrl := "https://medium.com/@expert/"
  const BooksTitle := ": The Complete Reference"
  const BooksDesc := "Documenta\U{E7}\U{E3}o oficial e refer\U{EA}ncia completa para "
  const BooksUrl := "https://docs.example.com/"

  function YouTubeBatch(topic: string, now: nat): (items: seq<MockItem>)
    ensures |items| == 2
    ensures forall i :: 0 <= i < |items| ==> items[i].source == "youtube" && items[i].rating.Some?
  {
    [ MockItem(Stamp("yt", now, 1), topic + YtTitle1, "Aprenda " + topic + YtDesc1, YtUrl1, "youtube", "video",
               Some("45 min"), Some("Tech Academy"), Some(4.8), Some(YtThumb1)),
      MockItem(Stamp("yt", now, 2), topic + YtTitle2, YtDesc2a + topic + YtDesc2b, YtUrl2, "youtube", "video",
               Some("1h 20min"), Some("Code Master"), Some(4.6), Some(YtThumb2)) ]
  }

  function GitHubBatch(topic: string, now: nat): (items: seq<MockItem>)
    ensures |items| == 2
    ensures forall i :: 0 <= i < |items| ==> items[i].source == "github" && items[i].rating.Some?
  {
    var low := Lower(topic);
    [ MockItem(Stamp("gh", now, 1), "awesome-" + low, GhDesc1 + topic, GhUrl1 + low, "github", "repository",
               None, Some("Community"), Some(4.9), None),
      MockItem(Stamp("gh", now, 2), low + "-examples", GhDesc2 + topic, GhUrl2 + low, "github", "repository",
               None, Some("DevExamples"), Some(4.5), None) ]
  }

  function WebBatch(topic: string, now: nat): (items: seq<MockItem>)
    ensures |items| == 1
    ensures forall i :: 0 <= i < |items| ==> items[i].source == "web" && items[i].rating.Some?
  {
    [ MockItem(Stamp("web", now, 1), WebTitle + topic, WebDesc + topic, WebUrl + Lower(topic) + "-guide",
               "web", "article", None, Some("Tech Blog"), Some(4.7), None) ]
  }

  function MediumBatch(topic: string, now: nat): (items: seq<MockItem>)
    ensures |items| == 1
    ensures forall i :: 0 <= i < |items| ==> items[i].source == "medium" && items[i].rating.Some?
  {
    [ MockItem(Stamp("medium", now, 1), "Como Dominar " + topic + " em 2024", MediumDesc + topic,
               MediumUrl + Lower(topic) + "-2024", "medium", "article", Some("8 min read"),
               Some("Industry Expert"), Some(4.4), None) ]
  }

  function BooksBatch(topic: string, now: nat): (items: seq<MockItem>)
    ensures |items| == 1
    ensures forall i :: 0 <= i < |items| ==> items[i].source == "books" && items[i].rating.Some?
  {
    [ MockItem(Stamp("book", now, 1), topic + BooksTitle, BooksDesc + topic, BooksUrl + Lower(topic),
               "books", "documentation", None, Some("Official Docs"), Some(4.8), None) ]
  }

  /** How many items each tag adds, independently of their contents. */
  function BatchSize(tag: string): nat {
    if tag == "youtube" || tag == "github" then 2
    else if tag == "web" || tag == "medium" || tag == "books" then 1
    else 0
  }

  /** The `switch` on one tag; an unknown tag adds nothing. */
  function Batch(tag: string, topic: string, now: nat): (items: seq<MockItem>)
    ensures |items| == BatchSize(tag)
    ensures forall i :: 0 <= i < |items| ==> items[i].source == tag && items[i].rating.Some?
  {
    if tag == "youtube" then YouTubeBatch(topic, now)
    else if tag == "github" then GitHubBatch(topic, now)
    else if tag == "web" then WebBatch(topic, now)
    else if tag == "medium" then MediumBatch(topic, now)
    else if tag == "books" then BooksBatch(topic, now)
    else []
  }

  /** The `for ... of sources` loop. */
  function Collect(tags: seq<string>, topic: string, now: nat): (items: seq<MockItem>)
    ensures forall i :: 0 <= i < |items| ==> items[i].source in tags && items[i].rating.Some?
  {
    if |tags| == 0 then []
    else
      var first := Batch(tags[0], topic, now);
      var rest := Collect(tags[1..], topic, now);
      assert forall i :: 0 <= i < |rest| ==> rest[i].source in tags by {
        forall i | 0 <= i < |rest|
          ensures rest[i].source in tags
        {
          assert rest[i].source in tags[1..];
        }
      }
      first + rest
  }

  function TotalSize(tags: seq<string>): nat {
    if |tags| == 0 then 0 else BatchSize(tags[0]) + TotalSize(tags[1..])
  }

  /** Sources are handled one after another, in request order. */
  lemma {:induction false} CollectAppend(a: seq<string>, b: seq<string>, topic: string, now: nat)
    ensures Collect(a + b, topic, now) == Collect(a, topic, now) + Collect(b, topic, now)
    decreases |a|
  {
    if |a| == 0 {
      assert a + b == b;
    } else {
      assert (a + b)[0] == a[0];
      assert (a + b)[1..] == a[1..] + b;
      CollectAppend(a[1..], b, topic, now);
      var x := Batch(a[0], topic, now);
      var y := Collect(a[1..], topic, now);
      var z := Collect(b, topic, now);
      assert Collect(a + b, topic, now) == x + (y + z);
      assert x + (y + z) == (x + y) + z;
    }
  }

  /** Each tag contributes its batch size, repeated tags again each time. */
  lemma {:induction false} CollectSize(tags: seq<string>, topic: string, now: nat)
    ensures |Collect(tags, topic, now)| == TotalSize(tags)
  {
    if |tags| > 0 {
      CollectSize(tags[1..], topic, now);
    }
  }

  predicate ValidBody(body: Body) {
    body.Body? && Truthy(body.topic) && body.sources.SourceArray?
  }

  /** `POST`; `now` is the `Date.now()` the sample ids embed. */
  function Handle(body: Body, now: nat): (r: Response)
    ensures body.Malformed? ==> r == Failure(500, "Internal server error")
    ensures body.Body? && !ValidBody(body) ==> r == Failure(400, "Missing required parameters")
    ensures ValidBody(body) ==>
              r.Success? && IsTop(r.content, Collect(body.sources.tags, body.topic.value, now), RatingKey, MaxResults)
  {
    if body.Malformed? then Failure(500, "Internal server error")
    else if !ValidBody(body) then Failure(400, "Missing required parameters")
    else Success(TopN(Collect(body.sources.tags, body.topic.value, now), RatingKey, MaxResults))
  }

  /** An empty source list is accepted and finds nothing. */
  lemma EmptySourcesSucceed(topic: string, now: nat)
    requires topic != ""
    ensures Handle(Body(Some(topic), SourceArray([])), now) == Success([])
  {
  }

  /** The first item returned has the highest rating of all items
      collected. */
  lemma FirstIsBest(body: Body, now: nat)
    requires ValidBody(body)
    requires Handle(body, now).content != []
    ensures var all := Collect(body.sources.tags, body.topic.value, now);
            forall y :: y in all ==> RatingKey(Handle(body, now).content[0]) >= RatingKey(y)
  {
    TopNHeadIsMax(Collect(body.sources.tags, body.topic.value, now), RatingKey, MaxResults);
  }
}

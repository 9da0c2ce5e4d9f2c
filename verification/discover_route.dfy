/** The discover endpoint backed by the discovery service
    (src/app/api/content/discover/route.ts): it checks the body, maps each
    source tag to a content type, dropping unknown tags, and asks the service
    for at most ten beginner items of those types. */
module DiscoverRoute {
  import opened Wrappers
  import opened Types
  import opened StableSort
  import opened Discovery

  /** The `sources` field: absent or null, some other non-array value, or an
      array of tags. */
  datatype SourcesField = NoSources | NotArray | SourceArray(tags: seq<string>)

  /** The parsed request body, or a body that is not JSON. */
  datatype Body = Malformed | Body(topic: Option<string>, sources: SourcesField)

  datatype Response = Failure(status: nat, error: string) | Success(content: seq<ContentItem>)

  const BadRequest := Failure(400, "Missing required parameters")
  const ServerError := Failure(500, "Internal server error")
  const RouteLimit: nat := 10
  const RouteDifficulty := "beginner"

  /** The `switch` on a source tag; `None` stands for `undefined`. */
  function MapSource(tag: string): (t: Option<ContentType>)
    ensures t == Some(Types.Video) <==> tag == "youtube"
    ensures t == Some(Tutorial) <==> tag == "github"
    ensures t == Some(Types.Article) <==> tag == "google-search" || tag == "web"
    ensures t == Some(Book) <==> tag == "books"
    ensures t.Some? ==> t.value in {Types.Video, Tutorial, Types.Article, Book}
  {
    if tag == "youtube" then Some(Types.Video)
    else if tag == "github" then Some(Tutorial)
    else if tag == "google-search" then Some(Types.Article)
    else if tag == "web" then Some(Types.Article)
    else if tag == "books" then Some(Book)
    else None
  }

  /** `sources.map(...).filter(t => t !== undefined)`. */
  function MapSources(tags: seq<string>): (types: seq<ContentType>)
    ensures |types| <= |tags|
    ensures forall t :: t in types ==> exists tag :: tag in tags && MapSource(tag) == Some(t)
  {
    if |tags| == 0 then []
    else
      var rest := MapSources(tags[1..]);
      assert forall t :: t in rest ==> exists tag :: tag in tags && MapSource(tag) == Some(t) by {
        forall t | t in rest
          ensures exists tag :: tag in tags && MapSource(tag) == Some(t)
        {
          var tag :| tag in tags[1..] && MapSource(tag) == Some(t);
          assert tag in tags;
        }
      }
      match MapSource(tags[0])
      case Some(t) => [t] + rest
      case None => rest
  }

  /** Mapping works tag by tag: order is kept, duplicates stay, unknown tags
      vanish. */
  lemma {:induction false} MapSourcesAppend(a: seq<string>, b: seq<string>)
    ensures MapSources(a + b) == MapSources(a) + MapSources(b)
    decreases |a|
  {
    if |a| > 0 {
      assert (a + b)[0] == a[0];
      assert (a + b)[1..] == a[1..] + b;
      MapSourcesAppend(a[1..], b);
    } else {
      assert a + b == b;
    }
  }

  lemma MapSourcesSingle(tag: string)
    ensures MapSource(tag).Some? ==> MapSources([tag]) == [MapSource(tag).value]
    ensures MapSource(tag).None? ==> MapSources([tag]) == []
  {
    assert [tag][1..] == [];
  }

  lemma WebAndGoogleExample()
    ensures MapSources(["web", "google-search"]) == [Types.Article, Types.Article]
    ensures MapSources(["vimeo", "youtube"]) == [Types.Video]
  {
    MapSourcesAppend(["web"], ["google-search"]);
    assert ["web", "google-search"] == ["web"] + ["google-search"];
    MapSourcesSingle("web");
    MapSourcesSingle("google-search");
    MapSourcesAppend(["vimeo"], ["youtube"]);
    assert ["vimeo", "youtube"] == ["vimeo"] + ["youtube"];
    MapSourcesSingle("vimeo");
    MapSourcesSingle("youtube");
  }

  /** The body check: a falsy topic or a non-array `sources` is rejected. */
  predicate ValidBody(body: Body) {
    body.Body? && Truthy(body.topic) && body.sources.SourceArray?
  }

  function RequestFor(tags: seq<string>): DiscoveryRequest {
    DiscoveryRequest(RouteDifficulty, MapSources(tags), RouteLimit)
  }

  /** `POST`: the search results and the cultural scorer are what the
      service's network calls and random draws would give. */
  function Handle(body: Body, net: Searches, cultural: nat -> real): (r: Response)
    ensures body.Malformed? ==> r == ServerError
    ensures body.Body? && !ValidBody(body) ==> r == BadRequest
    ensures ValidBody(body) ==> r.Success? && |r.content| <= RouteLimit
    ensures ValidBody(body) ==> r.content == DiscoverContent(RequestFor(body.sources.tags), net, cultural)
    ensures r.Success? ==> SortedDesc(r.content, CombinedScore)
  {
    if body.Malformed? then ServerError
    else if !ValidBody(body) then BadRequest
    else Success(DiscoverContent(RequestFor(body.sources.tags), net, cultural))
  }

  /** A request for books alone succeeds with no content: the service has no
      book search. */
  lemma BooksOnlyIsEmpty(topic: string, n: nat, net: Searches, cultural: nat -> real)
    requires topic != ""
    ensures Handle(Body(Some(topic), SourceArray(seq(n, _ => "books"))), net, cultural) == Success([])
  {
    var tags := seq(n, _ => "books");
    var req := RequestFor(tags);
    forall t | t in req.contentTypes
      ensures !Searched(t)
    {
      var tag :| tag in tags && MapSource(tag) == Some(t);
    }
    UnsearchedTypesFindNothing(req, net, cultural);
  }
}

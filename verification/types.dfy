/** The records the discovery service and the processing pipeline pass around
    (src/types/index.ts), in their declared shape. */
module Types {
  import opened Wrappers

  datatype ContentType = Video | Article | Tutorial | Documentation | Course | Podcast | Book

  /** A discovered or curated learning resource. `isApproved` is the flag the
      filter step adds; `culturalScore` and `qualityScore` are given numbers. */
  datatype ContentItem = ContentItem(
    id: string,
    title: string,
    url: string,
    contentType: ContentType,
    source: Option<string>,
    description: Option<string>,
    duration: Option<nat>,
    difficulty: Option<int>,
    author: Option<string>,
    rating: Option<real>,
    thumbnail: Option<string>,
    culturalScore: real,
    qualityScore: real,
    isCompleted: Option<bool>,
    isApproved: Option<bool>)

  /** One section of an organized trail; the organize step fills it with
      `TrailEntry` values and the finalize step with whole content items. */
  datatype Section<T> = Section(sectionTitle: string, items: seq<T>)

  /** A reference to a content item together with its rewritten description. */
  datatype TrailEntry = TrailEntry(id: string, organizedDescription: string)

  /** JavaScript truthiness of an optional string: absent and "" are falsy. */
  predicate Truthy(s: Option<string>) {
    s.Some? && s.value != ""
  }

  /** `a || b` for an optional string and a fallback. */
  function OrElse(a: Option<string>, b: string): (r: string)
    ensures Truthy(a) ==> r == a.value
    ensures !Truthy(a) ==> r == b
  {
    if Truthy(a) then a.value else b
  }
}

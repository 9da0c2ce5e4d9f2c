/** The processing page (src/app/create/processing/page.tsx): `startProcessing`
    runs the four steps once, in order; each step is marked processing, does
    its work on the discovered content, and is marked completed unless it
    returned early. The responses of the discover, filter, organize and save
    endpoints are parameters. The page's state and the ref that mirrors the
    content are one value here. */
module Processing {
  import opened Wrappers
  import opened Types
  import opened Steps
  import SaveRoute

  // ---------------------------------------------------------------------
  // What the endpoints answer.

  datatype SearchResult = SearchOk(content: Option<seq<ContentItem>>) | SearchNotOk | SearchThrew

  datatype FilterResult = FilterOk(approvedIds: Option<seq<string>>) | FilterNotOk | FilterThrew

  /** `data.organizedTrail`: absent (falsy), present but not holding a list
      of well-formed sections (walking it throws), or the sections. */
  datatype TrailData = TrailMissing | TrailMalformed | TrailSections(sections: seq<Section<TrailEntry>>)

  datatype OrganizeResult = OrganizeOk(trail: TrailData) | OrganizeNotOk | OrganizeThrew

  datatype SaveResult = SaveOk | SaveNotOk | SaveThrew

  datatype Env = Env(search: SearchResult, filter: FilterResult, organize: OrganizeResult, signedIn: bool, save: SaveResult)

  /** Where the finalize step left the path. */
  datatype Stored = NotStored | Database | LocalStorage

  datatype Page = Page(
    topic: string,
    sources: seq<string>,
    steps: seq<Step>,
    content: seq<ContentItem>,
    trail: Option<seq<Section<TrailEntry>>>,
    isComplete: bool,
    hasStarted: bool,
    currentStep: nat,
    stored: Stored)

  function InitialPage(topic: string, sources: seq<string>): Page {
    Page(topic, sources, InitialSteps(), [], None, false, false, 0, NotStored)
  }

  // ---------------------------------------------------------------------
  // Filter.

  /** `{...item, isApproved: approvedIds.includes(item.id)}` for every item. */
  function ApplyFilter(content: seq<ContentItem>, approvedIds: seq<string>): (r: seq<ContentItem>)
    ensures |r| == |content|
    ensures forall i :: 0 <= i < |r| ==> r[i].isApproved == Some(content[i].id in approvedIds)
    ensures forall i :: 0 <= i < |r| ==> r[i] == content[i].(isApproved := r[i].isApproved)
  {
    seq(|content|, i requires 0 <= i < |content| => content[i].(isApproved := Some(content[i].id in approvedIds)))
  }

  /** The fallback: every item approved. */
  function ApproveAll(content: seq<ContentItem>): (r: seq<ContentItem>)
    ensures |r| == |content|
    ensures forall i :: 0 <= i < |r| ==> r[i] == content[i].(isApproved := Some(true))
  {
    seq(|content|, i requires 0 <= i < |content| => content[i].(isApproved := Some(true)))
  }

  function Ids(content: seq<ContentItem>): (ids: seq<string>)
    ensures |ids| == |content| && forall i :: 0 <= i < |ids| ==> ids[i] == content[i].id
  {
    seq(|content|, i requires 0 <= i < |content| => content[i].id)
  }

  /** Only the ids of items in the list matter: approving ids the content
      does not have changes nothing. */
  lemma FilterIgnoresForeignIds(content: seq<ContentItem>, a: seq<string>, b: seq<string>)
    requires forall i :: 0 <= i < |content| ==> (content[i].id in a <==> content[i].id in b)
    ensures ApplyFilter(content, a) == ApplyFilter(content, b)
  {
  }

  /** Approving every id is the same as the fallback. */
  lemma FilterAllIsApproveAll(content: seq<ContentItem>)
    ensures ApplyFilter(content, Ids(content)) == ApproveAll(content)
  {
    var ids := Ids(content);
    forall i | 0 <= i < |content|
      ensures content[i].id in ids
    {
      assert ids[i] == content[i].id;
    }
  }

  /** `content.filter(item => item.isApproved)`. */
  function Approved(content: seq<ContentItem>): (r: seq<ContentItem>)
    ensures |r| <= |content|
    ensures forall x :: x in r <==> x in content && x.isApproved == Some(true)
  {
    if |content| == 0 then []
    else (if content[0].isApproved == Some(true) then [content[0]] else []) + Approved(content[1..])
  }

  /** Filtering keeps order and multiplicity: a single item is kept exactly
      when it is approved, and filtering distributes over concatenation. */
  lemma ApprovedSingle(x: ContentItem)
    ensures Approved([x]) == (if x.isApproved == Some(true) then [x] else [])
  {
    assert [x][1..] == [];
  }

  lemma {:induction false} ApprovedAppend(a: seq<ContentItem>, b: seq<ContentItem>)
    ensures Approved(a + b) == Approved(a) + Approved(b)
  {
    if |a| == 0 {
      assert a + b == b;
    } else {
      assert (a + b)[0] == a[0];
      assert (a + b)[1..] == a[1..] + b;
      ApprovedAppend(a[1..], b);
      var h := if a[0].isApproved == Some(true) then [a[0]] else [];
      assert h + (Approved(a[1..]) + Approved(b)) == (h + Approved(a[1..])) + Approved(b);
    }
  }

  // ---------------------------------------------------------------------
  // Organize.

  /** `new Map(content.map(item => [item.id, item])).get(id)`: a later item
      with the same id replaces an earlier one. */
  function LookupById(content: seq<ContentItem>, id: string): (r: Option<ContentItem>)
    ensures r.Some? <==> exists k :: 0 <= k < |content| && content[k].id == id
    ensures r.Some? ==> exists k :: 0 <= k < |content| && content[k] == r.value && r.value.id == id
                           && forall j :: k < j < |content| ==> content[j].id != id
  {
    if |content| == 0 then None
    else if content[|content| - 1].id == id then Some(content[|content| - 1])
    else
      var r := LookupById(content[..|content| - 1], id);
      assert forall k :: 0 <= k < |content| - 1 ==> content[..|content| - 1][k] == content[k];
      r
  }

  /** One entry of the trail: the item with that id and the new description,
      or nothing when the id is unknown. */
  function Place(content: seq<ContentItem>, e: TrailEntry): (r: seq<ContentItem>)
    ensures |r| <= 1
    ensures |r| == 1 <==> LookupById(content, e.id).Some?
    ensures |r| == 1 ==> r[0] == LookupById(content, e.id).value.(description := Some(e.organizedDescription))
  {
    match LookupById(content, e.id)
    case Some(x) => [x.(description := Some(e.organizedDescription))]
    case None => []
  }

  /** The inner `section.items.forEach`. */
  function PlaceAll(content: seq<ContentItem>, entries: seq<TrailEntry>): (r: seq<ContentItem>)
    ensures |r| <= |entries|
  {
    if |entries| == 0 then [] else Place(content, entries[0]) + PlaceAll(content, entries[1..])
  }

  /** The outer `organizedTrail.forEach`. */
  function Reorder(content: seq<ContentItem>, sections: seq<Section<TrailEntry>>): (r: seq<ContentItem>)
    ensures |r| <= |Flatten(sections)|
  {
    if |sections| == 0 then []
    else PlaceAll(content, sections[0].items) + Reorder(content, sections[1..])
  }

  /** All entries of the trail, section by section. */
  function Flatten(sections: seq<Section<TrailEntry>>): (entries: seq<TrailEntry>) {
    if |sections| == 0 then [] else sections[0].items + Flatten(sections[1..])
  }

  lemma {:induction false} PlaceAllAppend(content: seq<ContentItem>, a: seq<TrailEntry>, b: seq<TrailEntry>)
    ensures PlaceAll(content, a + b) == PlaceAll(content, a) + PlaceAll(content, b)
    decreases |a|
  {
    if |a| == 0 {
      assert a + b == b;
    } else {
      assert (a + b)[0] == a[0];
      assert (a + b)[1..] == a[1..] + b;
      PlaceAllAppend(content, a[1..], b);
      var x := Place(content, a[0]);
      var y := PlaceAll(content, a[1..]);
      var z := PlaceAll(content, b);
      assert x + (y + z) == (x + y) + z;
    }
  }

  /** The nested walk is one walk over the flattened entries. */
  lemma {:induction false} ReorderIsFlat(content: seq<ContentItem>, sections: seq<Section<TrailEntry>>)
    ensures Reorder(content, sections) == PlaceAll(content, Flatten(sections))
  {
    if |sections| > 0 {
      ReorderIsFlat(content, sections[1..]);
      PlaceAllAppend(content, sections[0].items, Flatten(sections[1..]));
    }
  }

  /** When every id is known, the result lists exactly the trail's entries:
      the item each names, with its new description, in trail order. */
  lemma {:induction false} PlaceAllKnown(content: seq<ContentItem>, entries: seq<TrailEntry>)
    requires forall k :: 0 <= k < |entries| ==> LookupById(content, entries[k].id).Some?
    ensures var r := PlaceAll(content, entries);
            && |r| == |entries|
            && forall k :: 0 <= k < |r| ==>
                 r[k] == LookupById(content, entries[k].id).value.(description := Some(entries[k].organizedDescription))
  {
    if |entries| > 0 {
      PlaceAllKnown(content, entries[1..]);
      var r := PlaceAll(content, entries);
      var rest := PlaceAll(content, entries[1..]);
      assert r == Place(content, entries[0]) + rest;
      forall k | 1 <= k < |r|
        ensures r[k] == LookupById(content, entries[k].id).value.(description := Some(entries[k].organizedDescription))
      {
        assert r[k] == rest[k - 1];
        assert entries[1..][k - 1] == entries[k];
      }
    }
  }

  /** Entries naming unknown ids contribute nothing. */
  lemma {:induction false} PlaceAllUnknown(content: seq<ContentItem>, entries: seq<TrailEntry>)
    requires forall k :: 0 <= k < |entries| ==> LookupById(content, entries[k].id).None?
    ensures PlaceAll(content, entries) == []
  {
    if |entries| > 0 {
      PlaceAllUnknown(content, entries[1..]);
    }
  }

  /** Every reordered item is an item of the content with a new description;
      an item that was not approved is kept when the trail names it. */
  lemma {:induction false} PlaceAllFromContent(content: seq<ContentItem>, entries: seq<TrailEntry>)
    ensures forall x :: x in PlaceAll(content, entries) ==> x.(description := None) in DropDescriptions(content)
  {
    if |entries| > 0 {
      PlaceAllFromContent(content, entries[1..]);
      var p := Place(content, entries[0]);
      if |p| == 1 {
        var k :| 0 <= k < |content| && content[k] == LookupById(content, entries[0].id).value;
        assert p[0].(description := None) == DropDescriptions(content)[k];
      }
    }
  }

  function DropDescriptions(content: seq<ContentItem>): (r: seq<ContentItem>)
    ensures |r| == |content| && forall i :: 0 <= i < |r| ==> r[i] == content[i].(description := None)
  {
    seq(|content|, i requires 0 <= i < |content| => content[i].(description := None))
  }

  const FallbackTitle := "Conte\U{FA}do Recomendado"

  /** The fallback trail: one section listing the approved items with their
      current descriptions, "" when absent. */
  function FallbackTrail(content: seq<ContentItem>): (r: seq<Section<TrailEntry>>)
    ensures |r| == 1 && r[0].sectionTitle == FallbackTitle
    ensures var a := Approved(content);
            && |r[0].items| == |a|
            && forall k :: 0 <= k < |a| ==> r[0].items[k] == TrailEntry(a[k].id, OrElse(a[k].description, ""))
  {
    var a := Approved(content);
    [Section(FallbackTitle, seq(|a|, k requires 0 <= k < |a| => TrailEntry(a[k].id, OrElse(a[k].description, ""))))]
  }

  // ---------------------------------------------------------------------
  // Finalize.

  /** The body sent to the save endpoint: the whole content as one section. */
  function SavePayload(topic: string, content: seq<ContentItem>): (b: SaveRoute.SaveBody<ContentItem>)
    ensures SaveRoute.HasRequiredFields(b) <==> topic != ""
    ensures b.SaveBody? && b.organizedTrail.Trail? && SaveRoute.TotalContent(b.organizedTrail.sections) == |content|
  {
    SaveRoute.TotalContentOfOneSection("Trilha Completa", content);
    SaveRoute.SaveBody(
      Some("Trilha de " + topic),
      Some(topic),
      Some("beginner"),
      Some("Uma trilha de aprendizado personalizada sobre " + topic + "."),
      SaveRoute.Trail([Section("Trilha Completa", content)]))
  }

  /** A signed-in save from a page with a topic is accepted unless the
      insert throws, and the new path counts every discovered item. */
  lemma SavePayloadAccepted(topic: string, content: seq<ContentItem>, userId: string, insertThrows: bool)
    requires topic != ""
    ensures var r := SaveRoute.Handle(Some(userId), SavePayload(topic, content), insertThrows);
            && (r.Created? <==> !insertThrows)
            && (r.Created? ==> r.path.totalContent == |content| && r.path.completedContent == 0)
  {
  }

  function StoreFor(env: Env): (s: Stored)
    ensures s == Database <==> env.signedIn && env.save == SaveOk
    ensures s != NotStored
  {
    if env.signedIn && env.save == SaveOk then Database else LocalStorage
  }

  // ---------------------------------------------------------------------
  // What the filter and organize steps make of the content when they run.

  /** The filter step: the endpoint's list is applied, and any failure
      approves everything. */
  function Filtered(content: seq<ContentItem>, filter: FilterResult): (r: seq<ContentItem>)
    ensures |r| == |content|
    ensures forall i :: 0 <= i < |r| ==> r[i].id == content[i].id
  {
    match filter
    case FilterOk(ids) => ApplyFilter(content, ids.GetOr([]))
    case _ => ApproveAll(content)
  }

  /** The organize step's content: the trail's walk, nothing for a missing
      trail, and the content unchanged when the request fails or the trail
      cannot be walked. */
  function Organized(content: seq<ContentItem>, organize: OrganizeResult): seq<ContentItem> {
    match organize
    case OrganizeOk(TrailSections(sections)) => Reorder(content, sections)
    case OrganizeOk(TrailMissing) => []
    case _ => content
  }

  /** The organize step's trail: the endpoint's, an empty one, or the
      fallback section. */
  function TrailFor(content: seq<ContentItem>, organize: OrganizeResult): seq<Section<TrailEntry>> {
    match organize
    case OrganizeOk(TrailSections(sections)) => sections
    case OrganizeOk(TrailMissing) => []
    case _ => FallbackTrail(content)
  }

  // ---------------------------------------------------------------------
  // One step.

  /** The work of a step, and whether it ran to the end (false on an early
      return). */
  datatype Outcome = Outcome(page: Page, finished: bool)

  /** Which content the finalize step reads: the content as it is when the
      step runs, or a copy taken earlier. */
  datatype Reading = Live | Captured(content: seq<ContentItem>)

  function Seen(p: Page, reading: Reading): seq<ContentItem> {
    match reading
    case Live => p.content
    case Captured(c) => c
  }

  function RunStep(p: Page, id: StepId, env: Env, reading: Reading): (o: Outcome)
    ensures o.page.steps == p.steps && o.page.hasStarted == p.hasStarted && o.page.isComplete == p.isComplete
    ensures id == Filter ==> (o.finished <==> p.content != [])
    ensures id == Organize ==> (o.finished <==> Approved(p.content) != [])
    ensures id == Finalize ==> (o.finished <==> Seen(p, reading) != [])
    ensures id == Finalize && o.finished ==> o.page.stored == StoreFor(env)
    ensures id == Search ==> o.finished
    ensures !o.finished ==> o.page == p
  {
    match id
    case Search =>
      var content := match env.search
        case SearchOk(c) => c.GetOr([])
        case _ => p.content;
      Outcome(p.(content := content), true)
    case Filter =>
      if p.content == [] then Outcome(p, false)
      else Outcome(p.(content := Filtered(p.content, env.filter)), true)
    case Organize =>
      if Approved(p.content) == [] then Outcome(p, false)
      else
        var q := p.(content := Organized(p.content, env.organize), trail := Some(TrailFor(p.content, env.organize)));
        Outcome(q, true)
    case Finalize =>
      if Seen(p, reading) == [] then Outcome(p, false)
      else Outcome(p.(stored := StoreFor(env)), true)
  }

  /** `processStep(stepIndex)`. */
  function ProcessStep(p: Page, index: nat, env: Env, reading: Reading): (q: Page)
    ensures |q.steps| == |p.steps|
    ensures forall j :: 0 <= j < |q.steps| ==> q.steps[j].id == p.steps[j].id
    ensures forall j :: 0 <= j < |q.steps| && j != index ==> q.steps[j] == p.steps[j]
    ensures index < |p.steps| ==> q.steps[index].status in {Processing, Completed}
    ensures index < |p.steps| ==>
              (q.steps[index].status == Completed <==> RunStep(p, p.steps[index].id, env, reading).finished)
    ensures q.isComplete <==> p.isComplete || (index == |p.steps| - 1 && q.steps[index].status == Completed)
    ensures q.hasStarted == p.hasStarted
  {
    if index >= |p.steps| then p
    else
      var marked := p.(steps := SetStatus(p.steps, index, Processing));
      var o := RunStep(marked, p.steps[index].id, env, reading);
      assert RunStep(p, p.steps[index].id, env, reading).finished == o.finished by {
        assert marked.content == p.content;
      }
      if !o.finished then o.page
      else o.page.(steps := SetStatus(o.page.steps, index, Completed),
                   isComplete := o.page.isComplete || index == |p.steps| - 1)
  }

  /** The early returns: with no content the filter and finalize steps stay
      processing and leave everything else as it was. */
  lemma EmptyContentStalls(p: Page, index: nat, env: Env)
    requires index < |p.steps| && p.steps[index].id in {Filter, Finalize} && p.content == []
    ensures var q := ProcessStep(p, index, env, Live);
            q.steps[index].status == Processing && q.content == p.content && q.isComplete == p.isComplete
  {
  }

  // ---------------------------------------------------------------------
  // The whole run.

  /** The `for` loop of `startProcessing` from step `from` on. */
  function RunFrom(p: Page, from: nat, env: Env, reading: Reading): (q: Page)
    requires from <= |p.steps|
    ensures |q.steps| == |p.steps|
    ensures forall j :: 0 <= j < |q.steps| ==> q.steps[j].id == p.steps[j].id
    ensures forall j :: 0 <= j < from ==> q.steps[j] == p.steps[j]
    ensures forall j :: from <= j < |q.steps| ==> q.steps[j].status in {Processing, Completed}
    ensures q.hasStarted == p.hasStarted
    decreases |p.steps| - from
  {
    if from == |p.steps| then p
    else
      var p1 := ProcessStep(p.(currentStep := from), from, env, reading);
      RunFrom(p1, from + 1, env, reading)
  }

  /** A step before the last does not complete the page. */
  lemma CompletesLater(p: Page, from: nat, env: Env, reading: Reading)
    requires from + 1 < |p.steps|
    ensures ProcessStep(p.(currentStep := from), from, env, reading).isComplete == p.isComplete
  {
  }

  /** `startProcessing`: a no-op once started. */
  function StartProcessing(p: Page, env: Env): (q: Page)
    ensures q.hasStarted
    ensures p.hasStarted ==> q == p
    ensures !p.hasStarted ==> |q.steps| == |p.steps| && forall j :: 0 <= j < |q.steps| ==> q.steps[j].status in {Processing, Completed}
  {
    if p.hasStarted then p else RunFrom(p.(hasStarted := true), 0, env, Live)
  }

  /** `startProcessing` as the page runs it: the loop calls the `processStep`
      callback that existed when the run began, and that callback's finalize
      step tests the content captured then. */
  function StartProcessingAsWritten(p: Page, env: Env): (q: Page)
    ensures q.hasStarted
    ensures p.hasStarted ==> q == p
  {
    if p.hasStarted then p else RunFrom(p.(hasStarted := true), 0, env, Captured(p.content))
  }

  /** The second call does nothing, whatever the endpoints would answer. */
  lemma StartOnce(p: Page, env1: Env, env2: Env)
    ensures StartProcessing(StartProcessing(p, env1), env2) == StartProcessing(p, env1)
  {
  }

  /** The effect that starts the run: a topic, some sources, not yet started. */
  predicate ShouldStart(p: Page) {
    p.topic != "" && |p.sources| > 0 && !p.hasStarted
  }

  /** The effect over `[topic, sources, startProcessing]`: the run starts once
      there is a topic and a source, and never twice. */
  function OnMount(p: Page, env: Env): (q: Page)
    ensures q.hasStarted <==> p.hasStarted || (p.topic != "" && |p.sources| > 0)
    ensures !ShouldStart(p) ==> q == p
    ensures ShouldStart(p) ==> q == StartProcessing(p, env)
  {
    if ShouldStart(p) then StartProcessing(p, env) else p
  }

  /** The effect firing again, with any answers, changes nothing. */
  lemma OnMountOnce(p: Page, env1: Env, env2: Env)
    ensures OnMount(OnMount(p, env1), env2) == OnMount(p, env1)
  {
  }

  /** From the initial page, the run is complete exactly when the finalize
      step completed. */
  lemma CompleteIffFinalized(topic: string, sources: seq<string>, env: Env)
    ensures var q := StartProcessing(InitialPage(topic, sources), env);
            q.isComplete <==> q.steps[3].status == Completed
  {
    LiveRun(topic, sources, env);
  }

  /** A search that finds nothing stalls the run at the filter step: the
      later steps all stay processing and the page never completes. */
  lemma EmptySearchNeverCompletes(topic: string, sources: seq<string>, env: Env)
    requires env.search == SearchOk(Some([])) || env.search == SearchOk(None)
    ensures var q := StartProcessing(InitialPage(topic, sources), env);
            && q.steps[0].status == Completed
            && q.steps[1].status == Processing && q.steps[2].status == Processing
            && q.steps[3].status == Processing
            && !q.isComplete && q.content == [] && q.stored == NotStored
  {
    LiveRun(topic, sources, env);
  }

  /** The run as written never completes: the page starts with no content,
      so the finalize step always sees none and returns early, whatever the
      endpoints answer. */
  lemma AsWrittenNeverCompletes(topic: string, sources: seq<string>, env: Env)
    ensures var q := StartProcessingAsWritten(InitialPage(topic, sources), env);
            q.steps[3].status == Processing && !q.isComplete && q.stored == NotStored
  {
    var r := Captured([]);
    var p0 := InitialPage(topic, sources).(hasStarted := true);
    var p1 := ProcessStep(p0.(currentStep := 0), 0, env, r);
    var p2 := ProcessStep(p1.(currentStep := 1), 1, env, r);
    var p3 := ProcessStep(p2.(currentStep := 2), 2, env, r);
    assert p3.stored == NotStored && !p3.isComplete;
    var p4 := ProcessStep(p3.(currentStep := 3), 3, env, r);
    assert !RunStep(p3.(currentStep := 3), Finalize, env, r).finished;
    assert p4.steps[3].status == Processing && !p4.isComplete && p4.stored == NotStored;
    assert RunFrom(p3, 3, env, r) == RunFrom(p4, 4, env, r);
    assert RunFrom(p2, 2, env, r) == RunFrom(p3, 3, env, r);
    assert RunFrom(p1, 1, env, r) == RunFrom(p2, 2, env, r);
    assert RunFrom(p0, 0, env, r) == RunFrom(p1, 1, env, r);
  }

  // ---------------------------------------------------------------------
  // The live run, stated against a reference: the content each step leaves.

  /** What the search step leaves on a page that starts empty. */
  function Searched(search: SearchResult): seq<ContentItem> {
    match search
    case SearchOk(c) => c.GetOr([])
    case _ => []
  }

  /** The filter step returns early on empty content. */
  function AfterFilter(content: seq<ContentItem>, env: Env): seq<ContentItem> {
    if content == [] then content else Filtered(content, env.filter)
  }

  /** The organize step returns early when nothing is approved. */
  function AfterOrganize(content: seq<ContentItem>, env: Env): seq<ContentItem> {
    if Approved(content) == [] then content else Organized(content, env.organize)
  }

  /** The four steps in their order, on a page not yet complete or stored. */
  ghost predicate Fresh(p: Page) {
    && |p.steps| == 4
    && p.steps[0].id == Search && p.steps[1].id == Filter
    && p.steps[2].id == Organize && p.steps[3].id == Finalize
    && !p.isComplete && p.stored == NotStored
  }

  /** How a run ends when the organize step left `content`: the finalize step
      completes, completes the page and stores the path exactly when there is
      content; otherwise nothing is stored and the page stays incomplete. */
  ghost predicate Ends(q: Page, env: Env, content: seq<ContentItem>) {
    && |q.steps| == 4
    && q.content == content
    && (q.steps[3].status == Completed <==> content != [])
    && (q.isComplete <==> content != [])
    && q.stored == (if content != [] then StoreFor(env) else NotStored)
  }

  /** The search step completed, the filter step completed exactly when the
      search left content, the organize step exactly when the filter left
      something approved, and the run ended on what organize left. */
  ghost predicate FollowsReference(q: Page, env: Env) {
    var c0 := Searched(env.search);
    var c1 := AfterFilter(c0, env);
    && Ends(q, env, AfterOrganize(c1, env))
    && q.steps[0].status == Completed
    && (q.steps[1].status == Completed <==> c0 != [])
    && (q.steps[2].status == Completed <==> Approved(c1) != [])
  }

  /** With the finalize step reading the live content, the run from the
      initial page follows the reference: search, then the filter (skipped
      on no content), then organize (skipped when nothing is approved); the
      page completes and the path is stored exactly when content is left. */
  lemma LiveRun(topic: string, sources: seq<string>, env: Env)
    ensures FollowsReference(StartProcessing(InitialPage(topic, sources), env), env)
  {
    var p0 := InitialPage(topic, sources).(hasStarted := true);
    var p1 := ProcessStep(p0.(currentStep := 0), 0, env, Live);
    SearchStepAny(p0.(currentStep := 0), 0, env);
    CompletesLater(p0, 0, env, Live);
    RunFromStep(p0, 0, env, Live);
    FromFilterAny(p1, env);
  }

  /** The run from the filter step on. */
  lemma FromFilterAny(p: Page, env: Env)
    requires Fresh(p)
    ensures var q := RunFrom(p, 1, env, Live);
            var c1 := AfterFilter(p.content, env);
            && q.steps[0] == p.steps[0]
            && (q.steps[1].status == Completed <==> p.content != [])
            && (q.steps[2].status == Completed <==> Approved(c1) != [])
            && Ends(q, env, AfterOrganize(c1, env))
  {
    var q := ProcessStep(p.(currentStep := 1), 1, env, Live);
    FilterStepAny(p.(currentStep := 1), 1, env);
    CompletesLater(p, 1, env, Live);
    RunFromStep(p, 1, env, Live);
    FromOrganizeAny(q, env);
  }

  /** The run from the organize step on. */
  lemma FromOrganizeAny(p: Page, env: Env)
    requires Fresh(p)
    ensures var q := RunFrom(p, 2, env, Live);
            && q.steps[0] == p.steps[0] && q.steps[1] == p.steps[1]
            && (q.steps[2].status == Completed <==> Approved(p.content) != [])
            && Ends(q, env, AfterOrganize(p.content, env))
  {
    var q := ProcessStep(p.(currentStep := 2), 2, env, Live);
    OrganizeStepAny(p.(currentStep := 2), 2, env);
    CompletesLater(p, 2, env, Live);
    RunFromStep(p, 2, env, Live);
    FromFinalizeAny(q, env);
  }

  /** The last turn: the finalize step reads the live content. */
  lemma FromFinalizeAny(p: Page, env: Env)
    requires Fresh(p)
    ensures var q := RunFrom(p, 3, env, Live);
            && q.steps[..3] == p.steps[..3]
            && Ends(q, env, p.content)
  {
    var q := ProcessStep(p.(currentStep := 3), 3, env, Live);
    FinalizeStepAny(p.(currentStep := 3), env);
    RunFromStep(p, 3, env, Live);
    assert RunFrom(q, 4, env, Live) == q;
  }

  /** One turn of the loop. */
  lemma RunFromStep(p: Page, from: nat, env: Env, reading: Reading)
    requires from < |p.steps|
    ensures RunFrom(p, from, env, reading) == RunFrom(ProcessStep(p.(currentStep := from), from, env, reading), from + 1, env, reading)
  {
  }

  lemma SearchStepAny(p: Page, i: nat, env: Env)
    requires i < |p.steps| && p.steps[i].id == Search && p.content == []
    ensures var q := ProcessStep(p, i, env, Live);
            q.content == Searched(env.search) && q.steps[i].status == Completed && q.stored == p.stored
  {
  }

  lemma FilterStepAny(p: Page, i: nat, env: Env)
    requires i < |p.steps| && p.steps[i].id == Filter
    ensures var q := ProcessStep(p, i, env, Live);
            && q.content == AfterFilter(p.content, env)
            && (q.steps[i].status == Completed <==> p.content != [])
            && q.stored == p.stored
  {
  }

  lemma OrganizeStepAny(p: Page, i: nat, env: Env)
    requires i < |p.steps| && p.steps[i].id == Organize
    ensures var q := ProcessStep(p, i, env, Live);
            && q.content == AfterOrganize(p.content, env)
            && (q.steps[i].status == Completed <==> Approved(p.content) != [])
            && q.stored == p.stored
  {
  }

  lemma FinalizeStepAny(p: Page, env: Env)
    requires |p.steps| > 0 && p.steps[|p.steps| - 1].id == Finalize
    ensures var q := ProcessStep(p, |p.steps| - 1, env, Live);
            && q.content == p.content
            && (q.steps[|p.steps| - 1].status == Completed <==> p.content != [])
            && q.stored == (if p.content != [] then StoreFor(env) else p.stored)
            && (q.isComplete <==> p.isComplete || p.content != [])
  {
  }

  // ---------------------------------------------------------------------
  // Consequences of the live run.

  /** A search that finds something carries the run to the end when the
      filter and organize requests both fail: everything is approved, the
      fallback trail keeps the content, and the path is stored. */
  lemma CompletesWithContent(topic: string, sources: seq<string>, env: Env, found: seq<ContentItem>)
    requires found != [] && env.search == SearchOk(Some(found))
    requires !env.filter.FilterOk? && !env.organize.OrganizeOk?
    ensures var q := StartProcessing(InitialPage(topic, sources), env);
            && (forall j :: 0 <= j < |q.steps| ==> q.steps[j].status == Completed)
            && q.isComplete && q.stored == StoreFor(env)
            && q.content == ApproveAll(found)
  {
    LiveRun(topic, sources, env);
    ApproveAllApproved(found);
  }

  /** The working path: the filter approves some found item and the trail
      names some found item. Every step completes, the path is stored, and
      the page holds the trail's walk over the filtered content. */
  lemma FilterAndOrganizeSucceed(topic: string, sources: seq<string>, env: Env, found: seq<ContentItem>,
                                 ids: seq<string>, sections: seq<Section<TrailEntry>>)
    requires found != [] && env.search == SearchOk(Some(found))
    requires env.filter == FilterOk(Some(ids)) && exists j :: 0 <= j < |found| && found[j].id in ids
    requires env.organize == OrganizeOk(TrailSections(sections))
    requires exists k :: 0 <= k < |Flatten(sections)| && Flatten(sections)[k].id in Ids(found)
    ensures var q := StartProcessing(InitialPage(topic, sources), env);
            && (forall j :: 0 <= j < |q.steps| ==> q.steps[j].status == Completed)
            && q.isComplete && q.stored == StoreFor(env)
            && q.content == Reorder(ApplyFilter(found, ids), sections)
  {
    LiveRun(topic, sources, env);
    SomeApproved(found, ids);
    SomePlaced(ApplyFilter(found, ids), found, sections);
    SucceedsAfter(StartProcessing(InitialPage(topic, sources), env), env, found, ids, sections);
  }

  lemma SucceedsAfter(q: Page, env: Env, found: seq<ContentItem>, ids: seq<string>, sections: seq<Section<TrailEntry>>)
    requires FollowsReference(q, env)
    requires found != [] && env.search == SearchOk(Some(found))
    requires env.filter == FilterOk(Some(ids)) && env.organize == OrganizeOk(TrailSections(sections))
    requires Approved(ApplyFilter(found, ids)) != [] && Reorder(ApplyFilter(found, ids), sections) != []
    ensures && (forall j :: 0 <= j < |q.steps| ==> q.steps[j].status == Completed)
            && q.isComplete && q.stored == StoreFor(env)
            && q.content == Reorder(ApplyFilter(found, ids), sections)
  {
    ReferenceOnSuccess(env, found, ids, sections);
    FourCompleted(q.steps);
  }

  lemma ReferenceOnSuccess(env: Env, found: seq<ContentItem>, ids: seq<string>, sections: seq<Section<TrailEntry>>)
    requires found != [] && env.search == SearchOk(Some(found))
    requires env.filter == FilterOk(Some(ids)) && env.organize == OrganizeOk(TrailSections(sections))
    requires Approved(ApplyFilter(found, ids)) != []
    ensures Searched(env.search) == found
    ensures AfterFilter(found, env) == ApplyFilter(found, ids)
    ensures AfterOrganize(ApplyFilter(found, ids), env) == Reorder(ApplyFilter(found, ids), sections)
  {
  }

  /** A trail that names none of the found items empties the content, so the
      finalize step returns early: the page never completes and nothing is
      stored, although the organize request succeeded. */
  lemma UnknownTrailStalls(topic: string, sources: seq<string>, env: Env, found: seq<ContentItem>,
                           sections: seq<Section<TrailEntry>>)
    requires found != [] && env.search == SearchOk(Some(found))
    requires Approved(Filtered(found, env.filter)) != []
    requires env.organize == OrganizeOk(TrailSections(sections))
    requires forall k :: 0 <= k < |Flatten(sections)| ==> Flatten(sections)[k].id !in Ids(found)
    ensures var q := StartProcessing(InitialPage(topic, sources), env);
            && q.steps[2].status == Completed && q.steps[3].status == Processing
            && !q.isComplete && q.stored == NotStored && q.content == []
  {
    LiveRun(topic, sources, env);
    UnknownTrailEmpties(Filtered(found, env.filter), found, sections);
  }

  /** A filter that approves none of the found items makes the organize step
      return early and stay processing; the finalize step still sees the
      content, so the page completes with every item unapproved. */
  lemma NothingApprovedSkipsOrganize(topic: string, sources: seq<string>, env: Env, found: seq<ContentItem>, ids: seq<string>)
    requires found != [] && env.search == SearchOk(Some(found))
    requires env.filter == FilterOk(Some(ids)) && forall j :: 0 <= j < |found| ==> found[j].id !in ids
    ensures var q := StartProcessing(InitialPage(topic, sources), env);
            && q.steps[2].status == Processing && q.steps[3].status == Completed
            && q.isComplete && q.stored == StoreFor(env) && q.content == ApplyFilter(found, ids)
  {
    LiveRun(topic, sources, env);
    NoneApproved(found, ids);
  }

  // Content-level facts the run lemmas combine.

  lemma SomeApproved(found: seq<ContentItem>, ids: seq<string>)
    requires exists j :: 0 <= j < |found| && found[j].id in ids
    ensures Approved(ApplyFilter(found, ids)) != []
  {
    var c1 := ApplyFilter(found, ids);
    var j :| 0 <= j < |found| && found[j].id in ids;
    assert c1[j] in Approved(c1);
  }

  lemma SomePlaced(c1: seq<ContentItem>, found: seq<ContentItem>, sections: seq<Section<TrailEntry>>)
    requires |c1| == |found| && forall i :: 0 <= i < |c1| ==> c1[i].id == found[i].id
    requires exists k :: 0 <= k < |Flatten(sections)| && Flatten(sections)[k].id in Ids(found)
    ensures Reorder(c1, sections) != []
  {
    var entries := Flatten(sections);
    var k :| 0 <= k < |entries| && entries[k].id in Ids(found);
    var m :| 0 <= m < |found| && Ids(found)[m] == entries[k].id;
    assert c1[m].id == entries[k].id;
    PlaceAllSomeKnown(c1, entries, k);
    ReorderIsFlat(c1, sections);
  }

  lemma UnknownTrailEmpties(c1: seq<ContentItem>, found: seq<ContentItem>, sections: seq<Section<TrailEntry>>)
    requires |c1| == |found| && forall i :: 0 <= i < |c1| ==> c1[i].id == found[i].id
    requires forall k :: 0 <= k < |Flatten(sections)| ==> Flatten(sections)[k].id !in Ids(found)
    ensures Reorder(c1, sections) == []
  {
    var entries := Flatten(sections);
    forall k | 0 <= k < |entries|
      ensures LookupById(c1, entries[k].id).None?
    {
      forall m | 0 <= m < |c1|
        ensures c1[m].id != entries[k].id
      {
        assert Ids(found)[m] == c1[m].id;
      }
    }
    PlaceAllUnknown(c1, entries);
    ReorderIsFlat(c1, sections);
  }

  lemma NoneApproved(found: seq<ContentItem>, ids: seq<string>)
    requires forall j :: 0 <= j < |found| ==> found[j].id !in ids
    ensures Approved(ApplyFilter(found, ids)) == []
  {
    ApprovedNone(ApplyFilter(found, ids));
  }

  lemma {:induction false} ApprovedNone(content: seq<ContentItem>)
    requires forall i :: 0 <= i < |content| ==> content[i].isApproved != Some(true)
    ensures Approved(content) == []
  {
    if |content| > 0 {
      ApprovedNone(content[1..]);
    }
  }

  /** An entry naming a known id makes the walk non-empty. */
  lemma {:induction false} PlaceAllSomeKnown(content: seq<ContentItem>, entries: seq<TrailEntry>, k: nat)
    requires k < |entries| && exists m :: 0 <= m < |content| && content[m].id == entries[k].id
    ensures PlaceAll(content, entries) != []
  {
    if k == 0 {
      assert |Place(content, entries[0])| == 1;
    } else {
      assert entries[1..][k - 1] == entries[k];
      PlaceAllSomeKnown(content, entries[1..], k - 1);
    }
  }

  lemma FourCompleted(steps: seq<Step>)
    requires |steps| == 4
    requires steps[0].status == Completed && steps[1].status == Completed
    requires steps[2].status == Completed && steps[3].status == Completed
    ensures forall j :: 0 <= j < |steps| ==> steps[j].status == Completed
  {
  }

  lemma ApproveAllApproved(found: seq<ContentItem>)
    requires found != []
    ensures Approved(ApproveAll(found)) != []
  {
    assert ApproveAll(found)[0] in Approved(ApproveAll(found));
  }
}

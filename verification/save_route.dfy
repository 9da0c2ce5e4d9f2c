/** Saving a learning path (src/app/api/learning-paths/save/route.ts): the
    caller must be signed in and send a title, topic, difficulty, description
    and trail; the new path counts the trail's items and starts with nothing
    completed. */
module SaveRoute {
  import opened Wrappers
  import opened Types

  /** The `organizedTrail` field: absent or falsy, an object without a
      section list (reading it throws), or the wrapper around the sections. */
  datatype TrailField<T> = NoTrail | NoSectionList | Trail(sections: seq<Section<T>>)

  datatype SaveBody<T> = Malformed | SaveBody(
    title: Option<string>,
    topic: Option<string>,
    difficulty: Option<string>,
    description: Option<string>,
    organizedTrail: TrailField<T>)

  /** The record the endpoint hands to `db.createLearningPath`; what the
      database then stores and returns is not part of this model. */
  datatype NewPath<T> = NewPath(
    userId: string,
    title: string,
    topic: string,
    difficulty: string,
    description: string,
    totalContent: nat,
    completedContent: nat,
    progress: nat,
    status: string,
    sections: seq<Section<T>>)

  datatype Response<T> = Failure(status: nat, error: string) | Created(path: NewPath<T>)

  const Unauthorized := "Unauthorized"
  const MissingParameters := "Missing required parameters"
  const InternalError := "Internal server error"

  /** `reduce((acc, s) => acc + s.items.length, 0)`. */
  function TotalContent<T>(sections: seq<Section<T>>): (n: nat)
    ensures n == 0 <==> forall i :: 0 <= i < |sections| ==> sections[i].items == []
  {
    if |sections| == 0 then 0
    else TotalContent(sections[..|sections| - 1]) + |sections[|sections| - 1].items|
  }

  /** The count is additive over the sections. */
  lemma {:induction false} TotalContentAppend<T>(a: seq<Section<T>>, b: seq<Section<T>>)
    ensures TotalContent(a + b) == TotalContent(a) + TotalContent(b)
    decreases |b|
  {
    if |b| == 0 {
      assert a + b == a;
    } else {
      var b' := b[..|b| - 1];
      assert (a + b)[..|a + b| - 1] == a + b';
      assert (a + b)[|a + b| - 1] == b[|b| - 1];
      TotalContentAppend(a, b');
    }
  }

  /** A one-section trail counts that section's items. */
  lemma TotalContentOfOneSection<T>(title: string, items: seq<T>)
    ensures TotalContent([Section(title, items)]) == |items|
  {
    assert [Section(title, items)][..0] == [];
  }

  predicate HasRequiredFields<T>(b: SaveBody<T>) {
    b.SaveBody? && Truthy(b.title) && Truthy(b.topic) && Truthy(b.difficulty) && Truthy(b.description)
    && !b.organizedTrail.NoTrail?
  }

  /** `POST`; `user` is the signed-in user's id, if any, and `insertThrows`
      whether `db.createLearningPath` throws, which the catch answers 500. */
  function Handle<T>(user: Option<string>, body: SaveBody<T>, insertThrows: bool): (r: Response<T>)
    ensures user.None? ==> r == Failure(401, Unauthorized)
    ensures user.Some? && body.Malformed? ==> r == Failure(500, InternalError)
    ensures user.Some? && body.SaveBody? && !HasRequiredFields(body) ==> r == Failure(400, MissingParameters)
    ensures user.Some? && HasRequiredFields(body) && body.organizedTrail.NoSectionList? ==> r == Failure(500, InternalError)
    ensures user.Some? && HasRequiredFields(body) && insertThrows ==> r == Failure(500, InternalError)
    ensures r.Created? <==> user.Some? && HasRequiredFields(body) && body.organizedTrail.Trail? && !insertThrows
    ensures r.Created? ==>
              var p := r.path;
              && p.userId == user.value
              && p.title == body.title.value && p.topic == body.topic.value
              && p.difficulty == body.difficulty.value && p.description == body.description.value
              && p.sections == body.organizedTrail.sections
              && p.totalContent == TotalContent(body.organizedTrail.sections)
              && p.completedContent == 0 && p.progress == 0 && p.status == "active"
  {
    if user.None? then Failure(401, Unauthorized)
    else if body.Malformed? then Failure(500, InternalError)
    else if !HasRequiredFields(body) then Failure(400, MissingParameters)
    else if body.organizedTrail.NoSectionList? then Failure(500, InternalError)
    else if insertThrows then Failure(500, InternalError)
    else
      var sections := body.organizedTrail.sections;
      Created(NewPath(user.value, body.title.value, body.topic.value, body.difficulty.value,
                      body.description.value, TotalContent(sections), 0, 0, "active", sections))
  }

  /** A throwing insert turns exactly the requests that would have created a
      path into a 500; every other answer is the same either way. */
  lemma InsertFailureIs500<T>(user: Option<string>, body: SaveBody<T>)
    ensures Handle(user, body, true).Failure?
    ensures !Handle(user, body, false).Created? ==> Handle(user, body, true) == Handle(user, body, false)
    ensures Handle(user, body, false).Created? ==> Handle(user, body, true) == Failure(500, InternalError)
  {
  }
}

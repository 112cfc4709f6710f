/** A request through both mixins: `UserIDMixin.dispatch` resolves the
    caller, then `CacheDatasetMixin.dispatch` binds the workflow and the
    cached dataset; a refusal on the way becomes an HTTP status with body
    `{"error": message}` (workflow/mixins.py). */
module Pipeline {
  import opened Results
  import opened Records
  import opened Failures
  import opened Identity
  import opened Ingest
  import opened Resolver

  /** Either the request reaches the wrapped view with its selection, or it
      is answered with a status and an error text. */
  datatype Outcome = Forwarded(selection: Selected) | Answered(status: int, message: string)

  datatype Handled = Handled(cache: Cache, store: Store, outcome: Outcome)

  function Handle(h: Headers, cache: Cache, s: Store, req: CacheRequest, reg: Registry, remote: Remote, e: Entropy): (r: Handled)
    requires Valid(s)
    ensures Valid(r.store)
    ensures r.outcome.Answered? ==> r.outcome.status in {Unauthorized, 400, 404, 500}
    ensures s.users.Keys <= r.store.users.Keys
  {
    var id := Resolve(h, cache, s);
    match id.result
    case Err(f) => Handled(id.cache, id.store, Answered(Unauthorized, f.Message()))
    case Ok(user) =>
      var d := CacheDispatch(id.store, user.userId, req, reg, remote, e);
      match d.result
      case Err(f) =>
        TranslationTable(f);
        Handled(id.cache, d.store, Answered(Status(f.Kind()), f.Message()))
      case Ok(sel) => Handled(id.cache, d.store, Forwarded(sel))
  }

  /** 401 is the identity check's status and no other: a 401 touches
      neither cache nor store, and every later refusal is 400, 404 or 500. */
  lemma UnauthorizedOnlyForIdentity(h: Headers, cache: Cache, s: Store, req: CacheRequest, reg: Registry, remote: Remote, e: Entropy)
    requires Valid(s)
    ensures var r := Handle(h, cache, s, req, reg, remote, e);
            (r.outcome.Answered? && r.outcome.status == Unauthorized <==>
               Resolve(h, cache, s).result.Err?)
            && (Resolve(h, cache, s).result.Err? ==> r.cache == cache && r.store == s)
  {
    var id := Resolve(h, cache, s);
    if id.result.Ok? {
      var d := CacheDispatch(id.store, id.result.value.userId, req, reg, remote, e);
      if d.result.Err? {
        TranslationTable(d.result.error);
      }
    }
  }

  /** An unknown task type is answered with 400 and its message after the
      caller is resolved, before any workflow, dataset or row changes. */
  lemma UnknownTaskTypeAnswered(h: Headers, cache: Cache, s: Store, req: CacheRequest, reg: Registry, remote: Remote, e: Entropy)
    requires Valid(s)
    requires Resolve(h, cache, s).result.Ok?
    requires !req.verb.OtherMethod? && |TaskMapping(reg, Read(req).taskType)| == 0
    ensures var r := Handle(h, cache, s, req, reg, remote, e);
            && r.outcome == Answered(400, "Please give a valid task type.")
            && r.store.workflows == s.workflows && r.store.datasets == s.datasets
            && r.store.rows == s.rows
  {
  }

  /** A method other than GET or POST reaches the task-type lookup with the
      variable never assigned: the Python error is answered with 500. */
  lemma OtherMethodAnswered(h: Headers, cache: Cache, s: Store, req: CacheRequest, reg: Registry, remote: Remote, e: Entropy)
    requires Valid(s)
    requires Resolve(h, cache, s).result.Ok? && req.verb.OtherMethod?
    ensures Handle(h, cache, s, req, reg, remote, e).outcome
            == Answered(500, "cannot access local variable 'task_type' where it is not associated with a value")
  {
  }

  /** A missing repository is the only 404. */
  lemma NotFoundIsMissingRepository(h: Headers, cache: Cache, s: Store, req: CacheRequest, reg: Registry, remote: Remote, e: Entropy)
    requires Valid(s)
    ensures var r := Handle(h, cache, s, req, reg, remote, e);
            r.outcome.Answered? && r.outcome.status == 404 ==> r.outcome.message == "Dataset not found."
  {
    var id := Resolve(h, cache, s);
    if id.result.Ok? {
      var d := CacheDispatch(id.store, id.result.value.userId, req, reg, remote, e);
      if d.result.Err? {
        TranslationTable(d.result.error);
      }
    }
  }
}

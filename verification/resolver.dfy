/** `CacheDatasetMixin.dispatch` (workflow/mixins.py) up to the hand-over
    to the wrapped view: look up the task's column mapping, bind a workflow,
    pick or create the dataset from the request's reference or the
    workflow's own dataset, and ingest it unless it is already cached. */
module Resolver {
  import opened Results
  import opened Text
  import opened Records
  import opened Failures
  import opened Ingest
  import opened Binder

  datatype Method = Get | Post | OtherMethod(name: string)

  /** The two request parameters the mixin reads. */
  datatype Params = Params(dataset: Option<string>, taskType: Option<string>)

  /** A request: its method, its query string and its form body. */
  datatype CacheRequest = CacheRequest(verb: Method, query: Params, form: Params)

  /** The task schema registry: the column mapping of each known task type.
      A lookup of an absent (or no) task type finds the empty mapping. */
  type Registry = map<string, Mapping>

  function TaskMapping(reg: Registry, t: Option<string>): (m: Mapping)
    ensures |m| > 0 ==> t.Some? && t.value in reg && m == reg[t.value]
    ensures t.Some? && t.value in reg ==> m == reg[t.value]
  {
    if t.Some? && t.value in reg then reg[t.value] else []
  }

  /** What the mixin attaches to the request for the wrapped view. */
  datatype Selected = Selected(workflowId: nat, datasetId: nat)

  datatype Dispatched = Dispatched(store: Store, result: Result<Selected, Failure>)

  /** The record `Dataset.objects.create(...)` makes for a new reference. */
  function NewDataset(id: nat, wid: nat, repo: string, name: string, t: string): (d: Dataset)
    ensures d.id == id && d.workflowId == wid && d.taskType == t && !d.cached
  {
    Dataset(id, wid, repo, name, t, false, None)
  }

  datatype Choice = Choice(store: Store, dataset: Dataset)

  /** Find-or-create of the dataset for (task type, workflow): the first
      existing one, or a new uncached record of `repo/name`. Either way the
      pair then resolves to the chosen dataset. */
  function ChooseByReference(s: Store, wid: nat, t: string, repo: string, name: string): (c: Choice)
    requires Valid(s) && wid < s.nextKey
    ensures Valid(c.store)
    ensures FirstDatasetWith(c.store.datasets, t, wid) == Some(c.dataset)
    ensures c.dataset.workflowId == wid && c.dataset.taskType == t && c.dataset.id < c.store.nextKey
    ensures c.store.users == s.users && c.store.workflows == s.workflows
    ensures c.store.rows == s.rows && c.store.drawn == s.drawn
    ensures FirstDatasetWith(s.datasets, t, wid).Some? ==>
              c == Choice(s, FirstDatasetWith(s.datasets, t, wid).value)
    ensures FirstDatasetWith(s.datasets, t, wid).None? ==>
              && c.dataset == NewDataset(s.nextKey, wid, repo, name, t)
              && c.store == s.(datasets := s.datasets + [c.dataset], nextKey := s.nextKey + 1)
  {
    match FirstDatasetWith(s.datasets, t, wid)
    case Some(d) => Choice(s, d)
    case None =>
      var d := NewDataset(s.nextKey, wid, repo, name, t);
      var s' := s.(datasets := s.datasets + [d], nextKey := s.nextKey + 1);
      assert forall i :: 0 <= i < |s.datasets| ==> s'.datasets[i] == s.datasets[i];
      FirstDatasetWithAppendNone(s.datasets, d);
      Choice(s', d)
  }

  /** With no earlier dataset of that type and workflow, an appended one is
      the first. */
  lemma FirstDatasetWithAppendNone(ds: seq<Dataset>, d: Dataset)
    requires FirstDatasetWith(ds, d.taskType, d.workflowId).None?
    ensures FirstDatasetWith(ds + [d], d.taskType, d.workflowId) == Some(d)
  {
    var e := ds + [d];
    assert forall j :: 0 <= j < |ds| ==> e[j] == ds[j] && e[j] in ds;
  }

  /** A dataset already cached is selected as it is; one that is not is
      ingested first, and selected only when ingestion succeeds. */
  function EnsureCached(s: Store, wid: nat, d: Dataset, m: Mapping, ref: string, remote: Remote, e: Entropy): (r: Dispatched)
    ensures d.cached ==> r == Dispatched(s, Ok(Selected(wid, d.id)))
    ensures r.result.Ok? ==> r.result.value == Selected(wid, d.id)
    ensures !d.cached ==> r.store == CacheDataset(s, d.id, m, ref, remote, e).store
    ensures !d.cached ==> (r.result.Ok? <==> CacheDataset(s, d.id, m, ref, remote, e).failure.None?)
    ensures r.result.Err? ==>
              r.result.error in {RepoNotFound, NoCsvFiles} || r.result.error.MissingColumn?
  {
    if d.cached then Dispatched(s, Ok(Selected(wid, d.id)))
    else
      var c := CacheDataset(s, d.id, m, ref, remote, e);
      match c.failure
      case Some(f) => Dispatched(c.store, Err(f))
      case None => Dispatched(c.store, Ok(Selected(wid, d.id)))
  }

  /** The parameters the method reads: the query string for GET, the form
      body for POST. */
  function Read(req: CacheRequest): Params
    requires !req.verb.OtherMethod?
  {
    if req.verb == Get then req.query else req.form
  }

  /** The dispatch, for the already resolved `user`. */
  function CacheDispatch(s: Store, user: string, req: CacheRequest, reg: Registry, remote: Remote, e: Entropy): (r: Dispatched)
    requires Valid(s)
    ensures req.verb.OtherMethod? ==> r == Dispatched(s, Err(UnboundTaskType))
    ensures !req.verb.OtherMethod? && |TaskMapping(reg, Read(req).taskType)| == 0 ==>
              r == Dispatched(s, Err(InvalidTaskType))
    ensures Valid(r.store)
    ensures r.store.users == s.users
    ensures |s.rows| <= |r.store.rows| && r.store.rows[..|s.rows|] == s.rows
    ensures r.result.Ok? ==>
              exists d :: d in r.store.datasets && d.id == r.result.value.datasetId
                && d.workflowId == r.result.value.workflowId && d.cached
                && Some(d.taskType) == Read(req).taskType
  {
    if req.verb.OtherMethod? then Dispatched(s, Err(UnboundTaskType))
    else
      var p := Read(req);
      var m := TaskMapping(reg, p.taskType);
      if |m| == 0 then Dispatched(s, Err(InvalidTaskType))
      else
        var t := p.taskType.value;
        var b := Bind(s, user, t);
        BindValid(s, user, t);
        assert b.workflowId < b.store.nextKey;
        if Given(p.dataset) then
          var ref := p.dataset.value;
          var parts := Split(ref, '/');
          if |parts| != 2 then Dispatched(b.store, Err(MalformedReference(|parts|)))
          else
            var c := ChooseByReference(b.store, b.workflowId, t, parts[0], parts[1]);
            var r := EnsureCached(c.store, b.workflowId, c.dataset, m, ref, remote, e);
            CacheDatasetValid(c.store, c.dataset.id, m, ref, remote, e);
            CachedDatasetPresent(c.store, c.dataset, m, ref, remote, e);
            r
        else if !b.created then
          match FirstDatasetOf(b.store.datasets, b.workflowId)
          case None => Dispatched(b.store, Err(NoWorkflowDataset))
          case Some(d) =>
            var ref := d.repoId + "/" + d.name;
            var r := EnsureCached(b.store, b.workflowId, d, m, ref, remote, e);
            CacheDatasetValid(b.store, d.id, m, ref, remote, e);
            CachedDatasetPresent(b.store, d, m, ref, remote, e);
            assert BoundTo(b.store.datasets, b.workflowId, t);
            r
        else Dispatched(b.store, Err(NoDatasetAvailable))
  }

  /** After `EnsureCached` succeeds the dataset is in the store, cached. */
  lemma CachedDatasetPresent(s: Store, d: Dataset, m: Mapping, ref: string, remote: Remote, e: Entropy)
    requires d in s.datasets
    ensures var r := EnsureCached(s, d.workflowId, d, m, ref, remote, e);
            r.result.Ok? ==> d.(cached := true, commitHash := if d.cached then d.commitHash
                                 else Some(remote.repos[ref].sha)) in r.store.datasets
  {
    if !d.cached {
      var c := CacheDataset(s, d.id, m, ref, remote, e);
      if c.failure.None? {
        var i :| 0 <= i < |s.datasets| && s.datasets[i] == d;
        assert c.store.datasets[i] == d.(cached := true, commitHash := Some(remote.repos[ref].sha));
      }
    } else {
      assert d.(cached := true, commitHash := d.commitHash) == d;
    }
  }

  /** The state a successful dispatch leaves behind: binding the user to the
      task type finds workflow `sel.workflowId` without creating one, and
      that workflow's first dataset is `sel.datasetId`, already cached. */
  predicate Settled(s: Store, user: string, t: string, sel: Selected) {
    && Bind(s, user, t) == Binding(s, sel.workflowId, false)
    && var d := FirstDatasetOf(s.datasets, sel.workflowId);
       d.Some? && d.value.id == sel.datasetId && d.value.cached
  }

  /** Workflow `wid` is the user's first workflow bound to `t` and `d` is its
      first dataset: the state just before the cache check. */
  ghost predicate Poised(s: Store, user: string, t: string, wid: nat, d: Dataset) {
    && (exists i :: 0 <= i < |OwnedBy(s.workflows, user)| && FirstBoundAt(OwnedBy(s.workflows, user), s.datasets, t, i)
                    && OwnedBy(s.workflows, user)[i].id == wid)
    && FirstDatasetOf(s.datasets, wid) == Some(d)
  }

  /** From the poised state, a successful cache check settles. */
  lemma PoisedSettles(s: Store, user: string, t: string, wid: nat, d: Dataset,
                      m: Mapping, ref: string, remote: Remote, e: Entropy)
    requires Poised(s, user, t, wid, d)
    requires EnsureCached(s, wid, d, m, ref, remote, e).result.Ok?
    ensures Settled(EnsureCached(s, wid, d, m, ref, remote, e).store, user, t, Selected(wid, d.id))
  {
    var owned := OwnedBy(s.workflows, user);
    var i: nat :| FirstBoundAt(owned, s.datasets, t, i) && owned[i].id == wid;
    assert FirstBoundAt(owned, s.datasets, t, i);
    assert i < |owned|;
    var r := EnsureCached(s, wid, d, m, ref, remote, e);
    if d.cached {
      BindFirstMatch(s, user, t, i);
    } else {
      var sha := remote.repos[ref].sha;
      assert r.store.datasets == MarkCached(s.datasets, d.id, sha);
      assert r.store.workflows == s.workflows;
      assert i < |owned|;
      forall j | 0 <= j <= i
        ensures BoundTo(r.store.datasets, owned[j].id, t) <==> BoundTo(s.datasets, owned[j].id, t)
      {
        BoundToMarkCached(s.datasets, d.id, sha, owned[j].id, t);
      }
      assert OwnedBy(r.store.workflows, user) == owned;
      assert FirstBoundAt(owned, r.store.datasets, t, i);
      BindFirstMatch(r.store, user, t, i);
      MarkCachedKeepsFirst(s.datasets, d.id, sha, wid);
    }
  }

  /** A settled store answers the same task type with the same selection and
      changes nothing: no workflow, no dataset, no ingestion, whatever
      well-formed reference the request carries. */
  lemma SettledDispatch(s: Store, user: string, req: CacheRequest, reg: Registry, remote: Remote, e: Entropy, sel: Selected)
    requires Valid(s) && !req.verb.OtherMethod?
    requires |TaskMapping(reg, Read(req).taskType)| > 0
    requires Settled(s, user, Read(req).taskType.value, sel)
    requires Given(Read(req).dataset) ==> |Split(Read(req).dataset.value, '/')| == 2
    ensures CacheDispatch(s, user, req, reg, remote, e) == Dispatched(s, Ok(sel))
  {
    var p := Read(req);
    var t := p.taskType.value;
    var owned := OwnedBy(s.workflows, user);
    var i :| FirstBoundAt(owned, s.datasets, t, i) && owned[i].id == sel.workflowId;
    assert BoundTo(s.datasets, sel.workflowId, t);
    FirstOfTypeIsFirst(s.datasets, t, sel.workflowId);
  }

  /** A successful dispatch settles the store for that user and task type. */
  lemma DispatchSettles(s: Store, user: string, req: CacheRequest, reg: Registry, remote: Remote, e: Entropy)
    requires Valid(s)
    requires CacheDispatch(s, user, req, reg, remote, e).result.Ok?
    ensures !req.verb.OtherMethod? && Read(req).taskType.Some?
    ensures var r := CacheDispatch(s, user, req, reg, remote, e);
            Settled(r.store, user, Read(req).taskType.value, r.result.value)
  {
    var p := Read(req);
    var m := TaskMapping(reg, p.taskType);
    var t := p.taskType.value;
    var b := Bind(s, user, t);
    BindValid(s, user, t);
    var wid := b.workflowId;
    if !b.created {
      var owned := OwnedBy(s.workflows, user);
      var i: nat :| FirstBoundAt(owned, s.datasets, t, i) && owned[i].id == wid;
      assert BoundTo(s.datasets, wid, t);
      var d := FirstDatasetOf(s.datasets, wid).value;
      assert Poised(s, user, t, wid, d);
      if Given(p.dataset) {
        var ref := p.dataset.value;
        FirstOfTypeIsFirst(s.datasets, t, wid);
        PoisedSettles(s, user, t, wid, d, m, ref, remote, e);
      } else {
        PoisedSettles(s, user, t, wid, d, m, d.repoId + "/" + d.name, remote, e);
      }
    } else {
      var ref := p.dataset.value;
      var parts := Split(ref, '/');
      var c := ChooseByReference(b.store, wid, t, parts[0], parts[1]);
      CreatedPoised(s, user, t, c.dataset);
      PoisedSettles(c.store, user, t, wid, c.dataset, m, ref, remote, e);
    }
  }

  /** A created workflow with its newly created dataset is poised: the old
      workflows of the user stay unbound and the new one is bound. */
  lemma CreatedPoised(s: Store, user: string, t: string, d: Dataset)
    requires Valid(s) && Bind(s, user, t).created
    requires d == NewDataset(s.nextKey + 1, s.nextKey, d.repoId, d.name, t)
    ensures var b := Bind(s, user, t);
            Poised(b.store.(datasets := b.store.datasets + [d], nextKey := b.store.nextKey + 1),
                   user, t, s.nextKey, d)
  {
    var b := Bind(s, user, t);
    var s1 := b.store.(datasets := b.store.datasets + [d], nextKey := b.store.nextKey + 1);
    var w := TrainingWorkflow(s.nextKey, user, t);
    var owned := OwnedBy(s.workflows, user);
    OwnedByAppend(s.workflows, w, user);
    assert OwnedBy(s1.workflows, user) == owned + [w];
    forall x | x in s.datasets
      ensures x.workflowId != d.workflowId
    {
      var k :| 0 <= k < |s.datasets| && s.datasets[k] == x;
    }
    FirstDatasetOfFresh(s.datasets, d);
    forall j | 0 <= j < |owned|
      ensures !BoundTo(s1.datasets, (owned + [w])[j].id, t)
    {
      assert (owned + [w])[j] == owned[j];
      assert owned[j] in owned;
      var k :| 0 <= k < |s.workflows| && s.workflows[k] == owned[j];
      BoundToAppend(s.datasets, d, owned[j].id, t);
    }
    assert (owned + [w])[|owned|] == w;
    assert FirstBoundAt(OwnedBy(s1.workflows, user), s1.datasets, t, |owned|);
  }

  /** Dispatching twice in a row: once the first dispatch succeeds, the
      second one, for the same user and task type and with any well-formed
      reference or none, selects the same workflow and dataset and leaves
      the store as the first one left it. */
  lemma DispatchIdempotent(s: Store, user: string, req1: CacheRequest, req2: CacheRequest,
                           reg: Registry, remote: Remote, e1: Entropy, e2: Entropy)
    requires Valid(s)
    requires CacheDispatch(s, user, req1, reg, remote, e1).result.Ok?
    requires !req2.verb.OtherMethod? && Read(req2).taskType == Read(req1).taskType
    requires Given(Read(req2).dataset) ==> |Split(Read(req2).dataset.value, '/')| == 2
    ensures var r1 := CacheDispatch(s, user, req1, reg, remote, e1);
            CacheDispatch(r1.store, user, req2, reg, remote, e2) == r1
  {
    var r1 := CacheDispatch(s, user, req1, reg, remote, e1);
    DispatchSettles(s, user, req1, reg, remote, e1);
    SettledDispatch(r1.store, user, req2, reg, remote, e2, r1.result.value);
  }

  /** The "No dataset associated with the workflow." branch cannot be taken:
      a workflow the binder finds is bound, so it has a first dataset. */
  lemma NoWorkflowDatasetUnreachable(s: Store, user: string, req: CacheRequest, reg: Registry, remote: Remote, e: Entropy)
    requires Valid(s)
    ensures CacheDispatch(s, user, req, reg, remote, e).result != Err(NoWorkflowDataset)
  {
    if !req.verb.OtherMethod? && |TaskMapping(reg, Read(req).taskType)| > 0 {
      var p := Read(req);
      var m := TaskMapping(reg, p.taskType);
      var t := p.taskType.value;
      var b := Bind(s, user, t);
      BindValid(s, user, t);
      var r := CacheDispatch(s, user, req, reg, remote, e);
      if Given(p.dataset) {
        var ref := p.dataset.value;
        var parts := Split(ref, '/');
        if |parts| == 2 {
          var c := ChooseByReference(b.store, b.workflowId, t, parts[0], parts[1]);
          assert r.result == EnsureCached(c.store, b.workflowId, c.dataset, m, ref, remote, e).result;
        }
      } else if !b.created {
        BoundHasDataset(s, user, t);
        var d := FirstDatasetOf(b.store.datasets, b.workflowId).value;
        assert r.result == EnsureCached(b.store, b.workflowId, d, m, d.repoId + "/" + d.name, remote, e).result;
      }
    }
  }

  /** A workflow the binder reuses has a first dataset, of the task type. */
  lemma BoundHasDataset(s: Store, user: string, t: string)
    ensures var b := Bind(s, user, t);
            !b.created ==> BoundTo(b.store.datasets, b.workflowId, t)
  {
    var b := Bind(s, user, t);
    if !b.created {
      var owned := OwnedBy(s.workflows, user);
      var i :| FirstBoundAt(owned, s.datasets, t, i) && owned[i].id == b.workflowId;
    }
  }


  /** A reference that does not split into exactly two parts is refused after
      binding: a workflow the binder had to create stays in the store. */
  lemma MalformedReferenceKeepsWorkflow(s: Store, user: string, req: CacheRequest, reg: Registry, remote: Remote, e: Entropy)
    requires Valid(s) && !req.verb.OtherMethod?
    requires |TaskMapping(reg, Read(req).taskType)| > 0
    requires Given(Read(req).dataset) && |Split(Read(req).dataset.value, '/')| != 2
    ensures var t := Read(req).taskType.value;
            var r := CacheDispatch(s, user, req, reg, remote, e);
            && r.result == Err(MalformedReference(|Split(Read(req).dataset.value, '/')|))
            && r.store.datasets == s.datasets && r.store.rows == s.rows
            && (Bind(s, user, t).created ==>
                  r.store.workflows == s.workflows + [TrainingWorkflow(s.nextKey, user, t)])
            && (!Bind(s, user, t).created ==> r.store == s)
  {
  }

  /** Without a reference a user with no workflow bound to the task type is
      refused, and the workflow created for the attempt stays: every such
      request adds one more empty training workflow. */
  lemma NoReferenceForNewWorkflow(s: Store, user: string, req: CacheRequest, reg: Registry, remote: Remote, e: Entropy)
    requires Valid(s) && !req.verb.OtherMethod?
    requires |TaskMapping(reg, Read(req).taskType)| > 0
    requires !Given(Read(req).dataset)
    requires forall w :: w in s.workflows && w.owner == user ==>
               !BoundTo(s.datasets, w.id, Read(req).taskType.value)
    ensures var t := Read(req).taskType.value;
            var r := CacheDispatch(s, user, req, reg, remote, e);
            && r.result == Err(NoDatasetAvailable)
            && r.store.workflows == s.workflows + [TrainingWorkflow(s.nextKey, user, t)]
            && r.store.datasets == s.datasets && r.store.rows == s.rows
            && CacheDispatch(r.store, user, req, reg, remote, e).result == Err(NoDatasetAvailable)
  {
    var t := Read(req).taskType.value;
    var r := CacheDispatch(s, user, req, reg, remote, e);
    var w := TrainingWorkflow(s.nextKey, user, t);
    forall x | x in r.store.workflows && x.owner == user
      ensures !BoundTo(r.store.datasets, x.id, t)
    {
      if x !in s.workflows {
        assert x == w;
        forall dd | dd in s.datasets ensures dd.workflowId != x.id {
          var k :| 0 <= k < |s.datasets| && s.datasets[k] == dd;
        }
      }
    }
  }

  /** When the user's bound workflow has an uncached dataset of the task
      type and the request names a reference, ingestion reads the named
      repository, not the one the dataset record names. */
  lemma ReferenceOverridesRecord(s: Store, user: string, req: CacheRequest, reg: Registry, remote: Remote, e: Entropy)
    requires Valid(s) && !req.verb.OtherMethod?
    requires |TaskMapping(reg, Read(req).taskType)| > 0
    requires Given(Read(req).dataset) && |Split(Read(req).dataset.value, '/')| == 2
    requires !Bind(s, user, Read(req).taskType.value).created
    ensures var t := Read(req).taskType.value;
            var wid := Bind(s, user, t).workflowId;
            var d := FirstDatasetOf(s.datasets, wid);
            d.Some? && d.value.taskType == t
            && (!d.value.cached ==>
                  CacheDispatch(s, user, req, reg, remote, e).store
                  == CacheDataset(s, d.value.id, TaskMapping(reg, Read(req).taskType),
                                  Read(req).dataset.value, remote, e).store)
  {
    var t := Read(req).taskType.value;
    var wid := Bind(s, user, t).workflowId;
    var owned := OwnedBy(s.workflows, user);
    var i :| FirstBoundAt(owned, s.datasets, t, i) && owned[i].id == wid;
    assert BoundTo(s.datasets, wid, t);
    FirstOfTypeIsFirst(s.datasets, t, wid);
  }
}

/** The relational store the service keeps: users, workflows, datasets and
    dataset rows, together with the two queries the pipeline runs over
    them (`Dataset.objects.filter(...).first()` and
    `Workflows.objects.filter(user_id=...)`). */
module Records {
  import opened Results
  import opened Uuid

  /** A `User`: created on first sight of an id, never deleted here. */
  datatype User = User(userId: string, role: string, isActive: bool)

  /** A `Workflows` row; `kind` is the workflow type ("Training" when the
      pipeline creates one). */
  datatype Workflow = Workflow(id: nat, owner: string, kind: string, name: string)

  /** A `Dataset` row: the local cache record of the remote dataset
      `repoId/name`, bound to one workflow and one task type. */
  datatype Dataset = Dataset(
    id: nat,
    workflowId: nat,
    repoId: string,
    name: string,
    taskType: string,
    cached: bool,
    commitHash: Option<string>)

  /** A `DatasetData` row: one ingested table row, with the task's fields
      under their canonical names. */
  datatype Row = Row(id: Uuid4, datasetId: nat, file: string, fields: map<string, string>)

  /** The store. Workflows and datasets are kept in creation order, and the
      model takes the database to return query results in that order (the
      queries name no ordering of their own); `nextKey` is the next primary
      key the store hands out, and `drawn` counts the `uuid.uuid4()` values
      consumed so far. */
  datatype Store = Store(
    users: map<string, User>,
    workflows: seq<Workflow>,
    datasets: seq<Dataset>,
    rows: seq<Row>,
    nextKey: nat,
    drawn: nat)

  /** `uuid.uuid4()`: the n-th call yields `entropy(n)`. */
  type Entropy = nat -> Uuid4

  /** Store invariant: users are filed under their own id, and every primary
      key or key reference lies below `nextKey`, so new keys are fresh. Keys
      are unique in every store the pipeline builds from an empty one, since
      each new key is `nextKey`; the invariant does not restate that, so
      `MarkCached` is written to mark every record with the key. */
  predicate Valid(s: Store) {
    && (forall k :: k in s.users ==> s.users[k].userId == k)
    && (forall i :: 0 <= i < |s.workflows| ==> s.workflows[i].id < s.nextKey)
    && (forall i :: 0 <= i < |s.datasets| ==>
          s.datasets[i].id < s.nextKey && s.datasets[i].workflowId < s.nextKey)
  }

  /** Index of the first element satisfying `p`, or None. */
  function First<T>(xs: seq<T>, p: T -> bool): (r: Option<nat>)
    ensures r.Some? ==> r.value < |xs| && p(xs[r.value])
                        && forall j :: 0 <= j < r.value ==> !p(xs[j])
    ensures r.None? ==> forall j :: 0 <= j < |xs| ==> !p(xs[j])
    decreases |xs|
  {
    if |xs| == 0 then None
    else if p(xs[0]) then Some(0)
    else match First(xs[1..], p)
      case None => None
      case Some(k) => Some(k + 1)
  }

  /** `Dataset.objects.filter(workflow_id=wid).first()`. */
  function FirstDatasetOf(ds: seq<Dataset>, wid: nat): (r: Option<Dataset>)
    ensures r.Some? ==> r.value in ds && r.value.workflowId == wid
    ensures r.Some? ==> exists i :: 0 <= i < |ds| && ds[i] == r.value
                          && forall j :: 0 <= j < i ==> ds[j].workflowId != wid
    ensures r.None? ==> forall d :: d in ds ==> d.workflowId != wid
  {
    match First(ds, (d: Dataset) => d.workflowId == wid)
    case None => None
    case Some(i) => Some(ds[i])
  }

  /** `Dataset.objects.filter(type=t, workflow_id=wid).first()`. */
  function FirstDatasetWith(ds: seq<Dataset>, t: string, wid: nat): (r: Option<Dataset>)
    ensures r.Some? ==> r.value in ds && r.value.workflowId == wid && r.value.taskType == t
    ensures r.Some? ==> exists i :: 0 <= i < |ds| && ds[i] == r.value
                          && forall j :: 0 <= j < i ==> !(ds[j].workflowId == wid && ds[j].taskType == t)
    ensures r.None? ==> forall d :: d in ds ==> !(d.workflowId == wid && d.taskType == t)
  {
    match First(ds, (d: Dataset) => d.workflowId == wid && d.taskType == t)
    case None => None
    case Some(i) => Some(ds[i])
  }

  /** When the first dataset of a workflow has type `t`, it is also the first
      dataset of that workflow with type `t`. */
  lemma FirstOfTypeIsFirst(ds: seq<Dataset>, t: string, wid: nat)
    requires FirstDatasetOf(ds, wid).Some? && FirstDatasetOf(ds, wid).value.taskType == t
    ensures FirstDatasetWith(ds, t, wid) == FirstDatasetOf(ds, wid)
  {
    var i := First(ds, (d: Dataset) => d.workflowId == wid).value;
    var j := First(ds, (d: Dataset) => d.workflowId == wid && d.taskType == t).value;
    assert ds[i].workflowId == wid && ds[i].taskType == t;
    assert !(i < j);
    assert !(j < i);
  }

  /** `Workflows.objects.filter(user_id=owner)`, in store order. */
  function OwnedBy(ws: seq<Workflow>, owner: string): (r: seq<Workflow>)
    ensures forall w :: w in r <==> w in ws && w.owner == owner
    decreases |ws|
  {
    if |ws| == 0 then []
    else if ws[0].owner == owner then [ws[0]] + OwnedBy(ws[1..], owner)
    else OwnedBy(ws[1..], owner)
  }

  /** Filtering an extended list extends the filtered list. */
  lemma {:induction false} OwnedByAppend(ws: seq<Workflow>, w: Workflow, owner: string)
    ensures OwnedBy(ws + [w], owner)
            == OwnedBy(ws, owner) + (if w.owner == owner then [w] else [])
    decreases |ws|
  {
    if |ws| == 0 {
      assert ws + [w] == [w];
    } else {
      assert (ws + [w])[1..] == ws[1..] + [w];
      OwnedByAppend(ws[1..], w, owner);
    }
  }

  /** The saved record of dataset `id` after ingestion: marked cached and
      stamped with the repository's commit hash. */
  function MarkCached(ds: seq<Dataset>, id: nat, sha: string): (r: seq<Dataset>)
    ensures |r| == |ds|
    ensures forall i :: 0 <= i < |ds| ==>
              if ds[i].id == id
              then r[i] == ds[i].(cached := true, commitHash := Some(sha))
              else r[i] == ds[i]
  {
    seq(|ds|, i requires 0 <= i < |ds| =>
      if ds[i].id == id then ds[i].(cached := true, commitHash := Some(sha)) else ds[i])
  }

  /** Marking a dataset cached moves no dataset to another workflow or task
      type, so every first-dataset query still finds the same record, now
      possibly marked. */
  lemma MarkCachedKeepsFirst(ds: seq<Dataset>, id: nat, sha: string, wid: nat)
    ensures var before := FirstDatasetOf(ds, wid);
            var after := FirstDatasetOf(MarkCached(ds, id, sha), wid);
            before.Some? == after.Some?
            && (before.Some? ==>
                  after.value.id == before.value.id
                  && after.value.taskType == before.value.taskType
                  && (before.value.id == id ==> after.value.cached)
                  && (before.value.id != id ==> after.value == before.value))
  {
    var m := MarkCached(ds, id, sha);
    var p := (d: Dataset) => d.workflowId == wid;
    assert forall i :: 0 <= i < |ds| ==> (p(ds[i]) <==> p(m[i]));
    var a := First(ds, p);
    var b := First(m, p);
    if a.Some? {
      assert b.Some?;
      assert !(a.value < b.value) && !(b.value < a.value);
    } else {
      assert b.None?;
    }
  }

  /** Appending a dataset of another workflow leaves that workflow's first
      dataset unchanged. */
  lemma FirstDatasetOfAppend(ds: seq<Dataset>, d: Dataset, wid: nat)
    requires d.workflowId != wid
    ensures FirstDatasetOf(ds + [d], wid) == FirstDatasetOf(ds, wid)
  {
    var p := (x: Dataset) => x.workflowId == wid;
    var a := First(ds, p);
    var e := ds + [d];
    var b := First(e, p);
    assert forall j :: 0 <= j < |ds| ==> e[j] == ds[j];
    assert !p(e[|ds|]);
    if a.Some? {
      assert p(e[a.value]);
      assert b.Some?;
      assert !(a.value < b.value) && !(b.value < a.value);
    } else {
      assert b.None?;
    }
  }

  /** A dataset appended for a workflow that had none becomes that
      workflow's first dataset, and the first of its type. */
  lemma FirstDatasetOfFresh(ds: seq<Dataset>, d: Dataset)
    requires forall x :: x in ds ==> x.workflowId != d.workflowId
    ensures FirstDatasetOf(ds + [d], d.workflowId) == Some(d)
    ensures FirstDatasetWith(ds + [d], d.taskType, d.workflowId) == Some(d)
  {
    var e := ds + [d];
    assert forall j :: 0 <= j < |ds| ==> e[j] == ds[j] && e[j] in ds;
    assert e[|ds|] == d;
  }
}

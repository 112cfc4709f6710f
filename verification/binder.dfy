/** The workflow binder of `CacheDatasetMixin.dispatch` (workflow/mixins.py):
    a user's workflow is bound to a task type when the workflow's first
    dataset has that type; the first bound workflow in store order is
    reused, and when there is none a fresh training workflow is created. */
module Binder {
  import opened Results
  import opened Records

  /** Workflow `wid` is bound to task type `t`: its first dataset exists and
      has type `t`. */
  predicate BoundTo(ds: seq<Dataset>, wid: nat, t: string) {
    var d := FirstDatasetOf(ds, wid);
    d.Some? && d.value.taskType == t
  }

  /** Position `i` holds the first workflow of `ws` bound to `t`. */
  predicate FirstBoundAt(ws: seq<Workflow>, ds: seq<Dataset>, t: string, i: int) {
    && 0 <= i < |ws|
    && BoundTo(ds, ws[i].id, t)
    && forall j :: 0 <= j < i ==> !BoundTo(ds, ws[j].id, t)
  }

  /** The workflow the binder settles on, and whether it had to create it. */
  datatype Binding = Binding(store: Store, workflowId: nat, created: bool)

  /** The workflow the binder creates for `owner` and task type `t`. */
  function TrainingWorkflow(id: nat, owner: string, t: string): (w: Workflow)
    ensures w.id == id && w.owner == owner
  {
    Workflow(id, owner, "Training", "training_" + t)
  }

  /** The binder: scan the owner's workflows in store order for the first
      one bound to `t`; otherwise create one. */
  function Bind(s: Store, owner: string, t: string): (b: Binding)
    ensures b.created <==>
              forall w :: w in s.workflows && w.owner == owner ==> !BoundTo(s.datasets, w.id, t)
    ensures !b.created ==>
              && b.store == s
              && exists i :: FirstBoundAt(OwnedBy(s.workflows, owner), s.datasets, t, i)
                             && OwnedBy(s.workflows, owner)[i].id == b.workflowId
    ensures b.created ==>
              && b.workflowId == s.nextKey
              && b.store == s.(workflows := s.workflows + [TrainingWorkflow(s.nextKey, owner, t)],
                               nextKey := s.nextKey + 1)
  {
    var owned := OwnedBy(s.workflows, owner);
    match First(owned, (w: Workflow) => BoundTo(s.datasets, w.id, t))
    case Some(i) =>
      assert FirstBoundAt(owned, s.datasets, t, i);
      Binding(s, owned[i].id, false)
    case None =>
      assert forall w :: w in owned ==> !BoundTo(s.datasets, w.id, t);
      var w := TrainingWorkflow(s.nextKey, owner, t);
      Binding(s.(workflows := s.workflows + [w], nextKey := s.nextKey + 1), w.id, true)
  }

  /** Binding keeps the store valid and returns a workflow of the owner that
      is in the store. */
  lemma BindValid(s: Store, owner: string, t: string)
    requires Valid(s)
    ensures var b := Bind(s, owner, t);
            && Valid(b.store)
            && exists w :: w in b.store.workflows && w.id == b.workflowId && w.owner == owner
  {
    var b := Bind(s, owner, t);
    if b.created {
      var w := TrainingWorkflow(s.nextKey, owner, t);
      assert b.store.workflows[|s.workflows|] == w;
    } else {
      var owned := OwnedBy(s.workflows, owner);
      var i :| FirstBoundAt(owned, s.datasets, t, i) && owned[i].id == b.workflowId;
      assert owned[i] in owned;
    }
  }

  /** A workflow that was not created keeps its first-dataset binding, and a
      created one has no dataset yet. */
  lemma BindCreatedIsEmpty(s: Store, owner: string, t: string)
    requires Valid(s)
    ensures var b := Bind(s, owner, t);
            b.created ==> FirstDatasetOf(b.store.datasets, b.workflowId).None?
  {
  }

  /** The scan is the reference tie-break: when some owned workflow is bound,
      the binder returns the first bound one in store order and creates
      nothing, whatever later workflows are bound too. */
  lemma BindFirstMatch(s: Store, owner: string, t: string, i: nat)
    requires FirstBoundAt(OwnedBy(s.workflows, owner), s.datasets, t, i)
    ensures Bind(s, owner, t) == Binding(s, OwnedBy(s.workflows, owner)[i].id, false)
  {
    var owned := OwnedBy(s.workflows, owner);
    assert owned[i] in owned;
    var b := Bind(s, owner, t);
    var i' :| FirstBoundAt(owned, s.datasets, t, i') && owned[i'].id == b.workflowId;
    assert !(i < i') && !(i' < i);
  }

  /** Marking a dataset cached binds and unbinds nothing. */
  lemma BoundToMarkCached(ds: seq<Dataset>, id: nat, sha: string, wid: nat, t: string)
    ensures BoundTo(MarkCached(ds, id, sha), wid, t) <==> BoundTo(ds, wid, t)
  {
    MarkCachedKeepsFirst(ds, id, sha, wid);
  }

  /** Appending a dataset of another workflow leaves a workflow's binding as
      it was. */
  lemma BoundToAppend(ds: seq<Dataset>, d: Dataset, wid: nat, t: string)
    requires d.workflowId != wid
    ensures BoundTo(ds + [d], wid, t) <==> BoundTo(ds, wid, t)
  {
    FirstDatasetOfAppend(ds, d, wid);
  }
}

/** Workflow definitions, their table, and what creating and editing do to it. */
module Workflows {
  import opened Sequences
  import opened Tables
  import opened Wrappers

  datatype ActivityType =
    | Reboot | InstallPackage | UpgradePackage | RemovePackage
    | ApplyConfig | ValidateConfig | RunScript
    | UnknownActivity(text: string)

  predicate IsValidActivity(a: ActivityType) {
    !a.UnknownActivity?
  }

  datatype TriggerKind = Scheduled | OnEvent | StateChange | ManualTrigger | OtherKind(text: string)

  datatype TriggerSpec = TriggerSpec(kind: TriggerKind, cron: string, onComplete: string)

  datatype Workflow = Workflow(
    id: string, name: string, wfType: string, activity: ActivityType, targetFilter: string,
    trigger: TriggerSpec, successThreshold: real, loopThresholdMS: int, timeoutMS: int, active: bool)

  datatype WorkflowError = WorkflowNotFound | WorkflowInactive | ValidationError | MissingField | InvalidWorkflow

  type Outcome = Result<Workflow, WorkflowError>

  datatype CreateRequest = CreateRequest(
    name: string, wfType: string, activity: ActivityType, targetFilter: string, trigger: TriggerSpec,
    successThreshold: real, loopThresholdMS: int, timeoutMS: int, enabled: Option<bool>)

  datatype EditRequest = EditRequest(
    name: Option<string>, otherText: bool, targetFilter: Option<string>, successThreshold: Option<real>,
    loopThresholdMS: Option<int>, timeoutMS: Option<int>, enabled: Option<bool>)
  {
    /** otherText: the request also changes the description or the parameters. */
    predicate HasChanges() {
      name.Some? || otherText || targetFilter.Some? || successThreshold.Some?
      || loopThresholdMS.Some? || timeoutMS.Some? || enabled.Some?
    }
  }

  function ValidateDefinition(w: Workflow): Option<WorkflowError> {
    if w.name == "" || w.wfType == "" then Some(MissingField)
    else if !IsValidActivity(w.activity) then Some(InvalidWorkflow)
    else if w.successThreshold < 0.0 || w.successThreshold > 100.0 then Some(InvalidWorkflow)
    else if w.loopThresholdMS < 0 || w.timeoutMS < 0 then Some(InvalidWorkflow)
    else None
  }

  function Or0<T(==)>(x: T, zero: T, default: T): T {
    if x == zero then default else x
  }

  function GetOr<T>(o: Option<T>, default: T): T {
    match o
    case Some(x) => x
    case None => default
  }

  /** The definition CreateWorkflow builds under a fresh id, or why it refuses. */
  function NewWorkflow(req: CreateRequest, id: string): Outcome {
    if req.name == "" || req.wfType == "" || !IsValidActivity(req.activity) then Err(ValidationError)
    else
      var w := Workflow(
        id, req.name, req.wfType, req.activity, req.targetFilter, req.trigger,
        Or0(req.successThreshold, 0.0, 80.0), Or0(req.loopThresholdMS, 0, 5000), Or0(req.timeoutMS, 0, 30000),
        GetOr(req.enabled, true));
      match ValidateDefinition(w)
      case Some(e) => Err(e)
      case None => Ok(w)
  }

  /** The edited definition: identity, type, activity and trigger are out of reach. */
  function Edited(w: Workflow, req: EditRequest): Outcome {
    var v := w.(
      name := GetOr(req.name, w.name),
      targetFilter := GetOr(req.targetFilter, w.targetFilter),
      successThreshold := GetOr(req.successThreshold, w.successThreshold),
      loopThresholdMS := GetOr(req.loopThresholdMS, w.loopThresholdMS),
      timeoutMS := GetOr(req.timeoutMS, w.timeoutMS),
      active := GetOr(req.enabled, w.active));
    match ValidateDefinition(v)
    case Some(e) => Err(e)
    case None => Ok(v)
  }

  // ---------------------------------------------------------------- the table

  /** Position of an id in the table, or the table's length. */
  function Index(wfs: seq<Workflow>, id: string): (i: nat)
    ensures i <= |wfs|
    ensures i < |wfs| ==> wfs[i].id == id
    ensures forall k | 0 <= k < i :: wfs[k].id != id
  {
    Find(wfs, (w: Workflow) => w.id, id)
  }

  predicate Has(wfs: seq<Workflow>, id: string) {
    Index(wfs, id) < |wfs|
  }

  /** Upsert: an existing row keeps its place, a new one is the youngest. */
  function Saved(wfs: seq<Workflow>, w: Workflow): seq<Workflow> {
    var i := Index(wfs, w.id);
    if i < |wfs| then wfs[i := w] else wfs + [w]
  }

  function WithState(wfs: seq<Workflow>, id: string, active: bool): seq<Workflow> {
    var i := Index(wfs, id);
    if i < |wfs| then wfs[i := wfs[i].(active := active)] else wfs
  }

  function Without(wfs: seq<Workflow>, id: string): seq<Workflow> {
    var i := Index(wfs, id);
    if i < |wfs| then wfs[..i] + wfs[i + 1..] else wfs
  }

  /** What EditWorkflow answers: the edited row, or the first reason against it. */
  function EditOutcome(wfs: seq<Workflow>, id: string, req: EditRequest): Outcome {
    if !req.HasChanges() then Err(ValidationError)
    else if !Has(wfs, id) then Err(WorkflowNotFound)
    else Edited(wfs[Index(wfs, id)], req)
  }

  // ---------------------------------------------------------------- what creating and editing accept and store

  /** A percentage, and times that are not negative. */
  predicate InRange(successThreshold: real, loopThresholdMS: int, timeoutMS: int) {
    0.0 <= successThreshold <= 100.0 && 0 <= loopThresholdMS && 0 <= timeoutMS
  }

  /** A creation is accepted exactly when name, type, activity and ranges are right; zero means the default. */
  lemma {:induction false} CreatedExactly(req: CreateRequest, id: string)
    ensures var named := req.name != "" && req.wfType != "" && !req.activity.UnknownActivity?;
            var inRange := InRange(req.successThreshold, req.loopThresholdMS, req.timeoutMS);
            && (!named ==> NewWorkflow(req, id) == Err(ValidationError))
            && (named && !inRange ==> NewWorkflow(req, id) == Err(InvalidWorkflow))
            && (named && inRange ==> NewWorkflow(req, id).Ok?)
    ensures NewWorkflow(req, id).Ok? ==>
              var w := NewWorkflow(req, id).value;
              && w.id == id && w.name == req.name && w.wfType == req.wfType && w.activity == req.activity
              && w.targetFilter == req.targetFilter && w.trigger == req.trigger
              && w.successThreshold == (if req.successThreshold == 0.0 then 80.0 else req.successThreshold)
              && w.loopThresholdMS == (if req.loopThresholdMS == 0 then 5000 else req.loopThresholdMS)
              && w.timeoutMS == (if req.timeoutMS == 0 then 30000 else req.timeoutMS)
              && (w.active <==> req.enabled != Some(false))
  {
  }

  /** The field of the new row: the one asked for, or the old one. */
  predicate Becomes<T(==)>(asked: Option<T>, before: T, after: T) {
    if asked.Some? then after == asked.value else after == before
  }

  /**
   * An edit that asks for something changes exactly the fields it names, and is accepted exactly
   * when the row it makes is named and in range.
   */
  lemma {:induction false} EditedExactly(wfs: seq<Workflow>, id: string, req: EditRequest, k: nat)
    requires Ranked(wfs) && k < |wfs| && wfs[k].id == id
    ensures var w, r := wfs[k], EditOutcome(wfs, id, req);
            var asks := req.name.Some? || req.otherText || req.targetFilter.Some? || req.successThreshold.Some?
                || req.loopThresholdMS.Some? || req.timeoutMS.Some? || req.enabled.Some?;
            var named := req.name != Some("");
            var inRange := InRange(
              if req.successThreshold.Some? then req.successThreshold.value else 0.0,
              if req.loopThresholdMS.Some? then req.loopThresholdMS.value else 0,
              if req.timeoutMS.Some? then req.timeoutMS.value else 0);
            && (!asks ==> r == Err(ValidationError))
            && (asks && !named ==> r == Err(MissingField))
            && (asks && named && !inRange ==> r == Err(InvalidWorkflow))
            && (asks && named && inRange ==>
                  && r.Ok?
                  && SameOrigin(w, r.value)
                  && Becomes(req.name, w.name, r.value.name)
                  && Becomes(req.targetFilter, w.targetFilter, r.value.targetFilter)
                  && Becomes(req.successThreshold, w.successThreshold, r.value.successThreshold)
                  && Becomes(req.loopThresholdMS, w.loopThresholdMS, r.value.loopThresholdMS)
                  && Becomes(req.timeoutMS, w.timeoutMS, r.value.timeoutMS)
                  && Becomes(req.enabled, w.active, r.value.active))
  {
    IndexIsUnique(wfs, k);
  }

  // ---------------------------------------------------------------- what the table holds afterwards

  /** Saving puts the row in the place of the one with its id, or at the end; the others stay. */
  lemma {:induction false} SavedHolds(wfs: seq<Workflow>, w: Workflow)
    requires Ranked(wfs)
    ensures forall x :: x in Saved(wfs, w) <==> x == w || (x in wfs && x.id != w.id)
    ensures forall k | 0 <= k < |wfs| && wfs[k].id != w.id :: k < |Saved(wfs, w)| && Saved(wfs, w)[k] == wfs[k]
    ensures |Saved(wfs, w)| == |wfs| + if exists x :: x in wfs && x.id == w.id then 0 else 1
  {
    var d, out := Index(wfs, w.id), Saved(wfs, w);
    forall x | x in wfs && x.id != w.id ensures x in out {
      var k :| 0 <= k < |wfs| && wfs[k] == x;
      assert out[k] == x;
    }
    assert d < |wfs| ==> wfs[d] in wfs && out[d] == w;
    assert d == |wfs| ==> out[|wfs|] == w;
    forall x | x in out ensures x == w || (x in wfs && x.id != w.id) {
      var k :| 0 <= k < |out| && out[k] == x;
      assert k < |wfs| ==> wfs[k] in wfs;
    }
  }

  /** Deleting removes the row of the id and keeps the others in order. */
  lemma {:induction false} WithoutHolds(wfs: seq<Workflow>, id: string)
    requires Ranked(wfs)
    ensures forall x :: x in Without(wfs, id) <==> x in wfs && x.id != id
    ensures Subsequence(Without(wfs, id), wfs)
  {
    var d, out := Index(wfs, id), Without(wfs, id);
    var at: seq<nat> := seq(|out|, k requires 0 <= k < |out| => if k < d then k else k + 1);
    assert StandsAt(out, wfs, at);
    forall x | x in wfs && x.id != id ensures x in out {
      var k :| 0 <= k < |wfs| && wfs[k] == x;
      assert out[if k < d then k else k - 1] == x;
    }
  }

  // ---------------------------------------------------------------- links never point forward

  /**
   * Ids are distinct and non-empty, definitions are valid, and whoever is named as a predecessor
   * was created before the workflow that names it.
   */
  ghost predicate Ranked(wfs: seq<Workflow>) {
    && (forall i, j | 0 <= i < j < |wfs| :: wfs[i].id != wfs[j].id)
    && (forall i | 0 <= i < |wfs| :: wfs[i].id != "" && ValidateDefinition(wfs[i]).None?)
    && (forall i, j | 0 <= i < |wfs| && 0 <= j < |wfs| && wfs[j].trigger.onComplete == wfs[i].id :: i < j)
  }

  /** What a random UUID is taken to be: an id nobody stores and nobody names. */
  ghost predicate Fresh(wfs: seq<Workflow>, req: CreateRequest, id: string) {
    && id != ""
    && req.trigger.onComplete != id
    && forall i | 0 <= i < |wfs| :: wfs[i].id != id && wfs[i].trigger.onComplete != id
  }

  datatype WorkflowOp =
    | Create(req: CreateRequest, id: string)
    | Edit(target: string, edit: EditRequest)
    | SetActive(target: string, active: bool)
    | Delete(target: string)

  function Perform(wfs: seq<Workflow>, op: WorkflowOp): seq<Workflow> {
    match op
    case Create(req, id) =>
      (match NewWorkflow(req, id)
       case Ok(w) => Saved(wfs, w)
       case Err(_) => wfs)
    case Edit(target, edit) =>
      (match EditOutcome(wfs, target, edit)
       case Ok(w) => Saved(wfs, w)
       case Err(_) => wfs)
    case SetActive(target, active) => WithState(wfs, target, active)
    case Delete(target) => Without(wfs, target)
  }

  ghost predicate Allowed(wfs: seq<Workflow>, op: WorkflowOp) {
    op.Create? ==> Fresh(wfs, op.req, op.id)
  }

  predicate SameOrigin(v: Workflow, w: Workflow) {
    v.id == w.id && v.trigger == w.trigger && v.wfType == w.wfType && v.activity == w.activity
  }

  lemma {:induction false} RankedInPlace(wfs: seq<Workflow>, i: nat, w: Workflow)
    requires Ranked(wfs) && i < |wfs| && SameOrigin(wfs[i], w) && ValidateDefinition(w).None?
    ensures Ranked(wfs[i := w])
  {
    var out := wfs[i := w];
    assert forall k | 0 <= k < |wfs| :: SameOrigin(wfs[k], out[k]);
  }

  lemma {:induction false} RankedAppend(wfs: seq<Workflow>, w: Workflow)
    requires Ranked(wfs) && w.id != "" && ValidateDefinition(w).None? && w.trigger.onComplete != w.id
    requires forall i | 0 <= i < |wfs| :: wfs[i].id != w.id && wfs[i].trigger.onComplete != w.id
    ensures Ranked(wfs + [w])
  {
    var out := wfs + [w];
    assert forall k | 0 <= k < |wfs| :: out[k] == wfs[k];
  }

  lemma {:induction false} RankedWithout(wfs: seq<Workflow>, i: nat)
    requires Ranked(wfs) && i < |wfs|
    ensures Ranked(wfs[..i] + wfs[i + 1..])
  {
    var out := wfs[..i] + wfs[i + 1..];
    assert forall k | 0 <= k < |out| :: out[k] == wfs[if k < i then k else k + 1];
    forall j, k | 0 <= j < |out| && 0 <= k < |out|
      ensures out[k].trigger.onComplete == out[j].id ==> j < k
    {
      assert wfs[if k < i then k else k + 1].trigger.onComplete == wfs[if j < i then j else j + 1].id
        ==> (if j < i then j else j + 1) < (if k < i then k else k + 1);
    }
  }

  lemma {:induction false} IndexIsUnique(wfs: seq<Workflow>, k: nat)
    requires Ranked(wfs) && k < |wfs|
    ensures Index(wfs, wfs[k].id) == k
  {
    var i := Index(wfs, wfs[k].id);
    assert i <= k;
  }

  lemma {:induction false} RankedWithState(wfs: seq<Workflow>, id: string, active: bool)
    requires Ranked(wfs)
    ensures Ranked(WithState(wfs, id, active))
  {
    var i := Index(wfs, id);
    if i < |wfs| {
      RankedInPlace(wfs, i, wfs[i].(active := active));
    }
  }

  lemma {:induction false} RankedEdit(wfs: seq<Workflow>, id: string, edit: EditRequest)
    requires Ranked(wfs) && EditOutcome(wfs, id, edit).Ok?
    ensures Ranked(Saved(wfs, EditOutcome(wfs, id, edit).value))
  {
    RankedInPlace(wfs, Index(wfs, id), EditOutcome(wfs, id, edit).value);
  }

  lemma {:induction false} RankedStep(wfs: seq<Workflow>, op: WorkflowOp)
    requires Ranked(wfs) && Allowed(wfs, op)
    ensures Ranked(Perform(wfs, op))
  {
    match op
    case Create(req, id) =>
      if NewWorkflow(req, id).Ok? {
        RankedAppend(wfs, NewWorkflow(req, id).value);
      }
    case Edit(target, edit) =>
      if EditOutcome(wfs, target, edit).Ok? {
        RankedEdit(wfs, target, edit);
      }
    case SetActive(target, active) => RankedWithState(wfs, target, active);
    case Delete(target) =>
      if Has(wfs, target) {
        RankedWithout(wfs, Index(wfs, target));
      }
  }

  /** The table after a change, row by row: who is in it, and which rows keep their places. */
  lemma {:induction false} ChangesHold(wfs: seq<Workflow>, op: WorkflowOp)
    requires Ranked(wfs) && Allowed(wfs, op)
    ensures op.Create? ==>
              var r := NewWorkflow(op.req, op.id);
              Perform(wfs, op) == if r.Ok? then wfs + [r.value] else wfs
    ensures op.Edit? ==>
              && |Perform(wfs, op)| == |wfs|
              && forall k | 0 <= k < |wfs| ::
                   Perform(wfs, op)[k] == var r := EditOutcome(wfs, wfs[k].id, op.edit);
                                          if wfs[k].id == op.target && r.Ok? then r.value else wfs[k]
    ensures op.SetActive? ==>
              && |Perform(wfs, op)| == |wfs|
              && forall k | 0 <= k < |wfs| ::
                   Perform(wfs, op)[k] == if wfs[k].id == op.target then wfs[k].(active := op.active) else wfs[k]
    ensures op.Delete? ==>
              && Subsequence(Perform(wfs, op), wfs)
              && forall w :: w in Perform(wfs, op) <==> w in wfs && w.id != op.target
  {
    match op
    case Create(_, _) =>
    case Edit(target, edit) => EditHolds(wfs, target, edit);
    case SetActive(target, active) => WithStateHolds(wfs, target, active);
    case Delete(target) => WithoutHolds(wfs, target);
  }

  lemma {:induction false} WithStateHolds(wfs: seq<Workflow>, id: string, active: bool)
    requires forall i, j | 0 <= i < j < |wfs| :: wfs[i].id != wfs[j].id
    ensures var out := WithState(wfs, id, active);
            && |out| == |wfs|
            && forall k | 0 <= k < |wfs| :: out[k] == if wfs[k].id == id then wfs[k].(active := active) else wfs[k]
  {
    var d := Index(wfs, id);
    forall k | 0 <= k < |wfs| && wfs[k].id == id ensures k == d {
    }
  }

  lemma {:induction false} EditHolds(wfs: seq<Workflow>, id: string, edit: EditRequest)
    requires Ranked(wfs)
    ensures var out := Perform(wfs, Edit(id, edit));
            && |out| == |wfs|
            && forall k | 0 <= k < |wfs| ::
                 out[k] == var r := EditOutcome(wfs, wfs[k].id, edit);
                           if wfs[k].id == id && r.Ok? then r.value else wfs[k]
  {
    var d := Index(wfs, id);
    forall k | 0 <= k < |wfs| && wfs[k].id == id ensures k == d {
    }
  }

  /** w is an old row with its identity, trigger, type and activity as created. */
  ghost predicate Descends(wfs: seq<Workflow>, w: Workflow) {
    exists i :: 0 <= i < |wfs| && SameOrigin(wfs[i], w)
  }

  lemma {:induction false} SavedDescends(wfs: seq<Workflow>, w: Workflow, k: nat)
    requires k < |Saved(wfs, w)|
    ensures Saved(wfs, w)[k] == w || Descends(wfs, Saved(wfs, w)[k])
  {
    if k < |wfs| && k != Index(wfs, w.id) {
      assert SameOrigin(wfs[k], Saved(wfs, w)[k]);
    }
  }

  lemma {:induction false} WithStateDescends(wfs: seq<Workflow>, id: string, active: bool, k: nat)
    requires k < |WithState(wfs, id, active)|
    ensures Descends(wfs, WithState(wfs, id, active)[k])
  {
    assert SameOrigin(wfs[k], WithState(wfs, id, active)[k]);
  }

  lemma {:induction false} WithoutDescends(wfs: seq<Workflow>, id: string, k: nat)
    requires k < |Without(wfs, id)|
    ensures Descends(wfs, Without(wfs, id)[k])
  {
    var d := Index(wfs, id);
    assert SameOrigin(wfs[if k < d then k else k + 1], Without(wfs, id)[k]);
  }

  /** Every row after a step is the new one, or an old one with its trigger and its type as created. */
  lemma {:induction false} TriggerIsImmutable(wfs: seq<Workflow>, op: WorkflowOp, k: nat)
    requires k < |Perform(wfs, op)|
    ensures var w := Perform(wfs, op)[k]; (op.Create? && w.id == op.id) || Descends(wfs, w)
  {
    if Perform(wfs, op) == wfs {
      assert SameOrigin(wfs[k], wfs[k]);
    } else {
      match op
      case Create(req, id) => SavedDescends(wfs, NewWorkflow(req, id).value, k);
      case Edit(target, edit) =>
        var w := EditOutcome(wfs, target, edit).value;
        assert SameOrigin(wfs[Index(wfs, target)], w);
        SavedDescends(wfs, w, k);
      case SetActive(target, active) => WithStateDescends(wfs, target, active, k);
      case Delete(target) => WithoutDescends(wfs, target, k);
    }
  }

  /** The tables reached by a run of operations, each allowed where it happens. */
  ghost predicate Reaches(wfs: seq<Workflow>, ops: seq<WorkflowOp>, end: seq<Workflow>)
    decreases |ops|
  {
    if ops == [] then wfs == end
    else Allowed(wfs, ops[0]) && Reaches(Perform(wfs, ops[0]), ops[1..], end)
  }

  /** No run of creations, edits, (de)activations and deletions ever closes a cycle of links. */
  lemma {:induction false} LinksStayAcyclic(wfs: seq<Workflow>, ops: seq<WorkflowOp>, end: seq<Workflow>)
    requires Ranked(wfs) && Reaches(wfs, ops, end)
    ensures Ranked(end)
    decreases |ops|
  {
    if ops == [] {
    } else {
      RankedStep(wfs, ops[0]);
      LinksStayAcyclic(Perform(wfs, ops[0]), ops[1..], end);
    }
  }

  // ---------------------------------------------------------------- queries

  /** Active workflows, youngest first. */
  function ActiveNewestFirst(wfs: seq<Workflow>): seq<Workflow> {
    if wfs == [] then []
    else
      var last := wfs[|wfs| - 1];
      (if last.active then [last] else []) + ActiveNewestFirst(wfs[..|wfs| - 1])
  }

  /** All workflows, youngest first. */
  function NewestFirst(wfs: seq<Workflow>): seq<Workflow> {
    if wfs == [] then [] else [wfs[|wfs| - 1]] + NewestFirst(wfs[..|wfs| - 1])
  }

  lemma {:induction false} NewestFirstHolds(wfs: seq<Workflow>)
    ensures forall w :: w in NewestFirst(wfs) <==> w in wfs
  {
    if wfs == [] {
    } else {
      NewestFirstHolds(wfs[..|wfs| - 1]);
      assert forall w :: w in wfs <==> w in wfs[..|wfs| - 1] || w == wfs[|wfs| - 1];
    }
  }

  function OfType(wfs: seq<Workflow>, wfType: string): seq<Workflow> {
    if wfs == [] then []
    else
      var last := wfs[|wfs| - 1];
      OfType(wfs[..|wfs| - 1], wfType) + if last.wfType == wfType then [last] else []
  }

  /** Every listing of active workflows is in the order of youth, without gaps. */
  lemma {:induction false} ActiveListed(wfs: seq<Workflow>)
    ensures forall w :: w in ActiveNewestFirst(wfs) <==> w in wfs && w.active
    ensures Subsequence(ActiveNewestFirst(wfs), NewestFirst(wfs))
  {
    if wfs == [] {
      NothingStands(NewestFirst(wfs));
    } else {
      var init, last := wfs[..|wfs| - 1], wfs[|wfs| - 1];
      ActiveListed(init);
      SplitLast(wfs);
      SubsequenceInFront(ActiveNewestFirst(init), NewestFirst(init), last);
      JoinNothing(ActiveNewestFirst(init));
    }
  }

  /** The k-th youngest workflow is the k-th from the end. */
  lemma {:induction false} NewestFirstIs(wfs: seq<Workflow>)
    ensures |NewestFirst(wfs)| == |wfs|
    ensures forall k | 0 <= k < |wfs| :: NewestFirst(wfs)[k] == wfs[|wfs| - 1 - k]
  {
    if wfs == [] {
    } else {
      NewestFirstIs(wfs[..|wfs| - 1]);
    }
  }

  /** The workflows table, in creation order. */
  class WorkflowRepo {
    var rows: seq<Workflow>

    constructor ()
      ensures rows == []
    {
      rows := [];
    }

    method SaveWorkflow(w: Workflow)
      modifies this
      ensures rows == Saved(old(rows), w)
    {
      var i := Index(rows, w.id);
      if i < |rows| {
        rows := rows[i := w];
      } else {
        rows := rows + [w];
      }
    }

    method GetWorkflow(id: string) returns (r: Outcome)
      ensures r == if Has(rows, id) then Ok(rows[Index(rows, id)]) else Err(WorkflowNotFound)
    {
      var i := Index(rows, id);
      return if i < |rows| then Ok(rows[i]) else Err(WorkflowNotFound);
    }

    method ListActiveWorkflows() returns (out: seq<Workflow>)
      ensures out == ActiveNewestFirst(rows)
    {
      out := [];
      for k := 0 to |rows|
        invariant out == ActiveNewestFirst(rows[..k])
      {
        assert rows[..k + 1][..k] == rows[..k];
        if rows[k].active {
          out := [rows[k]] + out;
        }
      }
      assert rows[..|rows|] == rows;
    }

    method ListAllWorkflows() returns (out: seq<Workflow>)
      ensures out == NewestFirst(rows)
    {
      out := [];
      for k := 0 to |rows|
        invariant out == NewestFirst(rows[..k])
      {
        assert rows[..k + 1][..k] == rows[..k];
        out := [rows[k]] + out;
      }
      assert rows[..|rows|] == rows;
    }

    method ListWorkflowsByType(wfType: string) returns (out: seq<Workflow>)
      ensures out == OfType(rows, wfType)
    {
      out := [];
      for k := 0 to |rows|
        invariant out == OfType(rows[..k], wfType)
      {
        assert rows[..k + 1][..k] == rows[..k];
        if rows[k].wfType == wfType {
          out := out + [rows[k]];
        }
      }
      assert rows[..|rows|] == rows;
    }

    method UpdateWorkflowState(id: string, active: bool) returns (r: Result<(), WorkflowError>)
      modifies this
      ensures rows == WithState(old(rows), id, active)
      ensures r == if Has(old(rows), id) then Ok(()) else Err(WorkflowNotFound)
    {
      var i := Index(rows, id);
      if i == |rows| {
        return Err(WorkflowNotFound);
      }
      rows := rows[i := rows[i].(active := active)];
      return Ok(());
    }

    method DeleteWorkflow(id: string) returns (r: Result<(), WorkflowError>)
      modifies this
      ensures rows == Without(old(rows), id)
      ensures r == if Has(old(rows), id) then Ok(()) else Err(WorkflowNotFound)
    {
      var i := Index(rows, id);
      if i == |rows| {
        return Err(WorkflowNotFound);
      }
      rows := rows[..i] + rows[i + 1..];
      return Ok(());
    }
  }
}

/** What `insert_service_instance` promises about the database it writes to and the aggregate it
    returns, and the database itself as an object whose tables a committed call replaces. */
module ServiceInstanceQueries {
  import opened Wrappers
  import opened Http
  import opened Sql
  import opened ServiceInstanceInsert

  /** The order of the statements: `begin` first, the parent row second, `commit` last, and
      every child row strictly between the parent row and the commit. */
  lemma {:induction false} PlanOrder(req: InstanceRequest)
    ensures var p := Plan(req);
      && |p| >= 3 && p[0] == Begin && p[1] == InsertInstance && p[|p| - 1] == Commit
      && (forall k :: 0 <= k < |p| - 1 ==> p[k] != Commit)
      && (forall k :: 0 <= k < |p| && IsChild(p[k]) ==> 2 <= k < |p| - 1)
  {
    var n1, n2, n3 := |req.serviceType|, |GroomingTypes(req)|, |Treatments(req)|;
    TypeStepsAt(n1);
    GroomingStepsAt(n2);
    CareStepsAt(n3);
    var p := Plan(req);
    var a := [Begin, InsertInstance];
    var b := a + TypeSteps(n1);
    var c := b + GroomingSteps(n2);
    var d := c + CareSteps(n3);
    var e := d + SurgerySteps(req);
    assert p == e + [Commit];
    forall k | 0 <= k < |p| - 1
      ensures p[k] != Commit && (2 <= k || !IsChild(p[k]))
    {
      assert p[k] == e[k];
      if k >= |d| {
        assert e[k] == InsertSurgery;
      } else if k >= |c| {
        assert e[k] == CareSteps(n3)[k - |c|];
      } else if k >= |b| {
        assert e[k] == c[k] == GroomingSteps(n2)[k - |b|];
      } else if k >= 2 {
        assert e[k] == b[k] == TypeSteps(n1)[k - 2];
      } else {
        assert e[k] == a[k];
      }
    }
  }

  /** The parent row comes first: a child statement is issued only after the `INSERT INTO
      service_instance` succeeded, whatever statement the call stopped at. */
  lemma ParentFirst(req: InstanceRequest, issued: seq<Step>, faults: map<Step, DbError>, e: DbError)
    requires StoppedAt(req, issued, faults, e)
    ensures forall k :: 0 <= k < |issued| && IsChild(issued[k]) ==>
      1 < k && issued[1] == InsertInstance && Answer(faults, InsertInstance).None?
  {
    PlanOrder(req);
    var p := Plan(req);
    forall k | 0 <= k < |issued| && IsChild(issued[k])
      ensures 1 < k && issued[1] == InsertInstance && Answer(faults, InsertInstance).None?
    {
      assert issued[k] == p[k];
      assert issued[1] == p[1];
      assert issued[..|issued| - 1][1] == issued[1];
    }
  }

  /** One `service_type` row per element of the request's list, in order and with duplicates
      kept, each bound to the new instance; the rows already there are untouched. */
  lemma ServiceTypesAdded(t: Tables, req: InstanceRequest)
    ensures var rows := Inserted(t, req).serviceTypes;
      && |rows| == |t.serviceTypes| + |req.serviceType| && rows[..|t.serviceTypes|] == t.serviceTypes
      && forall k :: 0 <= k < |req.serviceType| ==>
           rows[|t.serviceTypes| + k] == TypeRow(req.serviceType[k], req.serviceInstanceId)
  {
    TypeRowsAt(req.serviceType, req.serviceInstanceId);
  }

  /** One `grooming` row per requested type, in order, with consecutive ids from the table's
      counter, each bound to the new instance. */
  lemma GroomingsAdded(t: Tables, req: InstanceRequest)
    ensures var rows, types := Inserted(t, req).groomings, GroomingTypes(req);
      && |rows| == |t.groomings| + |types| && rows[..|t.groomings|] == t.groomings
      && Inserted(t, req).nextGroomingId == t.nextGroomingId + |types|
      && forall k :: 0 <= k < |types| ==>
           rows[|t.groomings| + k] == GroomingRow(t.nextGroomingId + k, types[k], req.serviceInstanceId)
  {
    GroomingRowsAt(GroomingTypes(req), req.serviceInstanceId, t.nextGroomingId);
  }

  /** One `preventive_care` row per treatment, in order, all with the one vet of the request and
      the new instance, with consecutive ids. */
  lemma PreventiveCaresAdded(t: Tables, req: InstanceRequest)
    requires req.preventiveCare.Some?
    ensures var rows, care := Inserted(t, req).preventiveCares, req.preventiveCare.value;
      && |rows| == |t.preventiveCares| + |care.treatment| && rows[..|t.preventiveCares|] == t.preventiveCares
      && forall k :: 0 <= k < |care.treatment| ==>
           rows[|t.preventiveCares| + k]
           == PreventiveCareRow(t.nextPreventiveCareId + k, care.treatment[k], care.vetId, req.serviceInstanceId)
  {
    CareRowsAt(Treatments(req), CareVet(req), req.serviceInstanceId, t.nextPreventiveCareId);
  }

  /** Without preventive care in the request, no `preventive_care` row is written. */
  lemma NoPreventiveCareAdded(t: Tables, req: InstanceRequest)
    requires req.preventiveCare.None?
    ensures Inserted(t, req).preventiveCares == t.preventiveCares
    ensures Assembled(t, req).preventiveCare.None?
  {
  }

  /** At most one `surgery` row; the returned surgery is absent exactly when none was supplied,
      and otherwise is the supplied one with the id of its row. */
  lemma SurgeryAdded(t: Tables, req: InstanceRequest)
    ensures var rows := Inserted(t, req).surgeries;
      && rows[..|t.surgeries|] == t.surgeries && |t.surgeries| <= |rows| <= |t.surgeries| + 1
      && (|rows| == |t.surgeries| <==> req.surgery.None?)
      && (req.surgery.Some? ==>
            var s, row := req.surgery.value, rows[|t.surgeries|];
            && row.surgeryName == s.surgeryName && row.vetId == s.vetId
            && row.serviceInstanceId == req.serviceInstanceId
            && Assembled(t, req).surgery == Some(Surgery(Some(AsI32(row.surgeryId)), s.surgeryName, s.anesthesiaUsed,
                 s.veterinarianDiagnosis, s.complications, s.outcome, s.vetId, req.serviceInstanceId)))
  {
  }

  /** The returned groomings and treatments are the inserted rows, in order, each with the id
      of its own row narrowed to `i32`; a list is returned only when it is not empty. */
  lemma ReturnedChildren(t: Tables, req: InstanceRequest)
    ensures var r, rows := Assembled(t, req), Inserted(t, req);
      && (r.grooming.Some? ==>
            && |r.grooming.value| == |GroomingTypes(req)| > 0
            && forall k :: 0 <= k < |r.grooming.value| ==>
                 var row := rows.groomings[|t.groomings| + k];
                 r.grooming.value[k] == Grooming(Some(AsI32(row.groomingId)), row.groomingType, req.serviceInstanceId))
      && (r.preventiveCare.Some? ==>
            && |r.preventiveCare.value| == |Treatments(req)| > 0
            && forall k :: 0 <= k < |r.preventiveCare.value| ==>
                 var row := rows.preventiveCares[|t.preventiveCares| + k];
                 r.preventiveCare.value[k]
                 == PreventiveCare(Some(AsI32(row.preventiveCareId)), row.treatment, req.serviceInstanceId, row.vetId))
  {
    var id := req.serviceInstanceId;
    var groomingRows := GroomingRows(GroomingTypes(req), id, t.nextGroomingId);
    var careRows := CareRows(Treatments(req), CareVet(req), id, t.nextPreventiveCareId);
    GroomingsOfAt(groomingRows);
    GroomingRowsAt(GroomingTypes(req), id, t.nextGroomingId);
    CaresOfAt(careRows);
    CareRowsAt(Treatments(req), CareVet(req), id, t.nextPreventiveCareId);
  }

  /** The surgery's `veterinarian_diagnosis` is echoed in the result but is not among the
      columns of the `INSERT`: two requests that differ only in it write the same rows. */
  lemma DiagnosisNotStored(t: Tables, req: InstanceRequest, diagnosis: Option<string>)
    requires req.surgery.Some?
    ensures var other := req.(surgery := Some(req.surgery.value.(veterinarianDiagnosis := diagnosis)));
      && Inserted(t, other) == Inserted(t, req)
      && Assembled(t, other).surgery.value.veterinarianDiagnosis == diagnosis
  {
  }

  /** The ids of the visits in the `service_instance` table. */
  function InstanceIds(t: Tables): set<string> {
    set r | r in t.instances :: r.serviceInstanceId
  }

  /** Ids below the table's counter, in the order the counter handed them out. */
  predicate Numbered(ids: seq<nat>, next: nat) {
    && (forall k :: 0 <= k < |ids| ==> ids[k] < next)
    && (forall i, j :: 0 <= i < j < |ids| ==> ids[i] < ids[j])
  }

  function GroomingIds(rows: seq<GroomingRow>): (r: seq<nat>)
    ensures |r| == |rows| && forall k :: 0 <= k < |rows| ==> r[k] == rows[k].groomingId
  {
    if rows == [] then [] else GroomingIds(rows[..|rows| - 1]) + [rows[|rows| - 1].groomingId]
  }

  function CareIds(rows: seq<PreventiveCareRow>): (r: seq<nat>)
    ensures |r| == |rows| && forall k :: 0 <= k < |rows| ==> r[k] == rows[k].preventiveCareId
  {
    if rows == [] then [] else CareIds(rows[..|rows| - 1]) + [rows[|rows| - 1].preventiveCareId]
  }

  function SurgeryIds(rows: seq<SurgeryRow>): (r: seq<nat>)
    ensures |r| == |rows| && forall k :: 0 <= k < |rows| ==> r[k] == rows[k].surgeryId
  {
    if rows == [] then [] else SurgeryIds(rows[..|rows| - 1]) + [rows[|rows| - 1].surgeryId]
  }

  /** The constraints of the schema the model keeps: `service_instance_id` is the primary key of
      `service_instance`, every child row refers to an existing visit, and the auto-increment ids
      are distinct and below their counters. */
  predicate TablesValid(t: Tables) {
    && (forall i, j :: 0 <= i < j < |t.instances| ==> t.instances[i].serviceInstanceId != t.instances[j].serviceInstanceId)
    && (forall r :: r in t.serviceTypes ==> r.serviceInstanceId in InstanceIds(t))
    && (forall r :: r in t.groomings ==> r.serviceInstanceId in InstanceIds(t))
    && (forall r :: r in t.preventiveCares ==> r.serviceInstanceId in InstanceIds(t))
    && (forall r :: r in t.surgeries ==> r.serviceInstanceId in InstanceIds(t))
    && Numbered(GroomingIds(t.groomings), t.nextGroomingId)
    && Numbered(CareIds(t.preventiveCares), t.nextPreventiveCareId)
    && Numbered(SurgeryIds(t.surgeries), t.nextSurgeryId)
  }

  /** Appending rows numbered from the counter on keeps the ids numbered. */
  lemma NumberedAppend(ids: seq<nat>, next: nat, added: seq<nat>)
    requires Numbered(ids, next)
    requires forall k :: 0 <= k < |added| ==> added[k] == next + k
    ensures Numbered(ids + added, next + |added|)
  {
    var all := ids + added;
    forall i, j | 0 <= i < j < |all|
      ensures all[i] < all[j]
    {
      if j < |ids| {
        assert all[i] == ids[i] && all[j] == ids[j];
      } else if i < |ids| {
        assert all[i] == ids[i] && all[j] == added[j - |ids|];
      } else {
        assert all[i] == added[i - |ids|] && all[j] == added[j - |ids|];
      }
    }
    forall k | 0 <= k < |all|
      ensures all[k] < next + |added|
    {
      if k < |ids| {
        assert all[k] == ids[k];
      } else {
        assert all[k] == added[k - |ids|];
      }
    }
  }

  /** A committed call keeps the tables valid when its id is new: the parent row is the only
      row with that id, its children refer to it, and their ids continue the counters. */
  lemma InsertedValid(t: Tables, req: InstanceRequest)
    requires TablesValid(t) && req.serviceInstanceId !in InstanceIds(t)
    ensures TablesValid(Inserted(t, req))
  {
    var id, u := req.serviceInstanceId, Inserted(t, req);
    assert InstanceIds(u) == InstanceIds(t) + {id} by {
      assert forall r :: r in u.instances <==> r in t.instances || r == ParentRow(req);
    }
    forall i, j | 0 <= i < j < |u.instances|
      ensures u.instances[i].serviceInstanceId != u.instances[j].serviceInstanceId
    {
      assert u.instances[i] == t.instances[i] || i == |t.instances|;
      if j == |t.instances| {
        assert u.instances[i] in t.instances;
      }
    }
    TypeRowsAt(req.serviceType, id);
    GroomingRowsAt(GroomingTypes(req), id, t.nextGroomingId);
    CareRowsAt(Treatments(req), CareVet(req), id, t.nextPreventiveCareId);
    GroomingsNumbered(t, req);
    CaresNumbered(t, req);
    SurgeriesNumbered(t, req);
  }

  lemma GroomingsNumbered(t: Tables, req: InstanceRequest)
    requires Numbered(GroomingIds(t.groomings), t.nextGroomingId)
    ensures Numbered(GroomingIds(Inserted(t, req).groomings), Inserted(t, req).nextGroomingId)
  {
    var added := GroomingRows(GroomingTypes(req), req.serviceInstanceId, t.nextGroomingId);
    GroomingRowsAt(GroomingTypes(req), req.serviceInstanceId, t.nextGroomingId);
    assert GroomingIds(t.groomings + added) == GroomingIds(t.groomings) + GroomingIds(added);
    NumberedAppend(GroomingIds(t.groomings), t.nextGroomingId, GroomingIds(added));
  }

  lemma CaresNumbered(t: Tables, req: InstanceRequest)
    requires Numbered(CareIds(t.preventiveCares), t.nextPreventiveCareId)
    ensures Numbered(CareIds(Inserted(t, req).preventiveCares), Inserted(t, req).nextPreventiveCareId)
  {
    var added := CareRows(Treatments(req), CareVet(req), req.serviceInstanceId, t.nextPreventiveCareId);
    CareRowsAt(Treatments(req), CareVet(req), req.serviceInstanceId, t.nextPreventiveCareId);
    assert CareIds(t.preventiveCares + added) == CareIds(t.preventiveCares) + CareIds(added);
    NumberedAppend(CareIds(t.preventiveCares), t.nextPreventiveCareId, CareIds(added));
  }

  lemma SurgeriesNumbered(t: Tables, req: InstanceRequest)
    requires Numbered(SurgeryIds(t.surgeries), t.nextSurgeryId)
    ensures Numbered(SurgeryIds(Inserted(t, req).surgeries), Inserted(t, req).nextSurgeryId)
  {
    var added := SurgeryRows(req, t.nextSurgeryId);
    assert SurgeryIds(t.surgeries + added) == SurgeryIds(t.surgeries) + SurgeryIds(added);
    NumberedAppend(SurgeryIds(t.surgeries), t.nextSurgeryId, SurgeryIds(added));
  }

  /** The error MySQL reports for a second row with the same primary key. */
  function DuplicateKey(id: string): DbError {
    var text := "Duplicate entry '" + id + "' for key 'PRIMARY'";
    DbError(text, text)
  }

  /** The answers of a database that also enforces the primary key of `service_instance`: the
      parent `INSERT` of an id already present fails with a duplicate-entry error. */
  function KeyChecked(t: Tables, id: string, faults: map<Step, DbError>): (r: map<Step, DbError>)
    ensures id in InstanceIds(t) ==> Answer(r, InsertInstance).Some?
    ensures forall s :: s != InsertInstance ==> Answer(r, s) == Answer(faults, s)
  {
    if id in InstanceIds(t) && InsertInstance !in faults then faults[InsertInstance := DuplicateKey(id)] else faults
  }

  /** The MySQL database behind the pool: its tables, replaced only when a transaction commits. */
  class Database {
    var tables: Tables

    ghost predicate Valid()
      reads this
    {
      TablesValid(tables)
    }

    /** An empty schema, as `create_tables` leaves it; auto-increment ids start at 1. */
    constructor ()
      ensures Valid() && tables == Tables([], [], [], [], [], 1, 1, 1)
    {
      tables := Tables([], [], [], [], [], 1, 1, 1);
    }

    /** `insert_service_instance`: the transaction runs on a copy of the tables, which replaces
        them only if every statement, the commit included, succeeded. */
    method InsertServiceInstance(req: InstanceRequest, faults: map<Step, DbError>)
      returns (r: Result<ServiceInstance, DbError>)
      requires Valid()
      modifies this
      ensures Valid()
      ensures r.Success? <==> AllSucceeded(Plan(req), KeyChecked(old(tables), req.serviceInstanceId, faults))
      ensures r.Success? ==> req.serviceInstanceId !in InstanceIds(old(tables))
      ensures r.Success? ==> tables == Inserted(old(tables), req) && r.value == Assembled(old(tables), req)
      ensures r.Failure? ==> tables == old(tables)
    {
      var checked := KeyChecked(tables, req.serviceInstanceId, faults);
      var tx;
      ghost var issued;
      r, tx, issued := InsertTransaction(tables, req, checked);
      if r.Success? {
        PlanOrder(req);
        assert Answer(checked, Plan(req)[1]).None?;
        InsertedValid(tables, req);
        tables := tx;
      }
    }
  }
}

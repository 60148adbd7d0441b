/** `insert_service_instance` of `db/queries/service_instance_queries.rs`: one visit is written as
    a parent `service_instance` row and its children (service types, groomings, preventive-care
    treatments, at most one surgery) inside one transaction, and the inserted aggregate is returned.

    The database is a value of `Tables`: one sequence of rows per table and the auto-increment
    counters of the tables whose ids the function reads back. The transaction works on a copy of
    it, and `Database` keeps the copy only when every statement succeeded. Which statement the
    database rejects, and with what error, is the parameter `faults`: a statement it maps fails
    with that error, every other statement succeeds. */
module ServiceInstanceInsert {
  import opened Wrappers
  import opened Http
  import opened Sql

  /** The preventive-care part of a request: several treatments given by one vet. */
  datatype AddPreventiveCare = AddPreventiveCare(treatment: seq<string>, vetId: string)

  /** The surgery part of a request. */
  datatype AddSurgery = AddSurgery(surgeryName: string, anesthesiaUsed: Option<string>,
                                   veterinarianDiagnosis: Option<string>, complications: Option<string>,
                                   outcome: Option<string>, vetId: string)

  /** The arguments of `insert_service_instance`. */
  datatype InstanceRequest = InstanceRequest(
    serviceInstanceId: string, serviceDate: string, serviceType: seq<string>, serviceReason: string,
    generalDiagnosis: string, requiresFollowup: bool, followupDate: Option<string>, petId: string,
    groomingType: Option<seq<string>>, preventiveCare: Option<AddPreventiveCare>, surgery: Option<AddSurgery>)

  /** Rows of the five tables, holding the columns the statements write. */
  datatype InstanceRow = InstanceRow(serviceInstanceId: string, serviceDate: string, serviceReason: string,
                                     generalDiagnosis: string, requiresFollowup: bool,
                                     followupDate: Option<string>, petId: string)
  datatype TypeRow = TypeRow(serviceTypeName: string, serviceInstanceId: string)
  datatype GroomingRow = GroomingRow(groomingId: nat, groomingType: string, serviceInstanceId: string)
  datatype PreventiveCareRow = PreventiveCareRow(preventiveCareId: nat, treatment: string, vetId: string,
                                                 serviceInstanceId: string)
  datatype SurgeryRow = SurgeryRow(surgeryId: nat, surgeryName: string, anesthesiaUsed: Option<string>,
                                   complications: Option<string>, outcome: Option<string>,
                                   serviceInstanceId: string, vetId: string)

  /** The database: the rows of each table and the next auto-increment value of the tables whose
      ids are read back with `last_insert_id`. */
  datatype Tables = Tables(instances: seq<InstanceRow>, serviceTypes: seq<TypeRow>, groomings: seq<GroomingRow>,
                           preventiveCares: seq<PreventiveCareRow>, surgeries: seq<SurgeryRow>,
                           nextGroomingId: nat, nextPreventiveCareId: nat, nextSurgeryId: nat)

  /** The returned aggregate and its parts. */
  datatype Grooming = Grooming(groomingId: Option<I32>, groomingType: string, serviceInstanceId: string)
  datatype PreventiveCare = PreventiveCare(preventiveCareId: Option<I32>, treatment: string,
                                           serviceInstanceId: string, vetId: string)
  datatype Surgery = Surgery(surgeryId: Option<I32>, surgeryName: string, anesthesiaUsed: Option<string>,
                             veterinarianDiagnosis: Option<string>, complications: Option<string>,
                             outcome: Option<string>, vetId: string, serviceInstanceId: string)
  datatype ServiceInstance = ServiceInstance(
    serviceInstanceId: string, serviceDate: string, serviceType: seq<string>, serviceReason: string,
    generalDiagnosis: string, requiresFollowup: bool, followupDate: Option<string>, petId: string,
    grooming: Option<seq<Grooming>>, preventiveCare: Option<seq<PreventiveCare>>, surgery: Option<Surgery>)

  /** The statements of the transaction, children numbered by their position in the request. */
  datatype Step = Begin | InsertInstance | InsertType(i: nat) | InsertGrooming(i: nat)
                | InsertPreventiveCare(i: nat) | InsertSurgery | Commit

  /** A statement that writes a child row. */
  predicate IsChild(s: Step) {
    s.InsertType? || s.InsertGrooming? || s.InsertPreventiveCare? || s.InsertSurgery?
  }

  /** The grooming types and treatments to insert; an absent list inserts nothing. */
  function GroomingTypes(req: InstanceRequest): seq<string> {
    if req.groomingType.Some? then req.groomingType.value else []
  }

  function Treatments(req: InstanceRequest): seq<string> {
    if req.preventiveCare.Some? then req.preventiveCare.value.treatment else []
  }

  function CareVet(req: InstanceRequest): string {
    if req.preventiveCare.Some? then req.preventiveCare.value.vetId else ""
  }

  /** The first `n` statements of one kind of child. */
  function TypeSteps(n: nat): (r: seq<Step>)
    ensures |r| == n
  {
    if n == 0 then [] else TypeSteps(n - 1) + [InsertType(n - 1)]
  }

  function GroomingSteps(n: nat): (r: seq<Step>)
    ensures |r| == n
  {
    if n == 0 then [] else GroomingSteps(n - 1) + [InsertGrooming(n - 1)]
  }

  function CareSteps(n: nat): (r: seq<Step>)
    ensures |r| == n
  {
    if n == 0 then [] else CareSteps(n - 1) + [InsertPreventiveCare(n - 1)]
  }

  /** The statements of each kind, by position. */
  lemma {:induction false} TypeStepsAt(n: nat)
    ensures forall k :: 0 <= k < n ==> TypeSteps(n)[k] == InsertType(k)
  {
    if n > 0 {
      TypeStepsAt(n - 1);
    }
  }

  lemma {:induction false} GroomingStepsAt(n: nat)
    ensures forall k :: 0 <= k < n ==> GroomingSteps(n)[k] == InsertGrooming(k)
  {
    if n > 0 {
      GroomingStepsAt(n - 1);
    }
  }

  lemma {:induction false} CareStepsAt(n: nat)
    ensures forall k :: 0 <= k < n ==> CareSteps(n)[k] == InsertPreventiveCare(k)
  {
    if n > 0 {
      CareStepsAt(n - 1);
    }
  }

  function SurgerySteps(req: InstanceRequest): seq<Step> {
    if req.surgery.Some? then [InsertSurgery] else []
  }

  /** The statements a fully successful call issues, in order. */
  function Plan(req: InstanceRequest): seq<Step> {
    [Begin, InsertInstance] + TypeSteps(|req.serviceType|) + GroomingSteps(|GroomingTypes(req)|)
    + CareSteps(|Treatments(req)|) + SurgerySteps(req) + [Commit]
  }

  /** The parent row. */
  function ParentRow(req: InstanceRequest): InstanceRow {
    InstanceRow(req.serviceInstanceId, req.serviceDate, req.serviceReason, req.generalDiagnosis,
                req.requiresFollowup, req.followupDate, req.petId)
  }

  /** One `service_type` row per name, in order, each bound to the instance. */
  function TypeRows(names: seq<string>, id: string): (r: seq<TypeRow>)
    ensures |r| == |names|
  {
    if names == [] then [] else TypeRows(names[..|names| - 1], id) + [TypeRow(names[|names| - 1], id)]
  }

  /** One `grooming` row per type, in order, numbered from `first`. */
  function GroomingRows(types: seq<string>, id: string, first: nat): (r: seq<GroomingRow>)
    ensures |r| == |types|
  {
    if types == [] then []
    else GroomingRows(types[..|types| - 1], id, first) + [GroomingRow(first + |types| - 1, types[|types| - 1], id)]
  }

  /** One `preventive_care` row per treatment, in order, numbered from `first`, all by `vetId`. */
  function CareRows(treatments: seq<string>, vetId: string, id: string, first: nat): (r: seq<PreventiveCareRow>)
    ensures |r| == |treatments|
  {
    if treatments == [] then []
    else CareRows(treatments[..|treatments| - 1], vetId, id, first)
         + [PreventiveCareRow(first + |treatments| - 1, treatments[|treatments| - 1], vetId, id)]
  }

  /** The `surgery` row: the columns of the `INSERT`, which do not include the diagnosis. */
  function SurgeryRowOf(s: AddSurgery, id: string, surgeryId: nat): SurgeryRow {
    SurgeryRow(surgeryId, s.surgeryName, s.anesthesiaUsed, s.complications, s.outcome, id, s.vetId)
  }

  function SurgeryRows(req: InstanceRequest, first: nat): seq<SurgeryRow> {
    if req.surgery.Some? then [SurgeryRowOf(req.surgery.value, req.serviceInstanceId, first)] else []
  }

  /** The tables after a committed call. */
  function Inserted(t: Tables, req: InstanceRequest): Tables {
    var id := req.serviceInstanceId;
    Tables(t.instances + [ParentRow(req)],
           t.serviceTypes + TypeRows(req.serviceType, id),
           t.groomings + GroomingRows(GroomingTypes(req), id, t.nextGroomingId),
           t.preventiveCares + CareRows(Treatments(req), CareVet(req), id, t.nextPreventiveCareId),
           t.surgeries + SurgeryRows(req, t.nextSurgeryId),
           t.nextGroomingId + |GroomingTypes(req)|,
           t.nextPreventiveCareId + |Treatments(req)|,
           t.nextSurgeryId + |SurgeryRows(req, t.nextSurgeryId)|)
  }

  /** What the function returns for a row it inserted. */
  function GroomingOf(row: GroomingRow): Grooming {
    Grooming(Some(AsI32(row.groomingId)), row.groomingType, row.serviceInstanceId)
  }

  function CareOf(row: PreventiveCareRow): PreventiveCare {
    PreventiveCare(Some(AsI32(row.preventiveCareId)), row.treatment, row.serviceInstanceId, row.vetId)
  }

  function SurgeryOf(s: AddSurgery, id: string, surgeryId: nat): Surgery {
    Surgery(Some(AsI32(surgeryId)), s.surgeryName, s.anesthesiaUsed, s.veterinarianDiagnosis,
            s.complications, s.outcome, s.vetId, id)
  }

  function GroomingsOf(rows: seq<GroomingRow>): (r: seq<Grooming>)
    ensures |r| == |rows|
  {
    if rows == [] then [] else GroomingsOf(rows[..|rows| - 1]) + [GroomingOf(rows[|rows| - 1])]
  }

  function CaresOf(rows: seq<PreventiveCareRow>): (r: seq<PreventiveCare>)
    ensures |r| == |rows|
  {
    if rows == [] then [] else CaresOf(rows[..|rows| - 1]) + [CareOf(rows[|rows| - 1])]
  }

  /** The rows and records above, element by element. */
  lemma {:induction false} TypeRowsAt(names: seq<string>, id: string)
    ensures forall k :: 0 <= k < |names| ==> TypeRows(names, id)[k] == TypeRow(names[k], id)
  {
    if names != [] {
      TypeRowsAt(names[..|names| - 1], id);
    }
  }

  lemma {:induction false} GroomingRowsAt(types: seq<string>, id: string, first: nat)
    ensures forall k :: 0 <= k < |types| ==> GroomingRows(types, id, first)[k] == GroomingRow(first + k, types[k], id)
  {
    if types != [] {
      GroomingRowsAt(types[..|types| - 1], id, first);
    }
  }

  lemma {:induction false} CareRowsAt(treatments: seq<string>, vetId: string, id: string, first: nat)
    ensures forall k :: 0 <= k < |treatments| ==>
      CareRows(treatments, vetId, id, first)[k] == PreventiveCareRow(first + k, treatments[k], vetId, id)
  {
    if treatments != [] {
      CareRowsAt(treatments[..|treatments| - 1], vetId, id, first);
    }
  }

  lemma {:induction false} GroomingsOfAt(rows: seq<GroomingRow>)
    ensures forall k :: 0 <= k < |rows| ==> GroomingsOf(rows)[k] == GroomingOf(rows[k])
  {
    if rows != [] {
      GroomingsOfAt(rows[..|rows| - 1]);
    }
  }

  lemma {:induction false} CaresOfAt(rows: seq<PreventiveCareRow>)
    ensures forall k :: 0 <= k < |rows| ==> CaresOf(rows)[k] == CareOf(rows[k])
  {
    if rows != [] {
      CaresOfAt(rows[..|rows| - 1]);
    }
  }

  /** The surgery the call returns, as the one-element list it is collected in. */
  function SurgeriesOf(req: InstanceRequest, surgeryId: nat): seq<Surgery> {
    if req.surgery.Some? then [SurgeryOf(req.surgery.value, req.serviceInstanceId, surgeryId)] else []
  }

  /** The `ServiceInstance` the call builds at the end: the request's own fields, and each list of
      children `None` when it is empty. */
  function Assemble(req: InstanceRequest, groomings: seq<Grooming>, preventiveCares: seq<PreventiveCare>,
                    surgeries: seq<Surgery>): ServiceInstance
  {
    ServiceInstance(
      req.serviceInstanceId, req.serviceDate, req.serviceType, req.serviceReason, req.generalDiagnosis,
      req.requiresFollowup, req.followupDate, req.petId,
      if |groomings| == 0 then None else Some(groomings),
      if |preventiveCares| == 0 then None else Some(preventiveCares),
      if |surgeries| == 0 then None else Some(surgeries[0]))
  }

  /** The aggregate a committed call returns: the request echoed back, with the ids the database
      assigned to the children it inserted. */
  function Assembled(t: Tables, req: InstanceRequest): (r: ServiceInstance)
    ensures r.serviceInstanceId == req.serviceInstanceId && r.serviceDate == req.serviceDate
    ensures r.serviceType == req.serviceType && r.serviceReason == req.serviceReason
    ensures r.generalDiagnosis == req.generalDiagnosis && r.requiresFollowup == req.requiresFollowup
    ensures r.followupDate == req.followupDate && r.petId == req.petId
    ensures r.grooming.None? <==> GroomingTypes(req) == []
    ensures r.preventiveCare.None? <==> Treatments(req) == []
    ensures r.surgery.None? <==> req.surgery.None?
  {
    var id := req.serviceInstanceId;
    Assemble(req, GroomingsOf(GroomingRows(GroomingTypes(req), id, t.nextGroomingId)),
             CaresOf(CareRows(Treatments(req), CareVet(req), id, t.nextPreventiveCareId)),
             SurgeriesOf(req, t.nextSurgeryId))
  }

  /** The database's answer to one statement: the error it reports, or none. */
  function Answer(faults: map<Step, DbError>, s: Step): Option<DbError> {
    if s in faults then Some(faults[s]) else None
  }

  /** Every statement in `issued` succeeded. */
  predicate AllSucceeded(issued: seq<Step>, faults: map<Step, DbError>) {
    forall k :: 0 <= k < |issued| ==> Answer(faults, issued[k]).None?
  }

  /** The call stopped with error `e` at the last statement of `issued`, a prefix of the plan;
      every statement before it succeeded. */
  predicate StoppedAt(req: InstanceRequest, issued: seq<Step>, faults: map<Step, DbError>, e: DbError) {
    && issued != [] && issued <= Plan(req)
    && AllSucceeded(issued[..|issued| - 1], faults)
    && Answer(faults, issued[|issued| - 1]) == Some(e)
  }

  /** The service-type loop: one `INSERT INTO service_type` per name. `inserted` holds the rows
      written and `ran` counts the statements that succeeded. */
  method InsertTypes(names: seq<string>, id: string, faults: map<Step, DbError>)
    returns (failure: Option<DbError>, inserted: seq<TypeRow>, serviceTypes: seq<string>, ghost ran: nat)
    ensures ran <= |names| && AllSucceeded(TypeSteps(ran), faults)
    ensures failure.Some? ==> ran < |names| && Answer(faults, InsertType(ran)) == failure
    ensures failure.None? ==> ran == |names| && inserted == TypeRows(names, id) && serviceTypes == names
  {
    inserted, serviceTypes := [], [];
    failure := None;
    var i := 0;
    while i < |names| && failure.None?
      invariant i <= |names| && (forall k :: 0 <= k < i ==> Answer(faults, InsertType(k)).None?)
      invariant failure.Some? ==> i < |names| && Answer(faults, InsertType(i)) == failure
      invariant inserted == TypeRows(names[..i], id) && serviceTypes == names[..i]
      decreases |names| - i, failure.None?
    {
      failure := Answer(faults, InsertType(i));
      if failure.None? {
        TypeStep(names, id, i, inserted);
        inserted := inserted + [TypeRow(names[i], id)];
        serviceTypes := serviceTypes + [names[i]];
        i := i + 1;
      }
    }
    ran := i;
    TypeStepsSucceeded(i, faults);
    assert names[..|names|] == names;
  }

  /** The grooming loop: one `INSERT INTO grooming` per type, numbered from the table's next id;
      each returned grooming carries the id of its own row, narrowed with `as i32`. */
  method InsertGroomings(types: seq<string>, id: string, next: nat, faults: map<Step, DbError>)
    returns (failure: Option<DbError>, inserted: seq<GroomingRow>, next': nat, groomings: seq<Grooming>, ghost ran: nat)
    ensures ran <= |types| && AllSucceeded(GroomingSteps(ran), faults)
    ensures failure.Some? ==> ran < |types| && Answer(faults, InsertGrooming(ran)) == failure
    ensures failure.None? ==> ran == |types| && inserted == GroomingRows(types, id, next)
    ensures failure.None? ==> next' == next + |types| && groomings == GroomingsOf(inserted)
  {
    inserted, next', groomings := [], next, [];
    failure := None;
    var i := 0;
    while i < |types| && failure.None?
      invariant i <= |types| && (forall k :: 0 <= k < i ==> Answer(faults, InsertGrooming(k)).None?)
      invariant failure.Some? ==> i < |types| && Answer(faults, InsertGrooming(i)) == failure
      invariant next' == next + i
      invariant inserted == GroomingRows(types[..i], id, next) && groomings == GroomingsOf(inserted)
      decreases |types| - i, failure.None?
    {
      failure := Answer(faults, InsertGrooming(i));
      if failure.None? {
        var row := GroomingRow(next', types[i], id);
        GroomingStep(types, id, next, i, inserted);
        OneMoreGrooming(inserted, groomings, row);
        inserted := inserted + [row];
        next' := next' + 1;
        groomings := groomings + [GroomingOf(row)];
        i := i + 1;
      }
    }
    ran := i;
    GroomingStepsSucceeded(i, faults);
    assert types[..|types|] == types;
  }

  /** The preventive-care loop: one `INSERT INTO preventive_care` per treatment, all with the
      request's one vet. */
  method InsertCares(treatments: seq<string>, vetId: string, id: string, next: nat, faults: map<Step, DbError>)
    returns (failure: Option<DbError>, inserted: seq<PreventiveCareRow>, next': nat,
             preventiveCares: seq<PreventiveCare>, ghost ran: nat)
    ensures ran <= |treatments| && AllSucceeded(CareSteps(ran), faults)
    ensures failure.Some? ==> ran < |treatments| && Answer(faults, InsertPreventiveCare(ran)) == failure
    ensures failure.None? ==> ran == |treatments| && inserted == CareRows(treatments, vetId, id, next)
    ensures failure.None? ==> next' == next + |treatments| && preventiveCares == CaresOf(inserted)
  {
    inserted, next', preventiveCares := [], next, [];
    failure := None;
    var i := 0;
    while i < |treatments| && failure.None?
      invariant i <= |treatments| && (forall k :: 0 <= k < i ==> Answer(faults, InsertPreventiveCare(k)).None?)
      invariant failure.Some? ==> i < |treatments| && Answer(faults, InsertPreventiveCare(i)) == failure
      invariant next' == next + i
      invariant inserted == CareRows(treatments[..i], vetId, id, next) && preventiveCares == CaresOf(inserted)
      decreases |treatments| - i, failure.None?
    {
      failure := Answer(faults, InsertPreventiveCare(i));
      if failure.None? {
        var row := PreventiveCareRow(next', treatments[i], vetId, id);
        CareStep(treatments, vetId, id, next, i, inserted);
        OneMoreCare(inserted, preventiveCares, row);
        inserted := inserted + [row];
        next' := next' + 1;
        preventiveCares := preventiveCares + [CareOf(row)];
        i := i + 1;
      }
    }
    ran := i;
    CareStepsSucceeded(i, faults);
    assert treatments[..|treatments|] == treatments;
  }

  /** One more row of each kind, at the end. */
  lemma TypeStep(names: seq<string>, id: string, i: nat, rows: seq<TypeRow>)
    requires i < |names| && rows == TypeRows(names[..i], id)
    ensures rows + [TypeRow(names[i], id)] == TypeRows(names[..i + 1], id)
  {
    assert names[..i + 1][..i] == names[..i];
  }

  lemma GroomingStep(types: seq<string>, id: string, next: nat, i: nat, rows: seq<GroomingRow>)
    requires i < |types| && rows == GroomingRows(types[..i], id, next)
    ensures rows + [GroomingRow(next + i, types[i], id)] == GroomingRows(types[..i + 1], id, next)
  {
    assert types[..i + 1][..i] == types[..i];
  }

  lemma CareStep(treatments: seq<string>, vetId: string, id: string, next: nat, i: nat, rows: seq<PreventiveCareRow>)
    requires i < |treatments| && rows == CareRows(treatments[..i], vetId, id, next)
    ensures rows + [PreventiveCareRow(next + i, treatments[i], vetId, id)] == CareRows(treatments[..i + 1], vetId, id, next)
  {
    assert treatments[..i + 1][..i] == treatments[..i];
  }

  lemma OneMoreGrooming(rows: seq<GroomingRow>, groomings: seq<Grooming>, row: GroomingRow)
    requires groomings == GroomingsOf(rows)
    ensures groomings + [GroomingOf(row)] == GroomingsOf(rows + [row])
  {
    assert (rows + [row])[..|rows|] == rows;
  }

  lemma OneMoreCare(rows: seq<PreventiveCareRow>, cares: seq<PreventiveCare>, row: PreventiveCareRow)
    requires cares == CaresOf(rows)
    ensures cares + [CareOf(row)] == CaresOf(rows + [row])
  {
    assert (rows + [row])[..|rows|] == rows;
  }

  /** The working copy once the parent row and the service types, groomings and treatments are in. */
  function WithChildren(t: Tables, req: InstanceRequest): Tables {
    var id := req.serviceInstanceId;
    t.(instances := t.instances + [ParentRow(req)],
       serviceTypes := t.serviceTypes + TypeRows(req.serviceType, id),
       groomings := t.groomings + GroomingRows(GroomingTypes(req), id, t.nextGroomingId),
       nextGroomingId := t.nextGroomingId + |GroomingTypes(req)|,
       preventiveCares := t.preventiveCares + CareRows(Treatments(req), CareVet(req), id, t.nextPreventiveCareId),
       nextPreventiveCareId := t.nextPreventiveCareId + |Treatments(req)|)
  }

  /** The statements of the three loops, after the parent row. */
  function ChildSteps(req: InstanceRequest): seq<Step> {
    [Begin, InsertInstance] + TypeSteps(|req.serviceType|) + GroomingSteps(|GroomingTypes(req)|)
    + CareSteps(|Treatments(req)|)
  }

  /** The three loops of `insert_service_instance`, run after the parent row is in. */
  method InsertChildren(ghost t: Tables, req: InstanceRequest, faults: map<Step, DbError>, tx: Tables)
    returns (failure: Option<DbError>, tx': Tables, ghost issued: seq<Step>,
             groomings: seq<Grooming>, preventiveCares: seq<PreventiveCare>)
    requires Answer(faults, Begin).None? && Answer(faults, InsertInstance).None?
    requires tx == t.(instances := t.instances + [ParentRow(req)])
    ensures failure.Some? ==> StoppedAt(req, issued, faults, failure.value)
    ensures failure.None? ==> issued == ChildSteps(req) && AllSucceeded(issued, faults) && tx' == WithChildren(t, req)
    ensures failure.None? ==> groomings == GroomingsOf(GroomingRows(GroomingTypes(req), req.serviceInstanceId, t.nextGroomingId))
    ensures failure.None? ==>
      preventiveCares == CaresOf(CareRows(Treatments(req), CareVet(req), req.serviceInstanceId, t.nextPreventiveCareId))
  {
    var id := req.serviceInstanceId;
    issued := [Begin, InsertInstance];
    tx', groomings, preventiveCares := tx, [], [];
    var typeRows, groomingRows, careRows, next, serviceTypes;
    ghost var ran;
    failure, typeRows, serviceTypes, ran := InsertTypes(req.serviceType, id, faults);
    if failure.Some? {
      TypesPrefix(req, ran);
      issued := Stop(req, issued, TypeSteps(ran), InsertType(ran), faults);
      return;
    }
    tx' := tx'.(serviceTypes := tx'.serviceTypes + typeRows);
    issued := Ran(issued, TypeSteps(|req.serviceType|), faults);

    var groomingTypes := GroomingTypes(req);
    failure, groomingRows, next, groomings, ran := InsertGroomings(groomingTypes, id, tx'.nextGroomingId, faults);
    if failure.Some? {
      GroomingsPrefix(req, ran);
      issued := Stop(req, issued, GroomingSteps(ran), InsertGrooming(ran), faults);
      return;
    }
    tx' := tx'.(groomings := tx'.groomings + groomingRows, nextGroomingId := next);
    issued := Ran(issued, GroomingSteps(|groomingTypes|), faults);

    var treatments := Treatments(req);
    failure, careRows, next, preventiveCares, ran :=
      InsertCares(treatments, CareVet(req), id, tx'.nextPreventiveCareId, faults);
    if failure.Some? {
      CaresPrefix(req, ran);
      issued := Stop(req, issued, CareSteps(ran), InsertPreventiveCare(ran), faults);
      return;
    }
    tx' := tx'.(preventiveCares := tx'.preventiveCares + careRows, nextPreventiveCareId := next);
    issued := Ran(issued, CareSteps(|treatments|), faults);
  }

  /** The `if let Some(surgery)` block: at most one `INSERT INTO surgery`, and the surgery returned
      with the id of its row. */
  method InsertSurgeryRow(req: InstanceRequest, faults: map<Step, DbError>, tx: Tables)
    returns (failure: Option<DbError>, tx': Tables, surgeries: seq<Surgery>)
    ensures failure.Some? ==> req.surgery.Some? && Answer(faults, InsertSurgery) == failure
    ensures failure.None? ==> AllSucceeded(SurgerySteps(req), faults) && surgeries == SurgeriesOf(req, tx.nextSurgeryId)
    ensures failure.None? ==> tx' == tx.(surgeries := tx.surgeries + SurgeryRows(req, tx.nextSurgeryId),
                                         nextSurgeryId := tx.nextSurgeryId + |SurgeryRows(req, tx.nextSurgeryId)|)
  {
    tx', surgeries := tx, [];
    if req.surgery.Some? {
      var surgery := req.surgery.value;
      failure := Answer(faults, InsertSurgery);
      if failure.Some? {
        return;
      }
      var surgeryId := tx.nextSurgeryId;
      tx' := tx.(surgeries := tx.surgeries + [SurgeryRowOf(surgery, req.serviceInstanceId, surgeryId)],
                 nextSurgeryId := tx.nextSurgeryId + 1);
      surgeries := surgeries + [SurgeryOf(surgery, req.serviceInstanceId, surgeryId)];
    }
    failure := None;
  }

  /** `insert_service_instance` on the working copy `t` of the database. A statement the database
      rejects ends the call with its error (the `?` after each `.await`), before `commit`; when all
      succeed, the copy holds the new rows and the assembled aggregate is returned. */
  method InsertTransaction(t: Tables, req: InstanceRequest, faults: map<Step, DbError>)
    returns (r: Result<ServiceInstance, DbError>, tx: Tables, ghost issued: seq<Step>)
    ensures r.Failure? ==> StoppedAt(req, issued, faults, r.error) && !AllSucceeded(Plan(req), faults)
    ensures r.Success? ==> AllSucceeded(Plan(req), faults) && issued == Plan(req)
    ensures r.Success? ==> tx == Inserted(t, req) && r.value == Assembled(t, req)
  {
    tx := t;
    issued := [];
    if Answer(faults, Begin).Some? {
      r := Failure(Answer(faults, Begin).value);
      issued := Stop(req, [], [], Begin, faults);
      return;
    }
    if Answer(faults, InsertInstance).Some? {
      r := Failure(Answer(faults, InsertInstance).value);
      issued := Stop(req, [Begin], [], InsertInstance, faults);
      return;
    }
    r, tx, issued := InsertAfterParent(t, req, faults, tx.(instances := tx.instances + [ParentRow(req)]));
  }

  /** The rest of `insert_service_instance` once the transaction is open and the parent row is in:
      the loops, the surgery, the commit and the aggregate. */
  method InsertAfterParent(t: Tables, req: InstanceRequest, faults: map<Step, DbError>, tx0: Tables)
    returns (r: Result<ServiceInstance, DbError>, tx: Tables, ghost issued: seq<Step>)
    requires Answer(faults, Begin).None? && Answer(faults, InsertInstance).None?
    requires tx0 == t.(instances := t.instances + [ParentRow(req)])
    ensures r.Failure? ==> StoppedAt(req, issued, faults, r.error) && !AllSucceeded(Plan(req), faults)
    ensures r.Success? ==> AllSucceeded(Plan(req), faults) && issued == Plan(req)
    ensures r.Success? ==> tx == Inserted(t, req) && r.value == Assembled(t, req)
  {
    var failure, groomings, preventiveCares;
    failure, tx, issued, groomings, preventiveCares := InsertChildren(t, req, faults, tx0);
    if failure.Some? {
      r := Failure(failure.value);
      StoppedFails(req, issued, faults, r.error);
      return;
    }

    var surgeries;
    failure, tx, surgeries := InsertSurgeryRow(req, faults, tx);
    if failure.Some? {
      r := Failure(failure.value);
      SurgeryPrefix(req);
      issued := Stop(req, issued, [], InsertSurgery, faults);
      return;
    }
    issued := Ran(issued, SurgerySteps(req), faults);

    if Answer(faults, Commit).Some? {
      r := Failure(Answer(faults, Commit).value);
      CommitPrefix(req);
      issued := Stop(req, issued, [], Commit, faults);
      return;
    }
    issued := Ran(issued, [Commit], faults);
    SurgeryLast(t, req);
    r := Success(Assemble(req, groomings, preventiveCares, surgeries));
  }

  /** The committed tables are the working copy after the loops, plus the surgery row. */
  lemma SurgeryLast(t: Tables, req: InstanceRequest)
    ensures Inserted(t, req) == WithChildren(t, req).(surgeries := t.surgeries + SurgeryRows(req, t.nextSurgeryId),
                                                      nextSurgeryId := t.nextSurgeryId + |SurgeryRows(req, t.nextSurgeryId)|)
  {
  }

  /** A call that stopped at some statement of the plan did not run the whole plan successfully. */
  lemma StoppedFails(req: InstanceRequest, issued: seq<Step>, faults: map<Step, DbError>, e: DbError)
    requires StoppedAt(req, issued, faults, e)
    ensures !AllSucceeded(Plan(req), faults)
  {
    assert Plan(req)[|issued| - 1] == issued[|issued| - 1];
  }

  /** Statements that all succeeded, appended to a run that so far succeeded. */
  ghost function Ran(done: seq<Step>, more: seq<Step>, faults: map<Step, DbError>): (r: seq<Step>)
    requires AllSucceeded(done, faults) && AllSucceeded(more, faults)
    ensures r == done + more && AllSucceeded(r, faults)
  {
    done + more
  }

  /** The run `done + more` that succeeded, then the statement `s` the database rejected. */
  ghost function Stop(req: InstanceRequest, done: seq<Step>, more: seq<Step>, s: Step, faults: map<Step, DbError>)
    : (r: seq<Step>)
    requires AllSucceeded(done, faults) && AllSucceeded(more, faults) && Answer(faults, s).Some?
    requires done + more + [s] <= Plan(req)
    ensures r == done + more + [s]
    ensures StoppedAt(req, r, faults, Answer(faults, s).value) && !AllSucceeded(Plan(req), faults)
  {
    var r := done + more + [s];
    assert r[..|r| - 1] == done + more;
    assert Plan(req)[|r| - 1] == s;
    r
  }

  /** The plan starts with its first stages. */
  lemma PlanHeads(req: InstanceRequest)
    ensures [Begin, InsertInstance] + TypeSteps(|req.serviceType|) <= Plan(req)
    ensures [Begin, InsertInstance] + TypeSteps(|req.serviceType|) + GroomingSteps(|GroomingTypes(req)|) <= Plan(req)
    ensures [Begin, InsertInstance] + TypeSteps(|req.serviceType|) + GroomingSteps(|GroomingTypes(req)|)
            + CareSteps(|Treatments(req)|) <= Plan(req)
  {
    var h1 := [Begin, InsertInstance] + TypeSteps(|req.serviceType|);
    var h2 := h1 + GroomingSteps(|GroomingTypes(req)|);
    var h3 := h2 + CareSteps(|Treatments(req)|);
    var tail := SurgerySteps(req) + [Commit];
    assert Plan(req) == h3 + tail;
    assert Plan(req)[..|h3|] == h3;
    assert h3[..|h2|] == h2;
    assert h2[..|h1|] == h1;
  }

  /** A statement about to be issued, after the stages before it, is within the plan. */
  lemma TypesPrefix(req: InstanceRequest, i: nat)
    requires i < |req.serviceType|
    ensures [Begin, InsertInstance] + TypeSteps(i) + [InsertType(i)] <= Plan(req)
  {
    PlanHeads(req);
    TypeStepsAt(|req.serviceType|);
    TypeStepsAt(i);
    StepsWithin([Begin, InsertInstance], TypeSteps(i), InsertType(i), TypeSteps(|req.serviceType|), req);
  }

  lemma GroomingsPrefix(req: InstanceRequest, i: nat)
    requires i < |GroomingTypes(req)|
    ensures [Begin, InsertInstance] + TypeSteps(|req.serviceType|) + GroomingSteps(i) + [InsertGrooming(i)] <= Plan(req)
  {
    PlanHeads(req);
    GroomingStepsAt(|GroomingTypes(req)|);
    GroomingStepsAt(i);
    StepsWithin([Begin, InsertInstance] + TypeSteps(|req.serviceType|), GroomingSteps(i), InsertGrooming(i),
                GroomingSteps(|GroomingTypes(req)|), req);
  }

  lemma CaresPrefix(req: InstanceRequest, i: nat)
    requires i < |Treatments(req)|
    ensures [Begin, InsertInstance] + TypeSteps(|req.serviceType|) + GroomingSteps(|GroomingTypes(req)|)
            + CareSteps(i) + [InsertPreventiveCare(i)] <= Plan(req)
  {
    PlanHeads(req);
    CareStepsAt(|Treatments(req)|);
    CareStepsAt(i);
    StepsWithin([Begin, InsertInstance] + TypeSteps(|req.serviceType|) + GroomingSteps(|GroomingTypes(req)|),
                CareSteps(i), InsertPreventiveCare(i), CareSteps(|Treatments(req)|), req);
  }

  /** The common shape of the three lemmas above: the plan starts with `head + stage`, and
      `done + [s]` is a prefix of `stage`. */
  lemma StepsWithin(head: seq<Step>, done: seq<Step>, s: Step, stage: seq<Step>, req: InstanceRequest)
    requires head + stage <= Plan(req)
    requires |done| < |stage| && stage[|done|] == s && forall k :: 0 <= k < |done| ==> stage[k] == done[k]
    ensures head + done + [s] <= Plan(req)
  {
    var q := head + done + [s];
    var p := Plan(req);
    assert |q| <= |p|;
    forall k | 0 <= k < |q|
      ensures q[k] == p[k]
    {
      assert p[k] == (head + stage)[k];
    }
  }

  lemma SurgeryPrefix(req: InstanceRequest)
    requires req.surgery.Some?
    ensures [Begin, InsertInstance] + TypeSteps(|req.serviceType|) + GroomingSteps(|GroomingTypes(req)|)
            + CareSteps(|Treatments(req)|) + [] + [InsertSurgery] <= Plan(req)
  {
  }

  lemma CommitPrefix(req: InstanceRequest)
    ensures [Begin, InsertInstance] + TypeSteps(|req.serviceType|) + GroomingSteps(|GroomingTypes(req)|)
            + CareSteps(|Treatments(req)|) + SurgerySteps(req) + [] + [Commit] <= Plan(req)
  {
  }

  /** The loops' account of the statements that succeeded, as runs of the plan. */
  lemma TypeStepsSucceeded(n: nat, faults: map<Step, DbError>)
    requires forall k :: 0 <= k < n ==> Answer(faults, InsertType(k)).None?
    ensures AllSucceeded(TypeSteps(n), faults)
  {
    TypeStepsAt(n);
  }

  lemma GroomingStepsSucceeded(n: nat, faults: map<Step, DbError>)
    requires forall k :: 0 <= k < n ==> Answer(faults, InsertGrooming(k)).None?
    ensures AllSucceeded(GroomingSteps(n), faults)
  {
    GroomingStepsAt(n);
  }

  lemma CareStepsSucceeded(n: nat, faults: map<Step, DbError>)
    requires forall k :: 0 <= k < n ==> Answer(faults, InsertPreventiveCare(k)).None?
    ensures AllSucceeded(CareSteps(n), faults)
  {
    CareStepsAt(n);
  }
}

/** `get_services_history_of_pet` of `db/queries/service_instance_queries.rs`: the rows of
    `service_instance LEFT JOIN service_type`, one per (visit, service type) pair, are folded in a
    single pass into one history entry per run of rows with the same `service_instance_id`, the
    entry collecting the service types of its run in row order. */
module ServicesHistory {
  import opened Wrappers

  /** The `service_instance` columns a row carries and an entry repeats: the scalar fields of
      `GetServicesHistoryModel`. Dates are their text. */
  datatype Visit = Visit(serviceInstanceId: string, serviceDate: string, serviceReason: string,
                         generalDiagnosis: string, requiresFollowup: bool, followupDate: Option<string>)

  /** One joined row: a visit and one of its service types. */
  datatype HistoryRow = HistoryRow(visit: Visit, serviceTypeName: string)

  /** One `GetServicesHistoryModel`: a visit with its service types. */
  datatype HistoryEntry = HistoryEntry(visit: Visit, serviceType: seq<string>)

  function Id(e: HistoryEntry): string {
    e.visit.serviceInstanceId
  }

  /** The entry a row opens when its id differs from the entry being built. */
  function Open(row: HistoryRow): HistoryEntry {
    HistoryEntry(row.visit, [row.serviceTypeName])
  }

  /** The entry being built, with one more service type. */
  function Extend(e: HistoryEntry, row: HistoryRow): HistoryEntry {
    e.(serviceType := e.serviceType + [row.serviceTypeName])
  }

  /** One row of the fold: a row with the id of the last entry adds its service type to it, any
      other row opens a new entry. */
  function Step(entries: seq<HistoryEntry>, row: HistoryRow): seq<HistoryEntry> {
    if entries != [] && Id(entries[|entries| - 1]) == row.visit.serviceInstanceId
    then entries[..|entries| - 1] + [Extend(entries[|entries| - 1], row)]
    else entries + [Open(row)]
  }

  /** The grouping of a list of rows, one row at a time. */
  function Group(rows: seq<HistoryRow>): seq<HistoryEntry> {
    if rows == [] then [] else Step(Group(rows[..|rows| - 1]), rows[|rows| - 1])
  }


  /** `Group` over one more row. */
  lemma GroupSnoc(rows: seq<HistoryRow>, i: nat)
    requires i < |rows|
    ensures Group(rows[..i + 1]) == Step(Group(rows[..i]), rows[i])
  {
    assert rows[..i + 1][..i] == rows[..i];
  }

  /** The two cases of `Step`. */
  lemma StepExtends(entries: seq<HistoryEntry>, e: HistoryEntry, row: HistoryRow)
    requires Id(e) == row.visit.serviceInstanceId
    ensures Step(entries + [e], row) == entries + [Extend(e, row)]
  {
    assert (entries + [e])[..|entries|] == entries;
  }

  lemma StepOpens(entries: seq<HistoryEntry>, row: HistoryRow)
    requires entries != [] ==> Id(entries[|entries| - 1]) != row.visit.serviceInstanceId
    ensures Step(entries, row) == entries + [Open(row)]
  {
  }

  /** The entries built so far: those pushed, then the one being built. */
  function Pending(services: seq<HistoryEntry>, current: Option<HistoryEntry>): seq<HistoryEntry> {
    if current.Some? then services + [current.value] else services
  }

  /** The fold of `get_services_history_of_pet`: `current` is the entry being built, pushed onto
      `services` when a row with another id arrives and once more after the last row. */
  method ServicesHistoryOf(rows: seq<HistoryRow>) returns (services: seq<HistoryEntry>)
    ensures services == Group(rows)
  {
    services := [];
    var current: Option<HistoryEntry> := None;
    for i := 0 to |rows|
      invariant current.None? <==> i == 0
      invariant Pending(services, current) == Group(rows[..i])
    {
      var row := rows[i];
      GroupSnoc(rows, i);
      if current.Some? && Id(current.value) == row.visit.serviceInstanceId {
        StepExtends(services, current.value, row);
        current := Some(Extend(current.value, row));
      } else {
        StepOpens(Pending(services, current), row);
        if current.Some? {
          services := services + [current.value];
        }
        current := Some(Open(row));
      }
    }
    if current.Some? {
      services := services + [current.value];
    }
    assert rows[..|rows|] == rows;
  }

  /** The joined rows of one visit: the visit once per service type, in order. */
  function Rows(visit: Visit, types: seq<string>): seq<HistoryRow> {
    if types == [] then [] else Rows(visit, types[..|types| - 1]) + [HistoryRow(visit, types[|types| - 1])]
  }

  lemma RowsSnoc(visit: Visit, types: seq<string>, name: string)
    ensures Rows(visit, types + [name]) == Rows(visit, types) + [HistoryRow(visit, name)]
  {
    assert (types + [name])[..|types|] == types;
  }

  /** The rows an entry stands for. */
  function Expand(e: HistoryEntry): seq<HistoryRow> {
    Rows(e.visit, e.serviceType)
  }

  /** The rows a list of entries stands for, entry after entry. */
  function Ungroup(entries: seq<HistoryEntry>): seq<HistoryRow> {
    if entries == [] then [] else Ungroup(entries[..|entries| - 1]) + Expand(entries[|entries| - 1])
  }

  lemma UngroupSnoc(entries: seq<HistoryEntry>, e: HistoryEntry)
    ensures Ungroup(entries + [e]) == Ungroup(entries) + Expand(e)
  {
    assert (entries + [e])[..|entries|] == entries;
  }

  /** A nonempty sequence is its prefix and its last element. */
  lemma Snoc<T>(s: seq<T>)
    requires s != []
    ensures s == s[..|s| - 1] + [s[|s| - 1]]
  {
  }

  /** One row of `RunHeads`: a row continuing the run of the last one takes its visit columns. */
  function HeadStep(heads: seq<HistoryRow>, row: HistoryRow): seq<HistoryRow> {
    if heads != [] && heads[|heads| - 1].visit.serviceInstanceId == row.visit.serviceInstanceId
    then heads + [HistoryRow(heads[|heads| - 1].visit, row.serviceTypeName)]
    else heads + [row]
  }

  /** The rows with each one's visit columns taken from the first row of its run. */
  function RunHeads(rows: seq<HistoryRow>): seq<HistoryRow> {
    if rows == [] then [] else HeadStep(RunHeads(rows[..|rows| - 1]), rows[|rows| - 1])
  }

  /** Entries and rows that correspond: the entries expand to the rows, and the last entry and
      the last row, if any, have the same visit. */
  ghost predicate Expands(entries: seq<HistoryEntry>, heads: seq<HistoryRow>) {
    && Ungroup(entries) == heads
    && (entries == [] <==> heads == [])
    && (entries != [] ==> entries[|entries| - 1].visit == heads[|heads| - 1].visit)
  }

  /** One step of the fold expands to one step of `RunHeads`. */
  lemma UngroupStep(entries: seq<HistoryEntry>, heads: seq<HistoryRow>, row: HistoryRow)
    requires Expands(entries, heads)
    ensures Expands(Step(entries, row), HeadStep(heads, row))
  {
    if entries != [] && Id(entries[|entries| - 1]) == row.visit.serviceInstanceId {
      var init, last := entries[..|entries| - 1], entries[|entries| - 1];
      Snoc(entries);
      UngroupSnoc(init, last);
      UngroupSnoc(init, Extend(last, row));
      RowsSnoc(last.visit, last.serviceType, row.serviceTypeName);
    } else {
      UngroupSnoc(entries, Open(row));
      RowsSnoc(row.visit, [], row.serviceTypeName);
    }
  }

  /** Expanding the entries gives back the rows, each with the visit columns of the first row
      of its run. */
  lemma {:induction false} UngroupGroup(rows: seq<HistoryRow>)
    ensures Expands(Group(rows), RunHeads(rows))
  {
    if rows != [] {
      UngroupGroup(rows[..|rows| - 1]);
      UngroupStep(Group(rows[..|rows| - 1]), RunHeads(rows[..|rows| - 1]), rows[|rows| - 1]);
    }
  }

  /** Rows of one visit repeat the same visit columns, as the join produces them. */
  ghost predicate Consistent(rows: seq<HistoryRow>) {
    forall i, j :: 0 <= i < j < |rows| && j == i + 1 && rows[i].visit.serviceInstanceId == rows[j].visit.serviceInstanceId
      ==> rows[i].visit == rows[j].visit
  }

  lemma ConsistentInit(rows: seq<HistoryRow>)
    requires rows != [] && Consistent(rows)
    ensures Consistent(rows[..|rows| - 1])
  {
  }

  /** On rows of the join, taking each run's visit columns from its first row changes nothing. */
  lemma {:induction false} RunHeadsConsistent(rows: seq<HistoryRow>)
    requires Consistent(rows)
    ensures RunHeads(rows) == rows
  {
    if rows != [] {
      var init, last := rows[..|rows| - 1], rows[|rows| - 1];
      ConsistentInit(rows);
      RunHeadsConsistent(init);
      Snoc(rows);
      if init != [] && init[|init| - 1].visit.serviceInstanceId == last.visit.serviceInstanceId {
        assert init[|init| - 1] == rows[|rows| - 2];
      }
    }
  }

  /** Every row of the join is in exactly one entry, in row order: expanding the entries gives
      back the rows. */
  lemma UngroupGroupRows(rows: seq<HistoryRow>)
    requires Consistent(rows)
    ensures Ungroup(Group(rows)) == rows
  {
    UngroupGroup(rows);
    RunHeadsConsistent(rows);
  }

  /** Entries as the fold produces them: each has at least one service type, and neighbours have
      different ids. */
  ghost predicate WellFormed(entries: seq<HistoryEntry>) {
    && (forall k :: 0 <= k < |entries| ==> entries[k].serviceType != [])
    && (forall i, j :: 0 <= i < j < |entries| && j == i + 1 ==> Id(entries[i]) != Id(entries[j]))
  }

  /** The last entry has id `id`. */
  ghost predicate EndsWith(entries: seq<HistoryEntry>, id: string) {
    entries != [] && Id(entries[|entries| - 1]) == id
  }

  /** One step of the fold keeps the entries well formed, and the last entry has the id of the
      row just read. */
  lemma StepWellFormed(entries: seq<HistoryEntry>, row: HistoryRow)
    requires WellFormed(entries)
    ensures WellFormed(Step(entries, row)) && EndsWith(Step(entries, row), row.visit.serviceInstanceId)
  {
    var r := Step(entries, row);
    if entries != [] && Id(entries[|entries| - 1]) == row.visit.serviceInstanceId {
      assert forall k :: 0 <= k < |entries| - 1 ==> r[k] == entries[k];
      assert Id(r[|r| - 1]) == Id(entries[|entries| - 1]);
    } else {
      assert forall k :: 0 <= k < |entries| ==> r[k] == entries[k];
    }
  }

  /** The fold's entries are well formed: one entry per maximal run of equal ids, the last one
      with the id of the last row. */
  lemma {:induction false} GroupWellFormed(rows: seq<HistoryRow>)
    ensures WellFormed(Group(rows))
    ensures rows != [] ==> EndsWith(Group(rows), rows[|rows| - 1].visit.serviceInstanceId)
  {
    if rows != [] {
      GroupWellFormed(rows[..|rows| - 1]);
      StepWellFormed(Group(rows[..|rows| - 1]), rows[|rows| - 1]);
    }
  }

  /** There are never more entries than rows, and there are entries exactly when there are rows. */
  lemma {:induction false} GroupShorter(rows: seq<HistoryRow>)
    ensures |Group(rows)| <= |rows|
    ensures Group(rows) == [] <==> rows == []
  {
    if rows != [] {
      GroupShorter(rows[..|rows| - 1]);
    }
  }

  /** The service types of all entries, in order. */
  function Tags(entries: seq<HistoryEntry>): seq<string> {
    if entries == [] then [] else Tags(entries[..|entries| - 1]) + entries[|entries| - 1].serviceType
  }

  lemma TagsSnoc(entries: seq<HistoryEntry>, e: HistoryEntry)
    ensures Tags(entries + [e]) == Tags(entries) + e.serviceType
  {
    assert (entries + [e])[..|entries|] == entries;
  }

  /** The service type of every row, in row order. */
  function RowTags(rows: seq<HistoryRow>): seq<string> {
    if rows == [] then [] else RowTags(rows[..|rows| - 1]) + [rows[|rows| - 1].serviceTypeName]
  }

  /** One step of the fold adds the row's service type at the end. */
  lemma StepTags(entries: seq<HistoryEntry>, row: HistoryRow)
    ensures Tags(Step(entries, row)) == Tags(entries) + [row.serviceTypeName]
  {
    if entries != [] && Id(entries[|entries| - 1]) == row.visit.serviceInstanceId {
      var init, last := entries[..|entries| - 1], entries[|entries| - 1];
      Snoc(entries);
      TagsSnoc(init, last);
      TagsSnoc(init, Extend(last, row));
    } else {
      TagsSnoc(entries, Open(row));
    }
  }

  /** The entries hold exactly the rows' service types, in row order, so their total count is
      the number of rows. */
  lemma {:induction false} GroupKeepsTags(rows: seq<HistoryRow>)
    ensures Tags(Group(rows)) == RowTags(rows)
    ensures |Tags(Group(rows))| == |rows|
  {
    if rows != [] {
      GroupKeepsTags(rows[..|rows| - 1]);
      StepTags(Group(rows[..|rows| - 1]), rows[|rows| - 1]);
    }
  }

  /** `Group` over one more row. */
  lemma GroupSnocRow(rows: seq<HistoryRow>, row: HistoryRow)
    ensures Group(rows + [row]) == Step(Group(rows), row)
  {
    assert (rows + [row])[..|rows|] == rows;
  }

  /** Appending the rows of a visit whose id differs from that of the last entry so far adds one
      entry, with the service types of those rows. */
  lemma {:induction false} GroupRows(prefix: seq<HistoryRow>, visit: Visit, types: seq<string>)
    requires types != []
    requires !EndsWith(Group(prefix), visit.serviceInstanceId)
    ensures Group(prefix + Rows(visit, types)) == Group(prefix) + [HistoryEntry(visit, types)]
  {
    var init, name := types[..|types| - 1], types[|types| - 1];
    var row := HistoryRow(visit, name);
    Snoc(types);
    RowsSnoc(visit, init, name);
    assert prefix + Rows(visit, types) == (prefix + Rows(visit, init)) + [row];
    GroupSnocRow(prefix + Rows(visit, init), row);
    if init == [] {
      assert prefix + Rows(visit, init) == prefix;
      StepOpens(Group(prefix), row);
    } else {
      GroupRows(prefix, visit, init);
      StepExtends(Group(prefix), HistoryEntry(visit, init), row);
    }
  }

  lemma WellFormedInit(entries: seq<HistoryEntry>)
    requires entries != [] && WellFormed(entries)
    ensures WellFormed(entries[..|entries| - 1])
    ensures |entries| > 1 ==> Id(entries[|entries| - 2]) != Id(entries[|entries| - 1])
  {
  }

  /** Grouping the rows of well-formed entries gives back the entries. */
  lemma {:induction false} GroupUngroup(entries: seq<HistoryEntry>)
    requires WellFormed(entries)
    ensures Group(Ungroup(entries)) == entries
  {
    if entries != [] {
      var init, e := entries[..|entries| - 1], entries[|entries| - 1];
      WellFormedInit(entries);
      GroupUngroup(init);
      Snoc(entries);
      UngroupSnoc(init, e);
      GroupRows(Ungroup(init), e.visit, e.serviceType);
    }
  }

  /** Rows in the order of `ORDER BY service_instance_id`, for an order `less` on ids: each row's
      id equals or follows the previous one. */
  ghost predicate Ordered(rows: seq<HistoryRow>, less: (string, string) -> bool) {
    forall i, j :: 0 <= i < j < |rows| && j == i + 1 ==>
      rows[i].visit.serviceInstanceId == rows[j].visit.serviceInstanceId
      || less(rows[i].visit.serviceInstanceId, rows[j].visit.serviceInstanceId)
  }

  /** Each entry's id strictly follows the previous entry's. */
  ghost predicate Ascending(entries: seq<HistoryEntry>, less: (string, string) -> bool) {
    forall i, j :: 0 <= i < j < |entries| && j == i + 1 ==> less(Id(entries[i]), Id(entries[j]))
  }

  lemma OrderedInit(rows: seq<HistoryRow>, less: (string, string) -> bool)
    requires rows != [] && Ordered(rows, less)
    ensures Ordered(rows[..|rows| - 1], less)
    ensures |rows| > 1 ==> rows[|rows| - 2].visit.serviceInstanceId == rows[|rows| - 1].visit.serviceInstanceId
                           || less(rows[|rows| - 2].visit.serviceInstanceId, rows[|rows| - 1].visit.serviceInstanceId)
  {
  }

  /** One step of the fold keeps the entries ascending when the row's id equals or follows the
      last entry's. */
  lemma StepAscending(entries: seq<HistoryEntry>, row: HistoryRow, less: (string, string) -> bool)
    requires Ascending(entries, less)
    requires entries != [] ==> Id(entries[|entries| - 1]) == row.visit.serviceInstanceId
                               || less(Id(entries[|entries| - 1]), row.visit.serviceInstanceId)
    ensures Ascending(Step(entries, row), less)
  {
    var r := Step(entries, row);
    if entries != [] && Id(entries[|entries| - 1]) == row.visit.serviceInstanceId {
      assert forall k :: 0 <= k < |entries| - 1 ==> r[k] == entries[k];
      assert Id(r[|r| - 1]) == Id(entries[|entries| - 1]);
    } else {
      assert forall k :: 0 <= k < |entries| ==> r[k] == entries[k];
    }
  }

  /** On ordered rows, the entries come out in strictly ascending order of id. */
  lemma {:induction false} GroupAscending(rows: seq<HistoryRow>, less: (string, string) -> bool)
    requires Ordered(rows, less)
    ensures Ascending(Group(rows), less)
  {
    if rows != [] {
      var init := rows[..|rows| - 1];
      OrderedInit(rows, less);
      GroupAscending(init, less);
      GroupWellFormed(init);
      if init != [] {
        assert init[|init| - 1] == rows[|rows| - 2];
      }
      StepAscending(Group(init), rows[|rows| - 1], less);
    }
  }
}

/** `stores/dateRange.ts`: the `dateRange` store holding the period the statistics pages show. */
module DateRangeStore {

  /** The store's state: the start and end dates as the pickers give them. */
  datatype RangeState = RangeState(start: string, end: string)

  const Initial := RangeState("", "")

  /** One `updateDateRange(start, end)` call. */
  datatype Update = Update(start: string, end: string)

  /** `updateDateRange`: both dates are replaced; the earlier range is forgotten. */
  function UpdateStep(s: RangeState, u: Update): (r: RangeState)
    ensures r.start == u.start && r.end == u.end
  {
    RangeState(u.start, u.end)
  }

  /** The state after a sequence of calls. */
  function Apply(s: RangeState, calls: seq<Update>): RangeState {
    if calls == [] then s else UpdateStep(Apply(s, calls[..|calls| - 1]), calls[|calls| - 1])
  }

  /** Repeating a call changes nothing. */
  lemma UpdateIdempotent(s: RangeState, u: Update)
    ensures UpdateStep(UpdateStep(s, u), u) == UpdateStep(s, u)
  {
  }

  /** After any non-empty sequence of calls, the state holds the arguments of the last one; with
      no call at all it is still the initial empty range. */
  lemma {:induction false} LastCallWins(calls: seq<Update>)
    ensures calls == [] ==> Apply(Initial, calls) == RangeState("", "")
    ensures calls != [] ==> Apply(Initial, calls) == RangeState(calls[|calls| - 1].start, calls[|calls| - 1].end)
  {
  }

  /** Calls made before the last one leave no trace. */
  lemma {:induction false} EarlierCallsForgotten(s: RangeState, t: RangeState, calls: seq<Update>)
    requires calls != []
    ensures Apply(s, calls) == Apply(t, calls)
  {
  }

  /** The Pinia store object. */
  class DateRange {
    var start: string
    var end: string

    constructor ()
      ensures start == "" && end == ""
    {
      start := "";
      end := "";
    }

    method UpdateDateRange(newStart: string, newEnd: string)
      modifies this
      ensures RangeState(start, end) == UpdateStep(old(RangeState(start, end)), Update(newStart, newEnd))
    {
      start := newStart;
      end := newEnd;
    }
  }
}

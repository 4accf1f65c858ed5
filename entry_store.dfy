/**
 * The entry table as `Timetrap::Timer` queries and changes it: rows in
 * store order, the queries behind `entries`, `active_entry` and
 * `running_entries`, and the row-level effect of `start` and `stop`.
 */
module EntryStore {
  import opened Wrappers
  import opened Clock

  /** One row of the entry table; an absent `end` means the entry is running. */
  datatype Entry = Entry(id: nat, sheetId: Option<int>, note: string, start: Time, end: Option<Time>)

  /** The row has no end yet: it is running. */
  predicate Unfinished(e: Entry) {
    e.end.None?
  }

  /** `Entry.find(:sheet_id => sheetId, :end => nil)` matches this row. */
  predicate ActiveFor(e: Entry, sheetId: int) {
    e.sheetId == Some(sheetId) && Unfinished(e)
  }

  /** The central invariant: no two running rows share a sheet. */
  predicate AtMostOneRunning(es: seq<Entry>) {
    forall i, j :: 0 <= i < j < |es| && Unfinished(es[i]) && Unfinished(es[j]) ==> es[i].sheetId != es[j].sheetId
  }

  /** `Entry.filter(...)`: the rows that satisfy `keep`, in store order. */
  function Filter(es: seq<Entry>, keep: Entry -> bool): (r: seq<Entry>)
    ensures forall e :: multiset(r)[e] == if keep(e) then multiset(es)[e] else 0
    ensures forall i :: 0 <= i < |r| ==> keep(r[i])
  {
    if es == [] then []
    else
      assert es == [es[0]] + es[1..];
      if keep(es[0]) then [es[0]] + Filter(es[1..], keep) else Filter(es[1..], keep)
  }

  predicate SortedByStart(es: seq<Entry>) {
    forall i, j :: 0 <= i < j < |es| ==> es[i].start <= es[j].start
  }

  lemma StartsNoEarlierThanHead(es: seq<Entry>, x: Entry)
    requires SortedByStart(es) && es != [] && x in es
    ensures es[0].start <= x.start
  {
  }

  /** Places `e` before the first row that does not start earlier than it. */
  function InsertByStart(e: Entry, es: seq<Entry>): (r: seq<Entry>)
    requires SortedByStart(es)
    ensures SortedByStart(r)
    ensures multiset(r) == multiset(es) + multiset{e}
  {
    if es == [] || e.start <= es[0].start then [e] + es
    else
      assert es == [es[0]] + es[1..];
      var rest := InsertByStart(e, es[1..]);
      forall i | 0 <= i < |rest|
        ensures es[0].start <= rest[i].start
      {
        assert rest[i] in multiset(rest);
        if rest[i] != e {
          assert rest[i] in multiset(es[1..]);
          StartsNoEarlierThanHead(es, rest[i]);
        }
      }
      [es[0]] + rest
  }

  /** `order_by(:start)`: rows by non-decreasing start; rows that start together keep store order. */
  function OrderByStart(es: seq<Entry>): (r: seq<Entry>)
    ensures SortedByStart(r)
    ensures multiset(r) == multiset(es)
  {
    if es == [] then []
    else
      assert es == [es[0]] + es[1..];
      InsertByStart(es[0], OrderByStart(es[1..]))
  }

  /** The first row that is running on the given sheet, by index. */
  function FindActive(es: seq<Entry>, sheetId: int): (r: Option<nat>)
    ensures r.Some? ==> r.value < |es| && ActiveFor(es[r.value], sheetId)
    ensures r.Some? ==> forall j :: 0 <= j < r.value ==> !ActiveFor(es[j], sheetId)
    ensures r.None? <==> forall j :: 0 <= j < |es| ==> !ActiveFor(es[j], sheetId)
  {
    if es == [] then None
    else if ActiveFor(es[0], sheetId) then Some(0)
    else match FindActive(es[1..], sheetId)
      case None => None
      case Some(k) => Some(k + 1)
  }

  /** Under the invariant the row `Entry.find` returns does not depend on store order. */
  lemma ActiveIsUnique(es: seq<Entry>, sheetId: int, k: nat)
    requires AtMostOneRunning(es)
    requires k < |es| && ActiveFor(es[k], sheetId)
    ensures FindActive(es, sheetId) == Some(k)
  {
  }

  /** The row `start` creates. */
  function NewEntry(id: nat, sheetId: int, note: string, t: Time): (e: Entry)
    ensures ActiveFor(e, sheetId)
    ensures e.id == id && e.note == note && e.start == t
  {
    Entry(id, Some(sheetId), note, t, None)
  }

  /** The table after `start`: refused when the sheet is running, otherwise one row appended. */
  function StartRows(es: seq<Entry>, sheetId: int, note: string, t: Time, id: nat): (r: seq<Entry>)
    // Existing rows are kept, in place and unchanged.
    ensures |es| <= |r| <= |es| + 1 && r[..|es|] == es
    // A row is added exactly when the sheet has no running row, and it is the new one.
    ensures |r| == |es| + 1 <==> forall j :: 0 <= j < |es| ==> !ActiveFor(es[j], sheetId)
    ensures |r| == |es| + 1 ==> r[|es|] == NewEntry(id, sheetId, note, t)
  {
    if FindActive(es, sheetId).Some? then es else es + [NewEntry(id, sheetId, note, t)]
  }

  /** The table after `stop`: the sheet's running row gets its end, if there is one. */
  function StopRows(es: seq<Entry>, sheetId: int, t: Time): (r: seq<Entry>)
    ensures |r| == |es|
    // Only a running row of the sheet can change, and only by getting its end.
    ensures forall j :: 0 <= j < |es| && r[j] != es[j] ==>
              ActiveFor(es[j], sheetId) && r[j] == es[j].(end := Some(t))
    // If the sheet has a running row, one of them is ended.
    ensures (exists j :: 0 <= j < |es| && ActiveFor(es[j], sheetId)) ==> r != es
  {
    match FindActive(es, sheetId)
    case None => es
    case Some(k) => es[k := es[k].(end := Some(t))]
  }

  lemma StartPreservesAtMostOne(es: seq<Entry>, sheetId: int, note: string, t: Time, id: nat)
    requires AtMostOneRunning(es)
    ensures AtMostOneRunning(StartRows(es, sheetId, note, t, id))
  {
  }

  lemma StopPreservesAtMostOne(es: seq<Entry>, sheetId: int, t: Time)
    requires AtMostOneRunning(es)
    ensures AtMostOneRunning(StopRows(es, sheetId, t))
  {
  }

  /** `start` on a running sheet leaves the table as it was. */
  lemma StartWhenRunningRefused(es: seq<Entry>, sheetId: int, note: string, t: Time, id: nat, k: nat)
    requires k < |es| && ActiveFor(es[k], sheetId)
    ensures StartRows(es, sheetId, note, t, id) == es
  {
  }

  /** `start` on an idle sheet appends exactly the new row and touches no other. */
  lemma StartWhenIdleAppends(es: seq<Entry>, sheetId: int, note: string, t: Time, id: nat)
    requires forall j :: 0 <= j < |es| ==> !ActiveFor(es[j], sheetId)
    ensures StartRows(es, sheetId, note, t, id) == es + [Entry(id, Some(sheetId), note, t, None)]
  {
  }

  /** After a successful `start` the sheet is running, so a second `start` is refused. */
  lemma {:induction false} StartedSheetIsRunning(es: seq<Entry>, sheetId: int, note: string, t: Time, id: nat)
    ensures FindActive(StartRows(es, sheetId, note, t, id), sheetId).Some?
  {
    var r := StartRows(es, sheetId, note, t, id);
    if FindActive(es, sheetId).None? {
      assert ActiveFor(r[|es|], sheetId);
    }
  }

  /** `stop` on an idle sheet is a no-op. */
  lemma StopWhenIdleIsNoop(es: seq<Entry>, sheetId: int, t: Time)
    requires forall j :: 0 <= j < |es| ==> !ActiveFor(es[j], sheetId)
    ensures StopRows(es, sheetId, t) == es
  {
  }

  /** `stop` on a running sheet sets that row's end and changes nothing else. */
  lemma StopSetsOnlyThatEnd(es: seq<Entry>, sheetId: int, t: Time, k: nat)
    requires AtMostOneRunning(es)
    requires k < |es| && ActiveFor(es[k], sheetId)
    ensures |StopRows(es, sheetId, t)| == |es|
    ensures StopRows(es, sheetId, t)[k] == es[k].(end := Some(t))
    ensures forall j :: 0 <= j < |es| && j != k ==> StopRows(es, sheetId, t)[j] == es[j]
  {
  }

  /** After `stop` the sheet is idle. */
  lemma StopLeavesSheetIdle(es: seq<Entry>, sheetId: int, t: Time)
    requires AtMostOneRunning(es)
    ensures FindActive(StopRows(es, sheetId, t), sheetId).None?
  {
  }

  /** `start` at t1 then `stop` at t2 on one sheet leaves exactly one finished row. */
  lemma StartThenStop(es: seq<Entry>, sheetId: int, note: string, t1: Time, t2: Time, id: nat)
    requires forall j :: 0 <= j < |es| ==> !ActiveFor(es[j], sheetId)
    ensures StopRows(StartRows(es, sheetId, note, t1, id), sheetId, t2) ==
            es + [Entry(id, Some(sheetId), note, t1, Some(t2))]
  {
  }

  /** Filtering keeps the invariant, so `running_entries` lists at most one row per sheet. */
  lemma {:induction false} FilterPreservesAtMostOne(es: seq<Entry>, keep: Entry -> bool)
    ensures AtMostOneRunning(es) ==> AtMostOneRunning(Filter(es, keep))
  {
    if es != [] && AtMostOneRunning(es) {
      assert es == [es[0]] + es[1..];
      var tail := Filter(es[1..], keep);
      FilterPreservesAtMostOne(es[1..], keep);
      if keep(es[0]) {
        var r := [es[0]] + tail;
        forall i, j | 0 <= i < j < |r| && Unfinished(r[i]) && Unfinished(r[j])
          ensures r[i].sheetId != r[j].sheetId
        {
          if i == 0 {
            assert r[j] in multiset(es[1..]);
            var m :| 0 <= m < |es[1..]| && es[1..][m] == r[j];
            assert es[m + 1] == r[j];
          }
        }
      }
    }
  }
}

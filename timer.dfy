/**
 * The `Timetrap::Timer` state machine over its persisted state: the entry
 * table, the `current_sheet` Meta record and the sheet table. The wall
 * clock is the `now` parameter of the operations that read it.
 */
module Timer {
  import opened Wrappers
  import opened Clock
  import opened EntryStore

  /** How `start` ends: the created row, or the `AlreadyRunning` error. */
  datatype StartResult = Started(entry: Entry) | AlreadyRunning

  /** `Sheet[:id => id]`: the sheet, or nil when there is no such row. */
  function SheetById(sheets: set<int>, id: int): (r: Option<int>)
    ensures r.Some? <==> id in sheets
    ensures r.Some? ==> r.value == id
  {
    if id in sheets then Some(id) else None
  }

  class TimerState {
    var rows: seq<Entry>               // the entry table, in store order
    var currentSheetMeta: Option<int>  // the Meta record keyed 'current_sheet'
    var sheets: set<int>               // ids of the rows of the sheet table
    var nextId: nat                    // the id the table gives its next row

    ghost predicate Valid()
      reads this
    {
      AtMostOneRunning(rows) &&
      (forall i :: 0 <= i < |rows| ==> rows[i].id < nextId) &&
      (forall i, j :: 0 <= i < j < |rows| ==> rows[i].id != rows[j].id)
    }

    /** A store with the given sheets, no entries and no current-sheet record. */
    constructor (initialSheets: set<int>)
      ensures Valid()
      ensures rows == [] && currentSheetMeta == None && sheets == initialSheets
    {
      rows := [];
      currentSheetMeta := None;
      sheets := initialSheets;
      nextId := 1;
    }

    /**
     * The sheet id an operation falls back to when given none: the value of
     * the current-sheet record, or 1, the value `current_sheet` gives it when absent.
     */
    function CurrentSheetId(): (id: int)
      reads this
      ensures currentSheetMeta.Some? ==> id == currentSheetMeta.value
      ensures currentSheetMeta.None? ==> id == 1
    {
      currentSheetMeta.GetOr(1)
    }

    /** `current_sheet`: creates the record with value 1 if absent, then looks the sheet up. */
    method CurrentSheet() returns (sheet: Option<int>)
      modifies this`currentSheetMeta
      ensures old(currentSheetMeta).None? ==> currentSheetMeta == Some(1)
      ensures old(currentSheetMeta).Some? ==> currentSheetMeta == old(currentSheetMeta)
      ensures sheet == SheetById(sheets, currentSheetMeta.value)
    {
      if currentSheetMeta.None? {
        currentSheetMeta := Some(1);
      }
      sheet := SheetById(sheets, currentSheetMeta.value);
    }

    /** `current_sheet = sheet`: saves the sheet, then points the Meta record at it. */
    method SetCurrentSheet(sheet: int)
      modifies this`sheets, this`currentSheetMeta
      ensures sheets == old(sheets) + {sheet}
      ensures currentSheetMeta == Some(sheet)
    {
      sheets := sheets + {sheet};
      currentSheetMeta := Some(sheet);
    }

    /**
     * `entries(sheet)`: the rows whose sheet id equals the given one (a nil
     * sheet selects the rows whose sheet id is null), by non-decreasing start.
     */
    function Entries(sheet: Option<int>): (r: seq<Entry>)
      reads this
      ensures SortedByStart(r)
      ensures forall e :: multiset(r)[e] == if e.sheetId == sheet then multiset(rows)[e] else 0
    {
      OrderByStart(Filter(rows, (e: Entry) => e.sheetId == sheet))
    }

    /** `running_entries`: the rows of every sheet whose end is absent. */
    function RunningEntries(): (r: seq<Entry>)
      reads this
      ensures forall e :: multiset(r)[e] == if Unfinished(e) then multiset(rows)[e] else 0
      ensures AtMostOneRunning(rows) ==> AtMostOneRunning(r)
    {
      FilterPreservesAtMostOne(rows, Unfinished);
      Filter(rows, Unfinished)
    }

    /**
     * `active_entry(sheet)`: the running row of the given sheet, or of the
     * current sheet when none is given (which reads, and may create, the record).
     */
    method ActiveEntry(sheet: Option<int>) returns (active: Option<Entry>)
      requires sheet.None? ==> CurrentSheetId() in sheets
      modifies this`currentSheetMeta
      ensures sheet.Some? ==> currentSheetMeta == old(currentSheetMeta)
      ensures sheet.None? ==> currentSheetMeta == Some(old(CurrentSheetId()))
      ensures var id := sheet.GetOr(old(CurrentSheetId()));
              active.Some? <==> exists k :: 0 <= k < |rows| && ActiveFor(rows[k], id)
      ensures var id := sheet.GetOr(old(CurrentSheetId()));
              active.Some? ==> active.value in rows && ActiveFor(active.value, id)
    {
      var id: int;
      if sheet.Some? {
        id := sheet.value;
      } else {
        var current := CurrentSheet();
        id := current.value;
      }
      match FindActive(rows, id)
      case None => active := None;
      case Some(k) => active := Some(rows[k]);
    }

    /** `running?`: whether the current sheet has a running row. */
    method IsRunning() returns (running: bool)
      requires CurrentSheetId() in sheets
      modifies this`currentSheetMeta
      ensures currentSheetMeta == Some(old(CurrentSheetId()))
      ensures running <==> exists k :: 0 <= k < |rows| && ActiveFor(rows[k], CurrentSheetId())
    {
      var active := ActiveEntry(None);
      running := active.Some?;
    }

    /**
     * `stop(sheet, time)`: ends the running row of the sheet (the current one
     * when nil) at `time`, or at `now` when no time is given; a no-op when idle.
     */
    method Stop(sheet: Option<int>, time: Option<Time>, now: Time) returns (stopped: Option<Entry>)
      requires Valid()
      requires sheet.None? ==> CurrentSheetId() in sheets
      modifies this`rows, this`currentSheetMeta
      ensures Valid()
      ensures sheet.Some? ==> currentSheetMeta == old(currentSheetMeta)
      ensures sheet.None? ==> currentSheetMeta == Some(old(CurrentSheetId()))
      ensures rows == StopRows(old(rows), sheet.GetOr(old(CurrentSheetId())), time.GetOr(now))
      ensures stopped.Some? <==> rows != old(rows)
      ensures stopped.Some? ==> stopped.value in rows && stopped.value.end == Some(time.GetOr(now))
      ensures var k := FindActive(old(rows), sheet.GetOr(old(CurrentSheetId())));
              stopped.Some? ==> k.Some? && stopped.value == rows[k.value]
    {
      var id: int;
      if sheet.Some? {
        id := sheet.value;
      } else {
        var current := CurrentSheet();
        id := current.value;
      }
      match FindActive(rows, id) {
        case None =>
          stopped := None;
        case Some(k) =>
          var ended := rows[k].(end := Some(time.GetOr(now)));
          rows := rows[k := ended];
          stopped := Some(ended);
          assert rows[k] != old(rows)[k];
          StopPreservesAtMostOne(old(rows), id, time.GetOr(now));
      }
    }

    /**
     * `start(note, time)`: refused with `AlreadyRunning` when the current
     * sheet has a running row; otherwise appends a running row on the
     * current sheet that starts at `time`, or at `now` when no time is given.
     */
    method Start(note: string, time: Option<Time>, now: Time) returns (result: StartResult)
      requires Valid()
      requires CurrentSheetId() in sheets
      modifies this`rows, this`currentSheetMeta, this`nextId
      ensures Valid()
      ensures currentSheetMeta == Some(old(CurrentSheetId()))
      ensures rows == StartRows(old(rows), old(CurrentSheetId()), note, time.GetOr(now), old(nextId))
      ensures result.AlreadyRunning? <==> FindActive(old(rows), old(CurrentSheetId())).Some?
      ensures result.AlreadyRunning? ==> nextId == old(nextId)
      ensures result.Started? ==>
                result.entry == Entry(old(nextId), Some(old(CurrentSheetId())), note, time.GetOr(now), None) &&
                rows == old(rows) + [result.entry] && nextId == old(nextId) + 1
    {
      var running := IsRunning();
      if running {
        result := AlreadyRunning;
      } else {
        var current := CurrentSheet();
        var entry := NewEntry(nextId, current.value, note, time.GetOr(now));
        rows := rows + [entry];
        nextId := nextId + 1;
        result := Started(entry);
        StartPreservesAtMostOne(old(rows), current.value, note, time.GetOr(now), old(nextId));
      }
    }
  }
}

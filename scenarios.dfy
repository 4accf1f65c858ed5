/** Call sequences on a fresh store, with the outcomes the Timer promises. */
module Scenarios {
  import opened Wrappers
  import opened Clock
  import opened EntryStore
  import opened Timer

  /** Reading `current_sheet` twice on a store without a current-sheet record: both reads agree on sheet 1. */
  method ReadCurrentSheetTwice(initialSheets: set<int>) returns (first: Option<int>, second: Option<int>)
    ensures first == second
    ensures first.Some? <==> 1 in initialSheets
    ensures first.Some? ==> first.value == 1
  {
    var timer := new TimerState(initialSheets);
    first := timer.CurrentSheet();
    second := timer.CurrentSheet();
  }

  /** After `current_sheet = sheet`, `current_sheet` returns that sheet. */
  method SwitchThenRead(initialSheets: set<int>, sheet: int) returns (read: Option<int>)
    ensures read == Some(sheet)
  {
    var timer := new TimerState(initialSheets);
    timer.SetCurrentSheet(sheet);
    read := timer.CurrentSheet();
  }

  /**
   * `start` at t1, a second `start`, `stop` at t2 and a second `stop` on one
   * sheet: the second start is refused, the second stop does nothing, and
   * the table holds one finished row.
   */
  method StartTwiceStopTwice(sheet: int, note: string, t1: Time, t2: Time, now: Time)
    returns (secondStart: StartResult, secondStop: Option<Entry>, finished: seq<Entry>)
    ensures secondStart == AlreadyRunning
    ensures secondStop == None
    ensures |finished| == 1
    ensures finished[0].sheetId == Some(sheet) && finished[0].note == note
    ensures finished[0].start == t1 && finished[0].end == Some(t2)
  {
    var timer := new TimerState({});
    timer.SetCurrentSheet(sheet);
    var firstStart := timer.Start(note, Some(t1), now);
    secondStart := timer.Start(note, None, now);
    StartedSheetIsRunning([], sheet, note, t1, 1);
    var started := timer.rows;
    var firstStop := timer.Stop(None, Some(t2), now);
    StartThenStop([], sheet, note, t1, t2, 1);
    StopLeavesSheetIdle(started, sheet, t2);
    secondStop := timer.Stop(Some(sheet), None, now);
    finished := timer.rows;
  }
}

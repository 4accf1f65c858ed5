# Timetrap timer core in Dafny

A model of `Timetrap::Timer`, the core of the timetrap time tracker. Work is
recorded as entries grouped into sheets. An entry without an end time is
running. The Timer starts and stops entries, keeps a persisted "current
sheet" record, and guards the parsing of user-supplied times.

The model has four parts:

- `TimeParse` (`time_parse.dfy`): `safe_for_time_parse?` and
  `process_time`. The two foreign parsers are function parameters. The
  natural-language parser (Chronic) returns a `LenientOutcome`: a time,
  nothing, or a raised error. Ruby's `Time.parse` is `string -> Option<Time>`,
  where `None` means it raised.
- `EntryStore` (`entry_store.dfy`): the entry table as a sequence in store
  order. It holds the queries the Timer runs against it (filter,
  `order_by(:start)`, find the running entry of a sheet) and the row-level
  effect of `start` and `stop`. It also defines the invariant that at most
  one running entry exists per sheet, with lemmas showing that both
  transitions keep it.
- `Timer` (`timer.dfy`): class `TimerState`, with fields for the entry
  table, the `current_sheet` Meta record, the sheet ids and the next entry
  id. Its methods are the Timer's operations that read or change the
  current-sheet record or the entry table; the two pure queries, `entries`
  and `running_entries`, are functions that read the state. `Start` and
  `Stop` take the clock reading `now` as a parameter.
- `Scenarios` (`scenarios.dfy`): call sequences on a fresh store that show
  what the Timer promises across calls.

Three behaviours of the code that are easy to misread:

- `entries(nil)` selects the entries whose sheet id is null. It does not
  select the entries of all sheets (`lib/timetrap/timer.rb:64-66`).
- `start` and `stop` do not pass `time` through `process_time`. They use the
  given value, or `now` when it is nil.
- `process_time` on a string containing `=` fails only when the lenient
  parser returns no time. A lenient result is returned whatever the string
  contains.

## Model

| member | source | states |
|---|---|---|
| TimeParse.Includes | lib/timetrap/timer.rb:40 | `include?` is true exactly when the character occurs in the string |
| TimeParse.FirstDigitIndex | lib/timetrap/timer.rb:42 | `=~ /\d/` gives the index of the first ASCII digit, or nil exactly when the string has no digit |
| TimeParse.SafeForTimeParse | lib/timetrap/timer.rb:38-43 | the gate passes exactly when the string has no `=` and at least one digit |
| TimeParse.Rescued | lib/timetrap/timer.rb:16-20 | the rescued lenient call yields a time exactly when the parser produced one; a raise yields nil |
| TimeParse.ProcessTime | lib/timetrap/timer.rb:11-30 | a Time is returned unchanged. Any other non-string value yields nil. A string yields the lenient time if there is one. Otherwise it yields the strict time, but only when the gate passes and the strict parser succeeds. Otherwise it is an ArgumentError about that string. Any time returned for a string came from one of the parsers |
| TimeParse.TimeValueConsultsNoParser | lib/timetrap/timer.rb:12-14 | a Time argument gives the same result whatever the two parsers do |
| TimeParse.LenientResultSkipsStrict | lib/timetrap/timer.rb:16-23 | once the lenient parser yields a time, the result does not depend on the strict parser |
| TimeParse.GateRefusalSkipsStrict | lib/timetrap/timer.rb:24-27 | when the gate refuses, the result is ArgumentError whatever the strict parser would do |
| TimeParse.LenientRaiseIsNoResult | lib/timetrap/timer.rb:16-24 | a raising lenient parser gives the same result as one that returned nil |
| TimeParse.EqualsSignRefused | lib/timetrap/timer.rb:24-27 | a string with `=` that the lenient parser cannot read fails with ArgumentError |
| TimeParse.DigitFreeRefused | lib/timetrap/timer.rb:24-27 | a digit-free string that the lenient parser cannot read fails with ArgumentError |
| EntryStore.Filter | lib/timetrap/timer.rb:66 | `Entry.filter` keeps every row satisfying the criterion, as often as it occurs in the table, and no other row |
| EntryStore.InsertByStart | lib/timetrap/timer.rb:66 | inserting into a start-ordered sequence keeps it ordered and adds exactly that row |
| EntryStore.OrderByStart | lib/timetrap/timer.rb:66 | `order_by(:start)` returns a permutation of its input in non-decreasing start order |
| EntryStore.FindActive | lib/timetrap/timer.rb:75 | `Entry.find(:sheet_id => id, :end => nil)` (a `LIMIT 1` query with no order) gives a running row of the sheet, or nil exactly when the sheet has no running row. The model picks the first such row in store order; under the invariant it is the only one (`ActiveIsUnique`) |
| EntryStore.NewEntry | lib/timetrap/timer.rb:94 | the row `Entry.create` makes is running on the given sheet and carries the given id, note and start |
| EntryStore.StartRows | lib/timetrap/timer.rb:90-94 | the table after `start` keeps every existing row in place. It gains one row exactly when the sheet has no running row, and that row is the new running entry |
| EntryStore.StopRows | lib/timetrap/timer.rb:82-88 | the table after `stop` has the same length. A row can change only if it is the sheet's running row, and then only by getting end `t`. When the sheet has a running row, the table does change |
| EntryStore.ActiveIsUnique | lib/timetrap/timer.rb:73-76 | under the invariant, any running row of the sheet is the one found |
| EntryStore.StartPreservesAtMostOne | lib/timetrap/timer.rb:90-94 | `start` keeps at most one running row per sheet |
| EntryStore.StopPreservesAtMostOne | lib/timetrap/timer.rb:82-88 | `stop` keeps at most one running row per sheet |
| EntryStore.StartWhenRunningRefused | lib/timetrap/timer.rb:90-91 | `start` on a running sheet leaves the table unchanged |
| EntryStore.StartWhenIdleAppends | lib/timetrap/timer.rb:92-94 | `start` on an idle sheet appends exactly one running row with the sheet id, note and start time, and keeps every existing row |
| EntryStore.StartedSheetIsRunning | lib/timetrap/timer.rb:90-94 | after `start` the sheet has a running row, so a second `start` is refused |
| EntryStore.StopWhenIdleIsNoop | lib/timetrap/timer.rb:82-83 | `stop` on an idle sheet changes nothing |
| EntryStore.StopSetsOnlyThatEnd | lib/timetrap/timer.rb:82-88 | `stop` sets the end of the sheet's running row and leaves every other row and field unchanged |
| EntryStore.StopLeavesSheetIdle | lib/timetrap/timer.rb:82-88 | under the invariant, the sheet has no running row after `stop` |
| EntryStore.StartThenStop | lib/timetrap/timer.rb:82-94 | `start` at t1 then `stop` at t2 leaves exactly one new row, with start t1, end t2 and the note |
| EntryStore.FilterPreservesAtMostOne | lib/timetrap/timer.rb:78-80 | any filter of a table, such as `running_entries`, has at most one running row per sheet whenever the table does |
| Timer.SheetById | lib/timetrap/timer.rb:61 | `Sheet[:id => id]` is the sheet exactly when the id is in the sheet table, and nil otherwise |
| Timer.TimerState.CurrentSheetId | lib/timetrap/timer.rb:53-58 | the sheet id `current_sheet` settles on: the stored record's value, or 1 when there is no record |
| Timer.TimerState.CurrentSheet | lib/timetrap/timer.rb:53-62 | with no record, the record is created with value 1. An existing record is read and not changed. The result is the sheet the record names, or nil when that sheet does not exist |
| Timer.TimerState.SetCurrentSheet | lib/timetrap/timer.rb:45-51 | saves the sheet and points the Meta record at it |
| Timer.TimerState.Entries | lib/timetrap/timer.rb:64-67 | exactly the rows whose sheet id equals the given one (null for a nil sheet), each as often as in the table, in non-decreasing start order |
| Timer.TimerState.RunningEntries | lib/timetrap/timer.rb:78-80 | exactly the rows with no end, across all sheets, with at most one per sheet under the invariant |
| Timer.TimerState.ActiveEntry | lib/timetrap/timer.rb:73-76 | the result is a running row of the given sheet (the current sheet if nil), and is present exactly when such a row exists. Only a nil sheet reads, and may create, the record |
| Timer.TimerState.IsRunning | lib/timetrap/timer.rb:69-71 | true exactly when the current sheet has a running row |
| Timer.TimerState.Stop | lib/timetrap/timer.rb:82-88 | ends the sheet's running row at `time`, or at `now` when `time` is nil. It returns that row as saved, and nil with nothing changed when the sheet is idle. It keeps the invariant |
| Timer.TimerState.Start | lib/timetrap/timer.rb:90-95 | `AlreadyRunning` exactly when the current sheet has a running row, leaving the table unchanged. Otherwise it appends one running row on the current sheet with the note and start `time`, or `now` when `time` is nil, under a fresh id. It keeps the invariant |
| Scenarios.ReadCurrentSheetTwice | lib/timetrap/timer.rb:53-62 | on a store without a current-sheet record, two reads of `current_sheet` agree, and both give sheet 1 when it exists |
| Scenarios.SwitchThenRead | lib/timetrap/timer.rb:45-62 | after `current_sheet = s`, `current_sheet` returns `s` |
| Scenarios.StartTwiceStopTwice | lib/timetrap/timer.rb:82-95 | a second `start` is refused and a second `stop` does nothing. One finished row remains, with the note, start t1 and end t2 |

## Left out

- The grammars of Chronic and `Time.parse` are not modelled. They are foreign parsers, so both are parameters of `ProcessTime`.
- When `Time.parse` raises, the model gives the same `ArgumentError(input)` as the gate's refusal. Ruby raises the same class with a different message.
- The `warn` printed when Chronic raises is not modelled. It is console output only.
- Reading `Time.now` is not modelled. It is the `now` parameter of `Start` and `Stop`.
- The Sequel persistence layer is not modelled. Tables are in-memory fields. Transactions and the race between `running?` and `Entry.create` across processes are concurrency concerns.
- When a sheet is saved, the sheet table does not assign it an id. Sheets are given by their id. The model also does not cover a sheet object whose id is nil, which `active_entry` replaces with the current sheet.
- Strings are sequences of valid characters. On a Ruby string with an invalid byte sequence and no `=`, `string =~ /\d/` (`lib/timetrap/timer.rb:42`) raises `ArgumentError` instead of answering. The model does not represent such strings.
- Sheet names are not modelled. The sheet table is a set of ids.
- `current_sheet` returning nil when the recorded sheet does not exist is modelled. The `.id` call on that nil in `start` and `active_entry` is instead a precondition of those methods: the record's value names an existing sheet.
- Timer.TimerState.Entries: does not promise an order among rows with the same start. SQL's `ORDER BY` leaves that open. The model's sort keeps store order there.
- `TimerState` starts with an empty entry table. Every operation keeps the at-most-one-running invariant from there, but a table loaded from elsewhere is not checked against it.
- `lib/timetrap/formatters/ical.rb` is not modelled. It wraps the icalendar gem. Its only logic of its own is skipping entries without an end.

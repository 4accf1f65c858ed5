/**
 * The time-input guard and the two-stage parse of `Timetrap::Timer`
 * (`safe_for_time_parse?` and `process_time`).
 *
 * The two foreign parsers are parameters: `lenient` stands for the
 * natural-language parser (Chronic) and `strict` for Ruby's `Time.parse`.
 */
module TimeParse {
  import opened Wrappers
  import opened Clock

  /** Ruby's `\d`: an ASCII decimal digit. */
  predicate IsDigit(c: char) {
    '0' <= c <= '9'
  }

  /** `String#include?` for a single character. */
  function Includes(s: string, c: char): (b: bool)
    ensures b <==> c in s
  {
    if s == [] then false else s[0] == c || Includes(s[1..], c)
  }

  /** `s =~ /\d/`: the index of the first digit, or nil. */
  function FirstDigitIndex(s: string): (r: Option<nat>)
    ensures r.Some? ==> r.value < |s| && IsDigit(s[r.value])
    ensures r.Some? ==> forall j :: 0 <= j < r.value ==> !IsDigit(s[j])
    ensures r.None? <==> forall j :: 0 <= j < |s| ==> !IsDigit(s[j])
  {
    if s == [] then None
    else if IsDigit(s[0]) then Some(0)
    else match FirstDigitIndex(s[1..])
      case None => None
      case Some(i) => Some(i + 1)
  }

  /**
   * The gate in front of the strict parser: a string that holds an `=`
   * (a mis-formatted command-line option) or no digit at all is refused.
   */
  function SafeForTimeParse(s: string): (safe: bool)
    ensures safe <==> '=' !in s && exists i :: 0 <= i < |s| && IsDigit(s[i])
  {
    !Includes(s, '=') && FirstDigitIndex(s).Some?
  }

  /** What the value handed to `process_time` is. */
  datatype TimeInput =
    | TimeValue(t: Time)   // already a `Time`
    | Text(s: string)      // a `String`
    | OtherValue           // anything else: no branch of the `case` applies

  /** What the lenient parser does with a string. */
  datatype LenientOutcome =
    | Parsed(t: Time)
    | NoParse              // it returned nil
    | Raised               // it raised; the error is rescued and warned about

  /** How `process_time` ends. */
  datatype ProcessOutcome =
    | Returned(t: Time)
    | ReturnedNil
    | ArgumentError(input: string)   // "Could not parse ..., entry not updated"

  /** The value of the `begin ... rescue` block: a raise yields `warn`'s nil. */
  function Rescued(o: LenientOutcome): (r: Option<Time>)
    ensures r.Some? <==> o.Parsed?
    ensures o.Parsed? ==> r.value == o.t
  {
    match o
    case Parsed(t) => Some(t)
    case NoParse => None
    case Raised => None
  }

  function ProcessTime(input: TimeInput, lenient: string -> LenientOutcome,
                       strict: string -> Option<Time>): (r: ProcessOutcome)
    // A Time passes through unchanged; a foreign value yields nil.
    ensures input.TimeValue? ==> r == Returned(input.t)
    ensures input.OtherValue? ==> r == ReturnedNil
    // A string either yields a time or fails with an ArgumentError about itself.
    ensures input.Text? ==> r.Returned? || r == ArgumentError(input.s)
    // A lenient result wins.
    ensures input.Text? && lenient(input.s).Parsed? ==> r == Returned(lenient(input.s).t)
    // Without one, the gate decides whether the strict parser is reached.
    ensures input.Text? && !lenient(input.s).Parsed? && !SafeForTimeParse(input.s) ==>
              r == ArgumentError(input.s)
    ensures input.Text? && !lenient(input.s).Parsed? && SafeForTimeParse(input.s) ==>
              r == (match strict(input.s)
                    case Some(t) => Returned(t)
                    case None => ArgumentError(input.s))
    // A string never yields a time that no parser produced.
    ensures input.Text? && r.Returned? ==>
              lenient(input.s) == Parsed(r.t) ||
              (SafeForTimeParse(input.s) && strict(input.s) == Some(r.t))
  {
    match input
    case TimeValue(t) => Returned(t)
    case OtherValue => ReturnedNil
    case Text(s) =>
      var chronic := Rescued(lenient(s));
      if chronic.Some? then Returned(chronic.value)
      else if SafeForTimeParse(s) && strict(s).Some? then Returned(strict(s).value)
      else ArgumentError(s)
  }

  /** A `Time` argument consults neither parser. */
  lemma TimeValueConsultsNoParser(t: Time, lenient1: string -> LenientOutcome, strict1: string -> Option<Time>,
                                  lenient2: string -> LenientOutcome, strict2: string -> Option<Time>)
    ensures ProcessTime(TimeValue(t), lenient1, strict1) == ProcessTime(TimeValue(t), lenient2, strict2) == Returned(t)
  {
  }

  /** Once the lenient parser yields a time, the strict parser is not consulted. */
  lemma LenientResultSkipsStrict(s: string, lenient: string -> LenientOutcome,
                                 strict1: string -> Option<Time>, strict2: string -> Option<Time>)
    requires lenient(s).Parsed?
    ensures ProcessTime(Text(s), lenient, strict1) == ProcessTime(Text(s), lenient, strict2) == Returned(lenient(s).t)
  {
  }

  /** When the gate refuses the string, the strict parser is never called. */
  lemma GateRefusalSkipsStrict(s: string, lenient: string -> LenientOutcome,
                               strict1: string -> Option<Time>, strict2: string -> Option<Time>)
    requires !lenient(s).Parsed? && !SafeForTimeParse(s)
    ensures ProcessTime(Text(s), lenient, strict1) == ProcessTime(Text(s), lenient, strict2) == ArgumentError(s)
  {
  }

  /** A lenient parser that raises is treated exactly like one that found nothing. */
  lemma LenientRaiseIsNoResult(s: string, raising: string -> LenientOutcome, silent: string -> LenientOutcome,
                               strict: string -> Option<Time>)
    requires raising(s) == Raised && silent(s) == NoParse
    ensures ProcessTime(Text(s), raising, strict) == ProcessTime(Text(s), silent, strict)
  {
  }

  /** A string holding `=` that the lenient parser cannot read is always refused. */
  lemma EqualsSignRefused(s: string, i: nat, lenient: string -> LenientOutcome, strict: string -> Option<Time>)
    requires i < |s| && s[i] == '=' && !lenient(s).Parsed?
    ensures ProcessTime(Text(s), lenient, strict) == ArgumentError(s)
  {
  }

  /** A digit-free string that the lenient parser cannot read is always refused. */
  lemma DigitFreeRefused(s: string, lenient: string -> LenientOutcome, strict: string -> Option<Time>)
    requires forall i :: 0 <= i < |s| ==> !IsDigit(s[i])
    requires !lenient(s).Parsed?
    ensures ProcessTime(Text(s), lenient, strict) == ArgumentError(s)
  {
  }
}

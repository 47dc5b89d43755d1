/** The time-to-live parser: durations of days, hours and minutes. */
module Duration {
  import opened Options
  import opened Text

  const SECS_PER_MINUTE := 60
  const SECS_PER_HOUR := 3600
  const SECS_PER_DAY := 86400
  const U64_LIMIT: nat := 0x1_0000_0000_0000_0000

  /** Parsing an unsigned 64-bit integer: one optional plus sign and then digits. */
  function ParseCount(s: string): Option<nat> {
    var digits := if s != "" && s[0] == '+' then s[1..] else s;
    if digits == "" || !AllDigits(digits) || Value(digits) >= U64_LIMIT then None else Some(Value(digits))
  }

  /** A count is one or more digits, with or without a plus sign, whose value fits 64 bits. */
  lemma ParseCountExact(s: string, v: nat)
    ensures ParseCount(s) == Some(v) <==>
            v <= 0xFFFF_FFFF_FFFF_FFFF &&
            exists d :: (s == d || s == "+" + d) && d != "" && AllDigits(d) && Value(d) == v
  {
    if d :| (s == d || s == "+" + d) && d != "" && AllDigits(d) && Value(d) == v && v <= 0xFFFF_FFFF_FFFF_FFFF {
      assert ("+" + d)[1..] == d && IsDigit(d[0]);
    }
    if ParseCount(s) == Some(v) {
      var d := if s[0] == '+' then s[1..] else s;
      assert s == d || s == "+" + d;
    }
  }

  // ----- the parser -----

  function ParseTimePart(timePart: string): Option<(nat, nat)> {
    var h := Find(timePart, 'H');
    var hours := if h.Some? then ParseCount(timePart[..h.value]) else Some(0);
    var remaining := if h.Some? then timePart[h.value + 1..] else timePart;
    var m := Find(remaining, 'M');
    var minutes := if m.Some? then ParseCount(remaining[..m.value]) else Some(0);
    var trailing := if m.Some? then remaining[m.value + 1..] else remaining;
    if hours.None? || minutes.None? || trailing != "" then None
    else if hours.value == 0 && minutes.value == 0 && timePart != "0H" && timePart != "0M"
            && 'H' !in timePart && 'M' !in timePart then None
    else Some((hours.value, minutes.value))
  }

  function ParseDatePart(datePart: string): Option<nat> {
    if 'Y' in datePart || 'M' in datePart then None
    else if datePart == "" then Some(0)
    else if datePart[|datePart| - 1] == 'D' then ParseCount(datePart[..|datePart| - 1])
    else None
  }

  /** The total of a date part and, after a T, a time part. */
  function Total(datePart: string, timePart: Option<string>): Option<nat> {
    var days := ParseDatePart(datePart);
    if days.None? then None
    else if timePart.None? then (if datePart == "" then None else Some(days.value * SECS_PER_DAY))
    else if timePart.value == "" || 'S' in timePart.value then None
    else
      var time := ParseTimePart(timePart.value);
      if time.None? then None
      else Some(days.value * SECS_PER_DAY + (time.value.0 * SECS_PER_HOUR + time.value.1 * SECS_PER_MINUTE))
  }

  function ParseBody(rest: string): Option<nat> {
    var t := Find(rest, 'T');
    if t.None? then Total(rest, None) else Total(rest[..t.value], Some(rest[t.value + 1..]))
  }

  function ParseDuration(input: string): Option<nat> {
    if input == "" || input[0] != 'P' then None else ParseBody(input[1..])
  }

  // ----- the grammar -----

  // The counts in front of D, H and M, as written; at least one is present.
  datatype Counts = Counts(days: Option<string>, hours: Option<string>, minutes: Option<string>)

  function Part(count: Option<string>, unit: char): string {
    if count.Some? then count.value + [unit] else ""
  }

  function WriteTime(c: Counts): string {
    Part(c.hours, 'H') + Part(c.minutes, 'M')
  }

  predicate HasTime(c: Counts) {
    c.hours.Some? || c.minutes.Some?
  }

  function WriteBody(c: Counts): string {
    Part(c.days, 'D') + if HasTime(c) then "T" + WriteTime(c) else ""
  }

  /** The text of a duration: its days, and after a T its hours and minutes. */
  function Write(c: Counts): string {
    "P" + WriteBody(c)
  }

  predicate GoodCount(count: Option<string>) {
    count.Some? ==> ParseCount(count.value).Some?
  }

  ghost predicate WellFormed(c: Counts) {
    && (c.days.Some? || c.hours.Some? || c.minutes.Some?)
    && GoodCount(c.days) && GoodCount(c.hours) && GoodCount(c.minutes)
  }

  function Amount(count: Option<string>): nat
    requires GoodCount(count)
  {
    if count.Some? then ParseCount(count.value).value else 0
  }

  function Seconds(c: Counts): nat
    requires GoodCount(c.days) && GoodCount(c.hours) && GoodCount(c.minutes)
  {
    86400 * Amount(c.days) + 3600 * Amount(c.hours) + 60 * Amount(c.minutes)
  }

  /** A count consists of digits and at most a leading plus sign. */
  lemma CountChars(s: string)
    requires ParseCount(s).Some?
    ensures forall c :: c in s ==> IsDigit(c) || c == '+'
  {
    forall c | c in s ensures IsDigit(c) || c == '+' {
      var i :| 0 <= i < |s| && s[i] == c;
      if s[0] == '+' && i > 0 { assert s[1..][i - 1] == c; }
    }
  }

  lemma PartChars(count: Option<string>, unit: char)
    requires GoodCount(count)
    ensures forall c :: c in Part(count, unit) ==> IsDigit(c) || c == '+' || c == unit
  {
    if count.Some? { CountChars(count.value); }
  }

  /** Cutting `s` at the first `unit` gives `count` in front of it, if any, and `rest`. */
  predicate CutsTo(s: string, unit: char, count: Option<string>, rest: string) {
    var at := Find(s, unit);
    if count.Some? then at.Some? && s[..at.value] == count.value && s[at.value + 1..] == rest
    else at.None? && s == rest
  }

  lemma FindPart(count: Option<string>, unit: char, rest: string)
    requires GoodCount(count) && unit !in rest && !IsDigit(unit) && unit != '+'
    ensures CutsTo(Part(count, unit) + rest, unit, count, rest)
  {
    if count.Some? {
      CountChars(count.value);
      FindAt(count.value, unit, rest);
    } else {
      assert Part(count, unit) + rest == rest;
    }
  }

  lemma TimeOf(s: string, hours: Option<string>, rest: string, minutes: Option<string>)
    requires GoodCount(hours) && GoodCount(minutes) && ('H' in s || 'M' in s)
    requires CutsTo(s, 'H', hours, rest) && CutsTo(rest, 'M', minutes, "")
    ensures ParseTimePart(s) == Some((Amount(hours), Amount(minutes)))
  {
  }

  lemma ParseWriteTime(c: Counts)
    requires WellFormed(c) && HasTime(c)
    ensures ParseTimePart(WriteTime(c)) == Some((Amount(c.hours), Amount(c.minutes)))
  {
    var minutes := Part(c.minutes, 'M');
    PartChars(c.minutes, 'M');
    FindPart(c.hours, 'H', minutes);
    FindPart(c.minutes, 'M', "");
    assert minutes + "" == minutes;
    TimeHasUnit(c);
    TimeOf(WriteTime(c), c.hours, minutes, c.minutes);
  }

  lemma TimeHasUnit(c: Counts)
    requires HasTime(c)
    ensures 'H' in WriteTime(c) || 'M' in WriteTime(c)
  {
    if c.hours.Some? {
      assert WriteTime(c)[|c.hours.value|] == 'H';
    } else {
      assert WriteTime(c)[|WriteTime(c)| - 1] == 'M';
    }
  }

  lemma ParseWriteDate(c: Counts)
    requires WellFormed(c)
    ensures ParseDatePart(Part(c.days, 'D')) == Some(Amount(c.days))
  {
    PartChars(c.days, 'D');
    if c.days.Some? {
      var s := Part(c.days, 'D');
      assert s[..|s| - 1] == c.days.value;
    }
  }

  lemma BodySplit(date: string, time: string)
    requires 'T' !in date
    ensures ParseBody(date) == Total(date, None)
    ensures ParseBody(date + ("T" + time)) == Total(date, Some(time))
  {
    FindAt(date, 'T', time);
    var rest := date + "T" + time;
    assert rest == date + ("T" + time);
    assert rest[..|date|] == date && rest[|date| + 1..] == time;
  }

  lemma WriteTimeChars(c: Counts)
    requires WellFormed(c) && HasTime(c)
    ensures 'S' !in WriteTime(c) && WriteTime(c) != ""
  {
    PartChars(c.hours, 'H');
    PartChars(c.minutes, 'M');
  }

  lemma TotalOf(date: string, time: string, d: nat, h: nat, m: nat)
    requires ParseDatePart(date) == Some(d)
    requires time != "" && 'S' !in time && ParseTimePart(time) == Some((h, m))
    ensures Total(date, Some(time)) == Some(86400 * d + 3600 * h + 60 * m)
  {
  }

  lemma TotalWriteDate(c: Counts)
    requires WellFormed(c) && !HasTime(c)
    ensures Total(Part(c.days, 'D'), None) == Some(Seconds(c))
  {
    ParseWriteDate(c);
  }

  lemma TotalWriteTime(c: Counts)
    requires WellFormed(c) && HasTime(c)
    ensures Total(Part(c.days, 'D'), Some(WriteTime(c))) == Some(Seconds(c))
  {
    ParseWriteDate(c);
    ParseWriteTime(c);
    WriteTimeChars(c);
    TotalOf(Part(c.days, 'D'), WriteTime(c), Amount(c.days), Amount(c.hours), Amount(c.minutes));
  }

  /** Every well-formed duration parses to its number of seconds. */
  lemma ParseWrite(c: Counts)
    requires WellFormed(c)
    ensures ParseDuration(Write(c)) == Some(Seconds(c))
  {
    PartChars(c.days, 'D');
    BodySplit(Part(c.days, 'D'), WriteTime(c));
    WriteTail(c);
    if HasTime(c) { TotalWriteTime(c); } else { TotalWriteDate(c); }
  }

  lemma WriteTail(c: Counts)
    ensures Write(c)[0] == 'P' && Write(c)[1..] == WriteBody(c)
    ensures !HasTime(c) ==> WriteBody(c) == Part(c.days, 'D')
  {
    assert Part(c.days, 'D') + "" == Part(c.days, 'D');
  }

  // ----- accepted texts are durations -----

  /** A text cut at the first `unit`: a part in front of it, if any, and the rest. */
  function Cut(s: string, unit: char): (r: (Option<string>, string))
    ensures s == Part(r.0, unit) + r.1
  {
    var at := Find(s, unit);
    if at.None? then (None, s) else
      assert s == s[..at.value] + [unit] + s[at.value + 1..];
      (Some(s[..at.value]), s[at.value + 1..])
  }

  lemma TimeShape(timePart: string) returns (c: Counts)
    requires timePart != "" && ParseTimePart(timePart).Some?
    ensures c.days.None? && WellFormed(c) && HasTime(c) && WriteTime(c) == timePart
  {
    var h := Cut(timePart, 'H');
    var m := Cut(h.1, 'M');
    c := Counts(None, h.0, m.0);
    assert m.1 == "" && h.1 == Part(m.0, 'M') + "" == Part(m.0, 'M');
  }

  lemma TotalShape(datePart: string, timePart: Option<string>) returns (c: Counts)
    requires Total(datePart, timePart).Some?
    ensures WellFormed(c) && Part(c.days, 'D') == datePart
    ensures if timePart.Some? then HasTime(c) && WriteTime(c) == timePart.value else !HasTime(c)
  {
    var days := if datePart == "" then None else Some(datePart[..|datePart| - 1]);
    assert Part(days, 'D') == datePart;
    if timePart.Some? {
      var time := TimeShape(timePart.value);
      c := Counts(days, time.hours, time.minutes);
    } else {
      c := Counts(days, None, None);
    }
  }

  lemma SplitAt(s: string, i: nat)
    requires i < |s|
    ensures s == s[..i] + ([s[i]] + s[i + 1..])
  {
  }

  /** Every accepted text is a well-formed duration. */
  lemma DurationShape(input: string) returns (c: Counts)
    requires ParseDuration(input).Some?
    ensures WellFormed(c) && Write(c) == input
  {
    var rest := input[1..];
    c := BodyShape(rest);
    assert input == "P" + rest;
  }

  lemma BodyShape(rest: string) returns (c: Counts)
    requires ParseBody(rest).Some?
    ensures WellFormed(c) && WriteBody(c) == rest
  {
    var t := Find(rest, 'T');
    if t.Some? {
      c := TotalShape(rest[..t.value], Some(rest[t.value + 1..]));
      SplitAt(rest, t.value);
    } else {
      c := TotalShape(rest, None);
      assert rest + "" == rest;
    }
  }

  /** The parser accepts exactly the durations of the grammar, with their values. */
  lemma ParseExact(input: string, v: nat)
    ensures ParseDuration(input) == Some(v) <==> exists c :: WellFormed(c) && Write(c) == input && Seconds(c) == v
  {
    if exists c :: WellFormed(c) && Write(c) == input && Seconds(c) == v {
      var c :| WellFormed(c) && Write(c) == input && Seconds(c) == v;
      ParseWrite(c);
    }
    if ParseDuration(input) == Some(v) {
      var c := DurationShape(input);
      ParseWrite(c);
    }
  }

  // ----- against RFC 3339 -----

  predicate DigitRun(count: Option<string>) {
    count.Some? ==> count.value != "" && AllDigits(count.value) && Value(count.value) < U64_LIMIT
  }

  ghost predicate RfcCounts(c: Counts) {
    && (c.days.Some? || c.hours.Some? || c.minutes.Some?)
    && DigitRun(c.days) && DigitRun(c.hours) && DigitRun(c.minutes)
  }

  /** The duration grammar of appendix A of RFC 3339 cut down to days, hours and minutes,
      with counts that fit 64 bits. */
  ghost predicate InRfcGrammar(input: string) {
    exists c :: RfcCounts(c) && Write(c) == input
  }

  predicate Unsigned(count: Option<string>) {
    count.Some? ==> '+' !in count.value
  }

  lemma UnsignedRun(count: Option<string>)
    ensures DigitRun(count) <==> GoodCount(count) && Unsigned(count)
  {
    if count.Some? && count.value != "" { assert count.value[0] in count.value; }
  }

  lemma PlusInPart(count: Option<string>, unit: char)
    requires unit != '+'
    ensures Unsigned(count) <==> '+' !in Part(count, unit)
  {
  }

  lemma PlusInWrite(c: Counts)
    ensures '+' !in Write(c) <==> Unsigned(c.days) && Unsigned(c.hours) && Unsigned(c.minutes)
  {
    PlusInPart(c.days, 'D');
    PlusInPart(c.hours, 'H');
    PlusInPart(c.minutes, 'M');
    assert '+' in WriteTime(c) <==> '+' in Part(c.hours, 'H') || '+' in Part(c.minutes, 'M');
  }

  lemma RfcCountsExact(c: Counts)
    ensures RfcCounts(c) <==> WellFormed(c) && '+' !in Write(c)
  {
    UnsignedRun(c.days);
    UnsignedRun(c.hours);
    UnsignedRun(c.minutes);
    PlusInWrite(c);
  }

  /** A text is in the grammar exactly when it is accepted and has no plus sign. */
  lemma RfcExact(input: string)
    ensures InRfcGrammar(input) <==> ParseDuration(input).Some? && '+' !in input
  {
    if InRfcGrammar(input) {
      var c :| RfcCounts(c) && Write(c) == input;
      RfcCountsExact(c);
      ParseWrite(c);
    }
    if ParseDuration(input).Some? {
      var c := DurationShape(input);
      RfcCountsExact(c);
    }
  }

  /** The documented list of patterns: every combination but days and minutes without hours. */
  ghost predicate Documented(input: string) {
    exists c :: RfcCounts(c) && !(c.days.Some? && c.hours.None? && c.minutes.Some?) && Write(c) == input
  }

  lemma UnitInPart(count: Option<string>, unit: char, other: char)
    requires GoodCount(count) && !IsDigit(other) && other != '+'
    ensures other in Part(count, unit) <==> count.Some? && other == unit
  {
    PartChars(count, unit);
    if count.Some? { assert Part(count, unit)[|count.value|] == unit; }
  }

  /** A unit letter is in the text exactly when its part is there. */
  lemma UnitsInWrite(c: Counts)
    requires WellFormed(c)
    ensures 'D' in Write(c) <==> c.days.Some?
    ensures 'H' in Write(c) <==> c.hours.Some?
    ensures 'M' in Write(c) <==> c.minutes.Some?
  {
    LetterInWrite(c, 'D');
    LetterInWrite(c, 'H');
    LetterInWrite(c, 'M');
  }

  lemma LetterInWrite(c: Counts, letter: char)
    requires WellFormed(c) && letter in {'D', 'H', 'M'}
    ensures letter in Write(c) <==>
            (letter == 'D' && c.days.Some?) || (letter == 'H' && c.hours.Some?) || (letter == 'M' && c.minutes.Some?)
  {
    UnitInPart(c.days, 'D', letter);
    UnitInPart(c.hours, 'H', letter);
    UnitInPart(c.minutes, 'M', letter);
    assert letter in WriteTime(c) <==> letter in Part(c.hours, 'H') || letter in Part(c.minutes, 'M');
    assert WriteTime(c) == "" || HasTime(c);
  }

  /** Of the accepted texts, the list leaves out those with a plus sign and those with days
      and minutes but no hours. */
  lemma DocumentedExact(input: string)
    ensures Documented(input) <==>
            ParseDuration(input).Some? && '+' !in input && !('D' in input && 'M' in input && 'H' !in input)
  {
    if Documented(input) {
      var c :| RfcCounts(c) && !(c.days.Some? && c.hours.None? && c.minutes.Some?) && Write(c) == input;
      RfcCountsExact(c);
      ParseWrite(c);
      UnitsInWrite(c);
    }
    if ParseDuration(input).Some? {
      var c := DurationShape(input);
      RfcCountsExact(c);
      UnitsInWrite(c);
    }
  }

  lemma OneDayFiveMinutes() returns (c: Counts)
    ensures c == Counts(Some("1"), None, Some("5")) && WellFormed(c) && Write(c) == "P1DT5M" && Seconds(c) == 86700
  {
    c := Counts(Some("1"), None, Some("5"));
    NumeralGood(Some(1));
    NumeralGood(Some(5));
    assert Digits(1) == "1" && Digits(5) == "5";
  }

  /** A day and five minutes: accepted, in the grammar, and not in the list. */
  lemma DaysMinutesAccepted()
    ensures ParseDuration("P1DT5M") == Some(86700) && InRfcGrammar("P1DT5M") && !Documented("P1DT5M")
  {
    var c := OneDayFiveMinutes();
    ParseWrite(c);
    UnitsInWrite(c);
    PlusInWrite(c);
    RfcExact(Write(c));
    DocumentedExact(Write(c));
  }

  /** A signed count is accepted although the grammar has none. */
  lemma PlusAccepted()
    ensures ParseDuration("P+1D") == Some(86400) && !InRfcGrammar("P+1D")
  {
    var c := Counts(Some("+1"), None, None);
    assert "+1"[1..] == "1" && AllDigits("1");
    assert "1"[..0] == "";
    assert Value("1") == 1;
    assert Write(c) == "P+1D";
    ParseWrite(c);
    RfcExact("P+1D");
    assert "P+1D"[1] == '+';
  }

  function Numeral(n: Option<nat>): Option<string> {
    if n.Some? then Some(Digits(n.value)) else None
  }

  function Printed(d: Option<nat>, h: Option<nat>, m: Option<nat>): Counts {
    Counts(Numeral(d), Numeral(h), Numeral(m))
  }

  function Or0(n: Option<nat>): nat {
    if n.Some? then n.value else 0
  }

  lemma NumeralGood(n: Option<nat>)
    requires n.Some? ==> n.value < U64_LIMIT
    ensures GoodCount(Numeral(n)) && Amount(Numeral(n)) == Or0(n)
  {
    if n.Some? {
      ValueOfDigits(n.value);
      assert IsDigit(Digits(n.value)[0]);
    }
  }

  function SecondsOf(d: Option<nat>, h: Option<nat>, m: Option<nat>): nat {
    86400 * Or0(d) + 3600 * Or0(h) + 60 * Or0(m)
  }

  lemma PrintGood(d: Option<nat>, h: Option<nat>, m: Option<nat>)
    requires d.Some? || h.Some? || m.Some?
    requires Or0(d) < U64_LIMIT && Or0(h) < U64_LIMIT && Or0(m) < U64_LIMIT
    ensures WellFormed(Printed(d, h, m)) && Seconds(Printed(d, h, m)) == SecondsOf(d, h, m)
  {
    NumeralGood(d);
    NumeralGood(h);
    NumeralGood(m);
  }

  /** Parsing undoes printing. */
  lemma ParsePrint(d: Option<nat>, h: Option<nat>, m: Option<nat>, text: string)
    requires d.Some? || h.Some? || m.Some?
    requires Or0(d) < U64_LIMIT && Or0(h) < U64_LIMIT && Or0(m) < U64_LIMIT
    requires text == Write(Printed(d, h, m))
    ensures ParseDuration(text) == Some(SecondsOf(d, h, m))
  {
    var c := Printed(d, h, m);
    PrintGood(d, h, m);
    ParseWrite(c);
  }
}

/**
 * The status-line grammar of the alert channel (the `alertStatusRegexp` of tgscraper.go),
 * recognised line by line: a marker glyph, a space, `HH:MM`, a space, one of two fixed
 * phrases, " в ", then the region name up to the end of the line, less one trailing dot.
 */
module StatusLine {
  import opened Wrappers

  /** The phrase of a raised alert ("air-raid alert"). */
  const Raised := "Повітряна тривога"
  /** The phrase of a cleared alert ("all clear"). */
  const Cleared := "Відбій тривоги"
  /** The word between the phrase and the region name ("in"). */
  const In := " в "

  /** The three marker glyphs: red, green and yellow circles. */
  predicate IsMarker(c: char) {
    c == '\U{1F534}' || c == '\U{1F7E2}' || c == '\U{1F7E1}'
  }

  /** `\d` of Go's regexp: an ASCII digit. */
  predicate IsDigit(c: char) {
    '0' <= c <= '9'
  }

  /** A clock reading as the grammar captures it: two digits, a colon, two digits. */
  predicate IsClock(clock: string) {
    |clock| == 5 && IsDigit(clock[0]) && IsDigit(clock[1]) && clock[2] == ':' && IsDigit(clock[3]) && IsDigit(clock[4])
  }

  /** The capture groups of a match: the clock, the phrase and the region name. */
  datatype Match = Match(clock: string, phrase: string, name: string)

  /** The lazy name group followed by an optional dot: the rest of the line less one trailing dot. */
  function StripDot(s: string): (r: string)
    ensures r == s || r + "." == s
  {
    if |s| > 0 && s[|s| - 1] == '.' then s[..|s| - 1] else s
  }

  /** The captures when the whole of `line` (which holds no newline) matches the grammar. */
  function MatchLine(line: string): (r: Option<Match>)
    ensures r.Some? ==> IsClock(r.value.clock) && (r.value.phrase == Raised || r.value.phrase == Cleared)
  {
    if |line| < 8 || !IsMarker(line[0]) || line[1] != ' ' || !IsClock(line[2..7]) || line[7] != ' ' then None
    else
      var rest := line[8..];
      if Cleared + In <= rest then Some(Match(line[2..7], Cleared, StripDot(rest[|Cleared + In|..])))
      else if Raised + In <= rest then Some(Match(line[2..7], Raised, StripDot(rest[|Raised + In|..])))
      else None
  }

  /** The text up to its first newline. */
  function FirstLine(text: string): (line: string)
    ensures line <= text && '\n' !in line
    ensures |line| < |text| ==> text[|line|] == '\n'
    decreases |text|
  {
    if text == [] || text[0] == '\n' then [] else [text[0]] + FirstLine(text[1..])
  }

  /**
   * `FindStringSubmatch` in multi-line mode: a match starts at a line start and cannot cross
   * a newline, so the leftmost match is that of the first line that matches.
   */
  function FindMatch(text: string): (r: Option<Match>)
    ensures r.Some? ==> IsClock(r.value.clock) && (r.value.phrase == Raised || r.value.phrase == Cleared)
    ensures r.Some? ==> '\n' !in r.value.name
    decreases |text|
  {
    var line := FirstLine(text);
    match MatchLine(line)
    case Some(m) => MatchLineIsOneLine(line); Some(m)
    case None => if |line| == |text| then None else FindMatch(text[|line| + 1..])
  }

  /** A line as the channel writes it. */
  function Render(marker: char, clock: string, phrase: string, name: string, dot: bool): string {
    [marker] + " " + clock + " " + phrase + In + name + (if dot then "." else "")
  }

  /** A well-formed status line yields its own clock, phrase and name, with or without the final dot. */
  lemma MatchLineOfRender(marker: char, clock: string, phrase: string, name: string, dot: bool)
    requires IsMarker(marker) && IsClock(clock)
    requires phrase == Raised || phrase == Cleared
    requires name == [] || name[|name| - 1] != '.'
    ensures MatchLine(Render(marker, clock, phrase, name, dot)) == Some(Match(clock, phrase, name))
  {
    var tail := name + (if dot then "." else "");
    RenderParts(marker, clock, phrase, tail);
    StripDotOfName(name, dot);
    PhraseChoice(phrase, tail);
    assert Render(marker, clock, phrase, name, dot) == [marker] + " " + clock + " " + phrase + In + tail;
  }

  /** Where the parts of a status line sit. */
  lemma RenderParts(marker: char, clock: string, phrase: string, tail: string)
    requires |clock| == 5
    ensures var line := [marker] + " " + clock + " " + phrase + In + tail;
      && |line| >= 8 && line[0] == marker && line[1] == ' ' && line[2..7] == clock && line[7] == ' '
      && line[8..] == phrase + In + tail
  {
    var line := [marker] + " " + clock + " " + phrase + In + tail;
    assert line == [marker] + " " + clock + " " + (phrase + In + tail);
  }

  /** The trailing dot the grammar allows is the only one dropped. */
  lemma StripDotOfName(name: string, dot: bool)
    requires name == [] || name[|name| - 1] != '.'
    ensures StripDot(name + (if dot then "." else "")) == name
  {
    var tail := name + (if dot then "." else "");
    if dot {
      assert tail[..|tail| - 1] == name;
    } else {
      assert tail == name;
    }
  }

  /** Which alternative of the phrase group matches, and what follows it. */
  lemma PhraseChoice(phrase: string, tail: string)
    requires phrase == Raised || phrase == Cleared
    ensures var rest := phrase + In + tail;
      && (phrase == Cleared ==> Cleared + In <= rest && rest[|Cleared + In|..] == tail)
      && (phrase == Raised ==> !(Cleared + In <= rest) && Raised + In <= rest && rest[|Raised + In|..] == tail)
  {
    var rest := phrase + In + tail;
    if phrase == Raised {
      assert rest[0] == Raised[0] != Cleared[0];
    }
  }

  /** A status line is one line of text when its name is. */
  lemma RenderIsOneLine(marker: char, clock: string, phrase: string, name: string, dot: bool)
    requires IsMarker(marker) && IsClock(clock)
    requires phrase == Raised || phrase == Cleared
    requires '\n' !in name
    ensures '\n' !in Render(marker, clock, phrase, name, dot)
  {
    assert '\n' !in clock by {
      forall i | 0 <= i < 5 ensures clock[i] != '\n' { }
    }
    assert '\n' !in Raised && '\n' !in Cleared && '\n' !in In;
  }

  /** The first line of a text is found when it matches, whatever follows it. */
  lemma FindMatchOfFirstLine(line: string, rest: string)
    requires '\n' !in line
    requires MatchLine(line).Some?
    ensures FindMatch(line) == MatchLine(line)
    ensures FindMatch(line + "\n" + rest) == MatchLine(line)
  {
    FirstLineOf(line, []);
    FirstLineOf(line, "\n" + rest);
    assert line + [] == line;
    assert line + "\n" + rest == line + ("\n" + rest);
  }

  /** A later line is found when the first one does not match. */
  lemma FindMatchSkipsLine(line: string, rest: string)
    requires '\n' !in line
    requires MatchLine(line).None?
    ensures FindMatch(line + "\n" + rest) == FindMatch(rest)
  {
    FirstLineOf(line, "\n" + rest);
    assert line + "\n" + rest == line + ("\n" + rest);
    assert (line + "\n" + rest)[|line| + 1..] == rest;
  }

  lemma {:induction false} FirstLineOf(line: string, rest: string)
    requires '\n' !in line
    requires rest == [] || rest[0] == '\n'
    ensures FirstLine(line + rest) == line
    decreases |line|
  {
    if line != [] {
      FirstLineOf(line[1..], rest);
      assert (line + rest)[1..] == line[1..] + rest;
    }
  }

  /** The name of a match on one line is on one line. */
  lemma MatchLineIsOneLine(line: string)
    requires '\n' !in line && MatchLine(line).Some?
    ensures '\n' !in MatchLine(line).value.name
  {
    var m := MatchLine(line).value;
    var rest := line[8..];
    var tail := if m.phrase == Cleared then rest[|Cleared + In|..] else rest[|Raised + In|..];
    assert m.name == StripDot(tail);
    assert '\n' !in tail by {
      forall i | 0 <= i < |tail| ensures tail[i] != '\n' {
        assert tail[i] in line;
      }
    }
    forall i | 0 <= i < |m.name| ensures m.name[i] != '\n' {
      assert m.name[i] == tail[i];
    }
  }

  /**
   * A line the grammar matches is the rendering of its own captures, with or without the final
   * dot: the converse of `MatchLineOfRender`.
   */
  lemma MatchLineIsRender(line: string)
    requires MatchLine(line).Some?
    ensures var m := MatchLine(line).value;
      && IsMarker(line[0])
      && (line == Render(line[0], m.clock, m.phrase, m.name, false) || line == Render(line[0], m.clock, m.phrase, m.name, true))
  {
    var m := MatchLine(line).value;
    MatchLineParts(line);
    LineOfMatch(line, m.clock, m.phrase, m.name);
  }

  /** What a match says about the line, phrase by phrase. */
  lemma MatchLineParts(line: string)
    requires MatchLine(line).Some?
    ensures var m := MatchLine(line).value;
      && |line| >= 8 && IsMarker(line[0]) && line[1] == ' ' && line[2..7] == m.clock && line[7] == ' '
      && m.phrase + In <= line[8..] && m.name == StripDot(line[8..][|m.phrase + In|..])
  {
  }

  /** A line made of a marker, a clock, a phrase and a name with or without one dot is a rendering. */
  lemma LineOfMatch(line: string, clock: string, phrase: string, name: string)
    requires |line| >= 8 && line[1] == ' ' && line[2..7] == clock && line[7] == ' '
    requires phrase + In <= line[8..] && name == StripDot(line[8..][|phrase + In|..])
    ensures line == Render(line[0], clock, phrase, name, false) || line == Render(line[0], clock, phrase, name, true)
  {
    var rest := line[8..];
    var tail := rest[|phrase + In|..];
    var dot := |tail| > 0 && tail[|tail| - 1] == '.';
    TailOfMatch(rest, phrase + In, tail);
    DotOfTail(tail, name, dot);
    LineOfParts(line, clock, phrase + In, tail);
    assert line == Render(line[0], clock, phrase, name, dot);
  }

  lemma TailOfMatch(rest: string, prefix: string, tail: string)
    requires prefix <= rest && tail == rest[|prefix|..]
    ensures rest == prefix + tail
  {
  }

  lemma DotOfTail(tail: string, name: string, dot: bool)
    requires dot == (|tail| > 0 && tail[|tail| - 1] == '.')
    requires name == StripDot(tail)
    ensures tail == name + (if dot then "." else "")
  {
  }

  lemma LineOfParts(line: string, clock: string, head: string, tail: string)
    requires |line| >= 8 && line[1] == ' ' && line[2..7] == clock && line[7] == ' '
    requires line[8..] == head + tail
    ensures line == [line[0]] + " " + clock + " " + head + tail
  {
    assert line == line[..8] + line[8..];
    assert line[..8] == [line[0]] + " " + clock + " ";
  }

  /** A time of day. */
  datatype TimeOfDay = TimeOfDay(hour: int, minute: int)

  function DigitValue(c: char): int
    requires IsDigit(c)
  {
    c as int - '0' as int
  }

  /**
   * `time.Parse(time.TimeOnly, clock + ":00")`: the hour and minute of a clock reading, or an
   * error when the text is not `HH:MM` or names no time of day (hour above 23, minute above 59).
   */
  function ParseClock(clock: string): (r: Result<TimeOfDay>)
    ensures r.Ok() ==> 0 <= r.value.hour <= 23 && 0 <= r.value.minute <= 59
    ensures !r.Ok() ==> r.err == Some(BadTimeOfDay(clock + ":00"))
  {
    if !IsClock(clock) then Result(TimeOfDay(0, 0), Some(BadTimeOfDay(clock + ":00")))
    else
      var hour := DigitValue(clock[0]) * 10 + DigitValue(clock[1]);
      var minute := DigitValue(clock[3]) * 10 + DigitValue(clock[4]);
      if hour > 23 || minute > 59 then Result(TimeOfDay(0, 0), Some(BadTimeOfDay(clock + ":00")))
      else Result(TimeOfDay(hour, minute), None)
  }

  /** Two decimal digits of `n`. */
  function TwoDigits(n: int): (s: string)
    requires 0 <= n <= 99
  {
    [('0' as int + n / 10) as char, ('0' as int + n % 10) as char]
  }

  /** The clock reading of an hour and a minute, as the channel writes it. */
  function ClockText(hour: int, minute: int): string
    requires 0 <= hour <= 99 && 0 <= minute <= 99
  {
    TwoDigits(hour) + ":" + TwoDigits(minute)
  }

  /** Parsing a written clock gives back its time when it is one, and an error otherwise. */
  lemma ParseClockOfClockText(hour: int, minute: int)
    requires 0 <= hour <= 99 && 0 <= minute <= 99
    ensures IsClock(ClockText(hour, minute))
    ensures hour <= 23 && minute <= 59 ==> ParseClock(ClockText(hour, minute)) == Result(TimeOfDay(hour, minute), None)
    ensures hour > 23 || minute > 59 ==> !ParseClock(ClockText(hour, minute)).Ok()
  {
    var c := ClockText(hour, minute);
    assert c[0] == ('0' as int + hour / 10) as char && c[1] == ('0' as int + hour % 10) as char;
    assert c[3] == ('0' as int + minute / 10) as char && c[4] == ('0' as int + minute % 10) as char;
    assert DigitValue(c[0]) * 10 + DigitValue(c[1]) == hour;
    assert DigitValue(c[3]) * 10 + DigitValue(c[4]) == minute;
  }
}

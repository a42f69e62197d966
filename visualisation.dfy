/** src/agent/visualisation.py: reading a timeline out of a generated answer.
    The answer's lines that mention "Step" are kept, and each is read as
    `<prefix>: <year> - <event>`. The plot drawn from the result is not part of this model. */
module Visualisation {
  import opened Wrappers
  import opened Strings

  /** The stripped lines that contain "Step", in order. */
  function StepLines(lines: seq<string>): (steps: seq<string>)
    ensures |steps| <= |lines|
    ensures forall s :: s in steps ==> Contains(s, "Step") && Stripped(s)
  {
    if |lines| == 0 then []
    else if Contains(lines[0], "Step") then
      StripKeepsOccurrence(lines[0], "Step");
      [Strip(lines[0])] + StepLines(lines[1..])
    else StepLines(lines[1..])
  }

  /** list_steps: the answer split on "\n", then the lines holding "Step", stripped. */
  function ListSteps(sequence: string): (steps: seq<string>)
    ensures forall s :: s in steps ==> Contains(s, "Step") && Stripped(s)
  {
    StepLines(Split(sequence, '\n'))
  }

  /** Filtering lines works line by line: it distributes over concatenation. */
  lemma {:induction false} StepLinesAppend(a: seq<string>, b: seq<string>)
    ensures StepLines(a + b) == StepLines(a) + StepLines(b)
  {
    if |a| == 0 {
      assert a + b == b;
    } else {
      assert (a + b)[1..] == a[1..] + b;
      StepLinesAppend(a[1..], b);
    }
  }

  /** One line is kept, stripped, exactly when it contains "Step". */
  lemma ListStepsOneLine(line: string)
    requires '\n' !in line
    ensures ListSteps(line) == if Contains(line, "Step") then [Strip(line)] else []
  {
    SplitNoSeparator(line, '\n');
  }

  /** The steps of two blocks of text joined by a newline are those of the first block, then those of the second. */
  lemma ListStepsAppend(a: string, b: string)
    ensures ListSteps(a + "\n" + b) == ListSteps(a) + ListSteps(b)
  {
    assert a + "\n" + b == a + ['\n'] + b;
    SplitAppend(a, b, '\n');
    StepLinesAppend(Split(a, '\n'), Split(b, '\n'));
  }

  /** The year and event read from one step line, or None when the line is skipped:
      split at the first ": ", then the remainder at the first " - ", both halves stripped. */
  function YearEvent(stepLine: string): (r: Option<(string, string)>)
    ensures r.Some? ==> Stripped(r.value.0) && Stripped(r.value.1)
  {
    match Partition(stepLine, ": ")
    case None => None
    case Some((prefix, rest)) =>
      match Partition(rest, " - ")
      case None => None
      case Some((year, event)) => Some((Strip(year), Strip(event)))
  }

  /** The years and the events of the lines that are not skipped, in order. */
  function YearsEvents(stepLines: seq<string>): (r: (seq<string>, seq<string>))
    ensures |r.0| == |r.1| <= |stepLines|
  {
    if |stepLines| == 0 then ([], [])
    else
      var prev := YearsEvents(stepLines[..|stepLines| - 1]);
      var ye := YearEvent(stepLines[|stepLines| - 1]);
      if ye.Some? then (prev.0 + [ye.value.0], prev.1 + [ye.value.1]) else prev
  }

  /** extract_steps_with_years_events: the two lists it builds hold the years and the events
      of the lines it does not skip, pair by pair, so they always have the same length. */
  method ExtractStepsWithYearsEvents(stepLines: seq<string>) returns (years: seq<string>, events: seq<string>)
    ensures (years, events) == YearsEvents(stepLines)
  {
    years, events := [], [];
    for i := 0 to |stepLines|
      invariant (years, events) == YearsEvents(stepLines[..i])
    {
      var ye := YearEvent(stepLines[i]);
      YearsEventsStep(stepLines, i);
      if ye.Some? {
        years := years + [ye.value.0];
        events := events + [ye.value.1];
      }
    }
    assert stepLines[..|stepLines|] == stepLines;
  }

  /** The lists after line `i`: those before it, extended when line `i` is read. */
  lemma YearsEventsStep(stepLines: seq<string>, i: nat)
    requires i < |stepLines|
    ensures var prev, ye := YearsEvents(stepLines[..i]), YearEvent(stepLines[i]);
      YearsEvents(stepLines[..i + 1]) == if ye.Some? then (prev.0 + [ye.value.0], prev.1 + [ye.value.1]) else prev
  {
    assert stepLines[..i + 1][..i] == stepLines[..i];
  }

  /** Every year and every event read is whitespace-stripped. */
  lemma {:induction false} YearsEventsStripped(stepLines: seq<string>)
    ensures forall y :: y in YearsEvents(stepLines).0 ==> Stripped(y)
    ensures forall e :: e in YearsEvents(stepLines).1 ==> Stripped(e)
  {
    if |stepLines| > 0 {
      YearsEventsStripped(stepLines[..|stepLines| - 1]);
    }
  }

  /** A prefix without ':' ends at the first ": ". */
  lemma FirstColon(prefix: string, rest: string)
    requires ':' !in prefix
    ensures Partition(prefix + ": " + rest, ": ") == Some((prefix, rest))
  {
    var line := prefix + ": " + rest;
    forall j | 0 <= j < |prefix|
      ensures !(": " <= line[j..])
    {
      assert line[j] == prefix[j];
    }
    PartitionAt(line, ": ", prefix, rest);
  }

  /** A year without '-' ends at the first " - ". */
  lemma FirstDash(year: string, event: string)
    requires '-' !in year
    ensures Partition(year + " - " + event, " - ") == Some((year, event))
  {
    var rest := year + " - " + event;
    forall j | 0 <= j < |year|
      ensures !(" - " <= rest[j..])
    {
      if j + 1 < |year| {
        assert rest[j + 1] == year[j + 1];
      } else {
        assert rest[j + 1] == ' ';
      }
    }
    PartitionAt(rest, " - ", year, event);
  }

  /** A line `<prefix>: <year> - <event>` gives back the stripped year and event, whenever the
      prefix has no ':' and the year no '-'; any later ": " or " - " stays inside the event. */
  lemma YearEventRoundTrip(prefix: string, year: string, event: string)
    requires ':' !in prefix && '-' !in year
    ensures YearEvent(prefix + ": " + (year + " - " + event)) == Some((Strip(year), Strip(event)))
  {
    FirstColon(prefix, year + " - " + event);
    FirstDash(year, event);
  }

  /** A step line whose text after the first ": " has no " - " is skipped. */
  lemma NoDashSkipped(stepLine: string)
    requires Partition(stepLine, ": ").Some? && !Contains(Partition(stepLine, ": ").value.1, " - ")
    ensures YearEvent(stepLine).None?
  {
  }

  /** A step line without ": " is skipped. */
  lemma NoColonSkipped(stepLine: string)
    requires !Contains(stepLine, ": ")
    ensures YearEvent(stepLine).None?
  {
  }
}

/** `logThrottler.ts`: repeated messages of one key are logged at a bounded rate. The clock is an input. */
module LogThrottler {
  import opened Sequences
  import opened Documents

  datatype Options = Options(initialLogInterval: int, subsequentLogInterval: int, maxOccurrences: int,
                             summarizeInterval: int)

  /** The message a record keeps is never read and is left out. */
  datatype ErrorRecord = ErrorRecord(count: nat, lastLogged: int, firstSeen: int)

  /** A line of the log; the count and the duration are part of its text from the second occurrence on. */
  datatype Line = Line(key: string, time: int, message: string, level: string, count: nat, duration: int)

  datatype Event =
    | Call(key: string, message: string, level: string, now: int, options: Options)
    | Reset(key: string)

  // ----- one call -----------------------------------------------------------

  function Counted(r: Option<ErrorRecord>, now: int): ErrorRecord {
    match r
    case None => ErrorRecord(1, 0, now)
    case Some(before) => before.(count := before.count + 1)
  }

  predicate ShouldLog(r: ErrorRecord, now: int, o: Options) {
    || r.count == 1
    || now - r.lastLogged >= (if r.count <= o.maxOccurrences then o.initialLogInterval else o.subsequentLogInterval)
    || (now - r.firstSeen >= o.summarizeInterval && now - r.lastLogged >= o.summarizeInterval)
  }

  type Records = map<string, ErrorRecord>

  function Find(records: Records, key: string): Option<ErrorRecord> {
    if key in records then Some(records[key]) else None
  }

  function RecordAfter(records: Records, e: Event): Records {
    match e
    case Reset(key) => records - {key}
    case Call(key, _, _, now, o) =>
      var r := Counted(Find(records, key), now);
      records[key := if ShouldLog(r, now, o) then r.(lastLogged := now) else r]
  }

  function LineOf(records: Records, e: Event): seq<Line> {
    match e
    case Reset(_) => []
    case Call(key, message, level, now, o) =>
      var r := Counted(Find(records, key), now);
      if ShouldLog(r, now, o) then [Line(key, now, message, level, r.count, now - r.firstSeen)] else []
  }

  // ----- runs ---------------------------------------------------------------

  function After(events: seq<Event>): Records {
    if events == [] then map[] else RecordAfter(After(events[..|events| - 1]), events[|events| - 1])
  }

  function LogOf(events: seq<Event>): seq<Line> {
    if events == [] then []
    else
      var front := events[..|events| - 1];
      LogOf(front) + LineOf(After(front), events[|events| - 1])
  }

  class Throttler {
    var errorRecords: Records
    var log: seq<Line>
    ghost var history: seq<Event>

    /** The records and the log are those of the calls and resets so far. */
    ghost predicate Valid()
      reads this
    {
      errorRecords == After(history) && log == LogOf(history)
    }

    constructor ()
      ensures Valid() && history == []
    {
      errorRecords, log, history := map[], [], [];
    }

    method ThrottledLog(key: string, message: string, level: string, now: int, options: Options)
      requires Valid()
      modifies this
      ensures Valid() && history == old(history) + [Call(key, message, level, now, options)]
      ensures log == old(log) + LineOf(After(old(history)), Call(key, message, level, now, options))
    {
      var record := if key in errorRecords then errorRecords[key] else ErrorRecord(0, 0, now);
      record := record.(count := record.count + 1);
      var shouldLog := false;
      if record.count == 1 {
        shouldLog := true;
      } else {
        var timeSinceLastLog := now - record.lastLogged;
        var logInterval :=
          if record.count <= options.maxOccurrences then options.initialLogInterval
          else options.subsequentLogInterval;
        if timeSinceLastLog >= logInterval { shouldLog := true; }
        var timeSinceFirstSeen := now - record.firstSeen;
        if timeSinceFirstSeen >= options.summarizeInterval && now - record.lastLogged >= options.summarizeInterval {
          shouldLog := true;
        }
      }
      if shouldLog {
        log := log + [Line(key, now, message, level, record.count, now - record.firstSeen)];
        record := record.(lastLogged := now);
      }
      errorRecords := errorRecords[key := record];
      history := history + [Call(key, message, level, now, options)];
      assert history[..|history| - 1] == old(history);
    }

    method ResetTracking(key: string)
      requires Valid()
      modifies this`errorRecords, this`history
      ensures Valid() && history == old(history) + [Reset(key)]
    {
      errorRecords := errorRecords - {key};
      history := history + [Reset(key)];
      assert history[..|history| - 1] == old(history);
    }
  }

  function OfKey(key: string): Line -> bool { (l: Line) => l.key == key }

  function LinesOf(events: seq<Event>, key: string): seq<Line> { Filter(LogOf(events), OfKey(key)) }

  /** The calls for the key since its last reset. */
  function Calls(events: seq<Event>, key: string): seq<Event> {
    if events == [] then []
    else
      var before, last := Calls(events[..|events| - 1], key), events[|events| - 1];
      if last.key != key then before else if last.Reset? then [] else before + [last]
  }

  predicate HasRecord(calls: seq<Event>, r: Option<ErrorRecord>) {
    match r
    case None => calls == []
    case Some(record) => calls != [] && record.count == |calls| && calls[0].Call? && record.firstSeen == calls[0].now
  }

  /** The record of a key counts the calls since the last reset, whatever other keys do. */
  lemma {:induction false} RecordCountsCalls(events: seq<Event>, key: string)
    ensures HasRecord(Calls(events, key), Find(After(events), key))
  {
    if events != [] { RecordCountsCalls(events[..|events| - 1], key); }
  }

  // ----- when a line is logged ----------------------------------------------

  lemma LinesPush(events: seq<Event>, e: Event, key: string)
    ensures LinesOf(events + [e], key) == LinesOf(events, key) + if e.key == key then LineOf(After(events), e) else []
  {
    assert (events + [e])[..|events|] == events;
    FilterConcat(LogOf(events), LineOf(After(events), e), OfKey(key));
    var added := LineOf(After(events), e);
    assert |added| <= 1 && forall l | l in added :: l.key == e.key;
    assert added == [] || added == [added[0]];
  }

  predicate LastLineIs(lines: seq<Line>, time: int) { lines != [] && lines[|lines| - 1].time == time }

  /** The record remembers the time of the key's last line. */
  lemma {:induction false} RecordRemembersLine(events: seq<Event>, key: string)
    ensures key in After(events) ==> LastLineIs(LinesOf(events, key), After(events)[key].lastLogged)
  {
    if events != [] {
      var front, last := events[..|events| - 1], events[|events| - 1];
      assert events == front + [last];
      RecordRemembersLine(front, key);
      RecordCountsCalls(front, key);
      LinesPush(front, last, key);
      hide LinesOf;
    }
  }

  /** Where the key's calls since the last reset and its last line decide. */
  predicate Due(calls: seq<Event>, lines: seq<Line>, now: int, o: Options) {
    calls == []
    || (lines != [] && calls[0].Call? &&
        var last, first := lines[|lines| - 1].time, calls[0].now;
        || now - last >= (if |calls| + 1 <= o.maxOccurrences then o.initialLogInterval else o.subsequentLogInterval)
        || (now - first >= o.summarizeInterval && now - last >= o.summarizeInterval))
  }

  /** A call is logged exactly when it is the first since the last reset, or its interval has passed since the
      key's last line, or the summary interval has passed since both the first call and the last line. */
  lemma LoggedIff(events: seq<Event>, call: Event)
    requires call.Call?
    ensures LineOf(After(events), call) != [] <==>
      Due(Calls(events, call.key), LinesOf(events, call.key), call.now, call.options)
  {
    RecordCountsCalls(events, call.key);
    RecordRemembersLine(events, call.key);
    hide LinesOf, Calls, After;
  }

  /** A line that is logged tells the call, how many calls there were since the last reset, and how long ago the first
      of them was; a reset logs nothing, and the log only grows. */
  lemma ReportedCountIsCalls(events: seq<Event>, e: Event)
    ensures var calls := Calls(events + [e], e.key);
      LogOf(events + [e]) == LogOf(events)
        + if e.Reset? || !Due(Calls(events, e.key), LinesOf(events, e.key), e.now, e.options) then []
          else [Line(e.key, e.now, e.message, e.level, |calls|, e.now - FirstOf(calls))]
  {
    assert (events + [e])[..|events|] == events;
    RecordCountsCalls(events, e.key);
    if e.Call? { LoggedIff(events, e); }
    hide Due, LinesOf;
  }

  function FirstOf(calls: seq<Event>): int { if calls != [] && calls[0].Call? then calls[0].now else 0 }

  // ----- the rate -----------------------------------------------------------

  function Min(a: int, b: int): int { if a <= b then a else b }

  function Gap(o: Options): int { Min(o.initialLogInterval, Min(o.subsequentLogInterval, o.summarizeInterval)) }

  /** No reset of the key, its calls all have these options, and their clock does not go back. */
  ghost predicate Steady(events: seq<Event>, key: string, o: Options) {
    && (forall i | 0 <= i < |events| && events[i].key == key :: events[i].Call? && events[i].options == o)
    && forall i, j | 0 <= i < j < |events| && events[i].key == key && events[j].key == key
                     && events[i].Call? && events[j].Call? ::
         events[i].now <= events[j].now
  }

  ghost predicate Apart(lines: seq<Line>, gap: int) {
    forall i, j | 0 <= i < j < |lines| :: lines[j].time - lines[i].time >= gap
  }

  lemma ApartPush(lines: seq<Line>, line: Line, gap: nat)
    requires Apart(lines, gap) && (lines != [] ==> line.time - lines[|lines| - 1].time >= gap)
    ensures Apart(lines + [line], gap)
  {
  }

  lemma {:induction false} FirstCallComesFirst(events: seq<Event>, key: string)
    requires forall i | 0 <= i < |events| && events[i].key == key :: events[i].Call?
    ensures Calls(events, key) == [] ==> LinesOf(events, key) == []
  {
    if events != [] {
      var front, last := events[..|events| - 1], events[|events| - 1];
      assert events == front + [last];
      assert forall i | 0 <= i < |front| :: front[i] == events[i];
      FirstCallComesFirst(front, key);
      LinesPush(front, last, key);
      hide LinesOf;
    }
  }

  /** Any two lines of the key are at least the smallest interval apart. */
  lemma {:induction false} LinesAreApart(events: seq<Event>, key: string, o: Options)
    requires Steady(events, key, o) && Gap(o) >= 0
    ensures Apart(LinesOf(events, key), Gap(o))
    decreases |events|
  {
    if events != [] {
      var front, last := events[..|events| - 1], events[|events| - 1];
      assert events == front + [last];
      assert forall i | 0 <= i < |front| :: front[i] == events[i];
      LinesAreApart(front, key, o);
      LinesPush(front, last, key);
      if last.key == key && LineOf(After(front), last) != [] {
        var line := LineOf(After(front), last)[0];
        assert LineOf(After(front), last) == [line] && line.time == last.now && last.options == o;
        FirstCallComesFirst(front, key);
        LoggedIff(front, last);
        hide LineOf, LinesOf, After, Steady, Calls;
        ApartPush(LinesOf(front, key), line, Gap(o));
      }
    }
  }

  function Within(from: int, to: int): Line -> bool { (l: Line) => from <= l.time <= to }

  /** A window of length T holds at most 1 + T/m lines of the key, m being the smallest interval. */
  lemma WindowBound(events: seq<Event>, key: string, o: Options, from: int, length: nat)
    requires Steady(events, key, o) && Gap(o) > 0
    ensures |Filter(LinesOf(events, key), Within(from, from + length))| <= 1 + length / Gap(o)
  {
    LinesAreApart(events, key, o);
    FilterKeepsApart(LinesOf(events, key), Within(from, from + length), Gap(o));
    var inside := Filter(LinesOf(events, key), Within(from, from + length));
    forall l | l in inside ensures from <= l.time <= from + length {
      FilterMember(LinesOf(events, key), Within(from, from + length), l);
    }
    hide Filter, LinesOf;
    if inside != [] {
      SpanOf(inside, Gap(o));
      assert inside[0] in inside && inside[|inside| - 1] in inside;
      DivideSpan(|inside| - 1, Gap(o), length);
    }
  }

  lemma {:induction false} FilterKeepsApart(lines: seq<Line>, p: Line -> bool, gap: int)
    requires Apart(lines, gap)
    ensures Apart(Filter(lines, p), gap)
  {
    if lines != [] {
      var rest := lines[1..];
      assert forall i | 0 <= i < |rest| :: rest[i] == lines[i + 1];
      FilterKeepsApart(rest, p, gap);
      forall i | 0 <= i < |Filter(rest, p)| ensures Filter(rest, p)[i].time - lines[0].time >= gap {
        FilterMember(rest, p, Filter(rest, p)[i]);
      }
    }
  }

  lemma {:induction false} SpanOf(lines: seq<Line>, gap: nat)
    requires lines != [] && Apart(lines, gap)
    ensures lines[|lines| - 1].time - lines[0].time >= (|lines| - 1) * gap
  {
    if |lines| > 1 {
      var front := lines[..|lines| - 1];
      SpanOf(front, gap);
      assert lines[|lines| - 1].time - lines[|lines| - 2].time >= gap;
      assert (|lines| - 1) * gap == (|front| - 1) * gap + gap;
    }
  }

  lemma DivideSpan(n: nat, gap: nat, length: nat)
    requires gap > 0 && n * gap <= length
    ensures n <= length / gap
  {
    var q := length / gap;
    MoreIsMore(n, q + 1, gap);
    assert length < (q + 1) * gap;
  }

  lemma MoreIsMore(a: nat, b: nat, gap: nat)
    ensures a >= b ==> a * gap >= b * gap
  {
  }

  /** A call that is kept back is close to the key's last line: messages never stop for longer than the
      greater interval while calls come. */
  lemma SuppressedIsRecent(events: seq<Event>, call: Event)
    requires call.Call? && LineOf(After(events), call) == []
    ensures var lines := LinesOf(events, call.key);
      && lines != []
      && (call.now - lines[|lines| - 1].time < call.options.initialLogInterval
          || call.now - lines[|lines| - 1].time < call.options.subsequentLogInterval)
  {
    RecordCountsCalls(events, call.key);
    RecordRemembersLine(events, call.key);
    hide LinesOf, Calls, After;
  }
}

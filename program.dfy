/** The dispatcher: hard filters, the raw-text or field filters, the run
    counters, the single active processor and the end-of-run summary. */
module Dispatch {
  import opened TraceTypes
  import opened Extensions
  import opened Tables
  import opened Processors

  // ---------------------------------------------------------------------
  // Run configuration and the filter decision
  // ---------------------------------------------------------------------

  /** A field filter: a field name and its regular expression, which is
      tested against the field's string form. The regular expression is
      kept abstract, as the predicate it decides. */
  datatype FieldFilter = FieldFilter(field: string, pattern: string -> bool)

  /** Whether the filter matches the event; reading a payload value that
      cannot be read throws. */
  function IsMatch(f: FieldFilter, e: Event): (r: Result<bool>)
    ensures r.Throws? ==> r.error == ArgumentOutOfRange
  {
    match GetFieldByName(e, f.field)
    case Ok(v) => Ok(f.pattern(v))
    case Throws(x) => Throws(x)
  }

  /** The options the dispatcher reads. -1 disables the process and thread
      filters; an empty set of event names disables the name filter. */
  datatype Options = Options(
    processId: int,
    threadId: int,
    events: set<string>,
    rawFilter: Option<string -> bool>,
    fieldFilters: seq<FieldFilter>,
    displayFields: seq<string>,
    statsOnly: bool)

  predicate PassesHardFilters(o: Options, e: Event)
  {
    (o.processId == -1 || o.processId == e.processId) &&
    (o.threadId == -1 || o.threadId == e.threadId) &&
    (|o.events| == 0 || e.eventName in o.events)
  }

  /** The filters before index `k` were all evaluated and did not match. */
  predicate NoMatchBefore(fs: seq<FieldFilter>, e: Event, k: nat)
    requires k <= |fs|
  {
    forall j :: 0 <= j < k ==> IsMatch(fs[j], e) == Ok(false)
  }

  /** The field filters evaluated in order: the index of the first one that
      matches, None when none does, or the exception of the first one that
      throws before any matched. */
  function FirstMatch(fs: seq<FieldFilter>, e: Event): (r: Result<Option<nat>>)
    ensures r.Ok? && r.value.Some? ==>
      r.value.value < |fs| && IsMatch(fs[r.value.value], e) == Ok(true) && NoMatchBefore(fs, e, r.value.value)
    ensures r.Ok? && r.value.None? ==> NoMatchBefore(fs, e, |fs|)
    ensures r.Throws? ==>
      exists k :: 0 <= k < |fs| && IsMatch(fs[k], e) == Throws(r.error) && NoMatchBefore(fs, e, k)
  {
    if fs == [] then Ok(None)
    else match IsMatch(fs[0], e)
      case Throws(x) => Throws(x)
      case Ok(true) => Ok(Some(0))
      case Ok(false) =>
        match FirstMatch(fs[1..], e)
        case Throws(x) =>
          var k :| 0 <= k < |fs[1..]| && IsMatch(fs[1..][k], e) == Throws(x) && NoMatchBefore(fs[1..], e, k);
          assert IsMatch(fs[k + 1], e) == Throws(x) && NoMatchBefore(fs, e, k + 1);
          Throws(x)
        case Ok(None) => Ok(None)
        case Ok(Some(i)) => Ok(Some(i + 1))
  }

  /** The field filters' loop: each filter in order until one matches,
      which ends the search, or one throws. */
  method FindFieldMatch(fs: seq<FieldFilter>, e: Event) returns (r: Result<Option<nat>>)
    ensures r == FirstMatch(fs, e)
  {
    var i := 0;
    while i < |fs|
      invariant 0 <= i <= |fs|
      invariant NoMatchBefore(fs, e, i)
    {
      FirstMatchAt(fs, e, i);
      match IsMatch(fs[i], e) {
        case Throws(x) =>
          return Throws(x);
        case Ok(true) =>
          return Ok(Some(i));
        case Ok(false) =>
      }
      i := i + 1;
    }
    NoMatchAnywhere(fs, e);
    return Ok(None);
  }

  /** What the dispatcher does with one event: drop it, forward it, forward
      it together with its rendered raw text, or fail with the exception a
      field filter threw. */
  datatype Decision = Drop | Forward | ForwardWithText(text: string) | Fail(error: Exception)

  predicate Forwards(d: Decision)
  {
    d.Forward? || d.ForwardWithText?
  }

  function Decide(o: Options, e: Event, osProcessName: string): (d: Decision)
    ensures !PassesHardFilters(o, e) ==> d == Drop
    ensures d.ForwardWithText? ==>
      o.rawFilter.Some? && d.text == RawString(e, osProcessName) && o.rawFilter.value(d.text)
    ensures d.Fail? ==> o.rawFilter.None? && d.error == ArgumentOutOfRange
  {
    if !PassesHardFilters(o, e) then Drop
    else match o.rawFilter
      case Some(matches) =>
        var s := RawString(e, osProcessName);
        if matches(s) then ForwardWithText(s) else Drop
      case None =>
        if |o.fieldFilters| > 0 then
          match FirstMatch(o.fieldFilters, e)
          case Throws(x) => Fail(x)
          case Ok(Some(_)) => Forward
          case Ok(None) => Drop
        else Forward
  }

  /** Evaluating the filters in order up to `i`: the filter at `i` decides
      FirstMatch when it throws or matches. */
  lemma FirstMatchAt(fs: seq<FieldFilter>, e: Event, i: nat)
    requires i < |fs| && NoMatchBefore(fs, e, i)
    ensures IsMatch(fs[i], e).Throws? ==> FirstMatch(fs, e) == Throws(IsMatch(fs[i], e).error)
    ensures IsMatch(fs[i], e) == Ok(true) ==> FirstMatch(fs, e) == Ok(Some(i))
  {
    match FirstMatch(fs, e) {
      case Ok(Some(m)) =>
      case Ok(None) =>
      case Throws(y) =>
    }
  }

  /** When no filter matches and none throws, FirstMatch finds nothing. */
  lemma NoMatchAnywhere(fs: seq<FieldFilter>, e: Event)
    requires NoMatchBefore(fs, e, |fs|)
    ensures FirstMatch(fs, e) == Ok(None)
  {
    match FirstMatch(fs, e) {
      case Ok(Some(m)) =>
      case Ok(None) =>
      case Throws(y) =>
    }
  }

  /** The text handed to the processor with the event, if any. */
  function Description(d: Decision): Option<string>
  {
    if d.ForwardWithText? then Some(d.text) else None
  }

  /** An event forwarded, or one that fails, has passed every hard filter. */
  lemma HardFiltersFirst(o: Options, e: Event, osProcessName: string)
    ensures Decide(o, e, osProcessName) != Drop ==>
      (o.processId == -1 || o.processId == e.processId) &&
      (o.threadId == -1 || o.threadId == e.threadId) &&
      (|o.events| == 0 || e.eventName in o.events)
  {
  }

  /** With a raw filter the field filters are never consulted. */
  lemma RawFilterPrecedence(o: Options, e: Event, osProcessName: string, fs: seq<FieldFilter>)
    requires o.rawFilter.Some?
    ensures Decide(o.(fieldFilters := fs), e, osProcessName) == Decide(o, e, osProcessName)
  {
  }

  /** A raw filter forwards exactly the events whose raw text it matches,
      and hands that text on. */
  lemma RawFilterForwardsText(o: Options, e: Event, osProcessName: string)
    requires o.rawFilter.Some? && PassesHardFilters(o, e)
    ensures o.rawFilter.value(RawString(e, osProcessName)) ==>
      Decide(o, e, osProcessName) == ForwardWithText(RawString(e, osProcessName))
    ensures !o.rawFilter.value(RawString(e, osProcessName)) ==> Decide(o, e, osProcessName) == Drop
  {
  }

  /** Field filters are alternatives tried in order: the event is
      forwarded, without a text, exactly when some filter matches after all
      earlier ones evaluated to no match, and dropped exactly when none
      matches. When every field can be read this is a plain OR. */
  lemma FieldFiltersAreAlternatives(o: Options, e: Event, osProcessName: string)
    requires o.rawFilter.None? && |o.fieldFilters| > 0 && PassesHardFilters(o, e)
    ensures Decide(o, e, osProcessName) == Forward <==>
      exists i :: 0 <= i < |o.fieldFilters| && IsMatch(o.fieldFilters[i], e) == Ok(true) &&
        NoMatchBefore(o.fieldFilters, e, i)
    ensures Decide(o, e, osProcessName) == Drop <==> NoMatchBefore(o.fieldFilters, e, |o.fieldFilters|)
    ensures (forall i :: 0 <= i < |o.fieldFilters| ==> IsMatch(o.fieldFilters[i], e).Ok?) ==>
      (Decide(o, e, osProcessName) == Forward <==>
       exists i :: 0 <= i < |o.fieldFilters| && IsMatch(o.fieldFilters[i], e) == Ok(true))
  {
    var fs := o.fieldFilters;
    if exists i :: 0 <= i < |fs| && IsMatch(fs[i], e) == Ok(true) && NoMatchBefore(fs, e, i) {
      var i :| 0 <= i < |fs| && IsMatch(fs[i], e) == Ok(true) && NoMatchBefore(fs, e, i);
      FirstMatchAt(fs, e, i);
    }
    if forall i :: 0 <= i < |fs| ==> IsMatch(fs[i], e).Ok? {
      match FirstMatch(fs, e) {
        case Ok(Some(m)) =>
        case Ok(None) =>
        case Throws(x) =>
      }
    }
  }

  /** A field filter that throws before any filter matched ends the
      decision with its exception. */
  lemma FieldFilterThrows(o: Options, e: Event, osProcessName: string)
    requires o.rawFilter.None? && |o.fieldFilters| > 0 && PassesHardFilters(o, e)
    ensures Decide(o, e, osProcessName).Fail? <==>
      exists k :: 0 <= k < |o.fieldFilters| && IsMatch(o.fieldFilters[k], e).Throws? &&
        NoMatchBefore(o.fieldFilters, e, k)
  {
    var fs := o.fieldFilters;
    if exists k :: 0 <= k < |fs| && IsMatch(fs[k], e).Throws? && NoMatchBefore(fs, e, k) {
      var k :| 0 <= k < |fs| && IsMatch(fs[k], e).Throws? && NoMatchBefore(fs, e, k);
      FirstMatchAt(fs, e, k);
    }
  }

  /** The filter `Size=.*` over an event whose only payload field, Size,
      cannot be read: the run fails instead of dropping or forwarding. */
  lemma UnreadableFieldFilterFails()
    ensures
      var e := Event("E", "", "p", 1, 1, "t", [PayloadField("Size", Unreadable)]);
      var o := Options(-1, -1, {}, None, [FieldFilter("Size", _ => true)], [], false);
      Decide(o, e, "") == Fail(ArgumentOutOfRange)
  {
    var e := Event("E", "", "p", 1, 1, "t", [PayloadField("Size", Unreadable)]);
    assert PayloadByName(e.payload, "Size") == Some(Unreadable);
  }

  /** Without raw or field filters every event that passes the hard
      filters is forwarded. */
  lemma NoFiltersForwardAll(o: Options, e: Event, osProcessName: string)
    requires o.rawFilter.None? && o.fieldFilters == [] && PassesHardFilters(o, e)
    ensures Decide(o, e, osProcessName) == Forward
  {
  }

  /** An event as it reaches the dispatcher, with the name the operating
      system reports for its process id. */
  datatype Arrival = Arrival(event: Event, osProcessName: string)

  /** The events forwarded from a stream of arrivals, in arrival order; no
      more events are forwarded than arrive. */
  function Forwarded(o: Options, arrivals: seq<Arrival>): (r: seq<Event>)
    ensures |r| <= |arrivals|
    decreases |arrivals|
  {
    if arrivals == [] then []
    else
      var last := arrivals[|arrivals| - 1];
      Forwarded(o, arrivals[..|arrivals| - 1]) +
      (if Forwards(Decide(o, last.event, last.osProcessName)) then [last.event] else [])
  }

  lemma ForwardedStep(o: Options, arrivals: seq<Arrival>, a: Arrival)
    ensures Forwarded(o, arrivals + [a]) ==
      Forwarded(o, arrivals) + (if Forwards(Decide(o, a.event, a.osProcessName)) then [a.event] else [])
  {
    assert (arrivals + [a])[..|arrivals|] == arrivals;
  }

  function EventWithPid(name: string, pid: int): Event
  {
    Event(name, "", "p", pid, 1, "t", [])
  }

  /** The options of a run filtered by process id only. */
  function ProcessFilterOnly(pid: int): Options
  {
    Options(pid, -1, {}, None, [], [], false)
  }

  /** The arrivals of the example below. */
  function ExampleArrivals(): seq<Arrival>
  {
    [Arrival(EventWithPid("X", 100), ""), Arrival(EventWithPid("X", 200), ""),
     Arrival(EventWithPid("Y", 100), ""), Arrival(EventWithPid("X", 100), ""),
     Arrival(EventWithPid("Z", 300), "")]
  }

  /** Under a process filter alone, an event is forwarded exactly when it
      comes from that process. */
  lemma ProcessFilterOnlyDecides(pid: int, e: Event, osProcessName: string)
    requires pid != -1
    ensures Decide(ProcessFilterOnly(pid), e, osProcessName) == if e.processId == pid then Forward else Drop
  {
  }

  /** Events X, X, Y, X, Z from processes 100, 200, 100, 100, 300 with a
      process filter of 100: events 1, 3 and 4 are forwarded, in order. */
  lemma ProcessFilterExample()
    ensures var a := ExampleArrivals();
      Forwarded(ProcessFilterOnly(100), a) == [a[0].event, a[2].event, a[3].event]
  {
    var o := ProcessFilterOnly(100);
    var a := ExampleArrivals();
    var p1, p2, p3, p4 := [a[0]], [a[0], a[1]], [a[0], a[1], a[2]], [a[0], a[1], a[2], a[3]];
    assert Forwarded(o, []) == [];
    assert p1 == [] + [a[0]] && p2 == p1 + [a[1]] && p3 == p2 + [a[2]] && p4 == p3 + [a[3]];
    ProcessFilterOnlyDecides(100, a[0].event, "");
    ForwardedStep(o, [], a[0]);
    ProcessFilterOnlyDecides(100, a[1].event, "");
    ForwardedStep(o, p1, a[1]);
    ProcessFilterOnlyDecides(100, a[2].event, "");
    ForwardedStep(o, p2, a[2]);
    ProcessFilterOnlyDecides(100, a[3].event, "");
    ForwardedStep(o, p3, a[3]);
    ProcessFilterOnlyDecides(100, a[4].event, "");
    ForwardedStep(o, p4, a[4]);
    assert a == p4 + [a[4]];
  }

  // ---------------------------------------------------------------------
  // The active processor
  // ---------------------------------------------------------------------

  /** The one processor of a run. */
  datatype Processor =
    | Statistics(aggregator: EventStatisticsAggregator)
    | TablePrinter(tablePrinter: EveryEventTablePrinter)
    | RawPrinter(rawPrinter: EveryEventPrinter)
  {
    ghost function Repr(): set<object>
    {
      match this
      case Statistics(a) => a.Repr()
      case TablePrinter(t) => {t, t.table}
      case RawPrinter(p) => {p}
    }

    /** What handing the processor an event may change: only the
        aggregator's dictionaries; the printers change nothing. */
    ghost function Counters(): set<object>
    {
      match this
      case Statistics(a) => a.Counters()
      case _ => {}
    }

    ghost predicate Valid()
      reads Repr()
    {
      match this
      case Statistics(a) => a.Valid()
      case TablePrinter(t) => t.Valid()
      case RawPrinter(_) => true
    }
  }

  /** What writing a row depends on, taken from the processor: which
      processor it is and, for the table printer, its columns and the room
      left on a row. */
  datatype Sink = StatisticsSink | TableSink(columns: seq<Column>, room: int) | RawSink

  ghost function SinkOf(p: Processor): Sink
    reads if p.TablePrinter? then {p.tablePrinter.table} else {}
  {
    match p
    case Statistics(_) => StatisticsSink
    case TablePrinter(t) => TableSink(t.table.Columns, t.table.MaxWidth - t.table.usedWidth)
    case RawPrinter(_) => RawSink
  }

  /** What the processor writes for a forwarded event; only the table
      printer can throw. */
  function Consumed(k: Sink, e: Event, description: Option<string>, osProcessName: string): (r: Result<seq<Output>>)
    ensures r.Throws? ==> k.TableSink?
    ensures k.TableSink? && description.Some? ==> r == Throws(NotImplemented)
    ensures k.TableSink? && description.None? && RowValues(k.columns, e).Throws? ==>
      r == Throws(ArgumentOutOfRange)
    ensures k.RawSink? && description.Some? ==> r == Ok([Text(description.value + "\n")])
  {
    match k
    case StatisticsSink => Ok([])
    case TableSink(columns, room) =>
      if description.Some? then Throws(NotImplemented)
      else (match RowValues(columns, e)
        case Throws(x) => Throws(x)
        case Ok(values) =>
          match RowText(columns, values, room)
          case Ok(s) => Ok([Text(s)])
          case Throws(x) => Throws(x))
    case RawSink =>
      Ok([Text((if description.Some? then description.value else RawString(e, osProcessName)) + "\n")])
  }

  /** What handling one event comes to: whether it is counted as
      displayed, what is written, and the exception that ends the run. */
  datatype Outcome = Outcome(counted: bool, output: seq<Output>, raised: Option<Exception>)

  /** The part of the dispatcher's state that handling one event changes:
      the count of displayed events, the displayed events themselves, the
      console and the exception that ended the run. */
  datatype Tally = Tally(notFiltered: nat, displayed: seq<Event>, console: seq<Output>, failure: Option<Exception>)

  /** The tally after an event with outcome `o`. */
  function Tallied(t: Tally, e: Event, o: Outcome): Tally
  {
    Tally(t.notFiltered + (if o.counted then 1 else 0), t.displayed + (if o.counted then [e] else []),
      t.console + o.output, o.raised)
  }

  /** A processor's result as an outcome: its output is written and the
      event counted, or its exception ends the run. */
  function Recorded(result: Result<seq<Output>>): (r: Outcome)
    ensures r.counted <==> result.Ok?
    ensures result.Ok? ==> r.output == result.value && r.raised.None?
    ensures result.Throws? ==> r.output == [] && r.raised == Some(result.error)
  {
    match result
    case Ok(out) => Outcome(true, out, None)
    case Throws(x) => Outcome(false, [], Some(x))
  }

  /** A dropped event changes nothing and a failed one raises its
      exception; a forwarded one is counted and its output written unless
      the processor throws. */
  function HandlingOutcome(k: Sink, e: Event, osProcessName: string, d: Decision): (r: Outcome)
    ensures r.counted ==> Forwards(d) && r.raised.None?
    ensures !Forwards(d) ==> r.output == [] && (r.raised.Some? <==> d.Fail?)
    ensures r.raised.Some? ==> !r.counted && r.output == []
  {
    match d
    case Drop => Outcome(false, [], None)
    case Fail(x) => Outcome(false, [], Some(x))
    case _ => Recorded(Consumed(k, e, Description(d), osProcessName))
  }

  /** What disposing the processor writes: the aggregator's reports on its
      first disposal, nothing otherwise. */
  ghost function DisposeOutput(p: Processor): (r: seq<Output>)
    reads p.Repr()
    requires p.Valid()
    ensures !p.Statistics? ==> r == []
  {
    match p
    case Statistics(a) =>
      if a.disposed then []
      else [CountTable("Events by name", "Event", a.countByEventName.Report()),
            CountTable("Events by process", "Process", a.countByProcess.Report())]
    case _ => []
  }

  /** The processor the options select, as it is just after creation:
      statistics only first, then the table printer when display fields are
      given (its columns admitted within the width, its header rendered),
      else the raw printer. */
  ghost predicate Created(p: Processor, options: Options, maxWidth: nat)
    reads p.Repr()
  {
    p.Valid() &&
    (options.statsOnly ==>
      p.Statistics? && p.aggregator.Counted([]) && !p.aggregator.disposed &&
      p.aggregator.countByEventName.counts == map[] && p.aggregator.countByProcess.counts == map[]) &&
    (!options.statsOnly && |options.displayFields| > 0 ==> p.TablePrinter?) &&
    (p.TablePrinter? ==>
      p.tablePrinter.table.MaxWidth == maxWidth &&
      p.tablePrinter.table.Columns == Admit(Requested(options.displayFields), maxWidth) &&
      p.tablePrinter.header == HeaderText(p.tablePrinter.table.Columns, p.tablePrinter.table.usedWidth)) &&
    (!options.statsOnly && |options.displayFields| == 0 ==> p.RawPrinter?)
  }

  /** Creates the processor of the run. */
  method CreateEventProcessor(options: Options, maxWidth: nat) returns (p: Processor)
    ensures Created(p, options, maxWidth) && fresh(p.Repr())
  {
    if options.statsOnly {
      var a := new EventStatisticsAggregator();
      p := Statistics(a);
    } else if |options.displayFields| > 0 {
      var t := new EveryEventTablePrinter(options.displayFields, maxWidth);
      p := TablePrinter(t);
    } else {
      var r := new EveryEventPrinter();
      p := RawPrinter(r);
    }
  }

  /** Creates the processor of the run, with what creating it writes: the
      table printer's header, or the exception printing it threw. */
  method OpenProcessor(options: Options, maxWidth: nat)
    returns (p: Processor, opening: seq<Output>, thrown: Option<Exception>)
    ensures Created(p, options, maxWidth) && fresh(p.Repr())
    ensures p.TablePrinter? && p.tablePrinter.header.Ok? ==>
      opening == [Text(p.tablePrinter.header.value)] && thrown == None
    ensures p.TablePrinter? && p.tablePrinter.header.Throws? ==>
      opening == [] && thrown == Some(p.tablePrinter.header.error)
    ensures !p.TablePrinter? ==> opening == [] && thrown == None
  {
    p := CreateEventProcessor(options, maxWidth);
    opening, thrown := [], None;
    if p.TablePrinter? {
      match p.tablePrinter.header {
        case Ok(h) => opening := [Text(h)];
        case Throws(x) => thrown := Some(x);
      }
    }
  }

  // ---------------------------------------------------------------------
  // The dispatcher
  // ---------------------------------------------------------------------

  class Dispatcher {
    const options: Options
    const processor: Processor
    /** Every event seen. */
    var processedEvents: nat
    /** Every event handed to the processor without an exception. */
    var notFilteredEvents: nat
    var statsPrinted: bool
    /** A live session is open (the session reference is not null). */
    var sessionOpen: bool
    /** The exception that ended the run, if any. */
    var failure: Option<Exception>
    /** Everything written to the console so far. */
    var console: seq<Output>
    ghost var seen: seq<Arrival>
    ghost var displayed: seq<Event>
    /** What the processor is and, for the table printer, its columns and
        the room left on a row; fixed when the processor is created. */
    ghost const sink: Sink

    ghost function Repr(): set<object>
    {
      {this} + processor.Repr()
    }

    /** The processor is apart from the dispatcher and is the one it was
        created as, and the aggregator has counted exactly the displayed
        events. */
    ghost predicate ProcessorReady()
      reads this`notFilteredEvents, this`displayed, processor.Repr()
    {
      this !in processor.Repr() && processor.Valid() && SinkOf(processor) == sink &&
      |displayed| == notFilteredEvents &&
      (processor.Statistics? ==> processor.aggregator.Counted(displayed))
    }

    /** The counters: every event seen is processed, the displayed events
        are those the filters forward, in arrival order (up to an exception
        that ends the run). */
    ghost predicate Valid()
      reads this`processedEvents, this`notFilteredEvents, this`failure, this`seen, this`displayed
      reads processor.Repr()
    {
      ProcessorReady() &&
      |seen| == processedEvents && notFilteredEvents <= processedEvents &&
      (failure.None? ==> displayed == Forwarded(options, seen))
    }

    constructor (options: Options, maxWidth: nat, liveSession: bool)
      ensures Valid() && fresh(processor.Repr())
      ensures this.options == options && Created(processor, options, maxWidth)
      ensures processedEvents == 0 && notFilteredEvents == 0
      ensures !statsPrinted && sessionOpen == liveSession
      ensures processor.TablePrinter? && processor.tablePrinter.header.Ok? ==>
        console == [Text(processor.tablePrinter.header.value)] && failure == None
      ensures processor.TablePrinter? && processor.tablePrinter.header.Throws? ==>
        console == [] && failure == Some(processor.tablePrinter.header.error)
      ensures !processor.TablePrinter? ==> console == [] && failure == None
    {
      var p, opening, thrown := OpenProcessor(options, maxWidth);
      assert Forwarded(options, []) == [];
      this.options, processor := options, p;
      processedEvents, notFilteredEvents := 0, 0;
      statsPrinted, sessionOpen := false, liveSession;
      seen, displayed := [], [];
      sink := SinkOf(p);
      console, failure := opening, thrown;
    }

    /** Hands a forwarded event to the processor, with the description the
        decision carries, and counts it as displayed unless the processor
        throws. */
    method TakeEvent(e: Event, d: Decision, osProcessName: string)
      requires ProcessorReady() && failure.None? && Forwards(d)
      modifies this`notFilteredEvents, this`displayed, this`console, this`failure
      modifies processor.Counters()
      ensures ProcessorReady()
      ensures Handled(e, osProcessName, d)
    {
      var result := Deliver(e, Description(d), osProcessName, displayed);
      Record(e, result);
    }

    /** Writes what the processor returned, counting the event, or keeps
        the exception that ends the run. */
    method Record(e: Event, result: Result<seq<Output>>)
      requires failure.None?
      modifies this`notFilteredEvents, this`displayed, this`console, this`failure
      ensures Current() == Tallied(old(Current()), e, Recorded(result))
    {
      match result {
        case Ok(out) =>
          console := console + out;
          notFilteredEvents := notFilteredEvents + 1;
          displayed := displayed + [e];
        case Throws(x) =>
          failure := Some(x);
      }
    }

    /** The processor's call: the described form when there is a
        description, the plain form otherwise. */
    method Deliver(e: Event, description: Option<string>, osProcessName: string, ghost events: seq<Event>)
      returns (result: Result<seq<Output>>)
      requires processor.Valid()
      requires processor.Statistics? ==> processor.aggregator.Counted(events)
      modifies processor.Counters()
      ensures processor.Valid()
      ensures result == Consumed(SinkOf(processor), e, description, osProcessName)
      ensures processor.Statistics? ==> processor.aggregator.Counted(events + [e])
    {
      match processor {
        case Statistics(a) =>
          ghost var byName, byProcess := a.countByEventName.counts, a.countByProcess.counts;
          ghost var nameTotal, processTotal := a.countByEventName.Total(), a.countByProcess.Total();
          if description.Some? {
            a.TakeDescribedEvent(e, description.value);
          } else {
            a.TakeEvent(e);
          }
          a.CountedStep(events, e, byName, byProcess, nameTotal, processTotal);
          result := Ok([]);
        case TablePrinter(t) =>
          var text: Result<string>;
          if description.Some? {
            text := t.TakeDescribedEvent(e, description.value);
          } else {
            text := t.TakeEvent(e);
          }
          result := (match text case Ok(s) => Ok([Text(s)]) case Throws(x) => Throws(x));
        case RawPrinter(r) =>
          var text: string;
          if description.Some? {
            text := r.TakeDescribedEvent(e, description.value);
          } else {
            text := r.TakeEvent(e, osProcessName);
          }
          result := Ok([Text(text)]);
      }
    }

    /** Counts the event, applies the hard filters, then the raw filter or
        else the field filters, and forwards the event at most once. */
    method ProcessEvent(e: Event, osProcessName: string)
      requires Valid() && failure.None?
      modifies this`processedEvents, this`seen, this`notFilteredEvents, this`displayed, this`console, this`failure
      modifies if Forwards(Decide(options, e, osProcessName)) then processor.Counters() else {}
      ensures Valid()
      ensures processedEvents == old(processedEvents) + 1
      ensures seen == old(seen) + [Arrival(e, osProcessName)]
      ensures Handled(e, osProcessName, Decide(options, e, osProcessName))
    {
      ForwardedStep(options, seen, Arrival(e, osProcessName));
      processedEvents := processedEvents + 1;
      seen := seen + [Arrival(e, osProcessName)];
      FilterEvent(e, osProcessName);
    }

    /** The hard filters on process, thread and event name, in that order;
        an event they pass goes on to the other filters. */
    method FilterEvent(e: Event, osProcessName: string)
      requires ProcessorReady() && failure.None?
      modifies this`notFilteredEvents, this`displayed, this`console, this`failure
      modifies if Forwards(Decide(options, e, osProcessName)) then processor.Counters() else {}
      ensures ProcessorReady()
      ensures Handled(e, osProcessName, Decide(options, e, osProcessName))
    {
      if options.processId != -1 && options.processId != e.processId {
        return;
      }
      if options.threadId != -1 && options.threadId != e.threadId {
        return;
      }
      if |options.events| > 0 && e.eventName !in options.events {
        return;
      }
      ApplyFilters(e, osProcessName);
    }

    /** The change handling event `e` under decision `d` makes, measured
        from the earlier state. */
    twostate predicate Handled(e: Event, osProcessName: string, d: Decision)
      reads Repr()
    {
      Current() == Tallied(old(Current()), e, HandlingOutcome(sink, e, osProcessName, d))
    }

    /** The dispatcher's current tally. */
    ghost function Current(): Tally
      reads this
    {
      Tally(notFilteredEvents, displayed, console, failure)
    }

    /** The part of ProcessEvent after the hard filters: the raw filter
        when there is one, else the field filters, else the event is
        forwarded as it is. */
    method ApplyFilters(e: Event, osProcessName: string)
      requires ProcessorReady() && failure.None? && PassesHardFilters(options, e)
      modifies this`notFilteredEvents, this`displayed, this`console, this`failure
      modifies if Forwards(Decide(options, e, osProcessName)) then processor.Counters() else {}
      ensures ProcessorReady()
      ensures Handled(e, osProcessName, Decide(options, e, osProcessName))
    {
      if options.rawFilter.Some? {
        ApplyRawFilter(e, osProcessName);
      } else if |options.fieldFilters| > 0 {
        ApplyFieldFilters(e, osProcessName);
      } else {
        TakeEvent(e, Forward, osProcessName);
      }
    }

    /** The raw filter is matched against the event's raw text, which is
        handed on with the event. */
    method ApplyRawFilter(e: Event, osProcessName: string)
      requires ProcessorReady() && failure.None? && PassesHardFilters(options, e)
      requires options.rawFilter.Some?
      modifies this`notFilteredEvents, this`displayed, this`console, this`failure
      modifies if Forwards(Decide(options, e, osProcessName)) then processor.Counters() else {}
      ensures ProcessorReady()
      ensures Handled(e, osProcessName, Decide(options, e, osProcessName))
    {
      var s := AsRawString(e, osProcessName);
      if options.rawFilter.value(s) {
        TakeEvent(e, ForwardWithText(s), osProcessName);
      }
    }

    /** The field filters are tried in order; the first match forwards the
        event and ends the search, and a filter that throws ends the run. */
    method ApplyFieldFilters(e: Event, osProcessName: string)
      requires ProcessorReady() && failure.None? && PassesHardFilters(options, e)
      requires options.rawFilter.None? && |options.fieldFilters| > 0
      modifies this`notFilteredEvents, this`displayed, this`console, this`failure
      modifies if Forwards(Decide(options, e, osProcessName)) then processor.Counters() else {}
      ensures ProcessorReady()
      ensures Handled(e, osProcessName, Decide(options, e, osProcessName))
    {
      var found := FindFieldMatch(options.fieldFilters, e);
      match found {
        case Throws(x) =>
          failure := Some(x);
        case Ok(Some(_)) =>
          TakeEvent(e, Forward, osProcessName);
        case Ok(None) =>
      }
    }

    /** Disposes the processor; only the aggregator writes anything, and
        only the first time. */
    method DisposeProcessor()
      requires Valid()
      modifies this`console, if processor.Statistics? then {processor.aggregator} else {}
      ensures Valid()
      ensures console == old(console) + old(DisposeOutput(processor))
      ensures DisposeOutput(processor) == []
    {
      match processor {
        case Statistics(a) =>
          var out := a.Dispose();
          console := console + out;
        case TablePrinter(_) =>
        case RawPrinter(_) =>
      }
    }

    /** With the aggregator, the reports count the forwarded events: each
        row holds the number of forwarded events with its name (or process
        name), and every name (or process name) of a forwarded event has a
        row. */
    lemma ReportsCountForwarded()
      requires Valid() && failure.None? && processor.Statistics?
      ensures var r, names := processor.aggregator.countByEventName.Report(), multiset(EventNames(Forwarded(options, seen)));
        (forall i :: 0 <= i < |r| ==> r[i].count == names[r[i].key]) &&
        (forall k :: k in names ==> exists i :: 0 <= i < |r| && r[i].key == k)
      ensures var r, names := processor.aggregator.countByProcess.Report(), multiset(ProcessNames(Forwarded(options, seen)));
        (forall i :: 0 <= i < |r| ==> r[i].count == names[r[i].key]) &&
        (forall k :: k in names ==> exists i :: 0 <= i < |r| && r[i].key == k)
    {
      processor.aggregator.ReportsCountTaken(displayed);
    }

    /** Disposes the processor, closes the session and prints the summary
        the first time only. */
    method CloseSession(eventsLostNow: int)
      requires Valid()
      modifies this`console, this`sessionOpen, this`statsPrinted
      modifies if processor.Statistics? then {processor.aggregator} else {}
      ensures Valid()
      ensures statsPrinted && !sessionOpen
      ensures processedEvents == old(processedEvents) && notFilteredEvents == old(notFilteredEvents)
      ensures seen == old(seen) && displayed == old(displayed)
      ensures failure == old(failure) && DisposeOutput(processor) == []
      ensures console == old(console) + old(DisposeOutput(processor)) +
        (if old(statsPrinted) then []
         else [Summary(processedEvents, notFilteredEvents, if old(sessionOpen) then eventsLostNow else 0)])
    {
      DisposeProcessor();
      EndSession(eventsLostNow);
    }

    /** The rest of CloseSession: the session is closed, and the summary
        printed the first time only, with the events the session lost if it
        was still open. */
    method EndSession(eventsLostNow: int)
      modifies this`sessionOpen, this`statsPrinted, this`console
      ensures statsPrinted && !sessionOpen
      ensures console == old(console) +
        (if old(statsPrinted) then []
         else [Summary(processedEvents, notFilteredEvents, if old(sessionOpen) then eventsLostNow else 0)])
    {
      var eventsLost := 0;
      if sessionOpen {
        eventsLost := eventsLostNow;
        sessionOpen := false;
      }
      if !statsPrinted {
        console := console + [Summary(processedEvents, notFilteredEvents, eventsLost)];
        statsPrinted := true;
      }
    }

    /** The end of a run: the processor is disposed when its `using` block
        ends, then the session is closed, which disposes it again. The
        reports and the summary still appear once, in that order. An
        exception that ended the run leaves the `using` block, so the
        processor is disposed, but skips the closing of the session and its
        summary. */
    method Finish(eventsLostNow: int)
      requires Valid()
      modifies this`console, this`sessionOpen, this`statsPrinted
      modifies if processor.Statistics? then {processor.aggregator} else {}
      ensures Valid()
      ensures processedEvents == old(processedEvents) && notFilteredEvents == old(notFilteredEvents)
      ensures seen == old(seen) && displayed == old(displayed)
      ensures failure == old(failure) && DisposeOutput(processor) == []
      ensures old(failure).None? ==> statsPrinted && !sessionOpen
      ensures old(failure).Some? ==> statsPrinted == old(statsPrinted) && sessionOpen == old(sessionOpen)
      ensures console == old(console) + old(DisposeOutput(processor)) +
        (if old(failure).None? && !old(statsPrinted)
         then [Summary(processedEvents, notFilteredEvents, if old(sessionOpen) then eventsLostNow else 0)]
         else [])
    {
      DisposeProcessor();
      if failure.None? {
        CloseSession(eventsLostNow);
      }
    }
  }
}

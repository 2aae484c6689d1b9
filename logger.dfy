/** The console logger of the command-line interface (`ConsoleLogger` and
    `UnifiedProgressConsoleLogger` in cli.py): which messages it shows at
    which verbosity, where a shown message goes (the innermost open message
    block, or the terminal), the progress-bar mode and state, the task
    timings, and the stage counter that joins the tasks of one run into a
    single bar.  What reaches the terminal is kept as a list of reports;
    clocks and terminal capabilities are parameters. */
module ConsoleLog {
  import opened Wrappers
  import Strings
  import Seqs

  /** The levels of epydoc's `log` module. */
  const DEBUG: int := 10
  const INFO: int := 20
  const DOCSTRING_WARNING: int := 25
  const WARNING: int := 30
  const ERROR: int := 40

  /** What `log` prefixes a shown message with, or None when the verbosity
      (and the global debug switch) hide it. */
  function LogPrefix(verbosity: int, debug: bool, level: int): (r: Option<string>)
    ensures level < DEBUG ==> r.None?
    ensures r.Some? ==> |r.value| == 9 && r.value[|r.value| - 2..] == ": "
  {
    if verbosity >= -2 && level >= ERROR then Some("  Error: ")
    else if verbosity >= -1 && level >= WARNING then Some("Warning: ")
    else if verbosity >= 1 && level >= DOCSTRING_WARNING then Some("Warning: ")
    else if verbosity >= 3 && level >= INFO then Some("   Info: ")
    else if debug && level == DEBUG then Some("  Debug: ")
    else None
  }

  /** The verbosity table of the command-line help: errors are shown from
      -2 up, warnings from -1 up, markup (docstring) warnings from 1 up,
      information from 3 up, and debugging messages only in debug mode. */
  lemma VerbosityTable(verbosity: int, debug: bool)
    ensures LogPrefix(verbosity, debug, ERROR).Some? <==> verbosity >= -2
    ensures LogPrefix(verbosity, debug, WARNING).Some? <==> verbosity >= -1
    ensures LogPrefix(verbosity, debug, DOCSTRING_WARNING).Some? <==> verbosity >= 1
    ensures LogPrefix(verbosity, debug, INFO).Some? <==> verbosity >= 3
    ensures LogPrefix(verbosity, debug, DEBUG).Some? <==> debug
  {
  }

  /** Raising the verbosity never hides a message nor changes its prefix. */
  lemma MoreVerboseShowsMore(verbosity: int, more: int, debug: bool, level: int)
    requires verbosity <= more && LogPrefix(verbosity, debug, level).Some?
    ensures LogPrefix(more, debug, level) == LogPrefix(verbosity, debug, level)
  {
  }

  /** Between `INFO` and the debug level nothing is a warning: a hidden
      message counts as a suppressed docstring warning exactly when it is at
      `DOCSTRING_WARNING` or above. */
  lemma HiddenWarningsAreDocstringWarnings(verbosity: int, debug: bool, level: int)
    requires LogPrefix(verbosity, debug, level).None? && level >= DOCSTRING_WARNING
    ensures level < WARNING || verbosity < -1
    ensures level < ERROR || verbosity < -2
  {
  }

  /** The progress-bar modes. */
  datatype Mode = List | MultilineBar | Bar | SimpleBar | Hide

  /** What the logger learns from the terminal: whether it has the
      carriage-return, clear-to-end-of-line and cursor-up controls, and its
      width (75 when standard output is not a terminal). */
  datatype Terminal = Terminal(cr: bool, clrEol: bool, up: bool, width: int)

  /** The mode selection of `ConsoleLogger.__init__` as written: the test
      for a terminal narrower than 15 columns is overridden by the tests
      that follow it. */
  function ProgressModeAsWritten(verbosity: int, term: Terminal): (r: Mode)
    ensures r == Hide <==> verbosity < 0
    ensures r == List <==> verbosity >= 2
    ensures r == MultilineBar ==> term.cr && term.clrEol && term.up
    ensures r == Bar ==> term.cr && term.clrEol
  {
    if verbosity >= 2 then List
    else if verbosity >= 0 then
      if term.cr && term.clrEol && term.up then MultilineBar
      else if term.cr && term.clrEol then Bar
      else SimpleBar
    else Hide
  }

  /** A 10-column terminal with the two controls a bar needs gets a bar. */
  lemma NarrowTerminalGetsBar()
    ensures ProgressModeAsWritten(0, Terminal(true, true, false, 10)) == Bar
  {
  }

  /** The mode selection as evidently intended, with the width test taking
      effect: a narrow terminal shows the simple bar. */
  function ProgressMode(verbosity: int, term: Terminal): (r: Mode)
    ensures r == Hide <==> verbosity < 0
    ensures r == List <==> verbosity >= 2
    ensures r in {MultilineBar, Bar} ==> term.width >= 15 && term.cr && term.clrEol
  {
    if verbosity >= 2 then List
    else if verbosity >= 0 then
      if term.width < 15 then SimpleBar
      else if term.cr && term.clrEol && term.up then MultilineBar
      else if term.cr && term.clrEol then Bar
      else SimpleBar
    else Hide
  }

  /** The help's table: no progress display below 0, a bar at 0 and 1, a
      list from 2 up; a terminal narrower than 15 columns never gets one of
      the redrawn bars; otherwise the choice is the one the code makes. */
  lemma ProgressModeTable(verbosity: int, term: Terminal)
    ensures ProgressMode(verbosity, term) == Hide <==> verbosity < 0
    ensures ProgressMode(verbosity, term) == List <==> verbosity >= 2
    ensures 0 <= verbosity < 2 ==> ProgressMode(verbosity, term) in {MultilineBar, Bar, SimpleBar}
    ensures term.width < 15 ==> ProgressMode(verbosity, term) !in {MultilineBar, Bar}
    ensures term.width >= 15 ==> ProgressMode(verbosity, term) == ProgressModeAsWritten(verbosity, term)
  {
  }

  /** `int(x)`: truncation toward zero. */
  function Trunc(x: real): (r: int)
    ensures x >= 0.0 ==> r as real <= x < r as real + 1.0
    ensures x < 0.0 ==> r as real - 1.0 < x <= r as real
  {
    if x >= 0.0 then x.Floor else -((-x).Floor)
  }

  /** `_timestr`: `H:MM:SS` from an hour up, `MM:SS` below.  Python's `/`
      and `%` on integers floor, as Dafny's do for a positive divisor. */
  function TimeStr(dt: int): (r: string)
    ensures 0 <= dt < 3600 ==> |r| == 5 && r[2] == ':'
    ensures dt >= 3600 ==> |r| >= 7 && r[|r| - 3] == ':' && r[|r| - 6] == ':'
  {
    Strings.Pad2Small(dt % 60);
    Strings.Pad2Small(dt % 3600 / 60);
    if dt >= 3600 then
      Strings.NatToString(dt / 3600) + ":" + Strings.Pad2(dt % 3600 / 60) + ":" + Strings.Pad2(dt % 60)
    else Strings.Pad2(dt / 60) + ":" + Strings.Pad2(dt % 60)
  }

  /** Reads `:`-separated fields as digits of a base-60 number. */
  function ClockValue(fields: seq<string>): nat
    requires forall i :: 0 <= i < |fields| ==> Strings.AllDigits(fields[i])
  {
    if fields == [] then 0 else ClockValue(fields[..|fields| - 1]) * 60 + Strings.ParseNat(fields[|fields| - 1])
  }

  /** Splitting after an appended piece without the separator extends the
      last part. */
  lemma {:induction false} SplitAppend(s: string, x: string, c: char)
    requires c !in x
    ensures var p := Strings.Split(s, c);
            Strings.Split(s + x, c) == p[..|p| - 1] + [p[|p| - 1] + x]
    decreases |x|
  {
    if x != [] {
      var y := x[..|x| - 1];
      SplitAppend(s, y, c);
      assert (s + x)[..|s + x| - 1] == s + y;
      assert (s + x)[|s + x| - 1] == x[|x| - 1];
      assert y + [x[|x| - 1]] == x;
      assert x[|x| - 1] != c;
      var p := Strings.Split(s, c);
      var q := p[..|p| - 1] + [p[|p| - 1] + y];
      assert Strings.Split(s + x, c) == q[..|q| - 1] + [q[|q| - 1] + [x[|x| - 1]]];
      assert q[..|q| - 1] == p[..|p| - 1];
      assert q[|q| - 1] + [x[|x| - 1]] == p[|p| - 1] + x;
    } else {
      assert s + x == s;
      var p := Strings.Split(s, c);
      assert p[|p| - 1] + x == p[|p| - 1];
      Seqs.LastSplit(p);
    }
  }

  /** Splitting a separator and a separator-free piece onto a string adds
      that piece as one more part. */
  lemma SplitField(s: string, x: string, c: char)
    requires c !in x
    ensures Strings.Split(s + [c] + x, c) == Strings.Split(s, c) + [x]
  {
    SplitAppend(s + [c], x, c);
    assert (s + [c])[..|s + [c]| - 1] == s;
    var p := Strings.Split(s, c) + [""];
    assert Strings.Split(s + [c], c) == p;
    assert p[..|p| - 1] == Strings.Split(s, c);
    assert p[|p| - 1] + x == x;
  }

  lemma DigitsNoColon(s: string)
    requires Strings.AllDigits(s)
    ensures ':' !in s
  {
  }

  /** Two separator-free fields joined by the separator split back. */
  lemma SplitTwo(a: string, b: string)
    requires ':' !in a && ':' !in b
    ensures Strings.Split(a + ":" + b, ':') == [a, b]
  {
    SplitAppend([], a, ':');
    assert [] + a == a;
    SplitField(a, b, ':');
  }

  /** Three separator-free fields joined by the separator split back. */
  lemma SplitThree(a: string, b: string, c: string)
    requires ':' !in a && ':' !in b && ':' !in c
    ensures Strings.Split(a + ":" + b + ":" + c, ':') == [a, b, c]
  {
    SplitTwo(a, b);
    SplitField(a + ":" + b, c, ':');
  }

  lemma ClockSnoc(fields: seq<string>, x: string)
    requires forall i :: 0 <= i < |fields| ==> Strings.AllDigits(fields[i])
    requires Strings.AllDigits(x)
    ensures ClockValue(fields + [x]) == ClockValue(fields) * 60 + Strings.ParseNat(x)
  {
    assert (fields + [x])[..|fields|] == fields;
  }

  lemma ClockTwo(a: string, b: string)
    requires Strings.AllDigits(a) && Strings.AllDigits(b)
    ensures ClockValue([a, b]) == Strings.ParseNat(a) * 60 + Strings.ParseNat(b)
  {
    ClockSnoc([], a);
    assert [] + [a] == [a];
    ClockSnoc([a], b);
    assert [a] + [b] == [a, b];
  }

  lemma ClockThree(a: string, b: string, c: string)
    requires Strings.AllDigits(a) && Strings.AllDigits(b) && Strings.AllDigits(c)
    ensures ClockValue([a, b, c]) == (Strings.ParseNat(a) * 60 + Strings.ParseNat(b)) * 60 + Strings.ParseNat(c)
  {
    ClockTwo(a, b);
    ClockSnoc([a, b], c);
    assert [a, b] + [c] == [a, b, c];
  }

  /** `_timestr` below an hour: minutes and seconds, each two digits. */
  lemma MinutesRoundTrip(dt: nat)
    requires dt < 3600
    ensures var p := Strings.Split(TimeStr(dt), ':');
            |p| == 2 && (forall i :: 0 <= i < |p| ==> Strings.AllDigits(p[i])) && ClockValue(p) == dt
  {
    var m, s := dt / 60, dt % 60;
    var a, b := Strings.Pad2(m), Strings.Pad2(s);
    Strings.Pad2Small(m);
    Strings.Pad2Small(s);
    assert TimeStr(dt) == a + ":" + b;
    DigitsNoColon(a);
    DigitsNoColon(b);
    SplitTwo(a, b);
    ClockTwo(a, b);
  }

  /** Hours, minutes and seconds add back up to the seconds. */
  lemma HoursMinutesSeconds(dt: nat)
    ensures (dt / 3600 * 60 + dt % 3600 / 60) * 60 + dt % 60 == dt
    ensures dt % 3600 / 60 < 60
  {
    var h, r := dt / 3600, dt % 3600;
    var m, s := r / 60, r % 60;
    DivMod60(r, m, s);
    DivMod60(dt, h * 60 + m, s);
  }

  lemma DivMod60(x: nat, q: nat, r: nat)
    requires x == q * 60 + r && r < 60
    ensures x / 60 == q && x % 60 == r
  {
  }

  /** `_timestr` from an hour up: hours, then two-digit minutes and seconds. */
  lemma HoursRoundTrip(dt: nat)
    requires dt >= 3600
    ensures var p := Strings.Split(TimeStr(dt), ':');
            |p| == 3 && (forall i :: 0 <= i < |p| ==> Strings.AllDigits(p[i])) && ClockValue(p) == dt
  {
    var h, m, s := dt / 3600, dt % 3600 / 60, dt % 60;
    HoursMinutesSeconds(dt);
    var a, b, c := Strings.NatToString(h), Strings.Pad2(m), Strings.Pad2(s);
    assert TimeStr(dt) == a + ":" + b + ":" + c;
    Strings.ParseNatToString(h);
    Strings.Pad2Small(m);
    Strings.Pad2Small(s);
    DigitsNoColon(a);
    DigitsNoColon(b);
    DigitsNoColon(c);
    SplitThree(a, b, c);
    ClockThree(a, b, c);
  }

  /** `_timestr` on the elapsed seconds, a float that `int(dt)` truncates:
      for a non-negative time the fields read back to its whole seconds. */
  function ElapsedTimeStr(dt: real): (r: string)
    ensures dt >= 0.0 ==>
              var p := Strings.Split(r, ':');
              |p| == (if Trunc(dt) >= 3600 then 3 else 2) &&
              (forall i :: 0 <= i < |p| ==> Strings.AllDigits(p[i])) && ClockValue(p) == Trunc(dt)
  {
    if dt >= 0.0 then TimeStrRoundTrip(Trunc(dt)); TimeStr(Trunc(dt))
    else TimeStr(Trunc(dt))
  }

  /** The fields of `_timestr`'s result read back, as a base-60 number, to
      the number of seconds: three fields from an hour up, two below. */
  lemma TimeStrRoundTrip(dt: nat)
    ensures var p := Strings.Split(TimeStr(dt), ':');
            |p| == (if dt >= 3600 then 3 else 2) &&
            (forall i :: 0 <= i < |p| ==> Strings.AllDigits(p[i])) && ClockValue(p) == dt
  {
    if dt >= 3600 {
      HoursRoundTrip(dt);
    } else {
      MinutesRoundTrip(dt);
    }
  }

  // ------------------------------------------------------- message blocks

  /** What `_report` shows: a formatted message, or the box `end_block`
      draws around the messages of a block.  The rendering (word wrapping,
      colours, the box's border) is not modelled. */
  datatype Output = Message(prefix: string, text: string) | Box(header: string, body: seq<Output>)

  /** A block opened by `start_block`: its header and its messages so far. */
  type Block = (string, seq<Output>)

  /** The number of messages in an output: one, or those inside the box. */
  function Size(r: Output): nat
    decreases r, 1
  {
    match r
    case Message(_, _) => 1
    case Box(_, body) => Count(body)
  }

  /** The number of messages in a list of outputs. */
  function Count(rs: seq<Output>): nat
    decreases rs, 0
  {
    if rs == [] then 0 else Count(rs[..|rs| - 1]) + Size(rs[|rs| - 1])
  }

  /** The number of messages held in the open blocks. */
  function Pending(blocks: seq<Block>): nat {
    if blocks == [] then 0 else Pending(blocks[..|blocks| - 1]) + Count(blocks[|blocks| - 1].1)
  }

  /** The messages that have been shown: printed, or waiting in a block. */
  function Delivered(blocks: seq<Block>, out: seq<Output>): nat {
    Count(out) + Pending(blocks)
  }

  lemma CountSnoc(rs: seq<Output>, r: Output)
    ensures Count(rs + [r]) == Count(rs) + Size(r)
  {
    assert (rs + [r])[..|rs|] == rs;
  }

  lemma PendingSnoc(blocks: seq<Block>, b: Block)
    ensures Pending(blocks + [b]) == Pending(blocks) + Count(b.1)
  {
    assert (blocks + [b])[..|blocks|] == blocks;
  }

  /** Where `_report` puts an output, and what it does to the progress
      state: into the innermost open block; or, with no block open, onto
      the terminal, ending a simple bar that was being drawn. */
  function Routed(blocks: seq<Block>, out: seq<Output>, progress: Option<real>, mode: Mode, r: Output)
    : (s: (seq<Block>, seq<Output>, Option<real>))
    ensures |s.0| == |blocks|
    ensures Delivered(s.0, s.1) == Delivered(blocks, out) + Size(r)
  {
    if blocks != [] then
      var last := blocks[|blocks| - 1];
      var s := (blocks[..|blocks| - 1] + [(last.0, last.1 + [r])], out, progress);
      assert blocks == blocks[..|blocks| - 1] + [last];
      PendingSnoc(blocks[..|blocks| - 1], last);
      PendingSnoc(blocks[..|blocks| - 1], (last.0, last.1 + [r]));
      CountSnoc(last.1, r);
      s
    else
      CountSnoc(out, r);
      (blocks, out + [r], if mode == SimpleBar then None else progress)
  }

  // ------------------------------------------------------------- progress

  /** The progress state after `progress(percent)`; `percent` is first
      capped at 1.  A list or a hidden display keeps no state; the redrawn
      bars remember the last fraction; the simple bar starts at 0 and
      remembers a fraction only when it adds a dot. */
  function NextProgress(mode: Mode, width: int, progress: Option<real>, percent: real): Option<real> {
    var p := if percent < 1.0 then percent else 1.0;
    match mode
    case List => progress
    case Hide => progress
    case Bar => Some(p)
    case MultilineBar => Some(p)
    case SimpleBar =>
      var prev := progress.GetOr(0.0);
      if Dots(width, p) > Dots(width, prev) then Some(p) else Some(prev)
  }

  /** The dots of a simple bar `width` columns wide at `fraction`. */
  function Dots(width: int, fraction: real): int {
    Trunc((width - 2) as real * fraction)
  }

  /** Once a bar has been drawn, a progress display is active, and
      `start_progress` refuses to start another until `end_progress`; a
      list or hidden display never blocks it. */
  lemma BarsStayActive(mode: Mode, width: int, progress: Option<real>, percent: real)
    ensures mode in {Bar, MultilineBar, SimpleBar} ==> NextProgress(mode, width, progress, percent).Some?
    ensures mode in {List, Hide} ==> NextProgress(mode, width, progress, percent) == progress
  {
  }

  /** The simple bar never takes back a dot. */
  lemma SimpleBarGrows(width: int, progress: Option<real>, percent: real)
    ensures var next := NextProgress(SimpleBar, width, progress, percent).value;
            Dots(width, next) >= Dots(width, progress.GetOr(0.0))
  {
  }

  /** The console logger: verbosity, terminal, progress display, message
      blocks, task timings and the suppressed-warning counter, and what it
      has shown on the terminal. */
  class ConsoleLogger {
    var verbosity: int
    var debug: bool
    var width: int
    var mode: Mode
    var progress: Option<real>
    var blocks: seq<Block>
    var startTime: Option<real>
    var header: Option<string>
    var taskTimes: seq<(real, Option<string>)>
    var suppressed: nat
    var out: seq<Output>

    /** `__init__`; `debug` is epydoc's global debugging switch. */
    constructor(verbosity: int, debug: bool, term: Terminal)
      ensures this.verbosity == verbosity && this.debug == debug && width == term.width
      ensures mode == ProgressModeAsWritten(verbosity, term)
      ensures progress == None && blocks == [] && startTime == None && header == None
      ensures taskTimes == [] && suppressed == 0 && out == []
    {
      this.verbosity := verbosity;
      this.debug := debug;
      width := term.width;
      progress := None;
      blocks := [];
      startTime := None;
      header := None;
      taskTimes := [];
      suppressed := 0;
      out := [];
      if verbosity >= 2 {
        mode := List;
      } else if verbosity >= 0 {
        if term.width < 15 {
          mode := SimpleBar;
        }
        if term.cr && term.clrEol && term.up {
          mode := MultilineBar;
        } else if term.cr && term.clrEol {
          mode := Bar;
        } else {
          mode := SimpleBar;
        }
      } else {
        mode := Hide;
      }
    }

    /** `start_block`: opens a block inside the open ones. */
    method StartBlock(header: string)
      modifies this`blocks
      ensures blocks == old(blocks) + [(header, [])]
      ensures Delivered(blocks, out) == old(Delivered(blocks, out))
    {
      PendingSnoc(blocks, (header, []));
      blocks := blocks + [(header, [])];
    }

    /** `_report`. */
    method Report(r: Output)
      modifies this`blocks, this`out, this`progress
      ensures (blocks, out, progress) == Routed(old(blocks), old(out), old(progress), mode, r)
    {
      if blocks != [] {
        var last := blocks[|blocks| - 1];
        blocks := blocks[..|blocks| - 1] + [(last.0, last.1 + [r])];
      } else {
        if mode == SimpleBar && progress.Some? {
          progress := None;
        }
        out := out + [r];
      }
    }

    /** `end_block`: closes the innermost block and, when it holds
        messages, reports them as one box to the block around it or to the
        terminal; with no block open, `pop` raises `IndexError`.  No shown
        message is lost. */
    method EndBlock() returns (o: Outcome)
      modifies this`blocks, this`out, this`progress
      ensures old(blocks) == [] ==> o == Fail(IndexError) && blocks == [] && out == old(out) && progress == old(progress)
      ensures old(blocks) != [] ==> o == Pass && |blocks| == |old(blocks)| - 1
      ensures old(blocks) != [] ==>
                var b := old(blocks)[|old(blocks)| - 1];
                var rest := old(blocks)[..|old(blocks)| - 1];
                if b.1 == [] then blocks == rest && out == old(out) && progress == old(progress)
                else (blocks, out, progress) == Routed(rest, old(out), old(progress), mode, Box(b.0, b.1))
      ensures Delivered(blocks, out) == old(Delivered(blocks, out))
    {
      if blocks == [] {
        return Fail(IndexError);
      }
      var b := blocks[|blocks| - 1];
      assert blocks == blocks[..|blocks| - 1] + [b];
      PendingSnoc(blocks[..|blocks| - 1], b);
      blocks := blocks[..|blocks| - 1];
      if b.1 != [] {
        Report(Box(b.0, b.1));
      }
      o := Pass;
    }

    /** `log`: a message the verbosity shows goes to `_report` with its
        prefix; a hidden one is dropped, and counted when it is a warning
        or worse. */
    method Log(level: int, message: string)
      modifies this`suppressed, this`blocks, this`out, this`progress
      ensures var prefix := LogPrefix(verbosity, debug, level);
              if prefix.None? then
                suppressed == old(suppressed) + (if level >= DOCSTRING_WARNING then 1 else 0) &&
                blocks == old(blocks) && out == old(out) && progress == old(progress)
              else
                suppressed == old(suppressed) &&
                (blocks, out, progress) == Routed(old(blocks), old(out), old(progress), mode, Message(prefix.value, message))
      ensures Delivered(blocks, out) == old(Delivered(blocks, out)) + (if LogPrefix(verbosity, debug, level).Some? then 1 else 0)
    {
      var prefix := LogPrefix(verbosity, debug, level);
      if prefix.None? {
        if level >= DOCSTRING_WARNING {
          suppressed := suppressed + 1;
        }
        return;
      }
      Report(Message(prefix.value, message));
    }

    /** `progress(percent)`; `now` is the clock.  The multi-line bar
        computes the elapsed time, which fails with `TypeError` before any
        `start_progress`. */
    method Progress(percent: real, now: real) returns (o: Outcome)
      modifies this`progress
      ensures mode == MultilineBar && startTime.None? ==> o == Fail(TypeError) && progress == old(progress)
      ensures !(mode == MultilineBar && startTime.None?) ==>
                o == Pass && progress == NextProgress(mode, width, old(progress), percent)
    {
      var p := if percent < 1.0 then percent else 1.0;
      if mode == Bar {
        progress := Some(p);
      } else if mode == MultilineBar {
        if startTime.None? {
          return Fail(TypeError);
        }
        progress := Some(p);
      } else if mode == SimpleBar {
        if progress.None? {
          progress := Some(0.0);
        }
        var dots := Dots(width, p);
        var progressDots := Dots(width, progress.value);
        if dots > progressDots {
          progress := Some(p);
        }
      }
      o := Pass;
    }

    /** `start_progress`: refused with `ValueError` while a display is
        active; otherwise records the start time and the header. */
    method StartProgress(header: Option<string>, now: real) returns (o: Outcome)
      modifies this`startTime, this`header
      ensures progress.Some? ==> o == Fail(ValueError("")) && startTime == old(startTime) && this.header == old(this.header)
      ensures progress.None? ==> o == Pass && startTime == Some(now) && this.header == header
    {
      if progress.Some? {
        return Fail(ValueError(""));
      }
      startTime := Some(now);
      this.header := header;
      o := Pass;
    }

    /** `end_progress`: draws the full bar through `progress(1.)`, then
        ends the display as `FinishProgress` does.  In the multi-line bar
        without a start time the drawing already raises `TypeError`. */
    method EndProgress(now: real) returns (o: Outcome)
      modifies this`progress, this`taskTimes
      ensures mode == MultilineBar && startTime.None? ==>
                o == Fail(TypeError) && progress == old(progress) && taskTimes == old(taskTimes)
      ensures !(mode == MultilineBar && startTime.None?) ==> progress == None
      ensures !(mode == MultilineBar && startTime.None?) && startTime.None? ==>
                o == Fail(TypeError) && taskTimes == old(taskTimes)
      ensures startTime.Some? ==> o == Pass && taskTimes == old(taskTimes) + [(now - startTime.value, header)]
    {
      o := Progress(1.0, now);
      if o.Fail? {
        return;
      }
      o := FinishProgress(now);
    }

    /** What `end_progress` does once the full bar is drawn: the display
        ends and the task's elapsed time is recorded with its header;
        without a start time the elapsed time raises `TypeError`, after
        the display has ended. */
    method FinishProgress(now: real) returns (o: Outcome)
      modifies this`progress, this`taskTimes
      ensures progress == None
      ensures startTime.None? ==> o == Fail(TypeError) && taskTimes == old(taskTimes)
      ensures startTime.Some? ==> o == Pass && taskTimes == old(taskTimes) + [(now - startTime.value, header)]
    {
      progress := None;
      if startTime.None? {
        return Fail(TypeError);
      }
      taskTimes := taskTimes + [(now - startTime.value, header)];
      o := Pass;
    }
  }

  // ------------------------------------------------------- unified stages

  /** `UnifiedProgressConsoleLogger.progress`'s fraction of the whole run:
      the finished stages' weights plus `percent` of the current stage's,
      over the total weight.  `stage - 1` indexes the weights as Python
      does, so stage 0 reads the last weight; past the last stage the index
      raises `IndexError`, and zero total weight `ZeroDivisionError`. */
  function UnifiedFraction(stages: seq<nat>, stage: nat, percent: real): (r: Result<real>)
    ensures r.Failure? <==> stage > |stages| || stages == [] || Seqs.Sum(stages) == 0
  {
    var i := stage - 1;
    if i >= |stages| || stages == [] then Failure(IndexError)
    else
      var idx := if i < 0 then |stages| - 1 else i;
      var before := if i < 0 then Seqs.Sum(stages[..|stages| - 1]) else Seqs.Sum(stages[..i]);
      var total := Seqs.Sum(stages);
      if total == 0 then Failure(ZeroDivisionError)
      else Success(StageFraction(before, stages[idx], total, percent))
  }

  /** `(before + percent * weight) / float(total)`. */
  function StageFraction(before: nat, weight: nat, total: nat, percent: real): real
    requires total > 0
  {
    (before as real + percent * weight as real) / total as real
  }

  /** A fraction of a stage that fits in the total is a fraction of 1. */
  lemma StageFractionBounds(before: nat, weight: nat, total: nat, percent: real)
    requires before + weight <= total && total > 0 && 0.0 <= percent <= 1.0
    ensures 0.0 <= StageFraction(before, weight, total, percent) <= 1.0
  {
    Scaled(percent, weight);
    var x := before as real + percent * weight as real;
    assert x <= (before + weight) as real;
    FractionOfTotal(x, total as real);
  }

  lemma {:induction false} SumPrefix(s: seq<nat>, i: nat)
    requires i <= |s|
    ensures Seqs.Sum(s[..i]) <= Seqs.Sum(s)
    decreases |s|
  {
    if i < |s| {
      SumPrefix(s[..|s| - 1], i);
      assert s[..|s| - 1][..i] == s[..i];
    } else {
      assert s[..i] == s;
    }
  }

  lemma SumNext(s: seq<nat>, i: nat)
    requires i < |s|
    ensures Seqs.Sum(s[..i + 1]) == Seqs.Sum(s[..i]) + s[i]
  {
    assert s[..i + 1][..i] == s[..i];
  }

  lemma Scaled(p: real, w: nat)
    requires 0.0 <= p <= 1.0
    ensures 0.0 <= p * w as real <= w as real
  {
  }

  lemma FractionOfTotal(x: real, t: real)
    requires 0.0 <= x <= t && t > 0.0
    ensures 0.0 <= x / t <= 1.0
  {
  }

  /** Within a run, the fraction stays between 0 and 1. */
  lemma UnifiedFractionBounds(stages: seq<nat>, stage: nat, percent: real)
    requires 1 <= stage <= |stages| && Seqs.Sum(stages) > 0 && 0.0 <= percent <= 1.0
    ensures UnifiedFraction(stages, stage, percent).Success?
    ensures 0.0 <= UnifiedFraction(stages, stage, percent).value <= 1.0
  {
    var i := stage - 1;
    SumNext(stages, i);
    SumPrefix(stages, i + 1);
    StageFractionBounds(Seqs.Sum(stages[..i]), stages[i], Seqs.Sum(stages), percent);
  }

  /** The end of one stage is the start of the next. */
  lemma UnifiedStagesJoin(stages: seq<nat>, k: nat)
    requires 1 <= k < |stages| && Seqs.Sum(stages) > 0
    ensures UnifiedFraction(stages, k, 1.0) == UnifiedFraction(stages, k + 1, 0.0)
  {
    SumNext(stages, k - 1);
    StageEnds(Seqs.Sum(stages[..k - 1]), stages[k - 1], stages[k], Seqs.Sum(stages));
  }

  lemma StageEnds(before: nat, weight: nat, next: nat, total: nat)
    requires total > 0
    ensures StageFraction(before, weight, total, 1.0) == StageFraction(before + weight, next, total, 0.0)
    ensures StageFraction(0, weight, total, 0.0) == 0.0
    ensures before + weight == total ==> StageFraction(before, weight, total, 1.0) == 1.0
  {
    var t := total as real;
    assert t / t == 1.0;
    assert before as real + 1.0 * weight as real == (before + weight) as real;
  }

  /** The first stage starts at 0 and the last one ends at 1: with the
      stages joined, the bar runs once from empty to full. */
  lemma UnifiedStagesSpan(stages: seq<nat>)
    requires stages != [] && Seqs.Sum(stages) > 0
    ensures UnifiedFraction(stages, 1, 0.0) == Success(0.0)
    ensures UnifiedFraction(stages, |stages|, 1.0) == Success(1.0)
  {
    var n := |stages| - 1;
    assert stages[..0] == [];
    SumNext(stages, n);
    assert stages[..n + 1] == stages;
    StageEnds(0, stages[0], 0, Seqs.Sum(stages));
    StageEnds(Seqs.Sum(stages[..n]), stages[n], 0, Seqs.Sum(stages));
  }

  /** `UnifiedProgressConsoleLogger`: the console logger of one run whose
      tasks share one bar, weighted by `stages`. */
  class UnifiedLogger {
    const base: ConsoleLogger
    var stage: nat
    var stages: seq<nat>
    var task: Option<string>

    constructor(verbosity: int, debug: bool, term: Terminal, stages: seq<nat>)
      ensures stage == 0 && this.stages == stages && task == None
      ensures fresh(base) && base.verbosity == verbosity && base.debug == debug && base.width == term.width
      ensures base.mode == ProgressModeAsWritten(verbosity, term) && base.progress == None && base.blocks == []
      ensures base.startTime == None && base.header == None && base.taskTimes == [] && base.suppressed == 0 && base.out == []
    {
      stage := 0;
      this.stages := stages;
      task := None;
      base := new ConsoleLogger(verbosity, debug, term);
    }

    /** `start_progress`: each task is a new stage; only the first starts
        the shared display, without a header. */
    method StartProgress(header: Option<string>, now: real) returns (o: Outcome)
      modifies this`task, this`stage, base`startTime, base`header
      ensures task == header
      ensures old(stage) == 0 && base.progress.Some? ==>
                o == Fail(ValueError("")) && stage == 0 && base.startTime == old(base.startTime) && base.header == old(base.header)
      ensures old(stage) == 0 && base.progress.None? ==>
                o == Pass && stage == 1 && base.startTime == Some(now) && base.header == None
      ensures old(stage) != 0 ==>
                o == Pass && stage == old(stage) + 1 && base.startTime == old(base.startTime) && base.header == old(base.header)
    {
      task := header;
      o := Pass;
      if stage == 0 {
        o := base.StartProgress(None, now);
        if o.Fail? {
          return;
        }
      }
      stage := stage + 1;
    }

    /** `end_progress`: only the task that completes the last stage ends
        the shared display.  The inherited `end_progress` draws the full
        bar with `self.progress(1.)`, which is this class's `progress`: the
        run's fraction is computed first (1 by `UnifiedStagesSpan` when the
        weights are usable) and its `IndexError` or `ZeroDivisionError`
        leaves everything as it was. */
    method EndProgress(now: real) returns (o: Outcome)
      modifies base`progress, base`taskTimes
      ensures stage != |stages| ==> o == Pass && base.progress == old(base.progress) && base.taskTimes == old(base.taskTimes)
      ensures stage == |stages| && UnifiedFraction(stages, stage, 1.0).Failure? ==>
                o == Fail(UnifiedFraction(stages, stage, 1.0).error) &&
                base.progress == old(base.progress) && base.taskTimes == old(base.taskTimes)
      ensures stage == |stages| && UnifiedFraction(stages, stage, 1.0).Success? && base.mode == MultilineBar && base.startTime.None? ==>
                o == Fail(TypeError) && base.progress == old(base.progress) && base.taskTimes == old(base.taskTimes)
      ensures stage == |stages| && UnifiedFraction(stages, stage, 1.0).Success? && !(base.mode == MultilineBar && base.startTime.None?) ==>
                base.progress == None
      ensures stage == |stages| && UnifiedFraction(stages, stage, 1.0).Success? && base.mode != MultilineBar && base.startTime.None? ==>
                o == Fail(TypeError) && base.taskTimes == old(base.taskTimes)
      ensures stage == |stages| && UnifiedFraction(stages, stage, 1.0).Success? && base.startTime.Some? ==>
                o == Pass && base.taskTimes == old(base.taskTimes) + [(now - base.startTime.value, base.header)]
    {
      if stage != |stages| {
        return Pass;
      }
      o := Progress(1.0, now);
      if o.Fail? {
        return;
      }
      o := base.FinishProgress(now);
    }

    /** `progress(percent)`: the shared bar advances to the run's fraction;
        an unusable stage index or weight list fails before anything is
        drawn. */
    method Progress(percent: real, now: real) returns (o: Outcome)
      modifies base`progress
      ensures UnifiedFraction(stages, stage, percent).Failure? ==>
                o == Fail(UnifiedFraction(stages, stage, percent).error) && base.progress == old(base.progress)
      ensures UnifiedFraction(stages, stage, percent).Success? && !(base.mode == MultilineBar && base.startTime.None?) ==>
                o == Pass && base.progress == NextProgress(base.mode, base.width, old(base.progress), UnifiedFraction(stages, stage, percent).value)
      ensures UnifiedFraction(stages, stage, percent).Success? && base.mode == MultilineBar && base.startTime.None? ==>
                o == Fail(TypeError) && base.progress == old(base.progress)
    {
      var f := UnifiedFraction(stages, stage, percent);
      if f.Failure? {
        return Fail(f.error);
      }
      o := base.Progress(f.value, now);
    }
  }
}

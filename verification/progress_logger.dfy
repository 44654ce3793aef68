/**
 The progress bar and log coordination of `progress_logger.py`. A logger is
 the pair of fields its behaviour depends on (whether a bar is showing and
 the last line drawn); each operation returns the new pair and the text it
 prints, as a trace of writes to standard output and standard error.
 */
module ProgressLogger {
  import opened Values
  import opened Strings

  datatype Logger = Logger(active: bool, currentLine: string)

  /** A newly constructed `ProgressLogger`. */
  const Fresh := Logger(false, "")

  datatype Write = Stdout(text: string) | Stderr(text: string)

  datatype Step = Step(logger: Logger, output: seq<Write>)

  const BarLength := 40
  const FullCell := '\U{2588}'
  const EmptyCell := '\U{2591}'
  const ProgressIcon := "\U{25B6}\U{FE0F}"
  const Tick := "\U{2705}"
  const Cross := "\U{274C}"

  /** For a positive divisor, the quotient is at least `m` exactly when `m` divisors fit into the dividend. */
  lemma FloorDivBound(a: int, t: int, m: int)
    requires t > 0
    ensures m <= a / t <==> m * t <= a
  {
    var q, rem := a / t, a % t;
    assert a == q * t + rem && 0 <= rem < t;
    if m <= q {
      assert m * t <= q * t by { MulMonotone(m, q, t); }
    } else {
      assert (q + 1) * t <= m * t by { MulMonotone(q + 1, m, t); }
    }
  }

  lemma MulMonotone(x: int, y: int, t: int)
    requires x <= y && t > 0
    ensures x * t <= y * t
  {
    assert y * t - x * t == (y - x) * t;
  }

  /** `int(40 * current // total)`: Python floors, as Dafny's `/` does for a positive divisor. */
  function FilledCells(current: int, total: int): int
    requires total > 0
  {
    BarLength * current / total
  }

  /** Cell `k` of the bar is covered: `(k + 1) / 40` of the total has been processed. */
  predicate Covered(current: int, total: int, k: int) {
    (k + 1) * total <= BarLength * current
  }

  /**
   The bar: filled cells, then empty cells (Python's `"x" * n` is empty for
   `n <= 0`). Cell `k` is filled exactly when the progress covers all of it.
   Within range the bar has exactly 40 cells; from `current == total` on
   there is no empty part and the bar is as long as the filled count, and a
   negative count gives more than 40 empty cells.
   */
  function Bar(current: int, total: int): (r: string)
    requires total > 0
    ensures forall k :: 0 <= k < |r| ==> (r[k] == FullCell <==> Covered(current, total, k))
    ensures forall k :: 0 <= k < |r| ==> r[k] == FullCell || r[k] == EmptyCell
    ensures 0 <= current <= total ==> |r| == BarLength
    ensures current >= total ==> |r| == FilledCells(current, total) >= BarLength
    ensures current < 0 ==> |r| > BarLength
  {
    var filled := FilledCells(current, total);
    BarCells(current, total);
    Repeat(FullCell, filled) + Repeat(EmptyCell, BarLength - filled)
  }

  /** The arithmetic behind `Bar`: where the filled count falls for each range of `current`. */
  lemma BarCells(current: int, total: int)
    requires total > 0
    ensures forall k :: k < FilledCells(current, total) <==> Covered(current, total, k)
    ensures current >= 0 ==> FilledCells(current, total) >= 0
    ensures current < 0 ==> FilledCells(current, total) < 0
    ensures current <= total ==> FilledCells(current, total) <= BarLength
    ensures current >= total ==> FilledCells(current, total) >= BarLength
  {
    forall k ensures k < FilledCells(current, total) <==> Covered(current, total, k) {
      FloorDivBound(BarLength * current, total, k + 1);
    }
    FloorDivBound(BarLength * current, total, 0);
    FloorDivBound(BarLength * current, total, BarLength);
    FloorDivBound(BarLength * current, total, BarLength + 1);
    if current <= total {
      MulMonotone(current, total, BarLength);
    } else {
      MulMonotone(total, current, BarLength);
    }
  }

  /** `" [id] ✅"` or `" [id] ❌"`; nothing at all, whatever the flag, without a patent number. */
  function PatentSuffix(id: string, success: bool): (r: string)
    ensures id == "" ==> r == ""
    ensures id != "" ==> r == " [" + id + "] " + (if success then Tick else Cross)
  {
    var status := if success then " " + Tick else if id != "" then " " + Cross else "";
    if id != "" then " [" + id + "]" + status else ""
  }

  /**
   The line `_update_progress_line` draws. `percent` is the value of
   `int((current / total) * 100)`, a floating-point computation this model
   takes as given.
   */
  function ProgressLine(current: int, total: int, percent: int, id: string, success: bool): (r: string)
    ensures total > 0 ==> StartsWith(r, "\r" + ProgressIcon + " " + Bar(current, total) + " ")
    ensures total > 0 ==> EndsWith(r, PatentSuffix(id, success))
    ensures total <= 0 ==> r == "\rProgress: " + IntToString(current) + " processed"
  {
    if total > 0 then
      var head := "\r" + ProgressIcon + " " + Bar(current, total) + " ";
      var counts := IntToString(percent) + "% (" + IntToString(current) + "/" + IntToString(total) + ")";
      var r := head + counts + PatentSuffix(id, success);
      assert r[..|head|] == head;
      r
    else
      "\rProgress: " + IntToString(current) + " processed"
  }

  /** `_update_progress_line`: remember the new line and print it without a newline. */
  function Redraw(l: Logger, current: int, total: int, percent: int, id: string, success: bool): (r: Step)
    ensures r.logger == l.(currentLine := ProgressLine(current, total, percent, id, success))
    ensures r.output == [Stdout(r.logger.currentLine)]
  {
    var line := ProgressLine(current, total, percent, id, success);
    Step(l.(currentLine := line), [Stdout(line)])
  }

  /** `_clear_current_line`: overwrite the current line with blanks. */
  function ClearLine(l: Logger): (w: Write)
    ensures w.Stdout? && |w.text| == |l.currentLine| + 2
    ensures w.text[0] == '\r' && w.text[|w.text| - 1] == '\r'
    ensures forall k :: 0 < k < |w.text| - 1 ==> w.text[k] == ' '
  {
    Stdout("\r" + Repeat(' ', |l.currentLine|) + "\r")
  }

  /** `start_progress`: the bar becomes active and its first line is drawn, without a patent number. */
  function StartProgress(l: Logger, total: int, current: int, percent: int): (r: Step)
    ensures r.logger == Logger(true, ProgressLine(current, total, percent, "", true))
    ensures r.output == [Stdout(r.logger.currentLine)]
  {
    Redraw(l.(active := true), current, total, percent, "", true)
  }

  /** `update_progress`: redraws while a bar is active, and changes and prints nothing otherwise. */
  function UpdateProgress(l: Logger, current: int, total: int, percent: int, id: string, success: bool): (r: Step)
    ensures !l.active ==> r == Step(l, [])
    ensures l.active ==> r.logger == Logger(true, ProgressLine(current, total, percent, id, success))
    ensures l.active ==> r.output == [Stdout(r.logger.currentLine)]
  {
    if l.active then Redraw(l, current, total, percent, id, success) else Step(l, [])
  }

  /** `finish_progress`: clears and deactivates an active bar; a no-op otherwise. The last line is kept. */
  function FinishProgress(l: Logger): (r: Step)
    ensures r.logger == l.(active := false)
    ensures l.active <==> r.output != []
    ensures l.active ==> r.output == [ClearLine(l)]
  {
    if l.active then Step(l.(active := false), [ClearLine(l)]) else Step(l, [])
  }

  const WarningIcon := "\U{26A0}\U{FE0F}"
  const InfoIcon := "\U{2139}\U{FE0F}"

  /**
   The icon and spacing in front of a message: a cross for "error", the
   warning sign for "warning", a tick for "success", the information sign
   for every other level. The two emoji with a variation selector are
   followed by two spaces, the others by one.
   */
  function LevelPrefix(level: string): (p: string)
    ensures level == "error" <==> p == Cross + " "
    ensures level == "warning" <==> p == WarningIcon + "  "
    ensures level == "success" <==> p == Tick + " "
    ensures level !in {"error", "warning", "success"} <==> p == InfoIcon + "  "
  {
    assert (Cross + " ")[0] == '\U{274C}' && (Tick + " ")[0] == '\U{2705}';
    assert (WarningIcon + "  ")[0] == '\U{26A0}' && (InfoIcon + "  ")[0] == '\U{2139}';
    if level == "error" then Cross + " "
    else if level == "warning" then WarningIcon + "  "
    else if level == "success" then Tick + " "
    else InfoIcon + "  "
  }

  /** The message line itself, with its level's icon; errors and warnings go to standard error. */
  function MessageWrite(message: string, level: string): (w: Write)
    ensures w.Stderr? <==> level == "error" || level == "warning"
    ensures w.text == LevelPrefix(level) + message + "\n"
    ensures EndsWith(w.text, message + "\n")
  {
    var w :=
      if level == "error" || level == "warning" then Stderr(LevelPrefix(level) + message + "\n")
      else Stdout(LevelPrefix(level) + message + "\n");
    assert w.text[|w.text| - |message + "\n"|..] == message + "\n";
    w
  }

  /**
   `log_message`: prints the message without disturbing the bar. The logger
   is left as it was; an active bar is cleared before the message and
   redrawn, unchanged, after it.
   */
  function LogMessage(l: Logger, message: string, level: string): (r: Step)
    ensures r.logger == l
    ensures !l.active ==> r.output == [MessageWrite(message, level)]
    ensures l.active ==> r.output == [ClearLine(l), MessageWrite(message, level), Stdout(l.currentLine)]
  {
    var clear := if l.active then [ClearLine(l)] else [];
    var restore := if l.active then [Stdout(l.currentLine)] else [];
    Step(l, clear + [MessageWrite(message, level)] + restore)
  }

  /** Every level other than error, warning and success, "debug" included, prints like "info". */
  lemma OtherLevelsPrintAsInfo(l: Logger, message: string, level: string)
    requires level !in {"error", "warning", "success"}
    ensures LogMessage(l, message, level) == LogMessage(l, message, "info")
  {
  }

  /** Numeric levels of Python's `logging` module. */
  const INFO := 20
  const WARNING := 30
  const ERROR := 40

  /** The level name `ProgressLogHandler.emit` passes on, with the thresholds checked from the highest down. */
  function LevelName(levelno: int): (r: string)
    ensures r == "error" <==> levelno >= ERROR
    ensures r == "warning" <==> WARNING <= levelno < ERROR
    ensures r == "info" <==> INFO <= levelno < WARNING
    ensures r == "debug" <==> levelno < INFO
  {
    if levelno >= ERROR then "error"
    else if levelno >= WARNING then "warning"
    else if levelno >= INFO then "info"
    else "debug"
  }

  /**
   `ProgressLogHandler.emit` for an already formatted record: records at
   WARNING and above go to standard error, the rest to standard output, and
   the logger is unchanged.
   */
  function Emit(l: Logger, levelno: int, formatted: string): (r: Step)
    ensures r.logger == l
    ensures MessageWrite(formatted, LevelName(levelno)) in r.output
    ensures MessageWrite(formatted, LevelName(levelno)).Stderr? <==> levelno >= WARNING
  {
    LogMessage(l, formatted, LevelName(levelno))
  }

  /**
   The interpreter state behind `get_progress_logger`: the module global
   (a handle or `None`) and the loggers allocated so far, by handle.
   */
  datatype Process = Process(global: Option<nat>, loggers: seq<Logger>)

  predicate ValidProcess(p: Process) {
    p.global.Some? ==> p.global.value < |p.loggers|
  }

  datatype Got = Got(process: Process, handle: nat)

  /** `get_progress_logger`: allocates a fresh logger on the first call only, and returns the global one. */
  function GetProgressLogger(p: Process): (r: Got)
    requires ValidProcess(p)
    ensures ValidProcess(r.process) && r.handle < |r.process.loggers|
    ensures r.process.global == Some(r.handle)
    ensures p.global.Some? ==> r == Got(p, p.global.value)
    ensures p.global.None? ==> r.process.loggers == p.loggers + [Fresh] && r.handle == |p.loggers|
  {
    match p.global
    case Some(h) => Got(p, h)
    case None => Got(Process(Some(|p.loggers|), p.loggers + [Fresh]), |p.loggers|)
  }

  /** A second call returns the same logger and allocates nothing. */
  lemma GetProgressLoggerIsStable(p: Process)
    requires ValidProcess(p)
    ensures GetProgressLogger(GetProgressLogger(p).process) == GetProgressLogger(p)
  {
  }
}

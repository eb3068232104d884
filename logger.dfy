/** The engine's logger (Logger.hpp / Logger.cpp): severity levels, a minimum
    level below which messages are dropped, one formatted line per message
    written to standard output or standard error (optionally coloured) and,
    when file logging is on, appended to a log file.

    The logger's static fields become the fields of a `Logger` object.  What
    the operating system decides is a parameter: whether opening the log file
    succeeds, and the local time of a message.  A call to `Log` writes nothing
    to the logger's own state, so it is a function returning what would be
    written (`Emission`). */
module Logging {
  import opened Wrappers

  /** `enum class LogLevel`, in declaration order. */
  datatype LogLevel = DEBUG | INFO | WARNING | ERROR | FATAL

  /** The enumerator's underlying value; `<` on levels compares these. */
  function Rank(l: LogLevel): nat
  {
    match l
    case DEBUG => 0
    case INFO => 1
    case WARNING => 2
    case ERROR => 3
    case FATAL => 4
  }

  /** `Logger::LevelToString`: a five-character tag for every level, so the
      message text starts in the same column whatever its level. */
  function LevelToString(l: LogLevel): (r: string)
    ensures |r| == 5
  {
    match l
    case DEBUG => "DEBUG"
    case INFO => "INFO "
    case WARNING => "WARN "
    case ERROR => "ERROR"
    case FATAL => "FATAL"
  }

  /** Different levels get different tags. */
  lemma LevelToStringInjective(a: LogLevel, b: LogLevel)
    requires LevelToString(a) == LevelToString(b)
    ensures a == b
  {
    assert LevelToString(a)[0] == LevelToString(b)[0];
    assert LevelToString(a)[3] == LevelToString(b)[3];
  }

  /** The ANSI escape character. */
  const Esc: char := '\U{1B}'

  /** `Logger::GetColorCode` on a non-Windows build: an ANSI foreground colour per level. */
  function GetColorCode(l: LogLevel): (r: string)
    ensures |r| == 5 && r[0] == Esc && r[1] == '[' && r[4] == 'm'
  {
    match l
    case DEBUG => [Esc] + "[36m"
    case INFO => [Esc] + "[32m"
    case WARNING => [Esc] + "[33m"
    case ERROR => [Esc] + "[31m"
    case FATAL => [Esc] + "[35m"
  }

  /** `Logger::GetResetCode` on a non-Windows build. */
  const ResetCode: string := [Esc] + "[0m"

  /** The characters `find_last_of("/\\")` looks for. */
  predicate IsSeparator(c: char)
  {
    c == '/' || c == '\\'
  }

  /** Index of the last separator in `p`, if any. */
  function LastSeparator(p: string): (r: Option<nat>)
    ensures r.None? ==> forall i :: 0 <= i < |p| ==> !IsSeparator(p[i])
    ensures r.Some? ==> r.value < |p| && IsSeparator(p[r.value])
    ensures r.Some? ==> forall i :: r.value < i < |p| ==> !IsSeparator(p[i])
    decreases |p|
  {
    if |p| == 0 then None
    else if IsSeparator(p[|p| - 1]) then Some(|p| - 1)
    else LastSeparator(p[..|p| - 1])
  }

  /** `Logger::ExtractFilename`: the part of a path after its last `/` or `\`;
      the empty string for a null pointer. */
  function ExtractFilename(path: Option<string>): (r: string)
    ensures path.None? ==> r == ""
    ensures path.Some? ==> exists k :: 0 <= k <= |path.value| && r == path.value[k..]
    ensures forall i :: 0 <= i < |r| ==> !IsSeparator(r[i])
    ensures path.Some? && |r| < |path.value| ==> IsSeparator(path.value[|path.value| - |r| - 1])
  {
    match path
    case None => ""
    case Some(p) =>
      match LastSeparator(p)
      case None => assert p == p[0..]; p
      case Some(k) => p[k + 1..]
  }

  /** The digit character for `d`. */
  function Digit(d: nat): char
    requires d < 10
  {
    "0123456789"[d]
  }

  /** `std::to_string` of a non-negative integer: its decimal digits, no
      leading zero. */
  function DecimalString(n: nat): (r: string)
    ensures |r| > 0
    ensures forall i :: 0 <= i < |r| ==> '0' <= r[i] <= '9'
    ensures |r| > 1 ==> r[0] != '0'
    decreases n
  {
    if n < 10 then [Digit(n)] else DecimalString(n / 10) + [Digit(n % 10)]
  }

  /** The value of a string of decimal digits. */
  function DecimalValue(s: string): nat
    requires forall i :: 0 <= i < |s| ==> '0' <= s[i] <= '9'
    decreases |s|
  {
    if |s| == 0 then 0
    else 10 * DecimalValue(s[..|s| - 1]) + (s[|s| - 1] as int - '0' as int)
  }

  /** The printed line number can be read back. */
  lemma {:induction false} DecimalRoundTrip(n: nat)
    ensures DecimalValue(DecimalString(n)) == n
    decreases n
  {
    var r := DecimalString(n);
    if n >= 10 {
      DecimalRoundTrip(n / 10);
      assert r[..|r| - 1] == DecimalString(n / 10);
    }
  }

  /** Zero-padded to at least `width` digits (`std::setw` with `std::setfill('0')`,
      or a two-digit `std::put_time` field). */
  function Padded(n: nat, width: nat): (r: string)
    ensures |r| == if |DecimalString(n)| < width then width else |DecimalString(n)|
    ensures forall i :: 0 <= i < |r| ==> '0' <= r[i] <= '9'
  {
    var d := DecimalString(n);
    if |d| < width then seq(width - |d|, _ => '0') + d else d
  }

  /** The local time of a message, as `localtime_r` and the millisecond
      remainder deliver it. */
  datatype LocalTime = LocalTime(year: nat, month: nat, day: nat,
                                 hour: nat, minute: nat, second: nat, millis: nat)
  {
    predicate InRange()
    {
      1000 <= year <= 9999 && 1 <= month <= 12 && 1 <= day <= 31
      && hour < 24 && minute < 60 && second < 61 && millis < 1000
    }
  }

  /** `Logger::GetTimestamp`: `%Y-%m-%d %H:%M:%S` followed by `.` and three
      millisecond digits. For a four-digit year and in-range fields every
      timestamp has the same 23-character layout. */
  function Timestamp(t: LocalTime): (r: string)
    ensures t.InRange() ==> |r| == 23
    ensures t.InRange() ==>
      r[4] == '-' && r[7] == '-' && r[10] == ' ' && r[13] == ':' && r[16] == ':' && r[19] == '.'
  {
    var text := DateText(t) + " " + ClockText(t) + "." + Padded(t.millis, 3);
    if t.InRange() then
      DateLayout(t);
      ClockLayout(t);
      LessThanTenDigits(t.millis, 3);
      text
    else text
  }

  /** `%Y-%m-%d`. */
  function DateText(t: LocalTime): string
  {
    DecimalString(t.year) + "-" + Padded(t.month, 2) + "-" + Padded(t.day, 2)
  }

  /** `%H:%M:%S`. */
  function ClockText(t: LocalTime): string
  {
    Padded(t.hour, 2) + ":" + Padded(t.minute, 2) + ":" + Padded(t.second, 2)
  }

  lemma DateLayout(t: LocalTime)
    requires t.InRange()
    ensures |DateText(t)| == 10 && DateText(t)[4] == '-' && DateText(t)[7] == '-'
  {
    LessThanTenDigits(t.month, 2);
    LessThanTenDigits(t.day, 2);
    LessThanTenDigits(t.year, 4);
  }

  lemma ClockLayout(t: LocalTime)
    requires t.InRange()
    ensures |ClockText(t)| == 8 && ClockText(t)[2] == ':' && ClockText(t)[5] == ':'
  {
    LessThanTenDigits(t.hour, 2);
    LessThanTenDigits(t.minute, 2);
    LessThanTenDigits(t.second, 2);
  }

  /** A number below `10^width` has at most `width` digits. */
  lemma {:induction false} LessThanTenDigits(n: nat, width: nat)
    requires width > 0 && n < Pow10(width)
    ensures |DecimalString(n)| <= width
    ensures width == 4 && n >= 1000 ==> |DecimalString(n)| == 4
    decreases width
  {
    if n >= 10 {
      LessThanTenDigits(n / 10, width - 1);
      if width == 4 && n >= 1000 {
        MoreThanDigits(n / 10);
      }
    }
  }

  lemma MoreThanDigits(n: nat)
    requires 100 <= n
    ensures |DecimalString(n)| >= 3
  {
    assert n / 10 >= 10;
  }

  /** Ten to the power `k`. */
  function Pow10(k: nat): nat
  {
    if k == 0 then 1 else 10 * Pow10(k - 1)
  }

  /** The source location suffix of a message: present only for a file name
      and a positive line. */
  function Location(file: Option<string>, line: int): (r: string)
    ensures (file.Some? && line > 0) <==> r != ""
    ensures r == "" || |r| >= 5
    ensures file.Some? && line > 0 ==> r[..2] == " [" && r[|r| - 1] == ']'
  {
    if file.Some? && line > 0 then
      " [" + ExtractFilename(file) + ":" + DecimalString(line) + "]"
    else ""
  }

  /** `[TIMESTAMP] [LEVEL] message [file:line]`. A formatted line can be
      taken apart again: the timestamp, the level tag and, after them, the
      message followed by the location suffix. */
  function FormatMessage(timestamp: string, level: LogLevel, message: string,
                         file: Option<string>, line: int): (r: string)
    ensures |r| == |timestamp| + 11 + |message| + |Location(file, line)|
    ensures r[1..|timestamp| + 1] == timestamp
    ensures r[|timestamp| + 4..|timestamp| + 9] == LevelToString(level)
    ensures r[|timestamp| + 11..] == message + Location(file, line)
  {
    var h := Header(timestamp, level);
    var rest := message + Location(file, line);
    HeaderLayout(timestamp, level);
    ConcatSlices(h, rest, 1, |timestamp| + 1);
    ConcatSlices(h, rest, |timestamp| + 4, |timestamp| + 9);
    h + rest
  }

  /** `[TIMESTAMP] [LEVEL] `: eleven characters more than the timestamp. */
  function Header(timestamp: string, level: LogLevel): (r: string)
    ensures |r| == |timestamp| + 11
  {
    "[" + timestamp + "] [" + LevelToString(level) + "] "
  }

  /** Slices of a concatenation that lie inside its first part, and the rest. */
  lemma ConcatSlices(a: string, b: string, i: nat, j: nat)
    requires i <= j <= |a|
    ensures (a + b)[i..j] == a[i..j]
    ensures (a + b)[|a|..] == b
  {
  }

  lemma HeaderLayout(timestamp: string, level: LogLevel)
    ensures var h := Header(timestamp, level);
      h[1..|timestamp| + 1] == timestamp && h[|timestamp| + 4..|timestamp| + 9] == LevelToString(level)
  {
    var h := Header(timestamp, level);
    assert h == ("[" + timestamp) + ("] [" + LevelToString(level) + "] ");
    assert h[1..|timestamp| + 1] == timestamp;
    assert h == ("[" + timestamp + "] [") + (LevelToString(level) + "] ");
  }

  /** Without a source location, a line with a different message or level
      is a different line. */
  lemma FormatInjective(timestamp: string, l1: LogLevel, m1: string, l2: LogLevel, m2: string)
    requires FormatMessage(timestamp, l1, m1, None, 0) == FormatMessage(timestamp, l2, m2, None, 0)
    ensures l1 == l2 && m1 == m2
  {
    LevelToStringInjective(l1, l2);
    assert m1 + "" == m1 && m2 + "" == m2;
  }

  /** The console a line goes to: errors and fatal errors to standard error. */
  datatype Stream = Stdout | Stderr

  /** What one accepted `Log` call writes: a console line (with its colour
      codes when colours are on) and, when file logging is on, a plain line
      for the log file. */
  datatype Emission = Emission(stream: Stream, console: string, fileLine: Option<string>)

  /** The logger's state. */
  class Logger {
    var minLevel: LogLevel
    var fileLoggingEnabled: bool
    /** The file `log_file` is open on, when it is open. */
    var openFile: Option<string>
    var coloredOutput: bool
    var initialized: bool

    /** File logging is on exactly when the log file is open: every path that
        sets the flag sets it to whether the file opened, and every path that
        closes the file clears it. */
    ghost predicate Valid()
      reads this
    {
      fileLoggingEnabled <==> openFile.Some?
    }

    /** The static initialisers of Logger.hpp. */
    constructor ()
      ensures Valid()
      ensures minLevel == INFO && !fileLoggingEnabled && openFile.None?
      ensures coloredOutput && !initialized
    {
      minLevel := INFO;
      fileLoggingEnabled := false;
      openFile := None;
      coloredOutput := true;
      initialized := false;
    }

    /** `Logger::Init`: only the first call does anything; a non-empty path
        opens the log file for appending, `opens` saying whether the system
        let it.  Opening a stream that is already open fails and leaves the
        old file in place. */
    method Init(logFilePath: string, opens: bool)
      requires Valid()
      modifies this
      ensures Valid()
      ensures old(initialized) ==> unchanged(this)
      ensures !old(initialized) ==> initialized
      ensures minLevel == old(minLevel) && coloredOutput == old(coloredOutput)
      ensures !old(initialized) && logFilePath != "" && old(openFile).None? ==>
        openFile == (if opens then Some(logFilePath) else None)
      ensures logFilePath == "" || old(openFile).Some? || old(initialized) ==>
        openFile == old(openFile) && fileLoggingEnabled == old(fileLoggingEnabled)
    {
      if initialized {
        return;
      }
      initialized := true;
      if logFilePath != "" {
        if openFile.None? && opens {
          openFile := Some(logFilePath);
        }
        fileLoggingEnabled := openFile.Some?;
      }
    }

    /** `Logger::Shutdown`: closes the log file and returns to the
        uninitialised state; nothing happens when not initialised. */
    method Shutdown()
      requires Valid()
      modifies this
      ensures Valid()
      ensures old(initialized) ==> !initialized && !fileLoggingEnabled && openFile.None?
      ensures !old(initialized) ==> unchanged(this)
      ensures minLevel == old(minLevel) && coloredOutput == old(coloredOutput)
    {
      if !initialized {
        return;
      }
      if fileLoggingEnabled && openFile.Some? {
        openFile := None;
      }
      fileLoggingEnabled := false;
      initialized := false;
    }

    /** `Logger::Log` at local time `now`: nothing below the minimum level;
        otherwise the formatted line, to standard error from ERROR up, wrapped
        in colour codes when colours are on, and copied to the log file when
        file logging is on. */
    function Log(level: LogLevel, message: string, file: Option<string>, line: int,
                 now: LocalTime): (e: Option<Emission>)
      reads this
      ensures e.None? <==> Rank(level) < Rank(minLevel)
      ensures e.Some? ==> (e.value.stream == Stderr <==> Rank(level) >= Rank(ERROR))
      ensures e.Some? ==> (e.value.fileLine.Some? <==> fileLoggingEnabled && openFile.Some?)
      ensures e.Some? ==> var text := FormatMessage(Timestamp(now), level, message, file, line);
        (e.value.fileLine.Some? ==> e.value.fileLine.value == text)
        && e.value.console == if coloredOutput then GetColorCode(level) + text + ResetCode else text
    {
      if Rank(level) < Rank(minLevel) then None
      else
        var text := FormatMessage(Timestamp(now), level, message, file, line);
        Some(Emission(
          if Rank(level) >= Rank(ERROR) then Stderr else Stdout,
          if coloredOutput then GetColorCode(level) + text + ResetCode else text,
          if fileLoggingEnabled && openFile.Some? then Some(text) else None))
    }

    /** `Logger::SetMinLevel`. */
    method SetMinLevel(level: LogLevel)
      modifies this
      ensures minLevel == level
      ensures fileLoggingEnabled == old(fileLoggingEnabled) && openFile == old(openFile)
      ensures coloredOutput == old(coloredOutput) && initialized == old(initialized)
    {
      minLevel := level;
    }

    /** `Logger::GetMinLevel`. */
    function GetMinLevel(): LogLevel
      reads this
    {
      minLevel
    }

    /** `Logger::EnableFileLogging`: closes any open log file, opens `path`
        for appending (`opens` saying whether the system let it) and reports
        whether file logging is now on. */
    method EnableFileLogging(path: string, opens: bool) returns (enabled: bool)
      requires Valid()
      modifies this
      ensures Valid()
      ensures enabled == opens && fileLoggingEnabled == opens
      ensures openFile == if opens then Some(path) else None
      ensures minLevel == old(minLevel) && coloredOutput == old(coloredOutput)
      ensures initialized == old(initialized)
    {
      if fileLoggingEnabled && openFile.Some? {
        openFile := None;
      }
      openFile := if opens then Some(path) else None;
      fileLoggingEnabled := openFile.Some?;
      enabled := fileLoggingEnabled;
    }

    /** `Logger::DisableFileLogging`. */
    method DisableFileLogging()
      requires Valid()
      modifies this
      ensures Valid()
      ensures !fileLoggingEnabled && openFile.None?
      ensures minLevel == old(minLevel) && coloredOutput == old(coloredOutput)
      ensures initialized == old(initialized)
    {
      if fileLoggingEnabled && openFile.Some? {
        openFile := None;
      }
      fileLoggingEnabled := false;
    }

    /** `Logger::SetColoredOutput`. */
    method SetColoredOutput(enabled: bool)
      modifies this
      ensures coloredOutput == enabled
      ensures minLevel == old(minLevel) && initialized == old(initialized)
      ensures fileLoggingEnabled == old(fileLoggingEnabled) && openFile == old(openFile)
    {
      coloredOutput := enabled;
    }
  }
}

/** The application log kept in the Streamlit session (utils/logger.py).
    The Python `logging` output, tracebacks and timestamps from the clock are
    not modelled; timestamps are parameters. */
module Logging {
  import opened Wrappers
  import Text
  import PySlices

  type Context = map<string, string>

  /** The exception passed to `log_error`: its type name and `str(e)`. */
  datatype ErrorInfo = ErrorInfo(typeName: string, message: string)

  /** The fields an entry carries besides timestamp, level and message. */
  datatype EntryDetails =
    | Plain(context: Context)
    | ErrorDetails(errorType: Option<string>, errorMessage: Option<string>, context: Context)
    | StepDetails(step: string, status: string, details: Context)

  datatype LogEntry = LogEntry(timestamp: string, level: string, message: string, extra: EntryDetails)

  const Info: string := "INFO"
  const Warning: string := "WARNING"
  const Error: string := "ERROR"
  const DefaultLimit: int := 100

  const JsonFormat: string := "json"
  const TextFormat: string := "text"

  /** The export: the JSON document is `json.dumps` of the entries, which is
      not modelled; the text export is the string itself. */
  datatype Export = JsonExport(entries: seq<LogEntry>) | TextExport(text: string)

  datatype ExportError = UnsupportedFormat(name: string)

  /** `st.session_state`, reduced to its `'app_logs'` entry. */
  class Session {
    var appLogs: Option<seq<LogEntry>>

    constructor ()
      ensures appLogs == None
    {
      appLogs := None;
    }
  }

  /** `context or {}` */
  function OrEmpty(context: Option<Context>): Context
  {
    if context.Some? then context.value else map[]
  }

  /** The entries of one level, in their original order. */
  function FilterLevel(logs: seq<LogEntry>, level: string): (r: seq<LogEntry>)
    ensures |r| <= |logs|
  {
    if logs == [] then []
    else FilterLevel(logs[..|logs| - 1], level) + (if logs[|logs| - 1].level == level then [logs[|logs| - 1]] else [])
  }

  /** Filtering keeps exactly the entries of the level. */
  lemma {:induction false} FilterLevelExact(logs: seq<LogEntry>, level: string)
    ensures forall e :: e in FilterLevel(logs, level) <==> e in logs && e.level == level
  {
    if logs != [] {
      var init := logs[..|logs| - 1];
      FilterLevelExact(init, level);
      assert logs == init + [logs[|logs| - 1]];
    }
  }

  /** Filtering commutes with appending, so order is kept. */
  lemma {:induction false} FilterLevelAppend(a: seq<LogEntry>, b: seq<LogEntry>, level: string)
    ensures FilterLevel(a + b, level) == FilterLevel(a, level) + FilterLevel(b, level)
    decreases |b|
  {
    if b != [] {
      var binit := b[..|b| - 1];
      assert (a + b)[..|a + b| - 1] == a + binit;
      FilterLevelAppend(a, binit, level);
    } else {
      assert a + b == a;
    }
  }

  /** `get_logs`: the session's entries (none if absent), restricted to
      `level.upper()` when a level is given, then the last `limit` of them
      when `limit` is non-zero. */
  function SelectLogs(logs: seq<LogEntry>, level: Option<string>, limit: Option<int>): (r: seq<LogEntry>)
    ensures |r| <= |logs|
    ensures limit.Some? && limit.value > 0 ==> |r| <= limit.value
  {
    var filtered := if level.Some? && level.value != "" then FilterLevel(logs, Text.Upper(level.value)) else logs;
    if limit.Some? && limit.value != 0 then PySlices.Drop(filtered, -limit.value) else filtered
  }

  /** A positive limit gives the last `limit` selected entries; no limit,
      or a limit of 0, gives all of them. */
  lemma SelectLogsLimit(logs: seq<LogEntry>, level: Option<string>, limit: Option<int>)
    ensures var filtered := SelectLogs(logs, level, None);
      && (limit.None? || limit.value == 0 ==> SelectLogs(logs, level, limit) == filtered)
      && (limit.Some? && limit.value > 0 ==>
            var n := if limit.value < |filtered| then limit.value else |filtered|;
            SelectLogs(logs, level, limit) == filtered[|filtered| - n..])
  {
    if limit.Some? && limit.value > 0 {
      PySlices.LastK(SelectLogs(logs, level, None), limit.value);
    }
  }

  /** A level filter with a limit returns only entries of that level. */
  lemma SelectLogsLevel(logs: seq<LogEntry>, level: string, limit: Option<int>, e: LogEntry)
    requires level != ""
    requires e in SelectLogs(logs, Some(level), limit)
    ensures e in logs && e.level == Text.Upper(level)
  {
    var filtered := FilterLevel(logs, Text.Upper(level));
    FilterLevelExact(logs, Text.Upper(level));
    if limit.Some? && limit.value != 0 {
      var r := PySlices.Drop(filtered, -limit.value);
      var k :| 0 <= k < |r| && r[k] == e;
      assert e in filtered;
    }
  }

  /** `f"[{timestamp}] {level}: {message}"` */
  function FormatEntry(e: LogEntry): string
  {
    "[" + e.timestamp + "] " + e.level + ": " + e.message
  }

  /** The lines of the text export. */
  function TextLines(logs: seq<LogEntry>): (lines: seq<string>)
    ensures |lines| == |logs|
    ensures forall i :: 0 <= i < |logs| ==> lines[i] == FormatEntry(logs[i])
  {
    seq(|logs|, i requires 0 <= i < |logs| => FormatEntry(logs[i]))
  }

  /** Each exported entry's line appears in the text export. */
  lemma TextExportHasEntry(logs: seq<LogEntry>, i: nat)
    requires i < |logs|
    ensures Text.Contains(Text.Join(TextLines(logs), "\n"), FormatEntry(logs[i]))
  {
    Text.JoinContainsPart(TextLines(logs), "\n", i);
  }

  /** `StreamlitLogger`, writing to the session it was created in. */
  class StreamlitLogger {
    const session: Session

    predicate Valid()
      reads session
    {
      session.appLogs.Some?
    }

    /** `__init__`: creates the session log only when it is absent, so the
        entries of earlier loggers survive. */
    constructor (s: Session)
      modifies s
      ensures session == s && Valid()
      ensures old(s.appLogs).Some? ==> s.appLogs == old(s.appLogs)
      ensures old(s.appLogs).None? ==> s.appLogs == Some([])
    {
      session := s;
      new;
      if s.appLogs.None? {
        s.appLogs := Some([]);
      }
    }

    /** The shared step of every `log_*` method: one entry at the end. */
    method Append(entry: LogEntry)
      requires Valid()
      modifies session
      ensures Valid() && session.appLogs == Some(old(session.appLogs.value) + [entry])
    {
      session.appLogs := Some(session.appLogs.value + [entry]);
    }

    method LogInfo(message: string, context: Option<Context>, now: string)
      requires Valid()
      modifies session
      ensures Valid()
      ensures session.appLogs == Some(old(session.appLogs.value) + [LogEntry(now, Info, message, Plain(OrEmpty(context)))])
    {
      Append(LogEntry(now, Info, message, Plain(OrEmpty(context))));
    }

    method LogWarning(message: string, context: Option<Context>, now: string)
      requires Valid()
      modifies session
      ensures Valid()
      ensures session.appLogs == Some(old(session.appLogs.value) + [LogEntry(now, Warning, message, Plain(OrEmpty(context)))])
    {
      Append(LogEntry(now, Warning, message, Plain(OrEmpty(context))));
    }

    method LogError(message: string, error: Option<ErrorInfo>, context: Option<Context>, now: string)
      requires Valid()
      modifies session
      ensures Valid()
      ensures session.appLogs == Some(old(session.appLogs.value) + [LogEntry(now, Error, message,
        ErrorDetails(if error.Some? then Some(error.value.typeName) else None,
                     if error.Some? then Some(error.value.message) else None,
                     OrEmpty(context)))])
    {
      var errorType := if error.Some? then Some(error.value.typeName) else None;
      var errorMessage := if error.Some? then Some(error.value.message) else None;
      Append(LogEntry(now, Error, message, ErrorDetails(errorType, errorMessage, OrEmpty(context))));
    }

    /** `log_processing_step` logs at `INFO`. */
    method LogProcessingStep(step: string, status: string, details: Option<Context>, now: string)
      requires Valid()
      modifies session
      ensures Valid()
      ensures session.appLogs == Some(old(session.appLogs.value) + [LogEntry(now, Info,
        "処理ステップ: " + step + " - " + status, StepDetails(step, status, OrEmpty(details)))])
    {
      Append(LogEntry(now, Info, "処理ステップ: " + step + " - " + status, StepDetails(step, status, OrEmpty(details))));
    }

    /** `get_logs` */
    function GetLogs(level: Option<string>, limit: Option<int>): (r: seq<LogEntry>)
      reads session
      ensures session.appLogs.None? ==> r == []
      ensures limit.Some? && limit.value > 0 ==> |r| <= limit.value
    {
      var logs := if session.appLogs.Some? then session.appLogs.value else [];
      SelectLogsLimit(logs, level, limit);
      SelectLogs(logs, level, limit)
    }

    /** `clear_logs` */
    method ClearLogs()
      modifies session
      ensures Valid() && session.appLogs == Some([])
    {
      session.appLogs := Some([]);
    }

    /** `export_logs`: the last hundred entries, as JSON or as one text line
        per entry; any other format is refused. */
    method ExportLogs(format: string) returns (r: Result<Export, ExportError>)
      ensures r.Failure? <==> format != JsonFormat && format != TextFormat
      ensures r.Failure? ==> r.error == UnsupportedFormat(format)
      ensures format == JsonFormat ==> r == Success(JsonExport(GetLogs(None, Some(DefaultLimit))))
      ensures format == TextFormat ==>
        r == Success(TextExport(Text.Join(TextLines(GetLogs(None, Some(DefaultLimit))), "\n")))
    {
      var logs := GetLogs(None, Some(DefaultLimit));
      if format == JsonFormat {
        return Success(JsonExport(logs));
      } else if format == TextFormat {
        var textLogs: seq<string> := [];
        for i := 0 to |logs|
          invariant textLogs == TextLines(logs[..i])
        {
          textLogs := textLogs + [FormatEntry(logs[i])];
        }
        assert logs[..|logs|] == logs;
        return Success(TextExport(Text.Join(textLogs, "\n")));
      } else {
        return Failure(UnsupportedFormat(format));
      }
    }
  }

  /** The text export holds at most the last hundred entries. */
  lemma TextExportBound(logs: seq<LogEntry>)
    ensures |SelectLogs(logs, None, Some(DefaultLimit))| <= DefaultLimit
    ensures SelectLogs(logs, None, Some(DefaultLimit))
         == logs[|logs| - |SelectLogs(logs, None, Some(DefaultLimit))|..]
  {
    SelectLogsLimit(logs, None, Some(DefaultLimit));
  }
}

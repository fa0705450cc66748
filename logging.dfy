/** The logger the services share. Only warnings and errors are recorded: the
    info and debug lines the services also write carry no decision. */
module Logging {
  datatype Level = Warning | Error

  datatype LogEntry = LogEntry(level: Level, text: string)

  class Logger {
    var entries: seq<LogEntry>

    constructor()
      ensures entries == []
    {
      entries := [];
    }

    method Log(more: seq<LogEntry>)
      modifies this
      ensures entries == old(entries) + more
    {
      entries := entries + more;
    }
  }
}

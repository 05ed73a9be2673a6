/** The entries written through System.Diagnostics.Trace: a severity and a message. */
module Tracing {

  datatype Level = Information | Warning | Error

  datatype LogEntry = LogEntry(level: Level, message: string)
}

/**
 * The two DataReceived handlers of RotManager: what a line of the relay's
 * standard output or standard error leads to, as a trace entry and a kill
 * decision. The kill itself is carried out by Supervisor.RotManager.
 */
module OutputClassifier {
  import opened Wrappers
  import opened Text
  import opened Tracing

  /** The in-band tag the relay puts on error lines it writes to standard output. */
  const ErrorMarker: string := "[err]"
  /** The substrings of an error line that make the supervisor kill the relay. */
  const OutOfMemoryPattern: string := "Out of memory"
  const DyingPattern: string := "Dying"
  const LinePrefix: string := "RotManager : "

  datatype Action =
    | Ignore
    | LogInfo(message: string)
    | LogError(message: string, kill: bool)

  /** The line carries one of the fatal substrings (case-sensitive). */
  predicate IsFatal(line: string) {
    Contains(line, OutOfMemoryPattern) || Contains(line, DyingPattern)
  }

  /** ErrorOutputHandler: every non-blank line is an error; fatal ones also kill. */
  function ErrorOutputHandler(data: Option<string>): (a: Action)
    ensures a.Ignore? <==> IsNullOrWhiteSpace(data)
    ensures !a.LogInfo?
    ensures a.LogError? ==> a.message == LinePrefix + data.value && (a.kill <==> IsFatal(data.value))
  {
    if IsNullOrWhiteSpace(data) then Ignore
    else LogError(LinePrefix + data.value, IsFatal(data.value))
  }

  /** OutputHandler: a non-blank line with the marker is handled as an error line, any other is information. */
  function OutputHandler(data: Option<string>): (a: Action)
    ensures a.Ignore? <==> IsNullOrWhiteSpace(data)
    ensures a.LogInfo? ==> a.message == LinePrefix + data.value && !Contains(data.value, ErrorMarker)
  {
    if IsNullOrWhiteSpace(data) then Ignore
    else if Contains(data.value, ErrorMarker) then ErrorOutputHandler(data)
    else LogInfo(LinePrefix + data.value)
  }

  /** The trace entries an action writes. */
  function ActionLog(a: Action): (log: seq<LogEntry>)
    ensures a.Ignore? <==> log == []
    ensures a.LogInfo? ==> log == [LogEntry(Information, a.message)]
    ensures a.LogError? ==> log == [LogEntry(Error, a.message)]
  {
    match a
    case Ignore => []
    case LogInfo(m) => [LogEntry(Information, m)]
    case LogError(m, _) => [LogEntry(Error, m)]
  }

  /** The action kills the relay process. */
  predicate Kills(a: Action) {
    a.LogError? && a.kill
  }

  /** A null, empty or white-space line writes nothing and kills nothing, on either stream. */
  lemma BlankLineIgnored(data: Option<string>)
    requires IsNullOrWhiteSpace(data)
    ensures OutputHandler(data) == Ignore && ErrorOutputHandler(data) == Ignore
    ensures ActionLog(OutputHandler(data)) == [] && ActionLog(ErrorOutputHandler(data)) == []
  {
  }

  /** A marked standard-output line gets exactly what it would get on standard error. */
  lemma MarkedLineIsErrorLine(line: string)
    requires Contains(line, ErrorMarker)
    ensures OutputHandler(Some(line)) == ErrorOutputHandler(Some(line))
    ensures Kills(OutputHandler(Some(line))) <==> IsFatal(line)
  {
    var i :| 0 <= i <= |line| && OccursAt(line, ErrorMarker, i);
    assert line[i..i + 5][0] == line[i] == '[';
    assert !IsWhiteSpace(line[i]);
  }

  /** An unmarked standard-output line is at most information and never kills, whatever it says. */
  lemma UnmarkedOutputNeverKills(data: Option<string>)
    requires data.Some? ==> !Contains(data.value, ErrorMarker)
    ensures !Kills(OutputHandler(data))
    ensures !IsNullOrWhiteSpace(data) ==> OutputHandler(data) == LogInfo(LinePrefix + data.value)
  {
  }

  /** A non-blank standard-error line is an error, and kills exactly when it holds a fatal substring. */
  lemma ErrorLineKillsIffFatal(line: string)
    requires !IsNullOrWhiteSpace(Some(line))
    ensures ActionLog(ErrorOutputHandler(Some(line))) == [LogEntry(Error, LinePrefix + line)]
    ensures Kills(ErrorOutputHandler(Some(line))) <==> IsFatal(line)
  {
  }

  /** The match is case-sensitive: lower-case "dying" and "out of memory" do not kill. */
  lemma FatalMatchIsCaseSensitive()
    ensures ErrorOutputHandler(Some("dying")) == LogError(LinePrefix + "dying", false)
    ensures ErrorOutputHandler(Some("out of memory")) == LogError(LinePrefix + "out of memory", false)
  {
    assert !IsWhiteSpace("dying"[0]);
    LacksFirstChar("dying", OutOfMemoryPattern);
    LacksFirstChar("dying", DyingPattern);
    assert !IsWhiteSpace("out of memory"[0]);
    LacksFirstChar("out of memory", OutOfMemoryPattern);
    LacksFirstChar("out of memory", DyingPattern);
  }

  /** A fatal message smuggled onto standard output behind the marker still kills. */
  lemma MarkedFatalLineKills()
    ensures Kills(OutputHandler(Some("[err] Out of memory")))
  {
    var line := "[err] Out of memory";
    assert OccursAt(line, ErrorMarker, 0);
    assert OccursAt(line, OutOfMemoryPattern, 6);
    MarkedLineIsErrorLine(line);
  }
}

/** The log-level filter that replaces `print` in the server: each message
    is written or dropped according to the `LOG_LEVEL` environment
    variable, read at every call (an input here). */
module Logging {
  import opened Wrappers
  import opened Text

  /** `' '.join(str(arg) for arg in args)`. */
  function JoinArgs(args: seq<string>): (message: string)
    ensures args == [] ==> message == []
    ensures |args| == 1 ==> message == args[0]
    decreases |args|
  {
    if args == [] then []
    else if |args| == 1 then args[0]
    else args[0] + " " + JoinArgs(args[1..])
  }

  /** The level in force: the variable upper-cased, `DEBUG` when unset. */
  function Level(logLevel: Option<string>): string {
    Upper(if logLevel.Some? then logLevel.value else "DEBUG")
  }

  /** The filter of `smart_print`: at ERROR only `[ERROR]` messages, at
      WARNING also `[WARNING]` ones, at INFO also `[LOG]` ones, and at any
      other level everything. */
  predicate ShouldWrite(message: string, logLevel: Option<string>) {
    var level := Level(logLevel);
    if level == "ERROR" then Contains(message, "[ERROR]")
    else if level == "WARNING" then Contains(message, "[ERROR]") || Contains(message, "[WARNING]")
    else if level == "INFO" then Contains(message, "[ERROR]") || Contains(message, "[WARNING]") || Contains(message, "[LOG]")
    else true
  }

  /** The variable is compared without regard to case. */
  lemma LevelIgnoresCase(message: string, level: string)
    ensures ShouldWrite(message, Some(level)) == ShouldWrite(message, Some(Upper(level)))
  {
    UpperIdempotent(level);
  }

  /** Without the variable every message is written. */
  lemma UnsetWritesAll(message: string)
    ensures ShouldWrite(message, None)
  {
    assert Upper("DEBUG") == "DEBUG";
  }

  /** Raising the level only ever drops messages: what is written at ERROR
      is written at WARNING, what is written at WARNING is written at INFO,
      and what is written at INFO is written at DEBUG. */
  lemma LevelsNest(message: string)
    ensures ShouldWrite(message, Some("ERROR")) ==> ShouldWrite(message, Some("WARNING"))
    ensures ShouldWrite(message, Some("WARNING")) ==> ShouldWrite(message, Some("INFO"))
    ensures ShouldWrite(message, Some("INFO")) ==> ShouldWrite(message, Some("DEBUG"))
  {
    assert Upper("ERROR") == "ERROR";
    assert Upper("WARNING") == "WARNING";
    assert Upper("INFO") == "INFO";
    assert Upper("DEBUG") == "DEBUG";
  }

  /** A message tagged only `[WARN]` is dropped at level WARNING. */
  lemma WarnTagDropped()
    ensures !ShouldWrite("[WARN]", Some("warning"))
  {
    assert Upper("warning") == "WARNING";
    if Contains("[WARN]", "[ERROR]") {
      ContainsLength("[WARN]", "[ERROR]");
    }
    if Contains("[WARN]", "[WARNING]") {
      ContainsLength("[WARN]", "[WARNING]");
    }
  }

  /** Standard output. */
  class Console {
    var output: seq<string>

    constructor()
      ensures output == []
    {
      output := [];
    }

    /** `smart_print`: the joined message and a newline, when the level
        lets it through. */
    method SmartPrint(args: seq<string>, logLevel: Option<string>)
      modifies this
      ensures var message := JoinArgs(args);
        output == old(output) + (if ShouldWrite(message, logLevel) then [message + "\n"] else [])
    {
      var message := JoinArgs(args);
      var level := Upper(if logLevel.Some? then logLevel.value else "DEBUG");
      var isError := Contains(message, "[ERROR]");
      var isWarning := Contains(message, "[WARNING]");
      var isLog := Contains(message, "[LOG]");
      if level == "ERROR" && !isError {
        return;
      } else if level == "WARNING" && !(isError || isWarning) {
        return;
      } else if level == "INFO" && !(isError || isWarning || isLog) {
        return;
      }
      output := output + [message + "\n"];
    }
  }
}

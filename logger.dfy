/**
 * The log level (src/util/logger.ts): one mutable level, initially "info",
 * and the logger built for it. `setLogLevel` accepts only the six level
 * names the logging library knows; a valid call rebuilds the logger with the
 * new level, anything else is ignored.
 */
module Logger {
  /** The level names `setLogLevel` accepts, in the library's order. */
  const ValidLevels: seq<string> := ["log", "trace", "debug", "info", "warn", "error"]

  /** The level the process starts with. */
  const InitialLevel: string := "info"

  /** The level after `setLogLevel(requested)` from level `current`. */
  function NextLevel(current: string, requested: string): (r: string)
    ensures current in ValidLevels ==> r in ValidLevels
    ensures r == requested || r == current
    ensures r == requested <==> requested in ValidLevels || requested == current
  {
    if requested in ValidLevels then requested else current
  }

  /** A logger built by `createLogger`; its level is fixed when it is built. */
  class Tracer {
    const level: string

    constructor (level: string)
      ensures this.level == level
    {
      this.level := level;
    }
  }

  /** The module's state: `_level` and the exported `log`. */
  class LogState {
    var level: string
    var log: Tracer

    /** The logger in use was built for the current level, and that level is a known one. */
    ghost predicate Valid()
      reads this, log
    {
      log.level == level && level in ValidLevels
    }

    /** Loading the module: level "info" and a logger built for it. */
    constructor ()
      ensures Valid() && level == InitialLevel && fresh(log)
    {
      level := InitialLevel;
      log := new Tracer(InitialLevel);
    }

    /**
     * `setLogLevel(requested)`: a known level is taken and the logger
     * rebuilt; an unknown one changes nothing, the logger included.
     */
    method SetLogLevel(requested: string)
      requires Valid()
      modifies this
      ensures Valid()
      ensures level == NextLevel(old(level), requested)
      ensures requested in ValidLevels ==> fresh(log)
      ensures requested !in ValidLevels ==> log == old(log) && level == old(level)
    {
      if requested in ValidLevels {
        level := requested;
        log := new Tracer(level);
      }
    }
  }
}

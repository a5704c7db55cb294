/**
 * lib/dt_shell/col_logging.py: an older copy of the colouring wrapper of logging.py, with the
 * same level thresholds, the same per-line wrap and the same delegation to the wrapped
 * `StreamHandler.emit`. The colour table and the message rewrite are the ones defined in
 * ShellLogging; this module models this file's own wrapper.
 */
module ColLogging {
  import Text
  import ShellLogging

  /**
   * `new(*args)` of this file's `add_coloring_to_emit_ansi`: overwrite the record's message
   * with its coloured form, then delegate to the original `emit` and return its result.
   */
  method ColoringEmit<R>(emit: (int, string) -> R, record: ShellLogging.LogRecord) returns (r: R)
    modifies record
    ensures record.levelno == old(record.levelno)
    ensures record.msg == ShellLogging.ColorMessage(ShellLogging.LevelColor(old(record.levelno)), old(record.msg))
    ensures |Text.Split(record.msg, '\n')| == |Text.Split(old(record.msg), '\n')|
    ensures r == emit(record.levelno, record.msg)
  {
    var levelno := record.levelno;
    var color := if levelno >= 50 then ShellLogging.Red
                 else if levelno >= 40 then ShellLogging.Red
                 else if levelno >= 30 then ShellLogging.Yellow
                 else if levelno >= 20 then ShellLogging.Green
                 else if levelno >= 10 then ShellLogging.Pink
                 else ShellLogging.Normal;
    ShellLogging.ColorMessageLines(color, record.msg);
    record.msg := ShellLogging.ColorMessage(color, record.msg);
    r := emit(record.levelno, record.msg);
  }

  /**
   * Below the DEBUG threshold (a level such as 0, NOTSET) the "colour" is the reset code
   * itself: every line k of the message becomes reset + line k + reset.
   */
  lemma ResetBelowDebug(levelno: int, msg: string)
    requires levelno < 10
    ensures var out := Text.Split(ShellLogging.ColorMessage(ShellLogging.LevelColor(levelno), msg), '\n');
            |out| == |Text.Split(msg, '\n')| &&
            forall k :: 0 <= k < |out| ==>
              out[k] == ShellLogging.Normal + Text.Split(msg, '\n')[k] + ShellLogging.Normal
  {
    ShellLogging.ColorMessageLines(ShellLogging.LevelColor(levelno), msg);
  }
}

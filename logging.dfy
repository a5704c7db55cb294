/**
 * The shell's log colouring and user-facing message printer (lib/dt_shell/logging.py).
 *
 * `add_coloring_to_emit_ansi` wraps a stream handler's `emit`: it picks an ANSI colour from
 * the record's numeric level, wraps every line of the message in that colour and a reset
 * code, stores the result back into the record and delegates to the wrapped `emit`.
 * `dts_print` strips a message and prints it after an empty separator line, one output
 * line per message line, the first behind "dts : " and the others behind "    : ".
 */
module ShellLogging {
  import Text

  const Red: string := "\U{1B}[31m"
  const Yellow: string := "\U{1B}[33m"
  const Green: string := "\U{1B}[32m"
  const Pink: string := "\U{1B}[35m"
  const Normal: string := "\U{1B}[0m"

  const FirstPrefix: string := "dts : "
  const Filler: string := "    : "

  /** The colour for a numeric logging level (CRITICAL 50, ERROR 40, WARNING 30, INFO 20, DEBUG 10). */
  function LevelColor(levelno: int): (color: string)
    ensures color == Red <==> levelno >= 40
    ensures color == Yellow <==> 30 <= levelno < 40
    ensures color == Green <==> 20 <= levelno < 30
    ensures color == Pink <==> 10 <= levelno < 20
    ensures color == Normal <==> levelno < 10
    ensures '\n' !in color
  {
    if levelno >= 50 then Red
    else if levelno >= 40 then Red
    else if levelno >= 30 then Yellow
    else if levelno >= 20 then Green
    else if levelno >= 10 then Pink
    else Normal
  }

  /** `list(map(color_line, lines))`: every line between the colour and the reset code. */
  function ColorEach(color: string, lines: seq<string>): (r: seq<string>)
    ensures |r| == |lines|
    ensures forall k :: 0 <= k < |lines| ==> r[k] == color + lines[k] + Normal
  {
    seq(|lines|, k requires 0 <= k < |lines| => color + lines[k] + Normal)
  }

  /** The rewritten message: `"\n".join(map(color_line, msg.split("\n")))`. */
  function ColorMessage(color: string, msg: string): string {
    Text.Join(ColorEach(color, Text.Split(msg, '\n')), '\n')
  }

  /**
   * The coloured message has exactly as many lines as the original, and line k is the
   * original line k between the colour and the reset code.
   */
  lemma ColorMessageLines(color: string, msg: string)
    requires '\n' !in color
    ensures |Text.Split(ColorMessage(color, msg), '\n')| == |Text.Split(msg, '\n')|
    ensures forall k :: 0 <= k < |Text.Split(msg, '\n')| ==>
              Text.Split(ColorMessage(color, msg), '\n')[k] == color + Text.Split(msg, '\n')[k] + Normal
  {
    var lines := Text.Split(msg, '\n');
    var colored := ColorEach(color, lines);
    forall k | 0 <= k < |colored| ensures '\n' !in colored[k] {
      assert colored[k] == color + lines[k] + Normal;
      assert '\n' !in Normal;
    }
    Text.SplitJoin(colored, '\n');
  }

  /** Peeling the colour and the reset code off every coloured line and re-joining gives the message back. */
  lemma ColorMessageRoundTrip(color: string, msg: string)
    requires '\n' !in color
    ensures var out := Text.Split(ColorMessage(color, msg), '\n');
            Text.Join(seq(|out|, k requires 0 <= k < |out| =>
                        if |out[k]| >= |color| + |Normal| then out[k][|color|..|out[k]| - |Normal|] else ""), '\n')
            == msg
  {
    var lines := Text.Split(msg, '\n');
    var out := Text.Split(ColorMessage(color, msg), '\n');
    ColorMessageLines(color, msg);
    var peeled := seq(|out|, k requires 0 <= k < |out| =>
                        if |out[k]| >= |color| + |Normal| then out[k][|color|..|out[k]| - |Normal|] else "");
    forall k | 0 <= k < |out| ensures peeled[k] == lines[k] {
      assert out[k] == color + lines[k] + Normal;
    }
    assert peeled == lines;
    Text.JoinSplit(msg, '\n');
  }

  /** The mutable part of a `logging.LogRecord` that the wrapper reads and writes. */
  class LogRecord {
    var levelno: int
    var msg: string

    constructor (levelno: int, msg: string)
      ensures this.levelno == levelno && this.msg == msg
    {
      this.levelno := levelno;
      this.msg := msg;
    }
  }

  /**
   * The function `add_coloring_to_emit_ansi(fn)` returns, applied to a record: the record's
   * message is overwritten with its coloured form, then the original `emit` runs on the
   * updated record and its result is returned unchanged.
   */
  method ColoringEmit<R>(emit: (int, string) -> R, record: LogRecord) returns (r: R)
    modifies record
    ensures record.levelno == old(record.levelno)
    ensures record.msg == ColorMessage(LevelColor(old(record.levelno)), old(record.msg))
    ensures r == emit(record.levelno, record.msg)
  {
    var color := LevelColor(record.levelno);
    record.msg := ColorMessage(color, record.msg);
    r := emit(record.levelno, record.msg);
  }

  /** The lines of a message as `dts_print` sees them: stripped, then split on newlines. */
  function MessageLines(msg: string): seq<string> {
    Text.Split(Text.Strip(msg), '\n')
  }

  /**
   * `dts_print(msg)`: the printed lines, in order. The first is the empty separator; then one
   * line per message line, "dts : " before the first and "    : " before the others.
   */
  method DtsPrint(msg: string) returns (out: seq<string>)
    ensures |out| == |MessageLines(msg)| + 1
    ensures out[0] == ""
    ensures forall k :: 0 <= k < |MessageLines(msg)| ==>
              out[k + 1] == (if k == 0 then FirstPrefix else Filler) + " " + MessageLines(msg)[k]
  {
    var stripped := Text.Strip(msg);
    out := [""];
    var lines := Text.Split(stripped, '\n');
    var i := 0;
    while i < |lines|
      invariant 0 <= i <= |lines|
      invariant |out| == i + 1 && out[0] == ""
      invariant forall k :: 0 <= k < i ==> out[k + 1] == (if k == 0 then FirstPrefix else Filler) + " " + lines[k]
    {
      var line := (if i == 0 then FirstPrefix else Filler) + " " + lines[i];
      out := out + [line];
      i := i + 1;
    }
  }

  /**
   * Whatever `dts_print` printed for a message, dropping the separator line and the
   * seven-character prefix of every other line and re-joining with newlines gives back
   * the stripped message: no line is lost, reordered or altered.
   */
  lemma DtsPrintRoundTrip(msg: string, out: seq<string>)
    requires |out| == |MessageLines(msg)| + 1
    requires forall k :: 0 <= k < |MessageLines(msg)| ==>
               out[k + 1] == (if k == 0 then FirstPrefix else Filler) + " " + MessageLines(msg)[k]
    ensures Text.Join(seq(|out| - 1, k requires 0 <= k < |out| - 1 =>
                        if |out[k + 1]| >= 7 then out[k + 1][7..] else ""), '\n')
            == Text.Strip(msg)
  {
    var lines := MessageLines(msg);
    var bodies := seq(|out| - 1, k requires 0 <= k < |out| - 1 =>
                        if |out[k + 1]| >= 7 then out[k + 1][7..] else "");
    forall k | 0 <= k < |lines| ensures bodies[k] == lines[k] {
      var f := if k == 0 then FirstPrefix else Filler;
      assert out[k + 1] == f + " " + lines[k];
      assert |f + " "| == 7;
    }
    assert bodies == lines;
    Text.JoinSplit(Text.Strip(msg), '\n');
  }
}

/**
 * `BaseError.__str__` of compiler/errors.py: the coloured report of a
 * compile error, which names the file and line, echoes the source line,
 * puts a caret under the offending column and ends with the error's class
 * and message.
 */
module Diagnostics {
  import Results
  import opened Strings
  import opened Lines

  /** The three subclasses of `BaseError`; the first keeps the source's spelling. */
  datatype ErrorClass = SynatxError | UnexpectedEndError | NameError

  /** `self.__class__.__name__`. */
  function ClassName(c: ErrorClass): string {
    match c
    case SynatxError => "SynatxError"
    case UnexpectedEndError => "UnexpectedEndError"
    case NameError => "NameError"
  }

  /** rply's `SourcePosition`: 1-based line and column. */
  datatype Position = Position(lineno: int, colno: int)

  datatype BaseError = BaseError(
    cls: ErrorClass,
    position: Results.Option<Position>,
    file: string,
    source: string,
    message: string)

  /** `self.source`, which the constructor stores as `source.splitlines()`. */
  function SourceLines(e: BaseError): (lines: seq<string>)
    ensures forall i :: 0 <= i < |lines| ==> NoBreak(lines[i])
  {
    SplitLines(e.source, false)
  }

  /** Python's `xs[k]`: negative indices count from the end; `None` stands for `IndexError`. */
  function PyIndex<T>(xs: seq<T>, k: int): (r: Results.Option<T>)
    ensures r.Some? <==> -|xs| <= k < |xs|
  {
    if 0 <= k < |xs| then Results.Some(xs[k])
    else if -|xs| <= k < 0 then Results.Some(xs[|xs| + k])
    else Results.None
  }

  /** The reported line number and caret column. */
  datatype Spot = Spot(line: int, column: int)

  /**
   * Without a position the report points after the end of the last line;
   * with one it uses the position's line and its column made 0-based. A
   * source without lines and without a position makes `self.source[-1]`
   * raise `IndexError`, here `None`.
   */
  function Locate(e: BaseError): Results.Option<Spot> {
    match e.position
    case None =>
      var lines := SourceLines(e);
      if |lines| == 0 then Results.None else Results.Some(Spot(|lines|, |lines[|lines| - 1]|))
    case Some(p) => Results.Some(Spot(p.lineno, p.colno - 1))
  }

  const Esc: char := '\U{1B}'

  /** The colour codes: magenta, cyan, red and reset. */
  const Magenta: string := [Esc] + "[95m"
  const Cyan: string := [Esc] + "[36m"
  const Red: string := [Esc] + "[91m"
  const Reset: string := [Esc] + "[0m"

  const Banner: string := Magenta + "Error" + Reset + ":"

  function LocationLine(file: string, line: int): string {
    "  " + Cyan + "File \"" + file + "\", line " + IntToString(line) + Reset
  }

  function EchoLine(text: string): string {
    "    " + text
  }

  /** Four spaces, `column` more spaces (none when `column` is negative), then the red caret. */
  function CaretLine(column: int): string {
    "    " + Repeat(" ", column) + Red + "^" + Reset
  }

  function ClassLine(cls: ErrorClass, message: string): string {
    Magenta + ClassName(cls) + Reset + ": " + message
  }

  /**
   * `BaseError.__str__`: `None` where Python raises `IndexError`, either
   * for a source without lines and no position or for a line number
   * outside the source.
   */
  function Str(e: BaseError): Results.Option<string> {
    match Locate(e)
    case None => Results.None
    case Some(spot) =>
      match PyIndex(SourceLines(e), spot.line - 1)
      case None => Results.None
      case Some(text) =>
        var header := "\n" + Banner + "\n";
        var located := header + LocationLine(e.file, spot.line) + "\n";
        var echoed := located + EchoLine(text) + "\n";
        var pointed := echoed + CaretLine(spot.column) + "\n";
        Results.Some(pointed + ClassLine(e.cls, e.message))
  }

  /**
   * The report has six lines: an empty one, the banner, the file and line,
   * the echoed source line, the caret line and the class with the message
   * (when neither the file name nor the message holds a line feed).
   */
  lemma StrLines(e: BaseError)
    requires '\n' !in e.file && '\n' !in e.message
    ensures Str(e).Some? ==>
      var spot := Locate(e).value;
      Split(Str(e).value, '\n')
        == ["", Banner, LocationLine(e.file, spot.line),
            EchoLine(PyIndex(SourceLines(e), spot.line - 1).value),
            CaretLine(spot.column), ClassLine(e.cls, e.message)]
  {
    if Str(e).Some? {
      var spot := Locate(e).value;
      var text := PyIndex(SourceLines(e), spot.line - 1).value;
      var parts := ["", Banner, LocationLine(e.file, spot.line), EchoLine(text),
                    CaretLine(spot.column), ClassLine(e.cls, e.message)];
      StrJoins(e, parts);
      NoLineFeeds(e, spot, text, parts);
      SplitJoin(parts, '\n');
    }
  }

  lemma StrJoins(e: BaseError, parts: seq<string>)
    requires Str(e).Some?
    requires parts == ["", Banner, LocationLine(e.file, Locate(e).value.line),
                       EchoLine(PyIndex(SourceLines(e), Locate(e).value.line - 1).value),
                       CaretLine(Locate(e).value.column), ClassLine(e.cls, e.message)]
    ensures Str(e).value == Join(parts, "\n")
  {
    JoinSix(parts);
    Nesting(parts[1], parts[2], parts[3], parts[4], parts[5]);
  }

  /** The source builds the text by appending; the same text, grouped line by line. */
  lemma Nesting(b: string, c: string, d: string, x: string, f: string)
    ensures ((("\n" + b + "\n") + c + "\n") + d + "\n") + x + "\n" + f
         == "" + "\n" + b + "\n" + c + "\n" + d + "\n" + x + "\n" + f
  {
  }

  lemma NoLineFeeds(e: BaseError, spot: Spot, text: string, parts: seq<string>)
    requires '\n' !in e.file && '\n' !in e.message && NoBreak(text)
    requires parts == ["", Banner, LocationLine(e.file, spot.line), EchoLine(text),
                       CaretLine(spot.column), ClassLine(e.cls, e.message)]
    ensures forall i :: 0 <= i < |parts| ==> '\n' !in parts[i]
  {
    ColoursNoLineFeed();
    LocationNoLineFeed(e.file, spot.line);
    assert forall k :: 0 <= k < |text| ==> text[k] != '\n';
    CaretNoLineFeed(spot.column);
    assert '\n' !in ClassName(e.cls);
  }

  lemma ColoursNoLineFeed()
    ensures '\n' !in Magenta && '\n' !in Cyan && '\n' !in Red && '\n' !in Reset && '\n' !in Banner
  {
  }

  lemma LocationNoLineFeed(file: string, line: int)
    requires '\n' !in file
    ensures '\n' !in LocationLine(file, line)
  {
    ColoursNoLineFeed();
    DigitsNoLineFeed(line);
  }

  lemma CaretNoLineFeed(column: int)
    ensures '\n' !in CaretLine(column)
  {
    ColoursNoLineFeed();
    assert forall k :: 0 <= k < |Repeat(" ", column)| ==> Repeat(" ", column)[k] == ' ';
  }

  lemma DigitsNoLineFeed(n: int)
    ensures '\n' !in IntToString(n)
  {
    var d := if n < 0 then NatToString(-n) else NatToString(n);
    assert forall k :: 0 <= k < |d| ==> '0' <= d[k] <= '9';
  }

  lemma JoinSix(parts: seq<string>)
    requires |parts| == 6
    ensures Join(parts, "\n")
      == parts[0] + "\n" + parts[1] + "\n" + parts[2] + "\n" + parts[3] + "\n" + parts[4] + "\n" + parts[5]
  {
    var nl := "\n";
    assert Join(parts[5..], nl) == parts[5];
    assert parts[4..][1..] == parts[5..];
    assert Join(parts[4..], nl) == parts[4] + nl + Join(parts[5..], nl);
    assert parts[3..][1..] == parts[4..];
    assert Join(parts[3..], nl) == parts[3] + nl + Join(parts[4..], nl);
    assert parts[2..][1..] == parts[3..];
    assert Join(parts[2..], nl) == parts[2] + nl + Join(parts[3..], nl);
    assert parts[1..][1..] == parts[2..];
    assert Join(parts[1..], nl) == parts[1] + nl + Join(parts[2..], nl);
    assert Join(parts, nl) == parts[0] + nl + Join(parts[1..], nl);
  }

  /** Python raises `IndexError` exactly when there is no line to echo. */
  lemma StrFailsIff(e: BaseError)
    ensures Str(e).None? <==>
      if e.position.None? then |SourceLines(e)| == 0
      else !(1 - |SourceLines(e)| <= e.position.value.lineno <= |SourceLines(e)|)
  {
  }

  /** A caret line for a column `c`: `4 + c` spaces, then the coloured caret. */
  lemma CaretShape(c: nat)
    ensures |CaretLine(c)| == 4 + c + |Red + "^" + Reset|
    ensures forall k :: 0 <= k < 4 + c ==> CaretLine(c)[k] == ' '
    ensures CaretLine(c)[4 + c..] == Red + "^" + Reset
  {
    var pad := "    " + Repeat(" ", c);
    assert CaretLine(c) == pad + (Red + "^" + Reset);
  }

  /**
   * Without a position the report names the last line, echoes it, and puts
   * the caret just past its last character.
   */
  lemma CaretAfterEnd(e: BaseError)
    requires e.position.None? && |SourceLines(e)| >= 1
    ensures Str(e).Some?
    ensures var lines := SourceLines(e);
      var last := lines[|lines| - 1];
      var spot := Locate(e).value;
      spot.line == |lines|
      && PyIndex(lines, spot.line - 1) == Results.Some(last)
      && (forall k :: 0 <= k < |EchoLine(last)| ==> CaretLine(spot.column)[k] == ' ')
      && CaretLine(spot.column)[|EchoLine(last)|..] == Red + "^" + Reset
  {
    var lines := SourceLines(e);
    StrFailsIff(e);
    CaretShape(|lines[|lines| - 1]|);
  }

  /**
   * With a position inside the source the report echoes the position's
   * line and puts the caret under its `colno`-th character.
   */
  lemma CaretUnderColumn(e: BaseError)
    requires e.position.Some?
    requires 1 <= e.position.value.lineno <= |SourceLines(e)|
    requires 1 <= e.position.value.colno <= |SourceLines(e)[e.position.value.lineno - 1]|
    ensures Str(e).Some?
    ensures var p := e.position.value;
      var text := SourceLines(e)[p.lineno - 1];
      var spot := Locate(e).value;
      var at := 4 + p.colno - 1;
      spot.line == p.lineno
      && PyIndex(SourceLines(e), spot.line - 1) == Results.Some(text)
      && (forall k :: 0 <= k < at ==> CaretLine(spot.column)[k] == ' ')
      && CaretLine(spot.column)[at..] == Red + "^" + Reset
      && EchoLine(text)[at] == text[p.colno - 1]
  {
    StrFailsIff(e);
    CaretShape(e.position.value.colno - 1);
  }

  /**
   * A position on line 0 is reported as line 0, but Python's index -1 makes
   * the echoed line the last line of the source.
   */
  lemma ZeroLineEchoesLast(e: BaseError)
    requires e.position.Some? && e.position.value.lineno == 0 && |SourceLines(e)| >= 1
    ensures Str(e).Some?
    ensures Locate(e).value.line == 0
    ensures PyIndex(SourceLines(e), Locate(e).value.line - 1) == Results.Some(SourceLines(e)[|SourceLines(e)| - 1])
  {
  }
}

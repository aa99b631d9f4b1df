/** The hand-written CSV scanner (section 2 of RFC 4180; crates/misty-importers/src/csv.rs). */
module Csv {
  import opened Foundations

  datatype Limits = Limits(maxColumns: nat, maxFieldBytes: nat, maxRows: nat)

  datatype RowError = RowTooWide(len: nat) | FieldTooLong(len: nat) | UnterminatedQuote

  /** A row starts on `line` and is its fields, or why it could not be read. */
  datatype Row = Row(line: nat, fields: Result<seq<string>, RowError>)

  const QUOTE: char := '"'
  const CR: char := '\r'
  const LF: char := '\n'

  function Utf8Width(ch: char): nat {
    if ch as int < 0x80 then 1 else if ch as int < 0x800 then 2 else if ch as int < 0x1_0000 then 3 else 4
  }

  /** Bytes of UTF-8. */
  function Width(text: string): nat { if text == [] then 0 else Width(text[..|text| - 1]) + Utf8Width(text[|text| - 1]) }

  /** How many characters a UTF-8 sequence of `n` bytes can tell apart: seven bits in one byte, five and a
      bit in each of more. */
  function Capacity(n: nat): nat { if n == 0 then 0 else if n == 1 then 128 else if n == 2 then 64 * 32 else 32 * Capacity(n - 1) }

  /** A character takes as few bytes as can hold it. */
  lemma Utf8WidthIsLeast(ch: char)
    ensures var n := Utf8Width(ch); 1 <= n <= 4 && Capacity(n - 1) <= ch as int < Capacity(n)
  {
    assert Capacity(3) == 0x1_0000 && Capacity(4) == 0x20_0000;
  }

  // ----- the scanner's state -----------------------------------------------------------------------

  datatype Scanner = Scanner(
    line: nat,
    rowLine: nat,
    fields: seq<string>,
    field: string,
    inQuotes: bool,
    atFieldStart: bool,
    overflow: Option<RowError>,
    out: seq<Row>)

  function RowStart(line: nat, out: seq<Row>): Scanner { Scanner(line, line, [], "", false, true, None, out) }

  function Keep(first: Option<RowError>, error: RowError): Option<RowError> { if first.Some? then first else Some(error) }

  /** A character that would take the field past its limit is dropped, and the row is in error. */
  function PushChar(limits: Limits, s: Scanner, ch: char): Scanner {
    var len := Width(s.field) + Utf8Width(ch);
    if len > limits.maxFieldBytes then s.(overflow := Keep(s.overflow, FieldTooLong(len))) else s.(field := s.field + [ch])
  }

  function PushField(limits: Limits, s: Scanner): Scanner {
    if |s.fields| >= limits.maxColumns
    then s.(overflow := Keep(s.overflow, RowTooWide(|s.fields| + 1)), field := "")
    else s.(fields := s.fields + [s.field], field := "")
  }

  predicate Blank(fields: seq<string>) { |fields| == 1 && fields[0] == "" }

  function Finished(s: Scanner): Row { Row(s.rowLine, if s.overflow.Some? then Err(s.overflow.value) else Ok(s.fields)) }

  /** The fields are complete: emit the row unless it is a blank line. */
  function Emit(s: Scanner): seq<Row> { if !Blank(s.fields) || s.overflow.Some? then s.out + [Finished(s)] else s.out }

  function EndRow(limits: Limits, s: Scanner): Scanner {
    RowStart(s.line + 1, Emit(PushField(limits, s)))
  }

  datatype Stepped = Stepped(s: Scanner, used: nat, ended: bool)

  /** One turn of the loop; `next` is what can be peeked at. */
  function Step(delimiter: char, limits: Limits, s: Scanner, ch: char, next: Option<char>): (r: Stepped)
    ensures r.used == 1 || (r.used == 2 && next.Some?)
  {
    if s.inQuotes then
      if ch == QUOTE then
        if next == Some(QUOTE) then Stepped(PushChar(limits, s, QUOTE), 2, false)
        else Stepped(s.(inQuotes := false), 1, false)
      else Stepped(PushChar(limits, if ch == LF then s.(line := s.line + 1) else s, ch), 1, false)
    else if ch == delimiter then Stepped(PushField(limits, s).(atFieldStart := true), 1, false)
    else if ch == QUOTE && s.atFieldStart then Stepped(s.(inQuotes := true, atFieldStart := false), 1, false)
    else if ch == CR || ch == LF then
      Stepped(EndRow(limits, s), if ch == CR && next == Some(LF) then 2 else 1, true)
    else Stepped(PushChar(limits, s.(atFieldStart := false), ch), 1, false)
  }

  function Peek(text: string): Option<char> { if |text| > 1 then Some(text[1]) else None }

  /** The whole text, however many rows it has. */
  function Run(delimiter: char, limits: Limits, text: string, s: Scanner): Scanner
    decreases |text|
  {
    if text == [] then s
    else
      var r := Step(delimiter, limits, s, text[0], Peek(text));
      Run(delimiter, limits, text[r.used..], r.s)
  }

  /** What is pending at the end of the text. */
  function AtEnd(limits: Limits, s: Scanner): seq<Row> {
    if s.inQuotes then s.out + [Row(s.rowLine, Err(UnterminatedQuote))]
    else if s.field != "" || s.fields != [] || s.overflow.Some? then Emit(PushField(limits, s))
    else s.out
  }

  /** Every row of the text. */
  function AllRows(delimiter: char, limits: Limits, text: string): seq<Row> {
    AtEnd(limits, Run(delimiter, limits, text, RowStart(1, [])))
  }

  /** The rows read before the limit stops the scan at a row end. */
  function Limited(delimiter: char, limits: Limits, text: string, s: Scanner): seq<Row>
    decreases |text|
  {
    if text == [] then AtEnd(limits, s)
    else
      var r := Step(delimiter, limits, s, text[0], Peek(text));
      if r.ended && |r.s.out| >= limits.maxRows then r.s.out else Limited(delimiter, limits, text[r.used..], r.s)
  }

  // ----- the scanner -------------------------------------------------------------------------------

  method Rows(text: string, delimiter: char, limits: Limits) returns (out: seq<Row>)
    ensures out == Limited(delimiter, limits, text, RowStart(1, []))
  {
    hide PushChar, PushField, EndRow, Emit;
    var s := RowStart(1, []);
    var i := 0;
    assert text[0..] == text;
    while i < |text|
      invariant 0 <= i <= |text|
      invariant Limited(delimiter, limits, text[i..], s) == Limited(delimiter, limits, text, RowStart(1, []))
      decreases |text| - i
    {
      var rest := text[i..];
      var (ch, next) := (text[i], Peek(rest));
      assert rest[0] == ch;
      assert forall n | 0 <= n <= |rest| :: rest[n..] == text[i + n..];
      if s.inQuotes {
        if ch == QUOTE {
          if next == Some(QUOTE) {
            s := PushChar(limits, s, QUOTE);
            i := i + 1;
          } else {
            s := s.(inQuotes := false);
          }
        } else {
          if ch == LF {
            s := s.(line := s.line + 1);
          }
          s := PushChar(limits, s, ch);
        }
      } else if ch == delimiter {
        s := PushField(limits, s).(atFieldStart := true);
      } else if ch == QUOTE && s.atFieldStart {
        s := s.(inQuotes := true, atFieldStart := false);
      } else if ch == CR || ch == LF {
        if ch == CR && next == Some(LF) {
          i := i + 1;
        }
        s := EndRow(limits, s);
        if |s.out| >= limits.maxRows {
          return s.out;
        }
      } else {
        s := PushChar(limits, s.(atFieldStart := false), ch);
      }
      i := i + 1;
    }
    return AtEnd(limits, s);
  }

  // ----- the row limit cuts and does nothing else ------------------------------------------------------

  predicate Prefix<T(==)>(a: seq<T>, b: seq<T>) { |a| <= |b| && b[..|a|] == a }

  lemma StepGrows(delimiter: char, limits: Limits, s: Scanner, ch: char, next: Option<char>)
    ensures var r := Step(delimiter, limits, s, ch, next);
            Prefix(s.out, r.s.out) && |r.s.out| <= |s.out| + 1 && (!r.ended ==> r.s.out == s.out)
  {
  }

  lemma AtEndGrows(limits: Limits, s: Scanner)
    ensures Prefix(s.out, AtEnd(limits, s)) && |AtEnd(limits, s)| <= |s.out| + 1
  {
  }

  lemma {:induction false} RunGrows(delimiter: char, limits: Limits, text: string, s: Scanner)
    ensures Prefix(s.out, AtEnd(limits, Run(delimiter, limits, text, s)))
    decreases |text|
  {
    hide Step;
    if text != [] {
      var r := Step(delimiter, limits, s, text[0], Peek(text));
      StepGrows(delimiter, limits, s, text[0], Peek(text));
      RunGrows(delimiter, limits, text[r.used..], r.s);
    }
  }

  function Take<T>(s: seq<T>, n: nat): seq<T> { if n < |s| then s[..n] else s }

  /** The row limit keeps the first rows exactly as they would be without it. */
  lemma {:induction false} LimitOnlyCuts(delimiter: char, limits: Limits, text: string, s: Scanner)
    requires |s.out| < limits.maxRows
    ensures Limited(delimiter, limits, text, s) == Take(AtEnd(limits, Run(delimiter, limits, text, s)), limits.maxRows)
    decreases |text|
  {
    hide Step, AtEnd;
    if text == [] {
      AtEndGrows(limits, s);
    } else {
      var r := Step(delimiter, limits, s, text[0], Peek(text));
      StepGrows(delimiter, limits, s, text[0], Peek(text));
      if r.ended && |r.s.out| >= limits.maxRows {
        RunGrows(delimiter, limits, text[r.used..], r.s);
        var all := AtEnd(limits, Run(delimiter, limits, text, s));
        assert all[..|all|] == all;
      } else {
        LimitOnlyCuts(delimiter, limits, text[r.used..], r.s);
      }
    }
  }

  /** The first row end closes a row with nothing on it. */
  predicate StartsBlank(delimiter: char, limits: Limits, text: string, s: Scanner)
    decreases |text|
  {
    text != []
    && var r := Step(delimiter, limits, s, text[0], Peek(text));
       if r.ended then r.s.out == s.out else StartsBlank(delimiter, limits, text[r.used..], r.s)
  }

  /** A limit of zero is only looked at once a row has ended, so one row may get past it: there is none
      exactly if the text has none, or starts with a blank line. */
  lemma {:induction false} LimitOfZero(delimiter: char, limits: Limits, text: string, s: Scanner)
    requires limits.maxRows == 0 && s.out == []
    ensures var (some, all) := (Limited(delimiter, limits, text, s), AtEnd(limits, Run(delimiter, limits, text, s)));
            && Prefix(some, all) && |some| <= 1
            && (some == [] <==> all == [] || StartsBlank(delimiter, limits, text, s))
    decreases |text|
  {
    hide Step, AtEnd;
    if text == [] {
      AtEndGrows(limits, s);
    } else {
      var r := Step(delimiter, limits, s, text[0], Peek(text));
      StepGrows(delimiter, limits, s, text[0], Peek(text));
      if r.ended {
        RunGrows(delimiter, limits, text[r.used..], r.s);
      } else {
        LimitOfZero(delimiter, limits, text[r.used..], r.s);
      }
    }
  }

  /** The row limit, for every text: the first `maxRows` rows as they would be without a limit, except
      that a limit of zero lets the first row through unless a blank line comes before it. */
  lemma RowLimit(delimiter: char, limits: Limits, text: string)
    ensures var (some, all) := (Limited(delimiter, limits, text, RowStart(1, [])), AllRows(delimiter, limits, text));
            if limits.maxRows > 0 then some == Take(all, limits.maxRows)
            else some == if StartsBlank(delimiter, limits, text, RowStart(1, [])) then [] else Take(all, 1)
  {
    hide Step, AtEnd;
    if limits.maxRows > 0 {
      LimitOnlyCuts(delimiter, limits, text, RowStart(1, []));
    } else {
      LimitOfZero(delimiter, limits, text, RowStart(1, []));
    }
  }

  /** A row returned under a limit of no rows. */
  lemma LimitOfZeroIsExceeded(delimiter: char, limits: Limits)
    requires delimiter !in {QUOTE, CR, LF, 'a'} && limits.maxRows == 0 && limits.maxColumns > 0 && limits.maxFieldBytes > 0
    ensures Limited(delimiter, limits, "a\n", RowStart(1, [])) == [Row(1, Ok(["a"]))]
  {
    var (text, start) := ("a\n", RowStart(1, []));
    var first := Step(delimiter, limits, start, text[0], Peek(text));
    assert first == Stepped(start.(field := "a", atFieldStart := false), 1, false) by {
      assert Width("") == 0 && Utf8Width('a') == 1 && "" + ['a'] == "a";
    }
    assert text[1..] == "\n";
    var pushed := PushField(limits, first.s);
    assert [] + ["a"] == ["a"];
    assert pushed.fields == ["a"] && !Blank(pushed.fields);
    assert [] + [Finished(pushed)] == [Row(1, Ok(["a"]))];
    var second := Step(delimiter, limits, first.s, text[1..][0], Peek(text[1..]));
    assert Limited(delimiter, limits, text[1..], first.s) == second.s.out;
  }

  // ----- scanning in pieces ----------------------------------------------------------------------------

  /** Cutting here separates no pair the scanner would look at together. */
  predicate CleanCut(a: string, b: string) {
    a == [] || b == [] || (!(a[|a| - 1] == QUOTE && b[0] == QUOTE) && !(a[|a| - 1] == CR && b[0] == LF))
  }

  lemma {:induction false} RunConcat(delimiter: char, limits: Limits, a: string, b: string, s: Scanner)
    requires CleanCut(a, b)
    ensures Run(delimiter, limits, a + b, s) == Run(delimiter, limits, b, Run(delimiter, limits, a, s))
    decreases |a|
  {
    hide PushChar, PushField, EndRow;
    if a == [] {
      assert a + b == b;
    } else {
      var r := Step(delimiter, limits, s, a[0], Peek(a));
      assert Step(delimiter, limits, s, a[0], Peek(a + b)) == r;
      assert (a + b)[r.used..] == a[r.used..] + b;
      if a[r.used..] != [] { assert a[r.used..][|a[r.used..]| - 1] == a[|a| - 1]; }
      RunConcat(delimiter, limits, a[r.used..], b, r.s);
    }
  }

  function ShiftRow(r: Row, down: nat): Row { r.(line := r.line + down) }

  function ShiftRows(rows: seq<Row>, down: nat): (r: seq<Row>)
    ensures |r| == |rows|
  {
    seq(|rows|, i requires 0 <= i < |rows| => ShiftRow(rows[i], down))
  }

  /** The same scanner, further down the same file. */
  function Below(s: Scanner, down: nat, before: seq<Row>): Scanner {
    s.(line := s.line + down, rowLine := s.rowLine + down, out := before + ShiftRows(s.out, down))
  }

  lemma EmitBelow(s: Scanner, down: nat, before: seq<Row>)
    ensures Emit(Below(s, down, before)) == before + ShiftRows(Emit(s), down)
  {
    assert Below(s, down, before).out + [ShiftRow(Finished(s), down)] == before + ShiftRows(s.out + [Finished(s)], down);
  }

  lemma PushBelow(limits: Limits, s: Scanner, ch: char, down: nat, before: seq<Row>)
    ensures PushChar(limits, Below(s, down, before), ch) == Below(PushChar(limits, s, ch), down, before)
    ensures PushField(limits, Below(s, down, before)) == Below(PushField(limits, s), down, before)
  {
  }

  lemma StepBelow(delimiter: char, limits: Limits, s: Scanner, ch: char, next: Option<char>, down: nat, before: seq<Row>)
    ensures Step(delimiter, limits, Below(s, down, before), ch, next).s == Below(Step(delimiter, limits, s, ch, next).s, down, before)
    ensures Step(delimiter, limits, Below(s, down, before), ch, next).used == Step(delimiter, limits, s, ch, next).used
  {
    hide Emit, ShiftRows, PushChar, PushField;
    EmitBelow(PushField(limits, s), down, before);
    PushBelow(limits, s, ch, down, before);
    PushBelow(limits, s.(line := s.line + 1), ch, down, before);
    PushBelow(limits, s.(atFieldStart := false), ch, down, before);
  }

  lemma {:induction false} RunBelow(delimiter: char, limits: Limits, text: string, s: Scanner, down: nat, before: seq<Row>)
    ensures Run(delimiter, limits, text, Below(s, down, before)) == Below(Run(delimiter, limits, text, s), down, before)
    decreases |text|
  {
    hide Step, Below;
    if text != [] {
      var r := Step(delimiter, limits, s, text[0], Peek(text));
      StepBelow(delimiter, limits, s, text[0], Peek(text), down, before);
      RunBelow(delimiter, limits, text[r.used..], r.s, down, before);
    }
  }

  lemma AtEndBelow(limits: Limits, s: Scanner, down: nat, before: seq<Row>)
    ensures AtEnd(limits, Below(s, down, before)) == before + ShiftRows(AtEnd(limits, s), down)
  {
    hide Emit;
    EmitBelow(PushField(limits, s), down, before);
    var unterminated := Row(s.rowLine, Err(UnterminatedQuote));
    assert before + ShiftRows(s.out, down) + [ShiftRow(unterminated, down)] == before + ShiftRows(s.out + [unterminated], down);
  }

  /** The text ends where a row does, outside quotes. */
  predicate EndsRow(delimiter: char, limits: Limits, text: string) {
    var s := Run(delimiter, limits, text, RowStart(1, []));
    s == RowStart(s.line, s.out)
  }

  function LinesIn(delimiter: char, limits: Limits, text: string): int {
    Run(delimiter, limits, text, RowStart(1, [])).line - 1
  }

  lemma {:induction false} LinesOnlyGrow(delimiter: char, limits: Limits, text: string, s: Scanner)
    ensures Run(delimiter, limits, text, s).line >= s.line
    decreases |text|
  {
    hide PushChar, PushField, Emit;
    if text != [] {
      var r := Step(delimiter, limits, s, text[0], Peek(text));
      assert r.s.line >= s.line by { PushesKeepLine(limits, s); }
      LinesOnlyGrow(delimiter, limits, text[r.used..], r.s);
    }
  }

  lemma PushesKeepLine(limits: Limits, s: Scanner)
    ensures forall t: Scanner, ch: char :: PushChar(limits, t, ch).line == t.line
    ensures forall t: Scanner :: PushField(limits, t).line == t.line
  {
  }

  /** Whatever came before an unquoted row end -- rows in error included -- changes nothing about what
      comes after it but its line numbers. */
  lemma ScansInPieces(delimiter: char, limits: Limits, a: string, b: string)
    requires EndsRow(delimiter, limits, a) && CleanCut(a, b)
    ensures LinesIn(delimiter, limits, a) >= 0
    ensures AllRows(delimiter, limits, a + b)
            == AllRows(delimiter, limits, a) + ShiftRows(AllRows(delimiter, limits, b), LinesIn(delimiter, limits, a))
  {
    hide Step;
    var s := Run(delimiter, limits, a, RowStart(1, []));
    LinesOnlyGrow(delimiter, limits, a, RowStart(1, []));
    RunConcat(delimiter, limits, a, b, RowStart(1, []));
    assert s == Below(RowStart(1, []), s.line - 1, s.out) by { assert s.out + ShiftRows([], s.line - 1) == s.out; }
    RunBelow(delimiter, limits, b, RowStart(1, []), s.line - 1, s.out);
    AtEndBelow(limits, Run(delimiter, limits, b, RowStart(1, [])), s.line - 1, s.out);
  }

  // ----- what a table looks like in text ---------------------------------------------------------------

  /** A field as written: a quoted part or none, and what follows it up to the next delimiter or row end. */
  datatype Cell = Cell(quoted: Option<string>, rest: string) {
    function Text(): string { (if quoted.Some? then quoted.value else "") + rest }
  }

  datatype RowEnd = LineFeed | Return | ReturnLineFeed

  datatype Line = Line(cells: seq<Cell>, end: RowEnd)

  /** How a text stops: after a row end, in a row that has none, or inside quotes nobody closed. */
  datatype Last = Nothing | Unended(cells: seq<Cell>) | OpenQuote(cells: seq<Cell>, text: string)

  /** Outside quotes nothing structural, and no quote where one would open a quoted part or double a
      closing one; anywhere else a quote is a quote. */
  predicate Writable(delimiter: char, cell: Cell) {
    && (forall i | 0 <= i < |cell.rest| :: cell.rest[i] !in {delimiter, CR, LF})
    && (cell.rest != "" ==> cell.rest[0] != QUOTE)
  }

  function EscapeChar(ch: char): string { if ch == QUOTE then [QUOTE, QUOTE] else [ch] }

  function Escape(field: string): string { if field == "" then "" else EscapeChar(field[0]) + Escape(field[1..]) }

  function Quoted(field: string): string { [QUOTE] + Escape(field) + [QUOTE] }

  function RenderCell(cell: Cell): string { (if cell.quoted.Some? then Quoted(cell.quoted.value) else "") + cell.rest }

  /** The cells from the `i`-th on, and what comes after the last. */
  function RenderFrom(delimiter: char, cells: seq<Cell>, i: nat, after: string): string
    requires i < |cells|
    decreases |cells| - i
  {
    RenderCell(cells[i]) + if i + 1 < |cells| then [delimiter] + RenderFrom(delimiter, cells, i + 1, after) else after
  }

  function EndText(end: RowEnd): string {
    match end
    case LineFeed => [LF]
    case Return => [CR]
    case ReturnLineFeed => [CR, LF]
  }

  function RenderLine(delimiter: char, line: Line): string
    requires line.cells != []
  {
    RenderFrom(delimiter, line.cells, 0, EndText(line.end))
  }

  predicate NoEmptyLine(lines: seq<Line>) { forall i | 0 <= i < |lines| :: lines[i].cells != [] }

  function Render(delimiter: char, lines: seq<Line>): string
    requires NoEmptyLine(lines)
  {
    if lines == [] then "" else Render(delimiter, lines[..|lines| - 1]) + RenderLine(delimiter, lines[|lines| - 1])
  }

  function RenderLast(delimiter: char, last: Last): string {
    match last
    case Nothing => ""
    case Unended(cells) => if cells == [] then "" else RenderFrom(delimiter, cells, 0, "")
    case OpenQuote(cells, text) =>
      var open := [QUOTE] + Escape(text);
      if cells == [] then open else RenderFrom(delimiter, cells, 0, [delimiter] + open)
  }

  function Texts(cells: seq<Cell>): seq<string> { seq(|cells|, i requires 0 <= i < |cells| => cells[i].Text()) }

  predicate AllWritable(delimiter: char, cells: seq<Cell>) { forall c | c in cells :: Writable(delimiter, c) }

  /** A line feed right after a carriage return would be read as one row end. */
  predicate Separated(delimiter: char, lines: seq<Line>)
    requires NoEmptyLine(lines)
  {
    forall i | 0 < i < |lines| && lines[i - 1].end.Return? :: RenderLine(delimiter, lines[i])[..1] != [LF]
  }

  predicate WritableLines(delimiter: char, lines: seq<Line>) {
    NoEmptyLine(lines) && Separated(delimiter, lines) && forall i | 0 <= i < |lines| :: AllWritable(delimiter, lines[i].cells)
  }

  function NewLines(field: string): nat { if field == "" then 0 else (if field[0] == LF then 1 else 0) + NewLines(field[1..]) }

  function RowLines(row: seq<string>): nat { if row == [] then 0 else RowLines(row[..|row| - 1]) + NewLines(row[|row| - 1]) }

  // ----- one field -------------------------------------------------------------------------------------

  function PushOne(limits: Limits, s: Scanner, ch: char): Scanner {
    PushChar(limits, if ch == LF then s.(line := s.line + 1) else s, ch)
  }

  /** What the characters of a field do to the scanner, one by one. */
  function PushAll(limits: Limits, s: Scanner, field: string): Scanner
    decreases |field|
  {
    if field == "" then s else PushAll(limits, PushOne(limits, s, field[0]), field[1..])
  }

  lemma CharScans(delimiter: char, limits: Limits, ch: char, rest: string, s: Scanner)
    requires s.inQuotes
    ensures Run(delimiter, limits, EscapeChar(ch) + rest, s) == Run(delimiter, limits, rest, PushOne(limits, s, ch))
  {
    hide PushChar;
    var text := EscapeChar(ch) + rest;
    assert text[|EscapeChar(ch)|..] == rest;
  }

  lemma {:induction false} ContentScans(delimiter: char, limits: Limits, field: string, tail: string, s: Scanner)
    requires s.inQuotes
    ensures Run(delimiter, limits, Escape(field) + tail, s) == Run(delimiter, limits, tail, PushAll(limits, s, field))
    decreases |field|
  {
    hide Run, PushOne, EscapeChar;
    if field == "" {
      assert Escape(field) + tail == tail;
    } else {
      var rest := Escape(field[1..]) + tail;
      assert Escape(field) + tail == EscapeChar(field[0]) + rest;
      CharScans(delimiter, limits, field[0], rest, s);
      PushKeeps(limits, s, field[0]);
      ContentScans(delimiter, limits, field[1..], tail, PushOne(limits, s, field[0]));
    }
  }

  lemma PushKeeps(limits: Limits, s: Scanner, ch: char)
    ensures var t := PushOne(limits, s, ch);
            && t.inQuotes == s.inQuotes && t.atFieldStart == s.atFieldStart && t.fields == s.fields && t.out == s.out && t.rowLine == s.rowLine
            && t.line == s.line + (if ch == LF then 1 else 0)
            && (s.overflow.Some? ==> t.overflow == s.overflow)
            && (Width(s.field) + Utf8Width(ch) <= limits.maxFieldBytes ==> t.field == s.field + [ch] && t.overflow == s.overflow)
            && (Width(s.field) + Utf8Width(ch) > limits.maxFieldBytes ==> t.field == s.field && t.overflow.Some?)
            && (Width(s.field) + Utf8Width(ch) > limits.maxFieldBytes && s.overflow.None? ==>
                  t.overflow == Some(FieldTooLong(Width(s.field) + Utf8Width(ch))))
  {
  }

  lemma {:induction false} WidthConcat(a: string, b: string)
    ensures Width(a + b) == Width(a) + Width(b)
    decreases |b|
  {
    if b == "" {
      assert a + b == a;
    } else {
      assert (a + b)[..|a + b| - 1] == a + b[..|b| - 1];
      WidthConcat(a, b[..|b| - 1]);
    }
  }

  /** The field runs past its limit at its `n`-th character. */
  predicate BreaksAt(limits: Limits, field: string, n: nat) {
    0 < n <= |field| && Width(field[..n - 1]) <= limits.maxFieldBytes < Width(field[..n])
  }

  /** The first fault of a field is the width up to and with the character that broke the limit. */
  ghost predicate Overlong(limits: Limits, field: string, error: RowError) {
    exists n: nat :: BreaksAt(limits, field, n) && error == FieldTooLong(Width(field[..n]))
  }

  /** Pushing a field touches nothing but the field, the line and the error. */
  lemma {:induction false} FieldKeeps(limits: Limits, s: Scanner, field: string)
    ensures var t := PushAll(limits, s, field);
            && t.inQuotes == s.inQuotes && t.atFieldStart == s.atFieldStart && t.fields == s.fields && t.out == s.out && t.rowLine == s.rowLine
            && t.line == s.line + NewLines(field)
            && (s.overflow.Some? ==> t.overflow == s.overflow)
    decreases |field|
  {
    hide PushOne, Width, Utf8Width;
    if field != "" {
      PushKeeps(limits, s, field[0]);
      FieldKeeps(limits, PushOne(limits, s, field[0]), field[1..]);
    }
  }

  lemma WidthGrows(a: string, b: string)
    ensures Width(a) <= Width(a + b)
  {
    WidthConcat(a, b);
  }

  lemma WidthOne(a: string, ch: char)
    ensures Width(a + [ch]) == Width(a) + Utf8Width(ch)
  {
    assert (a + [ch])[..|a|] == a;
  }

  /** It goes in whole if it fits. */
  lemma {:induction false} FieldGoesIn(limits: Limits, s: Scanner, field: string)
    requires Width(s.field + field) <= limits.maxFieldBytes
    ensures PushAll(limits, s, field).field == s.field + field && PushAll(limits, s, field).overflow == s.overflow
    decreases |field|
  {
    hide PushOne, Width, Utf8Width;
    if field == "" {
      assert s.field + field == s.field;
    } else {
      var t := PushOne(limits, s, field[0]);
      assert s.field + field == s.field + [field[0]] + field[1..];
      WidthGrows(s.field + [field[0]], field[1..]);
      WidthOne(s.field, field[0]);
      PushKeeps(limits, s, field[0]);
      FieldGoesIn(limits, t, field[1..]);
    }
  }

  lemma LastCharacter(before: string, field: string)
    requires field != ""
    ensures field[1..] == "" ==> before + field == before + [field[0]]
  {
  }

  /** And the row is in error if it does not, for the character that broke the limit. */
  lemma {:induction false} FieldBreaks(limits: Limits, s: Scanner, field: string)
    requires field != "" && Width(s.field) <= limits.maxFieldBytes < Width(s.field + field) && s.overflow.None?
    ensures PushAll(limits, s, field).overflow.Some? && Overlong(limits, s.field + field, PushAll(limits, s, field).overflow.value)
    decreases |field|
  {
    hide PushOne, Width, Utf8Width;
    var t := PushOne(limits, s, field[0]);
    var (whole, n) := (s.field + field, |s.field| + 1);
    assert whole == s.field + [field[0]] + field[1..];
    WidthOne(s.field, field[0]);
    PushKeeps(limits, s, field[0]);
    if limits.maxFieldBytes < Width(s.field + [field[0]]) {
      FieldKeeps(limits, t, field[1..]);
      assert whole[..n] == s.field + [field[0]] && whole[..n - 1] == s.field;
      assert BreaksAt(limits, whole, n);
    } else {
      LastCharacter(s.field, field);
      FieldBreaks(limits, t, field[1..]);
    }
  }

  /** The field goes in whole exactly when it fits; if not, the row is in error from here on, and the error
      says how far the field had got. */
  lemma FieldPushes(limits: Limits, s: Scanner, field: string)
    ensures var t := PushAll(limits, s, field);
            && t.inQuotes == s.inQuotes && t.atFieldStart == s.atFieldStart && t.fields == s.fields && t.out == s.out && t.rowLine == s.rowLine
            && t.line == s.line + NewLines(field)
            && (s.overflow.Some? ==> t.overflow == s.overflow)
            && (Width(s.field + field) <= limits.maxFieldBytes ==> t.field == s.field + field && t.overflow == s.overflow)
            && (Width(s.field) <= limits.maxFieldBytes < Width(s.field + field) ==> t.overflow.Some?)
            && (Width(s.field) <= limits.maxFieldBytes < Width(s.field + field) && s.overflow.None? ==>
                  Overlong(limits, s.field + field, t.overflow.value))
  {
    hide *;
    FieldKeeps(limits, s, field);
    assert field == "" ==> s.field + field == s.field;
    if Width(s.field + field) <= limits.maxFieldBytes { FieldGoesIn(limits, s, field); }
    if Width(s.field) <= limits.maxFieldBytes < Width(s.field + field) && s.overflow.None? { FieldBreaks(limits, s, field); }
  }

  lemma {:induction false} PushAllConcat(limits: Limits, s: Scanner, a: string, b: string)
    ensures PushAll(limits, PushAll(limits, s, a), b) == PushAll(limits, s, a + b)
    decreases |a|
  {
    hide PushOne;
    if a == "" {
      assert a + b == b;
    } else {
      assert (a + b)[0] == a[0] && (a + b)[1..] == a[1..] + b;
      PushAllConcat(limits, PushOne(limits, s, a[0]), a[1..], b);
    }
  }

  // ----- one row ---------------------------------------------------------------------------------------

  predicate FieldsFit(limits: Limits, row: seq<string>, n: nat)
    requires n <= |row|
  {
    forall i | 0 <= i < n :: Width(row[i]) <= limits.maxFieldBytes
  }

  predicate Fits(limits: Limits, row: seq<string>) { |row| <= limits.maxColumns && FieldsFit(limits, row, |row|) }

  /** The first fault of a row: its first field that is too long, or the first one column too many. */
  ghost predicate FaultAt(limits: Limits, row: seq<string>, i: nat, error: RowError) {
    && i < |row| && i <= limits.maxColumns && FieldsFit(limits, row, i)
    && if Width(row[i]) > limits.maxFieldBytes then Overlong(limits, row[i], error)
       else i == limits.maxColumns && error == RowTooWide(i + 1)
  }

  ghost predicate Fault(limits: Limits, row: seq<string>, error: RowError) { exists i: nat :: FaultAt(limits, row, i, error) }

  /** `i` fields of the row are pushed, and the next one is about to start. */
  ghost predicate Between(limits: Limits, s: Scanner, row: seq<string>, i: nat, line: nat, out: seq<Row>) {
    && i <= |row| && s.field == "" && s.rowLine == line && s.out == out
    && s.line == line + RowLines(row[..i])
    && |s.fields| == (if i < limits.maxColumns then i else limits.maxColumns)
    && (s.overflow.None? <==> i <= limits.maxColumns && FieldsFit(limits, row, i))
    && (s.overflow.None? ==> s.fields == row[..i])
    && (s.overflow.Some? ==> Fault(limits, row, s.overflow.value))
  }

  lemma OneMoreFits(limits: Limits, row: seq<string>, i: nat)
    requires i < |row|
    ensures FieldsFit(limits, row, i + 1) <==> FieldsFit(limits, row, i) && Width(row[i]) <= limits.maxFieldBytes
  {
    hide Width;
  }

  lemma OneMoreLine(row: seq<string>, i: nat)
    requires i < |row|
    ensures RowLines(row[..i + 1]) == RowLines(row[..i]) + NewLines(row[i])
    ensures row[..i + 1] == row[..i] + [row[i]]
  {
    assert row[..i + 1][..i] == row[..i];
  }

  /** A field, pushed once it is over. */
  lemma FieldCompletes(limits: Limits, s: Scanner, row: seq<string>, i: nat, line: nat, out: seq<Row>)
    requires Between(limits, s, row, i, line, out) && i < |row|
    ensures Between(limits, PushField(limits, PushAll(limits, s, row[i])), row, i + 1, line, out)
  {
    hide PushAll, NewLines, FieldsFit, RowLines, Width, Overlong, Fault;
    OneMoreFits(limits, row, i);
    OneMoreLine(row, i);
    FieldKeeps(limits, s, row[i]);
    if s.overflow.None? { FaultlessGoesOn(limits, s, row, i); }
  }

  /** What the next field does to a row without a fault so far. */
  lemma FaultlessGoesOn(limits: Limits, s: Scanner, row: seq<string>, i: nat)
    requires i < |row| && i <= limits.maxColumns && FieldsFit(limits, row, i) && s.field == "" && s.fields == row[..i] && s.overflow.None?
    ensures var t := PushField(limits, PushAll(limits, s, row[i]));
            && (t.overflow.None? <==> i < limits.maxColumns && Width(row[i]) <= limits.maxFieldBytes)
            && (t.overflow.None? ==> t.fields == row[..i + 1])
            && (t.overflow.Some? ==> Fault(limits, row, t.overflow.value))
  {
    hide PushAll, FieldsFit, Width, Overlong, Fault, FaultAt;
    FieldPushes(limits, s, row[i]);
    FromEmpty(s.field, row[i]);
    FieldKeeps(limits, s, row[i]);
    var p := PushAll(limits, s, row[i]);
    assert |s.fields| == i;
    if Width(row[i]) > limits.maxFieldBytes {
      TooLongIsFault(limits, row, i, p.overflow.value);
      assert PushField(limits, p).overflow == p.overflow;
    } else if i == limits.maxColumns {
      TooWideIsFault(limits, row, i);
      assert PushField(limits, p).overflow == Some(RowTooWide(i + 1));
    } else {
      assert row[..i + 1] == row[..i] + [row[i]];
    }
  }

  lemma FromEmpty(before: string, field: string)
    requires before == ""
    ensures before + field == field && Width(before) == 0
  {
  }

  lemma TooLongIsFault(limits: Limits, row: seq<string>, i: nat, error: RowError)
    requires i < |row| && i <= limits.maxColumns && FieldsFit(limits, row, i) && Width(row[i]) > limits.maxFieldBytes && Overlong(limits, row[i], error)
    ensures Fault(limits, row, error)
  {
    hide Width, Overlong, FieldsFit;
    assert FaultAt(limits, row, i, error);
  }

  lemma TooWideIsFault(limits: Limits, row: seq<string>, i: nat)
    requires i < |row| && i == limits.maxColumns && FieldsFit(limits, row, i) && Width(row[i]) <= limits.maxFieldBytes
    ensures Fault(limits, row, RowTooWide(i + 1))
  {
    hide Width, Overlong, FieldsFit;
    assert FaultAt(limits, row, i, RowTooWide(i + 1));
  }

  lemma {:induction false} FlagsDoNotMatter(limits: Limits, s: Scanner, field: string, inQuotes: bool, atFieldStart: bool)
    ensures var t := s.(inQuotes := inQuotes, atFieldStart := atFieldStart);
            PushAll(limits, t, field) == PushAll(limits, s, field).(inQuotes := inQuotes, atFieldStart := atFieldStart)
    decreases |field|
  {
    hide Width, Utf8Width;
    if field != "" { FlagsDoNotMatter(limits, PushOne(limits, s, field[0]), field[1..], inQuotes, atFieldStart); }
  }

  /** A quoted part, from its opening quote to just after its closing one. */
  lemma QuotedScans(delimiter: char, limits: Limits, field: string, tail: string, s: Scanner)
    requires !s.inQuotes && s.atFieldStart && delimiter != QUOTE && (tail != "" ==> tail[0] != QUOTE)
    ensures Run(delimiter, limits, Quoted(field) + tail, s)
            == Run(delimiter, limits, tail, PushAll(limits, s, field).(inQuotes := false, atFieldStart := false))
  {
    hide Escape, PushAll, PushChar;
    var text := Quoted(field) + tail;
    var open := s.(inQuotes := true, atFieldStart := false);
    var rest := [QUOTE] + tail;
    assert text[1..] == Escape(field) + rest;
    assert Run(delimiter, limits, text, s) == Run(delimiter, limits, Escape(field) + rest, open);
    ContentScans(delimiter, limits, field, rest, open);
    FlagsDoNotMatter(limits, s, field, true, false);
    assert rest[1..] == tail && rest[0] == QUOTE && (tail != "" ==> rest[1] == tail[0]);
  }

  predicate Plain(delimiter: char, text: string) { forall i | 0 <= i < |text| :: text[i] !in {delimiter, CR, LF} }

  /** What is not quoted goes in as it is, quotes included, once the field has started. */
  lemma {:induction false} PlainScans(delimiter: char, limits: Limits, text: string, tail: string, s: Scanner)
    requires !s.inQuotes && !s.atFieldStart && Plain(delimiter, text)
    ensures Run(delimiter, limits, text + tail, s) == Run(delimiter, limits, tail, PushAll(limits, s, text))
    decreases |text|
  {
    hide PushChar;
    if text == "" {
      assert text + tail == tail;
    } else {
      var whole := text + tail;
      assert whole[0] == text[0] && whole[1..] == text[1..] + tail;
      PushKeeps(limits, s, text[0]);
      PlainScans(delimiter, limits, text[1..], tail, PushOne(limits, s, text[0]));
    }
  }

  /** Whatever comes after a cell ends it. */
  predicate Ends(delimiter: char, tail: string) { tail != "" ==> tail[0] in {delimiter, CR, LF} }

  lemma CellScans(delimiter: char, limits: Limits, cell: Cell, tail: string, s: Scanner) returns (after: Scanner)
    requires delimiter !in {QUOTE, CR, LF} && Writable(delimiter, cell) && Ends(delimiter, tail) && !s.inQuotes && s.atFieldStart
    ensures Run(delimiter, limits, RenderCell(cell) + tail, s) == Run(delimiter, limits, tail, after)
    ensures !after.inQuotes && after == PushAll(limits, s, cell.Text()).(inQuotes := false, atFieldStart := after.atFieldStart)
  {
    hide Run, PushAll, Quoted;
    var rest := cell.rest;
    if cell.quoted.Some? {
      var q := cell.quoted.value;
      assert RenderCell(cell) + tail == Quoted(q) + (rest + tail);
      QuotedScans(delimiter, limits, q, rest + tail, s);
      var mid := PushAll(limits, s, q).(inQuotes := false, atFieldStart := false);
      PlainScans(delimiter, limits, rest, tail, mid);
      after := PushAll(limits, mid, rest);
      FlagsDoNotMatter(limits, PushAll(limits, s, q), rest, false, false);
      PushAllConcat(limits, s, q, rest);
    } else {
      assert RenderCell(cell) == rest && cell.Text() == rest;
      after := PlainFromStart(delimiter, limits, rest, tail, s);
    }
  }

  lemma PlainFromStart(delimiter: char, limits: Limits, rest: string, tail: string, s: Scanner) returns (after: Scanner)
    requires Plain(delimiter, rest) && (rest != "" ==> rest[0] != QUOTE) && !s.inQuotes && s.atFieldStart
    ensures Run(delimiter, limits, rest + tail, s) == Run(delimiter, limits, tail, after)
    ensures !after.inQuotes && after == PushAll(limits, s, rest).(inQuotes := false, atFieldStart := after.atFieldStart)
  {
    hide PushChar;
    if rest == "" {
      assert rest + tail == tail;
      after := s;
    } else {
      var started := s.(atFieldStart := false);
      assert (rest + tail)[0] == rest[0] && (rest + tail)[1..] == rest[1..] + tail;
      assert Run(delimiter, limits, rest + tail, s) == Run(delimiter, limits, rest + tail, started);
      PlainScans(delimiter, limits, rest, tail, started);
      FlagsDoNotMatter(limits, s, rest, false, false);
      after := PushAll(limits, started, rest);
    }
  }

  /** The row itself on its own line, or the first fault of it. */
  ghost predicate Reads(limits: Limits, row: seq<string>, r: Row, line: nat) {
    r.line == line && if Fits(limits, row) then r.fields == Ok(row) else r.fields.Err? && Fault(limits, row, r.fields.error)
  }

  lemma FieldKeepsLine(limits: Limits, s: Scanner)
    ensures PushField(limits, s).line == s.line
  {
  }

  /** A row that leaves nothing: one empty field, where a field is allowed. */
  predicate BlankRow(limits: Limits, row: seq<string>) { row == [""] && limits.maxColumns > 0 }

  /** What the rows before and this one come to. */
  ghost predicate Emitted(limits: Limits, row: seq<string>, line: nat, out: seq<Row>, after: seq<Row>) {
    if BlankRow(limits, row) then after == out
    else |after| == |out| + 1 && after[..|out|] == out && Reads(limits, row, after[|out|], line)
  }

  lemma RowEmits(limits: Limits, u: Scanner, row: seq<string>, line: nat, out: seq<Row>)
    requires Between(limits, u, row, |row|, line, out) && row != []
    ensures Emitted(limits, row, line, out, Emit(u))
  {
    assert Width("") == 0;
    hide RowLines, Overlong, Width, Fault;
    assert row[..|row|] == row;
    if Blank(u.fields) && u.overflow.None? { assert row == [""]; }
    if row == [""] && limits.maxColumns > 0 { assert Blank(u.fields) && u.overflow.None?; }
  }

  lemma LineEndScans(delimiter: char, limits: Limits, end: RowEnd, s: Scanner)
    requires delimiter !in {QUOTE, CR, LF} && !s.inQuotes
    ensures Run(delimiter, limits, EndText(end), s) == EndRow(limits, s)
  {
    hide EndRow;
    assert [CR, LF][2..] == "" && [LF][1..] == "" && [CR][1..] == "";
  }

  lemma DelimiterScans(delimiter: char, limits: Limits, tail: string, s: Scanner)
    requires !s.inQuotes
    ensures Run(delimiter, limits, [delimiter] + tail, s) == Run(delimiter, limits, tail, PushField(limits, s).(atFieldStart := true))
  {
    hide PushField;
    assert ([delimiter] + tail)[1..] == tail;
  }

  /** All cells of a row, up to what ends it. */
  lemma {:induction false} CellsScan(delimiter: char, limits: Limits, cells: seq<Cell>, i: nat, tail: string, s: Scanner, line: nat, out: seq<Row>) returns (after: Scanner)
    requires delimiter !in {QUOTE, CR, LF} && i < |cells| && AllWritable(delimiter, cells) && Ends(delimiter, tail)
    requires Between(limits, s, Texts(cells), i, line, out) && !s.inQuotes && s.atFieldStart
    ensures Run(delimiter, limits, RenderFrom(delimiter, cells, i, tail), s) == Run(delimiter, limits, tail, after)
    ensures !after.inQuotes && Between(limits, PushField(limits, after), Texts(cells), |cells|, line, out)
    ensures after.line == PushField(limits, after).line
    ensures after.field == "" && after.fields == [] && after.overflow.None? <==> Texts(cells) == [""]
    decreases |cells| - i
  {
    hide PushAll, RenderCell, Run, FieldsFit, RowLines, Fault, Width;
    var rest := if i + 1 < |cells| then [delimiter] + RenderFrom(delimiter, cells, i + 1, tail) else tail;
    assert cells[i] in cells;
    after := CellScans(delimiter, limits, cells[i], rest, s);
    FieldCompletes(limits, s, Texts(cells), i, line, out);
    FieldKeepsLine(limits, after);
    var next := PushField(limits, after);
    assert Between(limits, next, Texts(cells), i + 1, line, out);
    if i + 1 < |cells| {
      DelimiterScans(delimiter, limits, RenderFrom(delimiter, cells, i + 1, tail), after);
      after := CellsScan(delimiter, limits, cells, i + 1, tail, next.(atFieldStart := true), line, out);
    } else {
      LastCellLeaves(limits, s, cells, i, after, line, out);
    }
  }

  /** Before the first field of a row nothing is pending, and before any other something is. */
  lemma PendingBetween(limits: Limits, s: Scanner, row: seq<string>, i: nat, line: nat, out: seq<Row>)
    requires Between(limits, s, row, i, line, out)
    ensures s.field == "" && (s.fields == [] && s.overflow.None? <==> i == 0)
  {
    hide RowLines, Fault, Width;
    if i == 0 { NothingFits(limits, row); }
  }

  lemma NothingFits(limits: Limits, row: seq<string>)
    ensures FieldsFit(limits, row, 0)
  {
  }

  /** Nothing is pending after a row's last cell exactly if the row is one empty field. */
  lemma LastCellLeaves(limits: Limits, s: Scanner, cells: seq<Cell>, i: nat, after: Scanner, line: nat, out: seq<Row>)
    requires i + 1 == |cells| && Between(limits, s, Texts(cells), i, line, out)
    requires after == PushAll(limits, s, cells[i].Text()).(inQuotes := false, atFieldStart := after.atFieldStart)
    ensures after.field == "" && after.fields == [] && after.overflow.None? <==> Texts(cells) == [""]
  {
    assert Width("") == 0;
    hide PushAll, RowLines, Fault, Width, Between, Overlong;
    PendingBetween(limits, s, Texts(cells), i, line, out);
    FieldPushes(limits, s, cells[i].Text());
    assert "" + cells[i].Text() == cells[i].Text();
    assert Texts(cells)[i] == cells[i].Text();
  }

  // ----- whole tables ----------------------------------------------------------------------------------

  function LineAfter(lines: seq<Line>): nat {
    if lines == [] then 1 else LineAfter(lines[..|lines| - 1]) + RowLines(Texts(lines[|lines| - 1].cells)) + 1
  }

  /** One result for each row that is not blank, in order, on the line it starts: the row itself if it
      fits, its first fault if not. */
  ghost predicate Matches(limits: Limits, lines: seq<Line>, out: seq<Row>)
    decreases |lines|
  {
    if lines == [] then out == []
    else
      var init := lines[..|lines| - 1];
      exists before :: Matches(limits, init, before) && Emitted(limits, Texts(lines[|lines| - 1].cells), LineAfter(init), before, out)
  }

  lemma NothingBetween(limits: Limits, row: seq<string>, line: nat, out: seq<Row>)
    ensures Between(limits, RowStart(line, out), row, 0, line, out)
  {
    assert row[..0] == [];
  }

  lemma NothingToRun(delimiter: char, limits: Limits, s: Scanner)
    ensures Run(delimiter, limits, "", s) == s
  {
  }

  lemma LineScans(delimiter: char, limits: Limits, line: Line, at: nat, out: seq<Row>)
    requires delimiter !in {QUOTE, CR, LF} && line.cells != [] && AllWritable(delimiter, line.cells)
    ensures var t := Run(delimiter, limits, RenderLine(delimiter, line), RowStart(at, out));
            t == RowStart(at + RowLines(Texts(line.cells)) + 1, t.out) && Emitted(limits, Texts(line.cells), at, out, t.out)
  {
    hide Run, RenderFrom, RowLines, Between, Emitted, AllWritable;
    var row := Texts(line.cells);
    NothingBetween(limits, row, at, out);
    var after := CellsScan(delimiter, limits, line.cells, 0, EndText(line.end), RowStart(at, out), at, out);
    LineEndScans(delimiter, limits, line.end, after);
    RowEmits(limits, PushField(limits, after), row, at, out);
    BetweenAtLine(limits, PushField(limits, after), row, at, out);
  }

  lemma BetweenAtLine(limits: Limits, s: Scanner, row: seq<string>, line: nat, out: seq<Row>)
    requires Between(limits, s, row, |row|, line, out)
    ensures s.line == line + RowLines(row)
  {
    assert row[..|row|] == row;
  }

  lemma {:induction false} RenderEnds(delimiter: char, cells: seq<Cell>, i: nat, end: RowEnd)
    requires i < |cells|
    ensures var text := RenderFrom(delimiter, cells, i, EndText(end)); text != "" && text[|text| - 1] == (if end.Return? then CR else LF)
    decreases |cells| - i
  {
    hide RenderCell;
    if i + 1 < |cells| { RenderEnds(delimiter, cells, i + 1, end); }
  }

  lemma {:induction false} RenderedRun(delimiter: char, limits: Limits, lines: seq<Line>)
    requires delimiter !in {QUOTE, CR, LF} && WritableLines(delimiter, lines)
    ensures var t := Run(delimiter, limits, Render(delimiter, lines), RowStart(1, []));
            t == RowStart(LineAfter(lines), t.out) && Matches(limits, lines, t.out)
    ensures var text := Render(delimiter, lines);
            if lines == [] then text == "" else text != "" && text[|text| - 1] == (if lines[|lines| - 1].end.Return? then CR else LF)
    decreases |lines|
  {
    hide RenderFrom, Run, RowLines, Emitted, AllWritable;
    if lines == [] {
      NothingToRun(delimiter, limits, RowStart(1, []));
    } else {
      var (init, line) := (lines[..|lines| - 1], lines[|lines| - 1]);
      RenderedRun(delimiter, limits, init);
      var (a, b) := (Render(delimiter, init), RenderLine(delimiter, line));
      RenderEnds(delimiter, line.cells, 0, line.end);
      assert b[..1] == [b[0]];
      RunConcat(delimiter, limits, a, b, RowStart(1, []));
      var s := Run(delimiter, limits, a, RowStart(1, []));
      LineScans(delimiter, limits, line, LineAfter(init), s.out);
    }
  }

  /** What the end of the text adds: the row it breaks off in, or the error of quotes left open. */
  ghost predicate Concludes(limits: Limits, last: Last, line: nat, out: seq<Row>, all: seq<Row>) {
    match last
    case Nothing => all == out
    case Unended(cells) => if Texts(cells) == [""] then all == out else Emitted(limits, Texts(cells), line, out, all)
    case OpenQuote(_, _) => all == out + [Row(line, Err(UnterminatedQuote))]
  }

  predicate WritableLast(delimiter: char, last: Last) {
    match last
    case Nothing => true
    case Unended(cells) => cells != [] && AllWritable(delimiter, cells)
    case OpenQuote(cells, _) => AllWritable(delimiter, cells)
  }

  lemma UnendedScans(delimiter: char, limits: Limits, cells: seq<Cell>, at: nat, out: seq<Row>)
    requires delimiter !in {QUOTE, CR, LF} && cells != [] && AllWritable(delimiter, cells)
    ensures var all := AtEnd(limits, Run(delimiter, limits, RenderFrom(delimiter, cells, 0, ""), RowStart(at, out)));
            if Texts(cells) == [""] then all == out else Emitted(limits, Texts(cells), at, out, all)
  {
    hide Run, RenderFrom, RowLines, AllWritable, Fault, Width, FieldsFit;
    NothingBetween(limits, Texts(cells), at, out);
    var after := CellsScan(delimiter, limits, cells, 0, "", RowStart(at, out), at, out);
    NothingToRun(delimiter, limits, after);
    RowEmits(limits, PushField(limits, after), Texts(cells), at, out);
    StillInRow(limits, PushField(limits, after), Texts(cells), at, out);
  }

  lemma OpenQuoteScans(delimiter: char, limits: Limits, text: string, s: Scanner)
    requires !s.inQuotes && s.atFieldStart && delimiter != QUOTE
    ensures var t := Run(delimiter, limits, [QUOTE] + Escape(text), s);
            t.inQuotes && t.rowLine == s.rowLine && t.out == s.out
  {
    hide Escape, PushAll;
    var open := s.(inQuotes := true, atFieldStart := false);
    assert ([QUOTE] + Escape(text))[1..] == Escape(text);
    assert Run(delimiter, limits, [QUOTE] + Escape(text), s) == Run(delimiter, limits, Escape(text), open);
    assert Escape(text) + "" == Escape(text);
    ContentScans(delimiter, limits, text, "", open);
    FieldPushes(limits, open, text);
    NothingToRun(delimiter, limits, PushAll(limits, open, text));
  }

  lemma LastScans(delimiter: char, limits: Limits, last: Last, at: nat, out: seq<Row>)
    requires delimiter !in {QUOTE, CR, LF} && WritableLast(delimiter, last)
    ensures Concludes(limits, last, at, out, AtEnd(limits, Run(delimiter, limits, RenderLast(delimiter, last), RowStart(at, out))))
  {
    hide Run, RenderFrom, AllWritable, Emitted, Between, Escape;
    match last
    case Nothing => NothingToRun(delimiter, limits, RowStart(at, out));
    case Unended(cells) => UnendedScans(delimiter, limits, cells, at, out);
    case OpenQuote(cells, text) =>
      if cells == [] {
        OpenQuoteScans(delimiter, limits, text, RowStart(at, out));
      } else {
        var open := [QUOTE] + Escape(text);
        NothingBetween(limits, Texts(cells), at, out);
        var after := CellsScan(delimiter, limits, cells, 0, [delimiter] + open, RowStart(at, out), at, out);
        DelimiterScans(delimiter, limits, open, after);
        StillInRow(limits, PushField(limits, after), Texts(cells), at, out);
        OpenQuoteScans(delimiter, limits, text, PushField(limits, after).(atFieldStart := true));
      }
  }

  lemma StillInRow(limits: Limits, s: Scanner, row: seq<string>, line: nat, out: seq<Row>)
    requires Between(limits, s, row, |row|, line, out)
    ensures s.rowLine == line && s.out == out
  {
  }

  /** The text does not stop with a carriage return and go on with a line feed. */
  predicate Joins(delimiter: char, lines: seq<Line>, last: Last) {
    var text := RenderLast(delimiter, last);
    lines != [] && lines[|lines| - 1].end.Return? && text != "" ==> text[0] != LF
  }

  /** Every table as it may be written: fields quoted, plain or quoted in front, quotes in the middle of a
      field, any of the three row ends, a last row without one, quotes left open.  Scanning gives it back
      row for row and field for field, each row on the line it starts; blank rows are left out, a row beyond
      the limits is its first fault, and quotes left open are one error. */
  lemma RenderedTableScans(delimiter: char, limits: Limits, lines: seq<Line>, last: Last) returns (out: seq<Row>)
    requires delimiter !in {QUOTE, CR, LF} && WritableLines(delimiter, lines) && WritableLast(delimiter, last) && Joins(delimiter, lines, last)
    ensures Matches(limits, lines, out)
    ensures Concludes(limits, last, LineAfter(lines), out, AllRows(delimiter, limits, Render(delimiter, lines) + RenderLast(delimiter, last)))
  {
    hide Matches, Render, Run, RenderLast, Concludes, AtEnd;
    RenderedRun(delimiter, limits, lines);
    var (a, b) := (Render(delimiter, lines), RenderLast(delimiter, last));
    assert CleanCut(a, b);
    RunConcat(delimiter, limits, a, b, RowStart(1, []));
    var s := Run(delimiter, limits, a, RowStart(1, []));
    out := s.out;
    LastScans(delimiter, limits, last, LineAfter(lines), out);
    assert AllRows(delimiter, limits, a + b) == AtEnd(limits, Run(delimiter, limits, b, s));
  }
}

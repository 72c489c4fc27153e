/** The Alfa-Bank CSV statement: a section machine that checks itself against the turnovers the bank
    printed (app/utils/alfaCsvStatement.ts). Upper-casing and the account header are parameters. */
module AlfaCsv {
  import opened Outcome
  import opened Text
  import opened Money
  import opened DayValue
  import opened Numerals
  import opened Statement
  import CsvLine

  const SEP := ';'
  const TITLES := ["Дата операции", "Номер документа", "Бик банка-корр.", "УНП", "Номер счета",
                   "Сумма операции", "Наименование корреспондента", "Назначение платежа"]
  const DATE := 0
  const DOC_NUM := 1
  const BIC := 2
  const UNP := 3
  const ACCOUNT := 4
  const AMOUNT := 5
  const NAME := 6
  const PURPOSE := 7
  const DEBIT_MARK := "ДЕБЕТ"
  const CREDIT_MARK := "КРЕДИТ"
  const TURNOVER_MARK := "ИТОГО ОБОРОТ"
  const BALANCE_MARK := "ОСТАТОК"

  datatype Row = Row(date: string, docNum: string, bic: string, unp: string, counterpartyAccount: string,
                     name: string, amount: string, purpose: string, direction: Direction)

  datatype Parsed = Parsed(account: string, currencyCode: string, rows: seq<Row>)

  datatype Error = NotAlfa | MissingColumn(title: string) | OutsideSection | NoTurnovers | TurnoversDiffer

  // ---- Reading one line

  /** What a line below the column header means to the section machine. */
  datatype Line =
    | Skip
    | Mark(direction: Direction)
    | Turnover(side: Option<Direction>, total: Amount)
    | Balance
    | Operation(row: Row)

  /** `dd.mm.yyyy` of a real day becomes `yyyy-mm-dd`; anything else is the empty string. */
  function IsoFromDotted(dotted: string): string
  {
    var t := Trim(dotted);
    if |t| != 10 || t[2] != '.' || t[5] != '.' then ""
    else
      var iso := t[6..] + "-" + t[3..5] + "-" + t[..2];
      if IsIsoDay(iso) then iso else ""
  }

  function TrimAll(cells: seq<string>): (r: seq<string>)
    ensures |r| == |cells|
  {
    seq(|cells|, i requires 0 <= i < |cells| => Trim(cells[i]))
  }

  function CellAt(cells: seq<string>, i: nat): string
  {
    if i < |cells| then cells[i] else ""
  }

  function SideOf(upper: string): Option<Direction>
  {
    if Contains(upper, DEBIT_MARK) then Some(Debit)
    else if Contains(upper, CREDIT_MARK) then Some(Credit)
    else None
  }

  predicate ColumnsOk(columns: seq<nat>)
  {
    |columns| == 8
  }

  /** The direction of an operation is not in its line; the machine fills it in. */
  function OperationRow(raw: seq<string>, date: string, columns: seq<nat>): Row
    requires ColumnsOk(columns)
  {
    var cells := TrimAll(raw);
    Row(date, CellAt(cells, columns[DOC_NUM]), CellAt(cells, columns[BIC]), CellAt(cells, columns[UNP]),
        DropSpaces(CellAt(cells, columns[ACCOUNT])), CellAt(cells, columns[NAME]),
        CellAt(cells, columns[AMOUNT]), CsvLine.Tail(raw, columns[PURPOSE], SEP), Debit)
  }

  function Read(line: string, columns: seq<nat>, toUpper: string -> string): Line
    requires ColumnsOk(columns)
  {
    if Trim(line) == "" then Skip
    else
      var raw := CsvLine.Cells(line, SEP);
      var cells := TrimAll(raw);
      var date := IsoFromDotted(CellAt(cells, 0));
      var upper := toUpper(line);
      if date != "" then Operation(OperationRow(raw, date, columns))
      else if Contains(upper, TURNOVER_MARK) then
        Turnover(SideOf(upper), ParseBankAmount(CellAt(cells, columns[AMOUNT])))
      else if Contains(upper, BALANCE_MARK) then Balance
      else match SideOf(upper)
        case Some(d) => Mark(d)
        case None => Skip
  }

  function ReadAll(lines: seq<string>, columns: seq<nat>, toUpper: string -> string): (r: seq<Line>)
    requires ColumnsOk(columns)
    ensures |r| == |lines|
    ensures forall k :: 0 <= k < |lines| ==> r[k] == Read(lines[k], columns, toUpper)
  {
    if lines == [] then []
    else
      var n := |lines| - 1;
      ReadAll(lines[..n], columns, toUpper) + [Read(lines[n], columns, toUpper)]
  }

  // ---- The section machine

  datatype Machine = Machine(section: Option<Direction>, debitTotal: Option<real>, creditTotal: Option<real>,
                             rows: seq<Row>)

  const START := Machine(None, None, None, [])

  function Step(m: Machine, line: Line): Result<Machine, Error>
  {
    match line
    case Skip => Ok(m)
    case Mark(d) => Ok(m.(section := Some(d)))
    case Balance => Ok(m.(section := None))
    case Turnover(side, total) =>
      var closed := m.(section := None);
      if total.Unreadable? then Ok(closed)
      else if side == Some(Debit) then Ok(closed.(debitTotal := Some(total.value)))
      else if side == Some(Credit) then Ok(closed.(creditTotal := Some(total.value)))
      else Ok(closed)
    case Operation(row) =>
      if m.section.None? then Err(OutsideSection)
      else Ok(m.(rows := m.rows + [row.(direction := m.section.value)]))
  }

  function Run(lines: seq<Line>): Result<Machine, Error>
  {
    if lines == [] then Ok(START)
    else match Run(lines[..|lines| - 1])
      case Err(e) => Err(e)
      case Ok(m) => Step(m, lines[|lines| - 1])
  }

  /** The readable amounts of one direction. */
  function SumOfRows(rows: seq<Row>, d: Direction): real
  {
    if rows == [] then 0.0
    else
      var row := rows[|rows| - 1];
      var a := ParseBankAmount(row.amount);
      SumOfRows(rows[..|rows| - 1], d) + if row.direction == d && a.Amount? then a.value else 0.0
  }

  function CheckTurnovers(m: Machine): Option<Error>
  {
    if m.debitTotal.None? || m.creditTotal.None? then Some(NoTurnovers)
    else if Cents(SumOfRows(m.rows, Debit)) != Cents(m.debitTotal.value) ||
            Cents(SumOfRows(m.rows, Credit)) != Cents(m.creditTotal.value) then Some(TurnoversDiffer)
    else None
  }

  // ---- The whole file

  predicate IsHeader(line: string)
  {
    Contains(line, TITLES[DATE] + [SEP]) && Contains(line, TITLES[AMOUNT] + [SEP])
  }

  function HeaderAt(lines: seq<string>): (k: int)
    ensures -1 <= k < |lines|
    ensures k >= 0 ==> IsHeader(lines[k])
    ensures forall j :: 0 <= j < (if k < 0 then |lines| else k) ==> !IsHeader(lines[j])
  {
    if lines == [] then -1
    else if IsHeader(lines[0]) then 0
    else
      var k := HeaderAt(lines[1..]);
      assert forall j :: 0 < j < |lines| ==> lines[j] == lines[1..][j - 1];
      if k < 0 then -1 else k + 1
  }

  function IndexOf(cells: seq<string>, title: string): (k: int)
    ensures -1 <= k < |cells|
  {
    if cells == [] then -1
    else if cells[0] == title then 0
    else
      var k := IndexOf(cells[1..], title);
      if k < 0 then -1 else k + 1
  }

  /** The columns of the first `n` titles, or the first title that is missing. */
  function FindColumns(header: seq<string>, n: nat): (r: Result<seq<nat>, Error>)
    requires n <= |TITLES|
    ensures r.Ok? ==> |r.value| == n
  {
    if n == 0 then Ok([])
    else match FindColumns(header, n - 1)
      case Err(e) => Err(e)
      case Ok(found) =>
        var at := IndexOf(header, TITLES[n - 1]);
        if at < 0 then Err(MissingColumn(TITLES[n - 1])) else Ok(found + [at])
  }

  function Columns(line: string): (r: Result<seq<nat>, Error>)
    ensures r.Ok? ==> ColumnsOk(r.value)
  {
    FindColumns(TrimAll(CsvLine.Cells(line, SEP)), 8)
  }

  function ParseLines(lines: seq<string>, toUpper: string -> string,
                      readHeader: seq<string> -> (string, string)): Result<Parsed, Error>
  {
    var at := HeaderAt(lines);
    if at < 0 then Err(NotAlfa)
    else match Columns(lines[at])
      case Err(e) => Err(e)
      case Ok(columns) =>
        match Run(ReadAll(lines[at + 1..], columns, toUpper))
        case Err(e) => Err(e)
        case Ok(m) =>
          match CheckTurnovers(m)
          case Some(e) => Err(e)
          case None => Ok(Parsed(readHeader(lines).0, readHeader(lines).1, m.rows))
  }

  method FindColumnsInHeader(line: string) returns (r: Result<seq<nat>, Error>)
    ensures r == Columns(line)
  {
    var raw := CsvLine.SplitCsvLine(line, SEP);
    var header := TrimAll(raw);
    var columns: seq<nat> := [];
    for n := 0 to 8
      invariant FindColumns(header, n) == Ok(columns)
    {
      var at := IndexOf(header, TITLES[n]);
      if at < 0 {
        StopsAt(header, n + 1, 8);
        return Err(MissingColumn(TITLES[n]));
      }
      columns := columns + [at];
    }
    r := Ok(columns);
  }

  lemma {:induction false} StopsAt(header: seq<string>, n: nat, k: nat)
    requires n <= k <= |TITLES| && FindColumns(header, n).Err?
    ensures FindColumns(header, k) == FindColumns(header, n)
  {
    if n < k {
      StopsAt(header, n, k - 1);
    }
  }

  lemma {:induction false} RunStops(lines: seq<Line>, k: nat)
    requires k <= |lines| && Run(lines[..k]).Err?
    ensures Run(lines) == Run(lines[..k])
  {
    if k == |lines| {
      assert lines[..k] == lines;
    } else {
      var n := |lines| - 1;
      assert lines[..n][..k] == lines[..k];
      RunStops(lines[..n], k);
    }
  }

  lemma RunNext(lines: seq<Line>, i: nat)
    requires i < |lines|
    ensures Run(lines[..i + 1]) == match Run(lines[..i]) { case Err(e) => Err(e) case Ok(m) => Step(m, lines[i]) }
  {
    assert lines[..i + 1][..i] == lines[..i];
  }

  method ReadLine(line: string, columns: seq<nat>, toUpper: string -> string) returns (r: Line)
    requires ColumnsOk(columns)
    ensures r == Read(line, columns, toUpper)
  {
    if Trim(line) == "" {
      return Skip;
    }
    var raw := CsvLine.SplitCsvLine(line, SEP);
    var cells := TrimAll(raw);
    var date := IsoFromDotted(CellAt(cells, 0));
    if date != "" {
      return Operation(OperationRow(raw, date, columns));
    }
    var upper := toUpper(line);
    if Contains(upper, TURNOVER_MARK) {
      return Turnover(SideOf(upper), ParseBankAmount(CellAt(cells, columns[AMOUNT])));
    }
    if Contains(upper, BALANCE_MARK) {
      return Balance;
    }
    return match SideOf(upper) case Some(d) => Mark(d) case None => Skip;
  }

  /** The line loop: section, the two printed totals and the rows so far. */
  method ScanBody(body: seq<string>, columns: seq<nat>, toUpper: string -> string) returns (r: Result<Machine, Error>)
    requires ColumnsOk(columns)
    ensures r == Run(ReadAll(body, columns, toUpper))
  {
    hide Read;
    ghost var all := ReadAll(body, columns, toUpper);
    var rows: seq<Row> := [];
    var section: Option<Direction> := None;
    var debitTotal: Option<real> := None;
    var creditTotal: Option<real> := None;
    for i := 0 to |body|
      invariant Run(all[..i]) == Ok(Machine(section, debitTotal, creditTotal, rows))
    {
      RunNext(all, i);
      var line := ReadLine(body[i], columns, toUpper);
      match line {
        case Skip =>
        case Mark(d) => section := Some(d);
        case Balance => section := None;
        case Turnover(side, total) =>
          if total.Amount? {
            if side == Some(Debit) {
              debitTotal := Some(total.value);
            } else if side == Some(Credit) {
              creditTotal := Some(total.value);
            }
          }
          section := None;
        case Operation(row) =>
          if section.None? {
            RunStops(all, i + 1);
            return Err(OutsideSection);
          }
          rows := rows + [row.(direction := section.value)];
      }
    }
    assert all[..|body|] == all;
    r := Ok(Machine(section, debitTotal, creditTotal, rows));
  }

  lemma SumNext(rows: seq<Row>, i: nat, d: Direction)
    requires i < |rows|
    ensures var a := ParseBankAmount(rows[i].amount);
            SumOfRows(rows[..i + 1], d) ==
            SumOfRows(rows[..i], d) + if rows[i].direction == d && a.Amount? then a.value else 0.0
  {
    assert rows[..i + 1][..i] == rows[..i];
  }

  lemma NothingSummed(d: Direction)
    ensures SumOfRows([], d) == 0.0
  {
  }

  method AssertTurnovers(m: Machine) returns (refused: Option<Error>)
    ensures refused == CheckTurnovers(m)
  {
    hide ParseBankAmount, Cents, SumOfRows;
    if m.debitTotal.None? || m.creditTotal.None? {
      return Some(NoTurnovers);
    }
    var debit, credit := 0.0, 0.0;
    assert m.rows[..0] == [];
    NothingSummed(Debit);
    NothingSummed(Credit);
    for i := 0 to |m.rows|
      invariant debit == SumOfRows(m.rows[..i], Debit) && credit == SumOfRows(m.rows[..i], Credit)
    {
      SumNext(m.rows, i, Debit);
      SumNext(m.rows, i, Credit);
      var value := ParseBankAmount(m.rows[i].amount);
      if value.Amount? {
        if m.rows[i].direction == Debit {
          debit := debit + value.value;
        } else {
          credit := credit + value.value;
        }
      }
    }
    assert m.rows[..|m.rows|] == m.rows;
    if Cents(debit) != Cents(m.debitTotal.value) || Cents(credit) != Cents(m.creditTotal.value) {
      return Some(TurnoversDiffer);
    }
    return None;
  }

  method ParseAlfaCsv(content: string, maxChars: nat, toUpper: string -> string,
                      readHeader: seq<string> -> (string, string)) returns (r: Result<Parsed, Error>)
    ensures r == ParseLines(SplitLines(if |content| > maxChars then content[..maxChars] else content), toUpper, readHeader)
  {
    var text := if |content| > maxChars then content[..maxChars] else content;
    var lines := SplitLines(text);
    var headerAt := HeaderAt(lines);
    if headerAt < 0 {
      return Err(NotAlfa);
    }
    var columns := FindColumnsInHeader(lines[headerAt]);
    if columns.Err? {
      return Err(columns.error);
    }
    var m := ScanBody(lines[headerAt + 1..], columns.value, toUpper);
    if m.Err? {
      return Err(m.error);
    }
    var refused := AssertTurnovers(m.value);
    if refused.Some? {
      return Err(refused.value);
    }
    var head := readHeader(lines);
    r := Ok(Parsed(head.0, head.1, m.value.rows));
  }

  // ---- Directions come from the open section

  /** Line `j` opened section `d`, and nothing between it and line `i` closed or changed it. */
  predicate Opens(lines: seq<Line>, j: int, i: nat, d: Direction)
    requires i <= |lines|
  {
    && 0 <= j < i && lines[j] == Mark(d)
    && (forall k :: j < k < i ==> lines[k].Skip? || lines[k].Operation?)
  }

  ghost predicate Open(lines: seq<Line>, i: nat, d: Direction)
    requires i <= |lines|
  {
    exists j :: Opens(lines, j, i, d)
  }

  /** How many operation lines stand before line `i`. */
  function OperationsBefore(lines: seq<Line>, i: nat): (n: nat)
    requires i <= |lines|
  {
    if i == 0 then 0 else OperationsBefore(lines, i - 1) + if lines[i - 1].Operation? then 1 else 0
  }

  lemma OpenNext(lines: seq<Line>, i: nat, d: Direction)
    requires i < |lines|
    ensures Open(lines, i + 1, d) <==> lines[i] == Mark(d) || (Open(lines, i, d) && (lines[i].Skip? || lines[i].Operation?))
  {
    if lines[i] == Mark(d) {
      assert Opens(lines, i, i + 1, d);
    } else if Open(lines, i, d) && (lines[i].Skip? || lines[i].Operation?) {
      var j :| Opens(lines, j, i, d);
      assert Opens(lines, j, i + 1, d);
    }
    if Open(lines, i + 1, d) && lines[i] != Mark(d) {
      var j :| Opens(lines, j, i + 1, d);
      assert Opens(lines, j, i, d);
    }
  }

  /** After `i` lines: the section is the one open there, and there is a row for each operation so far. */
  lemma {:induction false} MachineState(lines: seq<Line>, i: nat)
    requires i <= |lines| && Run(lines[..i]).Ok?
    ensures var m := Run(lines[..i]).value;
            && (m.section == Some(Debit) <==> Open(lines, i, Debit))
            && (m.section == Some(Credit) <==> Open(lines, i, Credit))
            && |m.rows| == OperationsBefore(lines, i)
  {
    if i == 0 {
      assert lines[..0] == [];
    } else {
      RunNext(lines, i - 1);
      MachineState(lines, i - 1);
      OpenNext(lines, i - 1, Debit);
      OpenNext(lines, i - 1, Credit);
    }
  }

  lemma {:induction false} RowsKept(lines: seq<Line>, i: nat, k: nat)
    requires i <= k <= |lines| && Run(lines[..k]).Ok?
    ensures Run(lines[..i]).Ok? && Run(lines[..i]).value.rows <= Run(lines[..k]).value.rows
  {
    if i < k {
      RunNext(lines, k - 1);
      RowsKept(lines, i, k - 1);
    }
  }

  /** The machine accepts exactly when every operation stands in an open section, and then the row of
      each operation line carries that section's direction, in file order. */
  lemma RowDirections(lines: seq<Line>, i: nat)
    requires Run(lines).Ok? && i < |lines| && lines[i].Operation?
    ensures var rows, n := Run(lines).value.rows, OperationsBefore(lines, i);
            && |rows| == OperationsBefore(lines, |lines|) && n < |rows|
            && rows[n] == lines[i].row.(direction := rows[n].direction)
            && Open(lines, i, rows[n].direction)
  {
    assert lines[..|lines|] == lines;
    RowsKept(lines, i + 1, |lines|);
    RowsKept(lines, i, |lines|);
    RunNext(lines, i);
    MachineState(lines, i);
    MachineState(lines, |lines|);
    var m := Run(lines[..i]).value;
    assert m.section.value == Debit || m.section.value == Credit;
  }

  lemma {:induction false} AcceptedExactly(lines: seq<Line>, n: nat)
    requires n <= |lines|
    ensures Run(lines[..n]).Ok? <==>
            forall i :: 0 <= i < n && lines[i].Operation? ==> Open(lines, i, Debit) || Open(lines, i, Credit)
  {
    if n == 0 {
      assert lines[..0] == [];
    } else {
      AcceptedExactly(lines, n - 1);
      RunNext(lines, n - 1);
      if Run(lines[..n - 1]).Ok? {
        MachineState(lines, n - 1);
        var m := Run(lines[..n - 1]).value;
        assert m.section == Some(Debit) <==> Open(lines, n - 1, Debit);
        assert m.section == Some(Credit) <==> Open(lines, n - 1, Credit);
        assert m.section.Some? ==> m.section.value == Debit || m.section.value == Credit;
        assert Run(lines[..n]).Ok? <==> !lines[n - 1].Operation? || m.section.Some?;
      }
    }
  }

  // ---- The printed totals come from the last total lines

  /** The line prints a readable turnover of this side. */
  predicate IsTotal(line: Line, d: Direction)
  {
    line.Turnover? && line.side == Some(d) && line.total.Amount?
  }

  /** Line `k` is the last of the first `n` that does. */
  predicate LastTotal(lines: seq<Line>, k: nat, n: nat, d: Direction)
    requires n <= |lines|
  {
    k < n && IsTotal(lines[k], d) && forall j :: k < j < n ==> !IsTotal(lines[j], d)
  }

  /** The bank's printed total of a direction. */
  function Printed(m: Machine, d: Direction): Option<real>
  {
    if d == Debit then m.debitTotal else m.creditTotal
  }

  /** The total of each side is what the last line printed that has one of that side, and there is none
      without such a line. */
  lemma {:induction false} TotalsExactly(lines: seq<Line>, n: nat, d: Direction)
    requires n <= |lines| && Run(lines[..n]).Ok?
    ensures var printed := Printed(Run(lines[..n]).value, d);
            && (printed.Some? <==> exists k :: 0 <= k < n && IsTotal(lines[k], d))
            && (forall k :: 0 <= k < n && LastTotal(lines, k, n, d) ==> printed == Some(lines[k].total.value))
  {
    if n == 0 {
      assert lines[..0] == [];
    } else {
      RunNext(lines, n - 1);
      TotalsExactly(lines, n - 1, d);
      var before, after := Run(lines[..n - 1]).value, Run(lines[..n]).value;
      TotalStep(before, lines[n - 1], d);
      forall k | 0 <= k < n && LastTotal(lines, k, n, d) ensures Printed(after, d) == Some(lines[k].total.value) {
        assert k < n - 1 ==> LastTotal(lines, k, n - 1, d);
      }
    }
  }

  lemma TotalStep(m: Machine, line: Line, d: Direction)
    requires Step(m, line).Ok?
    ensures Printed(Step(m, line).value, d) == if IsTotal(line, d) then Some(line.total.value) else Printed(m, d)
  {
  }

  // ---- Losing one operation line

  function Without<T>(s: seq<T>, i: nat): seq<T>
    requires i < |s|
  {
    s[..i] + s[i + 1..]
  }

  function Contribution(row: Row, d: Direction): real
  {
    var a := ParseBankAmount(row.amount);
    if row.direction == d && a.Amount? then a.value else 0.0
  }

  lemma {:induction false} SumWithout(rows: seq<Row>, n: nat, d: Direction)
    requires n < |rows|
    ensures SumOfRows(Without(rows, n), d) == SumOfRows(rows, d) - Contribution(rows[n], d)
  {
    hide Contribution, SumOfRows;
    var last := |rows| - 1;
    SumLast(rows, d);
    if n == last {
      assert Without(rows, n) == rows[..last];
    } else {
      SumWithout(rows[..last], n, d);
      SumLast(Without(rows, n), d);
      assert Without(rows, n)[..last - 1] == Without(rows[..last], n);
    }
  }

  /** Dropping an operation line drops its row and changes nothing else the machine knows. */
  lemma {:induction false} RunWithout(lines: seq<Line>, i: nat)
    requires i < |lines| && lines[i].Operation? && Run(lines).Ok?
    ensures var m, n := Run(lines).value, OperationsBefore(lines, i);
            n < |m.rows| && Run(Without(lines, i)) == Ok(m.(rows := Without(m.rows, n)))
  {
    hide Open, OperationsBefore, Run, Step;
    var last := |lines| - 1;
    RowDirections(lines, i);
    RunNext(lines, last);
    assert lines[..last + 1] == lines;
    if i == last {
      assert Without(lines, i) == lines[..last];
      MachineState(lines, last);
      LastRowOff(Run(lines[..last]).value, lines[last]);
    } else {
      RunWithout(lines[..last], i);
      OperationsPrefix(lines, last, i);
      var less := Without(lines, i);
      RunNext(less, last - 1);
      assert less[..last - 1] == Without(lines[..last], i) && less[last - 1] == lines[last] && less[..last] == less;
      StepWithout(Run(lines[..last]).value, lines[last], OperationsBefore(lines, i));
    }
  }

  lemma LastRowOff(m: Machine, line: Line)
    requires line.Operation? && Step(m, line).Ok?
    ensures var t := Step(m, line).value; |t.rows| == |m.rows| + 1 && t.(rows := Without(t.rows, |m.rows|)) == m
  {
    var t := Step(m, line).value;
    assert Without(t.rows, |m.rows|) == m.rows;
  }

  lemma StepWithout(m: Machine, line: Line, n: nat)
    requires n < |m.rows| && Step(m, line).Ok?
    ensures var t := Step(m, line).value;
            n < |t.rows| && Step(m.(rows := Without(m.rows, n)), line) == Ok(t.(rows := Without(t.rows, n)))
  {
    forall row: Row ensures Without(m.rows + [row], n) == Without(m.rows, n) + [row] {
    }
  }

  lemma {:induction false} OperationsPrefix(lines: seq<Line>, k: nat, i: nat)
    requires i <= k <= |lines|
    ensures OperationsBefore(lines[..k], i) == OperationsBefore(lines, i)
  {
    if i > 0 {
      OperationsPrefix(lines, k, i - 1);
    }
  }

  /** How far, in cents, an amount lies past the point where its rounding last went up. */
  function Excess(x: real): (e: real)
    ensures 0.0 <= e < 1.0
  {
    (x + EPSILON) * 100.0 + 0.5 - Cents(x) as real
  }

  /** Losing row `n` leaves its direction's turnover as it was: there is nothing to read in the row, or
      its amount stays within what the rounding of the turnover takes up. */
  predicate Unnoticed(rows: seq<Row>, n: nat)
    requires n < |rows|
  {
    var a := ParseBankAmount(rows[n].amount);
    a.Amount? ==> 0.0 <= Excess(SumOfRows(rows, rows[n].direction)) - 100.0 * a.value < 1.0
  }

  lemma CentsAfterLoss(x: real, a: real)
    ensures Cents(x - a) == Cents(x) <==> 0.0 <= Excess(x) - 100.0 * a < 1.0
  {
    assert (x - a + EPSILON) * 100.0 + 0.5 == Cents(x) as real + (Excess(x) - 100.0 * a);
  }

  /** A file that loses one operation line is refused exactly when the turnover of its direction rounds
      to other cents without it. */
  lemma DeletionExactly(lines: seq<Line>, i: nat)
    requires Run(lines).Ok? && CheckTurnovers(Run(lines).value).None?
    requires i < |lines| && lines[i].Operation?
    ensures var m, n, less := Run(lines).value, OperationsBefore(lines, i), Run(Without(lines, i));
            && n < |m.rows| && m.rows[n].amount == lines[i].row.amount
            && less == Ok(m.(rows := Without(m.rows, n)))
            && CheckTurnovers(less.value) == if Unnoticed(m.rows, n) then None else Some(TurnoversDiffer)
  {
    hide ParseBankAmount, Run, OperationsBefore, Without, SumOfRows, Cents, Unnoticed;
    var m, n := Run(lines).value, OperationsBefore(lines, i);
    RowDirections(lines, i);
    RunWithout(lines, i);
    ContributionShift(m.rows, n, Debit);
    ContributionShift(m.rows, n, Credit);
  }

  /** In cents, the lost row's direction moves unless the loss goes unnoticed; the other one stays. */
  lemma ContributionShift(rows: seq<Row>, n: nat, d: Direction)
    requires n < |rows|
    ensures Cents(SumOfRows(Without(rows, n), d)) == Cents(SumOfRows(rows, d)) <==>
            rows[n].direction != d || Unnoticed(rows, n)
  {
    hide ParseBankAmount, SumOfRows, Without, Cents, Excess;
    SumWithout(rows, n, d);
    var a := ParseBankAmount(rows[n].amount);
    if rows[n].direction == d && a.Amount? {
      CentsAfterLoss(SumOfRows(rows, d), a.value);
    } else {
      assert SumOfRows(rows, d) - 0.0 == SumOfRows(rows, d);
    }
  }

  predicate WholeCents(row: Row)
  {
    var a := ParseBankAmount(row.amount);
    a.Amount? ==> a.value == Round2(a.value)
  }

  /** What the loss comes to without looking at the turnover: a cent or more never goes unnoticed, nothing
      at all always does, and between whole-cent amounts only zero does. */
  lemma LossByAmount(rows: seq<Row>, n: nat)
    requires n < |rows|
    ensures var a := ParseBankAmount(rows[n].amount);
            && (a.Unreadable? || a.value == 0.0 ==> Unnoticed(rows, n))
            && (a.Amount? && Abs(a.value) >= 0.01 ==> !Unnoticed(rows, n))
            && (a.Amount? && a.value != 0.0 && WholeCents(rows[n]) ==> !Unnoticed(rows, n))
  {
    hide ParseBankAmount, SumOfRows, Cents, Excess;
    var a := ParseBankAmount(rows[n].amount);
    if a.Amount? && a.value != 0.0 && a.value == Round2(a.value) {
      assert Abs(a.value) >= 0.01;
    }
  }

  /** A thousandth of a rouble is lost without notice: the file is accepted with the line and without it. */
  lemma ThousandthUnnoticed(row: Row)
    requires row.amount == "0.001"
    ensures var lines := [Mark(Debit), Operation(row), Turnover(Some(Debit), Amount(0.0)), Turnover(Some(Credit), Amount(0.0))];
            var with, without := Run(lines), Run(Without(lines, 1));
            && with.Ok? && CheckTurnovers(with.value).None? && |with.value.rows| == 1
            && ParseBankAmount(with.value.rows[0].amount) == Amount(0.001)
            && without.Ok? && CheckTurnovers(without.value).None? && without.value.rows == []
  {
    hide ParseBankAmount, Cents, Run, SumOfRows, Round2;
    ThousandthReads();
    var counted := row.(direction := Debit);
    RunOfFour(row);
    RunOfThree();
    assert Without([Mark(Debit), Operation(row), Turnover(Some(Debit), Amount(0.0)), Turnover(Some(Credit), Amount(0.0))], 1)
        == [Mark(Debit), Turnover(Some(Debit), Amount(0.0)), Turnover(Some(Credit), Amount(0.0))];
    OneRowSums(counted);
    NothingSummed(Debit);
    NothingSummed(Credit);
    SmallCents();
  }

  lemma RunOfFour(row: Row)
    ensures Run([Mark(Debit), Operation(row), Turnover(Some(Debit), Amount(0.0)), Turnover(Some(Credit), Amount(0.0))])
         == Ok(Machine(None, Some(0.0), Some(0.0), [row.(direction := Debit)]))
  {
    hide Run;
    EmptyRun();
    var a, b, c, d := Mark(Debit), Operation(row), Turnover(Some(Debit), Amount(0.0)), Turnover(Some(Credit), Amount(0.0));
    var rows := [row.(direction := Debit)];
    assert [] + [row.(direction := Debit)] == rows && [] + [a] == [a] && [a] + [b] == [a, b] && [a, b] + [c] == [a, b, c];
    assert [a, b, c] + [d] == [a, b, c, d];
    RunLast([], a, START, Machine(Some(Debit), None, None, []));
    RunLast([a], b, Machine(Some(Debit), None, None, []), Machine(Some(Debit), None, None, rows));
    RunLast([a, b], c, Machine(Some(Debit), None, None, rows), Machine(None, Some(0.0), None, rows));
    RunLast([a, b, c], d, Machine(None, Some(0.0), None, rows), Machine(None, Some(0.0), Some(0.0), rows));
  }

  lemma RunOfThree()
    ensures Run([Mark(Debit), Turnover(Some(Debit), Amount(0.0)), Turnover(Some(Credit), Amount(0.0))])
         == Ok(Machine(None, Some(0.0), Some(0.0), []))
  {
    hide Run;
    EmptyRun();
    var a, c, d := Mark(Debit), Turnover(Some(Debit), Amount(0.0)), Turnover(Some(Credit), Amount(0.0));
    assert [] + [a] == [a] && [a] + [c] == [a, c] && [a, c] + [d] == [a, c, d];
    RunLast([], a, START, Machine(Some(Debit), None, None, []));
    RunLast([a], c, Machine(Some(Debit), None, None, []), Machine(None, Some(0.0), None, []));
    RunLast([a, c], d, Machine(None, Some(0.0), None, []), Machine(None, Some(0.0), Some(0.0), []));
  }

  lemma OneRowSums(row: Row)
    requires row.direction == Debit && ParseBankAmount(row.amount).Amount?
    ensures SumOfRows([row], Debit) == ParseBankAmount(row.amount).value && SumOfRows([row], Credit) == 0.0
  {
    hide ParseBankAmount;
    SumLast([row], Debit);
    SumLast([row], Credit);
    assert [row][..0] == [];
    NothingSummed(Debit);
    NothingSummed(Credit);
  }

  lemma RunLast(lines: seq<Line>, line: Line, before: Machine, after: Machine)
    requires Run(lines) == Ok(before) && Step(before, line) == Ok(after)
    ensures Run(lines + [line]) == Ok(after)
  {
    assert (lines + [line])[..|lines|] == lines;
  }

  lemma EmptyRun()
    ensures Run([]) == Ok(START)
  {
  }

  lemma SmallCents()
    ensures Cents(0.001) == 0 && Cents(0.0) == 0
  {
  }

  lemma ThousandthReads()
    ensures ParseBankAmount("0.001") == Amount(0.001)
  {
    hide ParseBankAmount;
    assert DigitsOf("0") == "0" by { assert "0"[1..] == ""; }
    PrintedAmountReads("0", '.', "001");
    assert "0" + ['.'] + "001" == "0.001";
    assert "0"[..0] == "" && "00"[..1] == "0" && "001"[..2] == "00";
    assert Value("00") == 0 && Value("0") == 0 && Value("001") == 1;
    assert Pow10(3) == 10 * Pow10(2) && Pow10(2) == 10 * Pow10(1) && Pow10(1) == 10 * Pow10(0);
  }

  lemma {:induction false} HeaderStays(lines: seq<string>, j: nat)
    requires 0 <= HeaderAt(lines) < j < |lines|
    ensures HeaderAt(Without(lines, j)) == HeaderAt(lines)
  {
    var less, at := Without(lines, j), HeaderAt(lines);
    assert forall k :: 0 <= k <= at ==> less[k] == lines[k];
    assert IsHeader(less[at]);
    var other := HeaderAt(less);
    assert other <= at;
  }

  /** What line `j` of a file is, and which operation of the file it is. */
  function LineAt(lines: seq<string>, j: nat, toUpper: string -> string): Line
    requires 0 <= HeaderAt(lines) < j < |lines| && Columns(lines[HeaderAt(lines)]).Ok?
  {
    Read(lines[j], Columns(lines[HeaderAt(lines)]).value, toUpper)
  }

  function OperationNumber(lines: seq<string>, j: nat, toUpper: string -> string): nat
    requires 0 <= HeaderAt(lines) < j < |lines| && Columns(lines[HeaderAt(lines)]).Ok?
  {
    var at := HeaderAt(lines);
    OperationsBefore(ReadAll(lines[at + 1..], Columns(lines[at]).value, toUpper), j - at - 1)
  }

  /** The same for the text lines of an accepted file: it loses an operation line without being refused
      exactly when the loss goes unnoticed, and then it is the same file without that row; a loss of a
      cent or more is always caught by the bank's own turnovers. */
  lemma LostOperationCaught(lines: seq<string>, j: nat, toUpper: string -> string,
                            readHeader: seq<string> -> (string, string))
    requires ParseLines(lines, toUpper, readHeader).Ok? && HeaderAt(lines) < j < |lines|
    requires LineAt(lines, j, toUpper).Operation?
    ensures var rows, n, less := ParseLines(lines, toUpper, readHeader).value.rows, OperationNumber(lines, j, toUpper),
                                 ParseLines(Without(lines, j), toUpper, readHeader);
            && n < |rows| && rows[n].amount == LineAt(lines, j, toUpper).row.amount
            && (if Unnoticed(rows, n) then less.Ok? && less.value.rows == Without(rows, n) else less == Err(TurnoversDiffer))
            && var a := ParseBankAmount(rows[n].amount);
               (a.Amount? && Abs(a.value) >= 0.01 ==> less == Err(TurnoversDiffer))
  {
    hide ParseBankAmount, Run, Read, Columns, ReadAll, IsHeader, HeaderAt, CheckTurnovers, Unnoticed, OperationsBefore;
    var at := HeaderAt(lines);
    var columns := Columns(lines[at]).value;
    var i := j - at - 1;
    HeaderStays(lines, j);
    var all := ReadAll(lines[at + 1..], columns, toUpper);
    assert lines[at + 1..][i] == lines[j];
    DeletionExactly(all, i);
    LossByAmount(Run(all).value.rows, OperationsBefore(all, i));
    BodyWithout(lines, j, columns, toUpper);
  }

  lemma BodyWithout(lines: seq<string>, j: nat, columns: seq<nat>, toUpper: string -> string)
    requires 0 <= HeaderAt(lines) < j < |lines| && ColumnsOk(columns)
    ensures var at, less := HeaderAt(lines), Without(lines, j);
            && less[at] == lines[at] && |less| > at
            && ReadAll(less[at + 1..], columns, toUpper) == Without(ReadAll(lines[at + 1..], columns, toUpper), j - at - 1)
  {
    hide Read, IsHeader, HeaderAt, ColumnsOk, ReadAll, Without;
    WithoutBehind(lines, HeaderAt(lines), j);
    ReadWithout(lines[HeaderAt(lines) + 1..], j - HeaderAt(lines) - 1, columns, toUpper);
  }

  lemma WithoutBehind<T>(s: seq<T>, at: nat, j: nat)
    requires at < j < |s|
    ensures var less := Without(s, j); |less| > at && less[at] == s[at] && less[at + 1..] == Without(s[at + 1..], j - at - 1)
  {
    assert Without(s, j)[at + 1..] == Without(s[at + 1..], j - at - 1);
  }

  lemma ReadWithout(lines: seq<string>, i: nat, columns: seq<nat>, toUpper: string -> string)
    requires i < |lines| && ColumnsOk(columns)
    ensures ReadAll(Without(lines, i), columns, toUpper) == Without(ReadAll(lines, columns, toUpper), i)
  {
    hide Read, ColumnsOk, ReadAll;
    var less, whole := Without(lines, i), ReadAll(lines, columns, toUpper);
    var a, b := ReadAll(less, columns, toUpper), Without(whole, i);
    forall k | 0 <= k < |less| ensures a[k] == b[k] {
      assert less[k] == if k < i then lines[k] else lines[k + 1];
      assert b[k] == if k < i then whole[k] else whole[k + 1];
    }
  }

  // ---- From rows to operations

  function DocId(row: Row): string
  {
    if row.docNum == "" then "" else row.date + "|" + row.docNum
  }

  /** An unknown numeric code leaves the caller's currency. */
  function CurrencyOf(parsed: Parsed, ctx: Context): string
  {
    var key := Trim(parsed.currencyCode);
    if key in NUMERIC_CURRENCY then NUMERIC_CURRENCY[key] else ctx.currency
  }

  function Judge(row: Row, parsed: Parsed, ctx: Context): Verdict
  {
    var raw := ParseBankAmount(row.amount);
    if row.date == "" || raw.Unreadable? then Verdict.Unreadable
    else
      var amount := Round2(raw.value);
      var currency := CurrencyOf(parsed, ctx);
      if amount == 0.0 then NonPayment
      else if amount < 0.0 || currency == "" then Verdict.Unreadable
      else Emit(Item(if ctx.account != "" then ctx.account else parsed.account, DocId(row), row.docNum,
                     row.direction, amount, currency, row.purpose,
                     Party(row.name, row.unp, row.counterpartyAccount, row.bic), row.date, "", ""))
  }

  function Normalize(rows: seq<Row>, parsed: Parsed, ctx: Context): Normalized
  {
    if rows == [] then NOTHING
    else Add(Normalize(rows[..|rows| - 1], parsed, ctx), Judge(rows[|rows| - 1], parsed, ctx))
  }

  method NormalizeAlfaCsvRows(parsed: Parsed, ctx: Context) returns (r: Normalized)
    ensures r == Normalize(parsed.rows, parsed, ctx)
  {
    hide ParseBankAmount, CurrencyOf;
    var items: seq<Item> := [];
    var nonPayment, unreadable := 0, 0;
    var rows := parsed.rows;
    for i := 0 to |rows|
      invariant Normalized(items, nonPayment, unreadable) == Normalize(rows[..i], parsed, ctx)
    {
      assert rows[..i + 1][..i] == rows[..i];
      var row := rows[i];
      var raw := ParseBankAmount(row.amount);
      if row.date == "" || raw.Unreadable? {
        unreadable := unreadable + 1;
        continue;
      }
      var amount := Round2(raw.value);
      if amount == 0.0 {
        nonPayment := nonPayment + 1;
        continue;
      }
      if amount < 0.0 {
        unreadable := unreadable + 1;
        continue;
      }
      var currency := CurrencyOf(parsed, ctx);
      if currency == "" {
        unreadable := unreadable + 1;
        continue;
      }
      var item := Item(if ctx.account != "" then ctx.account else parsed.account, DocId(row), row.docNum,
                       row.direction, amount, currency, row.purpose,
                       Party(row.name, row.unp, row.counterpartyAccount, row.bic), row.date, "", "");
      items := items + [item];
    }
    assert rows[..|rows|] == rows;
    r := Normalized(items, nonPayment, unreadable);
  }

  /** What a row comes to: a dated row with a readable amount is an operation if that is a cent or more and
      the currency is known, no payment if it rounds to nothing, and unreadable otherwise. */
  lemma JudgedExactly(row: Row, parsed: Parsed, ctx: Context)
    ensures var v, a := Judge(row, parsed, ctx), ParseBankAmount(row.amount);
            var known := Coded(Trim(parsed.currencyCode)) != "" || ctx.currency != "";
            && (v.Emit? <==> row.date != "" && a.Amount? && Cents(a.value) >= 1 && known)
            && (v.NonPayment? <==> row.date != "" && a.Amount? && Cents(a.value) == 0)
            && (v.Emit? ==> v.item.amount == Cents(a.value) as real / 100.0 && v.item.direction == row.direction
                            && v.item.currency == if Coded(Trim(parsed.currencyCode)) != "" then Coded(Trim(parsed.currencyCode)) else ctx.currency)
  {
    hide Trim, ParseBankAmount, Cents, NUMERIC_CURRENCY, Coded;
    CodedExactly(Trim(parsed.currencyCode));
  }

  /** From a line of the file to its operation: each field from under its own title, the id of date and
      number, and the account of the caller before that of the file. */
  lemma LineEmits(header: string, line: string, toUpper: string -> string, d: Direction, parsed: Parsed, ctx: Context,
                  docNum: nat, bic: nat, unp: nat, account: nat, name: nat, purpose: nat)
    requires Columns(header).Ok? && Read(line, Columns(header).value, toUpper).Operation?
    requires Titled(header, "Номер документа", docNum) && Titled(header, "Бик банка-корр.", bic) && Titled(header, "УНП", unp)
    requires Titled(header, "Номер счета", account) && Titled(header, "Наименование корреспондента", name)
    requires Titled(header, "Назначение платежа", purpose)
    ensures var v := Judge(Read(line, Columns(header).value, toUpper).row.(direction := d), parsed, ctx);
            v.Emit? ==>
              && v.item.direction == d && v.item.acceptDate == IsoFromDotted(Under(line, 0)) && v.item.docNum == Under(line, docNum)
              && v.item.docId == (if Under(line, docNum) == "" then "" else v.item.acceptDate + "|" + Under(line, docNum))
              && v.item.counterparty == Party(Under(line, name), Under(line, unp), DropSpaces(Under(line, account)), Under(line, bic))
              && v.item.purpose == CsvLine.Tail(CsvLine.Cells(line, SEP), purpose, SEP)
              && v.item.account == (if ctx.account == "" then parsed.account else ctx.account)
  {
    hide Columns, Read, Titled, Under, IsoFromDotted, DropSpaces, ParseBankAmount, CurrencyOf, Round2;
    OperationUnderTitles(header, line, toUpper);
  }

  /** How far rounding may move one amount. */
  const HALF_CENT: real := 0.005 + EPSILON

  lemma RoundingNear(a: real)
    ensures Abs(Round2(a) - a) <= HALF_CENT
  {
    CentsNearest(a);
  }

  /** Every row becomes one operation, one non-payment or one unreadable row. */
  lemma {:induction false} NormalizePartitions(rows: seq<Row>, parsed: Parsed, ctx: Context)
    ensures var n := Normalize(rows, parsed, ctx);
            |n.items| + n.nonPayment + n.unreadable == |rows|
  {
    hide Judge;
    if rows != [] {
      NormalizePartitions(rows[..|rows| - 1], parsed, ctx);
    }
  }

  predicate AllWholeCents(rows: seq<Row>)
  {
    forall k :: 0 <= k < |rows| ==> WholeCents(rows[k])
  }

  lemma NormalizeNext(rows: seq<Row>, parsed: Parsed, ctx: Context, d: Direction)
    requires rows != [] && Normalize(rows, parsed, ctx).unreadable == 0
    ensures var n := |rows| - 1;
            && Normalize(rows[..n], parsed, ctx).unreadable == 0
            && !Judge(rows[n], parsed, ctx).Unreadable?
            && SumOfItems(Normalize(rows, parsed, ctx).items, d) ==
               SumOfItems(Normalize(rows[..n], parsed, ctx).items, d) + Emitted(Judge(rows[n], parsed, ctx), d)
  {
    hide Judge, SumOfItems;
    var before, v := Normalize(rows[..|rows| - 1], parsed, ctx), Judge(rows[|rows| - 1], parsed, ctx);
    if v.Emit? {
      SumOfItemsNext(before.items, v.item, d);
    }
  }

  /** With nothing unreadable, the operations of a direction carry its rows' money up to the rounding
      of each row. */
  lemma {:induction false} NormalizeConserves(rows: seq<Row>, parsed: Parsed, ctx: Context, d: Direction)
    requires Normalize(rows, parsed, ctx).unreadable == 0
    ensures Abs(SumOfItems(Normalize(rows, parsed, ctx).items, d) - SumOfRows(rows, d)) <= |rows| as real * HALF_CENT
  {
    hide Judge, ParseBankAmount, Normalize, SumOfItems, Emitted, Round2, Contribution;
    if rows == [] {
      EmptySums(parsed, ctx, d);
    } else {
      var n := |rows| - 1;
      NormalizeNext(rows, parsed, ctx, d);
      NormalizeConserves(rows[..n], parsed, ctx, d);
      RowConserves(rows[n], parsed, ctx, d);
      SumLast(rows, d);
      assert (n + 1) as real * HALF_CENT == n as real * HALF_CENT + HALF_CENT;
    }
  }

  lemma EmptySums(parsed: Parsed, ctx: Context, d: Direction)
    ensures Normalize([], parsed, ctx).unreadable == 0
    ensures SumOfItems(Normalize([], parsed, ctx).items, d) == 0.0 && SumOfRows([], d) == 0.0
    ensures Round2(0.0) == 0.0
  {
    CentsOfWhole(0);
  }

  lemma SumLast(rows: seq<Row>, d: Direction)
    requires rows != []
    ensures SumOfRows(rows, d) == SumOfRows(rows[..|rows| - 1], d) + Contribution(rows[|rows| - 1], d)
  {
    hide ParseBankAmount;
  }

  /** When the rows are whole cents it is the same money. */
  lemma {:induction false} NormalizeConservesExactly(rows: seq<Row>, parsed: Parsed, ctx: Context, d: Direction)
    requires Normalize(rows, parsed, ctx).unreadable == 0 && AllWholeCents(rows)
    ensures SumOfItems(Normalize(rows, parsed, ctx).items, d) == SumOfRows(rows, d) == Round2(SumOfRows(rows, d))
  {
    hide Judge, ParseBankAmount, Normalize, SumOfItems, Emitted, Round2, Contribution, WholeCents;
    if rows == [] {
      EmptySums(parsed, ctx, d);
    } else {
      var n := |rows| - 1;
      NormalizeNext(rows, parsed, ctx, d);
      NormalizeConservesExactly(rows[..n], parsed, ctx, d);
      RowConserves(rows[n], parsed, ctx, d);
      SumLast(rows, d);
      WholeSum(SumOfRows(rows[..n], d), Contribution(rows[n], d));
    }
  }

  lemma WholeSum(s: real, c: real)
    requires s == Round2(s) && c == Round2(c)
    ensures s + c == Round2(s + c)
  {
    CentsShift(s, Cents(c));
    assert s + Cents(c) as real / 100.0 == s + c;
  }

  /** What one readable row adds to the operations of a direction. */
  function Emitted(v: Verdict, d: Direction): real
  {
    if v.Emit? && v.item.direction == d then v.item.amount else 0.0
  }

  lemma RowConserves(row: Row, parsed: Parsed, ctx: Context, d: Direction)
    requires !Judge(row, parsed, ctx).Unreadable?
    ensures Emitted(Judge(row, parsed, ctx), d) == Round2(Contribution(row, d))
    ensures Abs(Round2(Contribution(row, d)) - Contribution(row, d)) <= HALF_CENT
    ensures WholeCents(row) ==> Contribution(row, d) == Round2(Contribution(row, d))
  {
    RoundingNear(Contribution(row, d));
    CentsOfWhole(0);
  }

  /** From the bank's printed turnover to the operations: an accepted file with nothing unreadable is
      off by at most half a cent per row, and by nothing at all when the rows are whole cents. */
  lemma TurnoversConserved(m: Machine, parsed: Parsed, ctx: Context, d: Direction)
    requires CheckTurnovers(m).None? && parsed.rows == m.rows
    requires Normalize(m.rows, parsed, ctx).unreadable == 0
    ensures var sum := SumOfItems(Normalize(m.rows, parsed, ctx).items, d);
            && Printed(m, d).Some?
            && Abs(sum - Round2(Printed(m, d).value)) <= (|m.rows| + 1) as real * HALF_CENT
            && (AllWholeCents(m.rows) ==> sum == Round2(Printed(m, d).value))
  {
    hide ParseBankAmount, Normalize, SumOfRows, SumOfItems, WholeCents, Cents;
    NormalizeConserves(m.rows, parsed, ctx, d);
    if AllWholeCents(m.rows) {
      NormalizeConservesExactly(m.rows, parsed, ctx, d);
    }
    var s := SumOfRows(m.rows, d);
    RoundingNear(s);
    assert Round2(s) == Round2(Printed(m, d).value);
    assert (|m.rows| + 1) as real * HALF_CENT == |m.rows| as real * HALF_CENT + HALF_CENT;
  }

  /** From the lines themselves: in an accepted file with nothing unreadable the operations of a direction
      carry what the last total line of that side prints. */
  lemma TurnoverLinesConserved(lines: seq<Line>, k: nat, parsed: Parsed, ctx: Context, d: Direction)
    requires Run(lines).Ok? && CheckTurnovers(Run(lines).value).None? && parsed.rows == Run(lines).value.rows
    requires Normalize(parsed.rows, parsed, ctx).unreadable == 0 && LastTotal(lines, k, |lines|, d)
    ensures var sum, printed := SumOfItems(Normalize(parsed.rows, parsed, ctx).items, d), lines[k].total.value;
            && Abs(sum - Round2(printed)) <= (|parsed.rows| + 1) as real * HALF_CENT
            && (AllWholeCents(parsed.rows) ==> sum == Round2(printed))
  {
    hide CheckTurnovers, Normalize, SumOfItems, WholeCents, AllWholeCents, Round2, Run, Printed, IsTotal, Abs, HALF_CENT;
    assert lines[..|lines|] == lines;
    TotalsExactly(lines, |lines|, d);
    TurnoversConserved(Run(lines).value, parsed, ctx, d);
  }

  // ---- From the text of the file

  /** The place of a column in the header line, by its title. */
  ghost predicate Titled(header: string, title: string, at: nat)
  {
    var cells := CsvLine.Cells(header, SEP);
    at < |cells| && Trim(cells[at]) == title && forall j :: 0 <= j < at ==> Trim(cells[j]) != title
  }

  function Under(line: string, at: nat): string
  {
    var cells := CsvLine.Cells(line, SEP);
    if at < |cells| then Trim(cells[at]) else ""
  }

  lemma {:induction false} IndexOfFirst(cells: seq<string>, title: string)
    ensures var k := IndexOf(cells, title);
            && (k >= 0 ==> cells[k] == title && forall j :: 0 <= j < k ==> cells[j] != title)
            && (k < 0 ==> title !in cells)
  {
    if cells != [] {
      IndexOfFirst(cells[1..], title);
      assert cells == [cells[0]] + cells[1..];
      var k := IndexOf(cells[1..], title);
      if cells[0] != title && k >= 0 {
        forall j | 0 <= j < k + 1 ensures cells[j] != title {
          assert j > 0 ==> cells[j] == cells[1..][j - 1];
        }
      }
    }
  }

  lemma {:induction false} ColumnsAt(header: seq<string>, n: nat, k: nat)
    requires k < n <= |TITLES| && FindColumns(header, n).Ok?
    ensures FindColumns(header, n).value[k] == IndexOf(header, TITLES[k]) && IndexOf(header, TITLES[k]) >= 0
  {
    if k < n - 1 {
      ColumnsAt(header, n - 1, k);
    }
  }

  /** The columns found are those of the eight titles. */
  lemma ColumnsTitled(header: string)
    requires Columns(header).Ok?
    ensures var at := Columns(header).value;
            && Titled(header, "Дата операции", at[DATE]) && Titled(header, "Номер документа", at[DOC_NUM])
            && Titled(header, "Бик банка-корр.", at[BIC]) && Titled(header, "УНП", at[UNP])
            && Titled(header, "Номер счета", at[ACCOUNT]) && Titled(header, "Сумма операции", at[AMOUNT])
            && Titled(header, "Наименование корреспондента", at[NAME]) && Titled(header, "Назначение платежа", at[PURPOSE])
  {
    hide Columns, Titled;
    TitledAt(header, DATE);
    TitledAt(header, DOC_NUM);
    TitledAt(header, BIC);
    TitledAt(header, UNP);
    TitledAt(header, ACCOUNT);
    TitledAt(header, AMOUNT);
    TitledAt(header, NAME);
    TitledAt(header, PURPOSE);
    TitlesAre();
  }

  lemma TitlesAre()
    ensures TITLES[DATE] == "Дата операции" && TITLES[DOC_NUM] == "Номер документа" && TITLES[BIC] == "Бик банка-корр."
    ensures TITLES[UNP] == "УНП" && TITLES[ACCOUNT] == "Номер счета" && TITLES[AMOUNT] == "Сумма операции"
    ensures TITLES[NAME] == "Наименование корреспондента" && TITLES[PURPOSE] == "Назначение платежа"
  {
  }

  lemma TitledAt(header: string, k: nat)
    requires Columns(header).Ok? && k < 8
    ensures Titled(header, TITLES[k], Columns(header).value[k])
  {
    hide Trim, IndexOf, FindColumns;
    var cells := TrimAll(CsvLine.Cells(header, SEP));
    ColumnsAt(cells, 8, k);
    IndexOfFirst(cells, TITLES[k]);
    var at := Columns(header).value[k];
    forall j | 0 <= j < at ensures Trim(CsvLine.Cells(header, SEP)[j]) != TITLES[k] {
      assert cells[j] == Trim(CsvLine.Cells(header, SEP)[j]);
    }
  }

  /** A line is an operation exactly when its first cell is a date; it then gives each field from under the
      title of that field, and the purpose from there to the end. */
  lemma OperationUnderTitles(header: string, line: string, toUpper: string -> string)
    requires Columns(header).Ok?
    ensures var at := Columns(header).value;
            var read := Read(line, at, toUpper);
            && (read.Operation? <==> Trim(line) != "" && IsoFromDotted(Under(line, 0)) != "")
            && (read.Operation? ==>
                  && read.row.date == IsoFromDotted(Under(line, 0))
                  && (forall k :: Titled(header, "Номер документа", k) ==> read.row.docNum == Under(line, k))
                  && (forall k :: Titled(header, "Бик банка-корр.", k) ==> read.row.bic == Under(line, k))
                  && (forall k :: Titled(header, "УНП", k) ==> read.row.unp == Under(line, k))
                  && (forall k :: Titled(header, "Номер счета", k) ==> read.row.counterpartyAccount == DropSpaces(Under(line, k)))
                  && (forall k :: Titled(header, "Сумма операции", k) ==> read.row.amount == Under(line, k))
                  && (forall k :: Titled(header, "Наименование корреспондента", k) ==> read.row.name == Under(line, k))
                  && (forall k :: Titled(header, "Назначение платежа", k) ==> read.row.purpose == CsvLine.Tail(CsvLine.Cells(line, SEP), k, SEP)))
  {
    hide Columns, Trim, IsoFromDotted, DropSpaces, TITLES, Contains;
    ColumnsTitled(header);
    OneColumn(header);
    var at := Columns(header).value;
    ReadCells(line, at, toUpper);
    hide Titled, Read, Under;
  }

  lemma OneColumn(header: string)
    ensures forall title, j, k :: Titled(header, title, j) && Titled(header, title, k) ==> j == k
  {
    hide Trim;
  }

  lemma ReadCells(line: string, at: seq<nat>, toUpper: string -> string)
    requires ColumnsOk(at)
    ensures var read := Read(line, at, toUpper);
            && (read.Operation? <==> Trim(line) != "" && IsoFromDotted(Under(line, 0)) != "")
            && (read.Operation? ==>
                  && read.row.date == IsoFromDotted(Under(line, 0))
                  && read.row.docNum == Under(line, at[DOC_NUM]) && read.row.bic == Under(line, at[BIC])
                  && read.row.unp == Under(line, at[UNP]) && read.row.counterpartyAccount == DropSpaces(Under(line, at[ACCOUNT]))
                  && read.row.amount == Under(line, at[AMOUNT]) && read.row.name == Under(line, at[NAME])
                  && read.row.purpose == CsvLine.Tail(CsvLine.Cells(line, SEP), at[PURPOSE], SEP))
  {
    hide Trim, IsoFromDotted, DropSpaces, Contains, ParseBankAmount;
  }

  /** A line of text that prints a total of a side: no date in front, the words of a turnover, and the word of
      the side. With both words it is a debit. */
  ghost predicate PrintsTotal(line: string, toUpper: string -> string, d: Direction)
  {
    && Trim(line) != "" && IsoFromDotted(Under(line, 0)) == "" && Contains(toUpper(line), "ИТОГО ОБОРОТ")
    && (if d == Debit then Contains(toUpper(line), "ДЕБЕТ") else Contains(toUpper(line), "КРЕДИТ") && !Contains(toUpper(line), "ДЕБЕТ"))
  }

  /** Such lines, with a readable amount under the title of amounts, are the total lines, and that amount is
      their figure. */
  lemma TotalUnderTitle(header: string, line: string, toUpper: string -> string, d: Direction, k: nat)
    requires Columns(header).Ok? && Titled(header, "Сумма операции", k)
    ensures var read := Read(line, Columns(header).value, toUpper);
            && (IsTotal(read, d) <==> PrintsReadable(line, toUpper, d, k))
            && (IsTotal(read, d) ==> read.total == ParseBankAmount(Under(line, k)))
  {
    hide Columns, Trim, IsoFromDotted, DropSpaces, TITLES, Contains, ParseBankAmount, OperationRow;
    ColumnsTitled(header);
    OneColumn(header);
    hide Titled;
    MarksAre();
  }

  lemma MarksAre()
    ensures TURNOVER_MARK == "ИТОГО ОБОРОТ" && DEBIT_MARK == "ДЕБЕТ" && CREDIT_MARK == "КРЕДИТ" && BALANCE_MARK == "ОСТАТОК"
  {
  }

  ghost predicate PrintsReadable(line: string, toUpper: string -> string, d: Direction, column: nat)
  {
    PrintsTotal(line, toUpper, d) && ParseBankAmount(Under(line, column)).Amount?
  }

  /** What every other line is. A line of a balance closes the section; one with the word of a side opens that
      side's, the debit first; anything else is passed over. */
  lemma OtherLines(line: string, at: seq<nat>, toUpper: string -> string)
    requires ColumnsOk(at) && Trim(line) != "" && IsoFromDotted(Under(line, 0)) == "" && !Contains(toUpper(line), "ИТОГО ОБОРОТ")
    ensures var read, upper := Read(line, at, toUpper), toUpper(line);
            && (read == Balance <==> Contains(upper, "ОСТАТОК"))
            && (read == Mark(Debit) <==> !Contains(upper, "ОСТАТОК") && Contains(upper, "ДЕБЕТ"))
            && (read == Mark(Credit) <==> !Contains(upper, "ОСТАТОК") && !Contains(upper, "ДЕБЕТ") && Contains(upper, "КРЕДИТ"))
            && (read == Skip <==> !Contains(upper, "ОСТАТОК") && !Contains(upper, "ДЕБЕТ") && !Contains(upper, "КРЕДИТ"))
  {
    hide Trim, IsoFromDotted, Contains, ParseBankAmount, OperationRow;
    MarksAre();
  }

  /** A day with dots is read for the same day in the order of ISO 8601, padded or not. */
  lemma DottedReads(day: string, left: string, right: string)
    requires IsIsoDay(day) && Blank(left) && Blank(right)
    ensures IsoFromDotted(left + (day[8..] + "." + day[5..7] + "." + day[..4]) + right) == day
  {
    hide IsSpace, Trim, Blank, IsIsoDay, Digits;
    IsoDayShape(day);
    var dotted := day[8..] + "." + day[5..7] + "." + day[..4];
    DottedTrimmed(day);
    TrimPadded(left, dotted, right);
    assert dotted[6..] == day[..4] && dotted[3..5] == day[5..7] && dotted[..2] == day[8..];
    assert day == day[..4] + "-" + day[5..7] + "-" + day[8..];
  }

  lemma DottedTrimmed(day: string)
    requires IsIsoDay(day)
    ensures Trimmed(day[8..] + "." + day[5..7] + "." + day[..4])
  {
    IsoDayShape(day);
    assert forall c: char :: '0' <= c <= '9' ==> !IsSpace(c);
  }

  lemma IsoDayShape(day: string)
    requires IsIsoDay(day)
    ensures |day| == 10 && day[4] == '-' && day[7] == '-' && Digits(day[..4]) && Digits(day[5..7]) && Digits(day[8..])
  {
  }

  /** And nothing else is read for a day. */
  lemma OnlyDottedReads(text: string)
    requires IsoFromDotted(text) != ""
    ensures var day := IsoFromDotted(text);
            IsIsoDay(day) && Trim(text) == day[8..] + "." + day[5..7] + "." + day[..4]
  {
    hide Trim, IsIsoDay;
    var t, day := Trim(text), IsoFromDotted(text);
    assert day[8..] == t[..2] && day[5..7] == t[3..5] && day[..4] == t[6..];
    assert t == t[..2] + "." + t[3..5] + "." + t[6..];
  }

  /** The header is the first line that holds both titles, each with a separator behind it. */
  lemma HeaderExactly(lines: seq<string>, k: nat)
    requires k < |lines| && Contains(lines[k], "Дата операции" + ";") && Contains(lines[k], "Сумма операции" + ";")
    requires forall j :: 0 <= j < k ==> !(Contains(lines[j], "Дата операции" + ";") && Contains(lines[j], "Сумма операции" + ";"))
    ensures HeaderAt(lines) == k
  {
    hide Contains, IsHeader, HeaderAt;
    HeaderMeans(lines);
  }

  lemma HeaderMeans(lines: seq<string>)
    ensures forall j :: 0 <= j < |lines| ==>
              (IsHeader(lines[j]) <==> Contains(lines[j], "Дата операции" + ";") && Contains(lines[j], "Сумма операции" + ";"))
  {
    hide Contains;
    TitlesAre();
    assert [SEP] == ";";
  }

  lemma {:induction false} RunErrors(lines: seq<Line>)
    ensures Run(lines).Err? ==> Run(lines).error == OutsideSection
  {
    if lines != [] {
      RunErrors(lines[..|lines| - 1]);
    }
  }

  lemma ColumnErrors(header: string)
    ensures Columns(header).Err? ==> Columns(header).error.MissingColumn?
  {
    hide IndexOf, TrimAll;
    if Columns(header).Err? {
      FirstMissing(TrimAll(CsvLine.Cells(header, SEP)), 8);
    }
  }

  /** The refusal of a header names the first title that is not there. */
  lemma {:induction false} FirstMissing(header: seq<string>, n: nat)
    requires n <= |TITLES|
    ensures var found := FindColumns(header, n);
            && (found.Ok? <==> forall k :: 0 <= k < n ==> TITLES[k] in header)
            && (found.Err? ==> exists k :: 0 <= k < n && found.error == MissingColumn(TITLES[k]) && TITLES[k] !in header
                                           && forall j :: 0 <= j < k ==> TITLES[j] in header)
  {
    hide TITLES, IndexOf;
    if n > 0 {
      FirstMissing(header, n - 1);
      IndexOfFirst(header, TITLES[n - 1]);
      var at := IndexOf(header, TITLES[n - 1]);
      if at >= 0 {
        assert header[at] in header;
      }
    }
  }

  /** Each refusal: no header, a title missing, an operation outside a section, totals missing or not met. */
  lemma RefusedExactly(lines: seq<string>, toUpper: string -> string, readHeader: seq<string> -> (string, string))
    ensures var r, at := ParseLines(lines, toUpper, readHeader), HeaderAt(lines);
            && (r == Err(NotAlfa) <==> at < 0)
            && (at >= 0 ==> (r.Err? && r.error.MissingColumn? <==> Columns(lines[at]).Err?))
            && (at >= 0 && Columns(lines[at]).Ok? ==>
                  var run := Run(ReadAll(lines[at + 1..], Columns(lines[at]).value, toUpper));
                  && (r == Err(OutsideSection) <==> run.Err?)
                  && (r == Err(NoTurnovers) <==> run.Ok? && (run.value.debitTotal.None? || run.value.creditTotal.None?)))
  {
    hide Columns, HeaderAt, Run, Cents, SumOfRows, ReadAll;
    var at := HeaderAt(lines);
    if at >= 0 {
      ColumnErrors(lines[at]);
      if Columns(lines[at]).Ok? {
        RunErrors(ReadAll(lines[at + 1..], Columns(lines[at]).value, toUpper));
      }
    }
  }

  /** What is found in the file's head is kept as found. */
  lemma HeadKept(lines: seq<string>, toUpper: string -> string, readHeader: seq<string> -> (string, string))
    requires ParseLines(lines, toUpper, readHeader).Ok?
    ensures var parsed := ParseLines(lines, toUpper, readHeader).value; (parsed.account, parsed.currencyCode) == readHeader(lines)
  {
    hide HeaderAt, Columns, Run, CheckTurnovers;
  }

  /** Below the header, the last line that prints a readable total of a side. */
  ghost predicate LastPrinted(lines: seq<string>, at: nat, j: nat, column: nat, toUpper: string -> string, d: Direction)
  {
    && at < j < |lines| && PrintsReadable(lines[j], toUpper, d, column)
    && forall i :: j < i < |lines| ==> !PrintsReadable(lines[i], toUpper, d, column)
  }

  /** An accepted file, from its text: below its header there are printed totals of both sides, and the
      operations of each side carry what the last of them prints under the title of amounts. */
  lemma AcceptedFile(lines: seq<string>, toUpper: string -> string, readHeader: seq<string> -> (string, string), ctx: Context,
                     d: Direction, column: nat, j: nat)
    requires ParseLines(lines, toUpper, readHeader).Ok? && HeaderAt(lines) >= 0
    requires Titled(lines[HeaderAt(lines)], "Сумма операции", column) && LastPrinted(lines, HeaderAt(lines), j, column, toUpper, d)
    ensures var parsed, printed := ParseLines(lines, toUpper, readHeader).value, ParseBankAmount(Under(lines[j], column)).value;
            Normalize(parsed.rows, parsed, ctx).unreadable == 0 ==>
              var sum := SumOfItems(Normalize(parsed.rows, parsed, ctx).items, d);
              && Abs(sum - Round2(printed)) <= (|parsed.rows| + 1) as real * HALF_CENT
              && (AllWholeCents(parsed.rows) ==> sum == Round2(printed))
  {
    hide ParseLines, Columns, HeaderAt, Run, CheckTurnovers, Normalize, SumOfItems, WholeCents, Round2, Under, Titled, PrintsReadable,
         ParseBankAmount, Read, IsTotal;
    AcceptedParts(lines, toUpper, readHeader);
    var at := HeaderAt(lines);
    var body := lines[at + 1..];
    var read := ReadAll(body, Columns(lines[at]).value, toUpper);
    var parsed := ParseLines(lines, toUpper, readHeader).value;
    var k := j - at - 1;
    TotalsOfText(lines[at], body, toUpper, d, column);
    forall i | k < i < |read| ensures !IsTotal(read[i], d) {
      assert body[i] == lines[at + 1 + i];
    }
    assert body[k] == lines[j];
    assert LastTotal(read, k, |read|, d);
    if Normalize(parsed.rows, parsed, ctx).unreadable == 0 {
      TurnoverLinesConserved(read, k, parsed, ctx, d);
      TotalUnderTitle(lines[at], body[k], toUpper, d, column);
    }
  }

  lemma TotalsOfText(header: string, body: seq<string>, toUpper: string -> string, d: Direction, column: nat)
    requires Columns(header).Ok? && Titled(header, "Сумма операции", column)
    ensures var read := ReadAll(body, Columns(header).value, toUpper);
            forall i :: 0 <= i < |read| ==> (IsTotal(read[i], d) <==> PrintsReadable(body[i], toUpper, d, column))
  {
    hide Columns, Titled, PrintsReadable, Read, IsTotal;
    forall i | 0 <= i < |body|
      ensures IsTotal(ReadAll(body, Columns(header).value, toUpper)[i], d) <==> PrintsReadable(body[i], toUpper, d, column)
    {
      TotalUnderTitle(header, body[i], toUpper, d, column);
    }
  }

  /** And a file without such a line of either side is refused. */
  lemma NoTotalRefused(lines: seq<string>, toUpper: string -> string, readHeader: seq<string> -> (string, string), d: Direction, column: nat)
    requires HeaderAt(lines) >= 0 && Titled(lines[HeaderAt(lines)], "Сумма операции", column)
    requires forall j :: HeaderAt(lines) < j < |lines| ==> !PrintsReadable(lines[j], toUpper, d, column)
    ensures ParseLines(lines, toUpper, readHeader).Err?
  {
    hide ParseLines, CheckTurnovers, Columns, HeaderAt, Run, Titled, PrintsReadable, Read, IsTotal;
    var at := HeaderAt(lines);
    if ParseLines(lines, toUpper, readHeader).Ok? {
      AcceptedParts(lines, toUpper, readHeader);
      var body := lines[at + 1..];
      var read := ReadAll(body, Columns(lines[at]).value, toUpper);
      TotalsOfText(lines[at], body, toUpper, d, column);
      forall i | 0 <= i < |read| ensures !IsTotal(read[i], d) {
        assert body[i] == lines[at + 1 + i];
      }
      NoLines(read, d);
    }
  }

  lemma AcceptedParts(lines: seq<string>, toUpper: string -> string, readHeader: seq<string> -> (string, string))
    requires ParseLines(lines, toUpper, readHeader).Ok?
    ensures var at := HeaderAt(lines);
            && at >= 0 && Columns(lines[at]).Ok?
            && var run := Run(ReadAll(lines[at + 1..], Columns(lines[at]).value, toUpper));
               run.Ok? && CheckTurnovers(run.value).None? && ParseLines(lines, toUpper, readHeader).value.rows == run.value.rows
  {
    hide Columns, HeaderAt, Run, CheckTurnovers, ReadAll;
  }

  lemma NoLines(lines: seq<Line>, d: Direction)
    requires Run(lines).Ok? && forall i :: 0 <= i < |lines| ==> !IsTotal(lines[i], d)
    ensures CheckTurnovers(Run(lines).value) == Some(NoTurnovers)
  {
    hide Run, IsTotal;
    assert lines[..|lines|] == lines;
    TotalsExactly(lines, |lines|, d);
  }

  // ---- The check as it is computed

  /** The readable amounts of a direction in cents, in the order they are added up. */
  function CentsOfRows(rows: seq<Row>, d: Direction): seq<int>
  {
    if rows == [] then []
    else
      var row := rows[|rows| - 1];
      var a := ParseBankAmount(row.amount);
      CentsOfRows(rows[..|rows| - 1], d) + if row.direction == d && a.Amount? then [Cents(a.value)] else []
  }

  lemma CentsLast(rows: seq<Row>, d: Direction)
    requires rows != []
    ensures var row := rows[|rows| - 1];
            var a := ParseBankAmount(row.amount);
            CentsOfRows(rows, d) == CentsOfRows(rows[..|rows| - 1], d) + if row.direction == d && a.Amount? then [Cents(a.value)] else []
  {
    hide ParseBankAmount, Cents;
  }

  lemma {:induction false} CentsAddUp(rows: seq<Row>, d: Direction)
    requires AllWholeCents(rows)
    ensures SumOfRows(rows, d) == SumOf(CentsOfRows(rows, d)) as real / 100.0
  {
    hide ParseBankAmount, Cents, SumOfRows, CentsOfRows, SumOf;
    if rows == [] {
      NoCents(d);
    } else {
      var n := |rows| - 1;
      assert AllWholeCents(rows[..n]) && WholeCents(rows[n]);
      CentsAddUp(rows[..n], d);
      SumLast(rows, d);
      CentsLast(rows, d);
      var a := ParseBankAmount(rows[n].amount);
      if rows[n].direction == d && a.Amount? {
        SumOfMore(CentsOfRows(rows[..n], d), Cents(a.value));
      } else {
        assert CentsOfRows(rows[..n], d) + [] == CentsOfRows(rows[..n], d);
      }
    }
  }

  lemma SumOfMore(cents: seq<int>, c: int)
    ensures SumOf(cents + [c]) == SumOf(cents) + c
  {
    assert (cents + [c])[..|cents|] == cents;
  }

  lemma NoCents(d: Direction)
    ensures SumOfRows([], d) == 0.0 && SumOf(CentsOfRows([], d)) == 0
  {
  }

  /** A rounded sum in doubles: what is added, the partial sums, and the two steps of `round2`. */
  datatype Computed = Computed(amounts: seq<real>, sums: seq<real>, shifted: real, scaled: real)

  /** It is computed from these cents, few and small enough together. */
  ghost predicate Computes(c: Computed, cents: seq<int>)
  {
    && Accumulates(cents, c.amounts, c.sums) && Round2Computes(c.sums[|cents|], c.shifted, c.scaled)
    && |cents| <= 1000000000000000 && |cents| * Magnitude(cents) <= 1000000000000000
  }

  lemma ComputedTotal(rows: seq<Row>, d: Direction, c: Computed)
    requires AllWholeCents(rows) && Computes(c, CentsOfRows(rows, d))
    ensures RoundHalfUp(c.scaled) == Cents(SumOfRows(rows, d))
  {
    hide CentsOfRows, SumOfRows, SumOf, Magnitude, Cents, AllWholeCents, Accumulates, Round2Computes;
    var cents := CentsOfRows(rows, d);
    AccumulateThenRound(cents, c.amounts, c.sums, c.shifted, c.scaled);
    CentsAddUp(rows, d);
    CentsOfWhole(SumOf(cents));
  }

  lemma ComputedPrinted(total: real, c: Computed)
    requires total == Round2(total) && Computes(c, [Cents(total)])
    ensures RoundHalfUp(c.scaled) == Cents(total)
  {
    hide Cents, Accumulates, Round2Computes;
    AccumulateThenRound([Cents(total)], c.amounts, c.sums, c.shifted, c.scaled);
    assert [Cents(total)][..0] == [];
  }

  /** Computed in doubles, the check decides as it does over exact amounts: for whole-cent rows and printed
      totals, with rows times total magnitude at most 10^13 units of currency in each direction. */
  lemma DoublesDecideExactly(m: Machine, debit: Computed, credit: Computed, debitTotal: Computed, creditTotal: Computed)
    requires m.debitTotal.Some? && m.creditTotal.Some? && AllWholeCents(m.rows)
    requires m.debitTotal.value == Round2(m.debitTotal.value) && m.creditTotal.value == Round2(m.creditTotal.value)
    requires Computes(debit, CentsOfRows(m.rows, Debit)) && Computes(credit, CentsOfRows(m.rows, Credit))
    requires Computes(debitTotal, [Cents(m.debitTotal.value)]) && Computes(creditTotal, [Cents(m.creditTotal.value)])
    ensures CheckTurnovers(m) ==
            if RoundHalfUp(debit.scaled) != RoundHalfUp(debitTotal.scaled) || RoundHalfUp(credit.scaled) != RoundHalfUp(creditTotal.scaled)
            then Some(TurnoversDiffer) else None
  {
    hide CentsOfRows, SumOfRows, AllWholeCents, Computes, Cents, RoundHalfUp;
    ComputedTotal(m.rows, Debit, debit);
    ComputedTotal(m.rows, Credit, credit);
    ComputedPrinted(m.debitTotal.value, debitTotal);
    ComputedPrinted(m.creditTotal.value, creditTotal);
  }

  function Copies(row: Row, n: nat): (rows: seq<Row>)
    ensures |rows| == n
  {
    if n == 0 then [] else Copies(row, n - 1) + [row]
  }

  /** The sum of `n` equal amounts. */
  function Times(n: nat, x: real): real
  {
    if n == 0 then 0.0 else Times(n - 1, x) + x
  }

  lemma OneMoreRow(rows: seq<Row>, row: Row, parsed: Parsed, ctx: Context, d: Direction)
    requires Normalize(rows, parsed, ctx).unreadable == 0 && !Judge(row, parsed, ctx).Unreadable?
    ensures Normalize(rows + [row], parsed, ctx).unreadable == 0
    ensures SumOfRows(rows + [row], d) == SumOfRows(rows, d) + Contribution(row, d)
    ensures SumOfItems(Normalize(rows + [row], parsed, ctx).items, d) ==
            SumOfItems(Normalize(rows, parsed, ctx).items, d) + Emitted(Judge(row, parsed, ctx), d)
  {
    hide Judge, SumOfItems, SumOfRows, Emitted, Contribution;
    assert (rows + [row])[..|rows|] == rows;
    NormalizeNext(rows + [row], parsed, ctx, d);
    SumLast(rows + [row], d);
  }

  lemma {:induction false} CopiesSums(row: Row, n: nat, parsed: Parsed, ctx: Context)
    requires !Judge(row, parsed, ctx).Unreadable?
    ensures Normalize(Copies(row, n), parsed, ctx).unreadable == 0
    ensures SumOfRows(Copies(row, n), row.direction) == Times(n, Contribution(row, row.direction))
    ensures SumOfItems(Normalize(Copies(row, n), parsed, ctx).items, row.direction) == Times(n, Round2(Contribution(row, row.direction)))
  {
    hide Judge, SumOfItems, SumOfRows, Emitted, Round2, Contribution, WholeCents, HALF_CENT, Normalize;
    var d := row.direction;
    if n == 0 {
      EmptySums(parsed, ctx, d);
    } else {
      CopiesSums(row, n - 1, parsed, ctx);
      OneMoreRow(Copies(row, n - 1), row, parsed, ctx, d);
      RowConserves(row, parsed, ctx, d);
    }
  }

  /** Every number of copies of a row is emitted for what its turnover rounds to, or not, as its amount is
      of whole cents or not. */
  lemma CopiesConserved(row: Row, parsed: Parsed, ctx: Context)
    requires !Judge(row, parsed, ctx).Unreadable?
    ensures WholeCents(row) <==>
            forall n: nat :: SumOfItems(Normalize(Copies(row, n), parsed, ctx).items, row.direction) ==
                             Round2(SumOfRows(Copies(row, n), row.direction))
  {
    hide Judge, ParseBankAmount, SumOfItems, SumOfRows, Normalize, Round2, Contribution, WholeCents;
    var a := Contribution(row, row.direction);
    Readable(row, parsed, ctx);
    if WholeCents(row) {
      forall n: nat ensures SumOfItems(Normalize(Copies(row, n), parsed, ctx).items, row.direction) ==
                            Round2(SumOfRows(Copies(row, n), row.direction))
      {
        CopiesSums(row, n, parsed, ctx);
        WholeTimes(n, a);
      }
    } else {
      var n := EnoughCopies(a);
      CopiesSums(row, n, parsed, ctx);
    }
  }

  lemma Readable(row: Row, parsed: Parsed, ctx: Context)
    requires !Judge(row, parsed, ctx).Unreadable?
    ensures ParseBankAmount(row.amount) == Amount(Contribution(row, row.direction))
    ensures WholeCents(row) <==> Contribution(row, row.direction) == Round2(Contribution(row, row.direction))
  {
    hide ParseBankAmount, Round2;
  }

  lemma {:induction false} WholeTimes(n: nat, a: real)
    requires a == Round2(a)
    ensures Round2(Times(n, a)) == Times(n, a)
  {
    hide Round2;
    if n == 0 {
      CentsOfWhole(0);
    } else {
      WholeTimes(n - 1, a);
      WholeSum(Times(n - 1, a), a);
    }
  }

  lemma {:induction false} TimesIs(n: nat, a: real)
    ensures Times(n, a) == n as real * a
  {
    if n > 0 {
      TimesIs(n - 1, a);
    }
  }

  lemma {:induction false} TimesMoved(n: nat, a: real, b: real)
    ensures Times(n, b) - Times(n, a) == Times(n, b - a)
  {
    if n > 0 {
      TimesMoved(n - 1, a, b);
    }
  }

  lemma {:induction false} TimesAbs(n: nat, a: real)
    ensures Abs(Times(n, a)) == Times(n, Abs(a)) >= 0.0
    ensures a > 0.0 ==> Times(n, a) >= 0.0
    ensures a < 0.0 ==> Times(n, a) <= 0.0
  {
    if n > 0 {
      TimesAbs(n - 1, a);
    }
  }

  /** So many copies of a positive amount exceed a bound. */
  lemma TimesExceed(a: real, bound: real) returns (n: nat)
    requires a > 0.0 && bound >= 0.0
    ensures Times(n, a) > bound
  {
    n := (bound / a).Floor + 1;
    assert n as real > bound / a;
    TimesIs(n, a);
    assert n as real * a > bound / a * a;
  }

  /** Rounding one amount at a time moves further than rounding once, if there are enough of them. */
  lemma EnoughCopies(a: real) returns (n: nat)
    requires a != Round2(a)
    ensures Times(n, Round2(a)) != Round2(Times(n, a))
  {
    hide Round2, Times, HALF_CENT;
    var moved := Round2(a) - a;
    assert HALF_CENT >= 0.0 by { RoundingNear(0.0); }
    n := TimesExceed(Abs(moved), HALF_CENT);
    TimesMoved(n, a, Round2(a));
    TimesAbs(n, moved);
    RoundingNear(Times(n, a));
  }

  /** Two rows of half a cent: their sum is one cent, but each is emitted as one. */
  lemma HalfCentsInflate(parsed: Parsed, ctx: Context, row: Row)
    requires row.date != "" && row.amount == "0.005" && CurrencyOf(parsed, ctx) != ""
    ensures var n := Normalize([row, row], parsed, ctx);
            && n.unreadable == 0
            && SumOfItems(n.items, row.direction) == 0.02
            && Round2(SumOfRows([row, row], row.direction)) == 0.01
  {
    hide ParseBankAmount, CurrencyOf;
    HalfCentReads();
    var d, rows := row.direction, [row, row];
    assert rows[..1] == [row] && [row][..0] == [];
    var v := Judge(row, parsed, ctx);
    assert Cents(0.005) == 1 && Cents(0.01) == 1;
    assert SumOfRows([row], d) == 0.005 && SumOfRows(rows, d) == 0.01;
    SumOfItemsNext([], v.item, d);
    assert [] + [v.item] == [v.item];
    SumOfItemsNext([v.item], v.item, d);
    assert Normalize([row], parsed, ctx).items == [v.item];
  }

  lemma HalfCentReads()
    ensures ParseBankAmount("0.005") == Amount(0.005)
  {
    hide ParseBankAmount;
    assert DigitsOf("0") == "0" by { assert "0"[1..] == ""; }
    PrintedAmountReads("0", '.', "005");
    assert "0" + ['.'] + "005" == "0.005";
    SmallValues();
  }

  lemma SmallValues()
    ensures Value("0") == 0 && Value("005") == 5 && Fraction("005") == 0.005
  {
    assert "0"[..0] == "" && "00"[..1] == "0" && "005"[..2] == "00";
    assert Value("00") == 0;
    assert Pow10(3) == 10 * Pow10(2) && Pow10(2) == 10 * Pow10(1) && Pow10(1) == 10 * Pow10(0);
  }
}

/** From the rows of a client-bank export to operations (app/utils/clientBankStatement.ts). Reading a
    money text (`parseFloat`, made non-negative) is a parameter. */
module ClientBankStatement {
  import opened Outcome
  import opened Numerals
  import opened Text
  import opened Statement
  import opened ClientBankText

  /** A money text becomes a non-negative number, 0 when it is no number. */
  ghost predicate MoneyReader(money: string -> real)
  {
    forall s: string :: money(s) >= 0.0
  }

  function FieldOr(row: Fields, key: string): string
  {
    if key in row then row[key] else ""
  }

  /** The first non-empty value among the keys, trimmed. */
  function FirstOf(row: Fields, keys: seq<string>): string
  {
    if keys == [] then ""
    else
      var v := Trim(FieldOr(row, keys[0]));
      if v != "" then v else FirstOf(row, keys[1..])
  }

  predicate Alpha3(s: string)
  {
    |s| == 3 && forall k :: 0 <= k < 3 ==> 'A' <= s[k] <= 'Z'
  }

  function FromNumericCode(code: string): Option<string>
  {
    var key := Trim(code);
    if key in NUMERIC_CURRENCY then Some(NUMERIC_CURRENCY[key]) else None
  }

  predicate BelarusianAccount(account: string)
  {
    var acc := Trim(account);
    || (|acc| >= 2 && acc[0] in "Bb" && acc[1] in "Yy")
    || (|acc| == 13 && forall k :: 0 <= k < 13 ==> '0' <= acc[k] <= '9')
  }

  function DetectStatementCurrency(parsed: Parsed, ctxCurrency: string): string
  {
    var out := parsed.outParam;
    var i3, i1, code := FieldOr(out.unrouted, "I3"), FieldOr(out.header, "I1"), FieldOr(out.header, "CurrCode");
    if Alpha3(i3) then i3
    else if Alpha3(i1) then i1
    else if Alpha3(ctxCurrency) then ctxCurrency
    else if FromNumericCode(code).Some? then FromNumericCode(code).value
    else if FromNumericCode(i3).Some? then FromNumericCode(i3).value
    else if FromNumericCode(i1).Some? then FromNumericCode(i1).value
    else if BelarusianAccount(parsed.general.acc) then "BYN" else ""
  }

  /** Type 6 without any `I3` mark keeps the account currency in the plain fields. The first of the
      four places that is present decides, even when it is empty. */
  predicate PlainFieldHoldsAccountCurrency(parsed: Parsed)
  {
    var out, inp := parsed.outParam, parsed.inParam;
    var i3 := if "I3" in out.unrouted then out.unrouted["I3"]
              else if "I3" in out.header then out.header["I3"]
              else if "I3" in inp.unrouted then inp.unrouted["I3"]
              else FieldOr(inp.header, "I3");
    Trim(parsed.general.typ) == "6" && i3 == ""
  }

  function RowDocId(row: Fields): string
  {
    var explicit := FirstOf(row, ["DocID", "OperationID"]);
    var num, date := Trim(FieldOr(row, "Num")), Trim(FieldOr(row, "DocDate"));
    if explicit != "" then explicit
    else if num != "" || date != "" then num + "|" + date
    else ""
  }

  function RowCurrency(row: Fields, statementCurrency: string): string
  {
    var i2 := Trim(FieldOr(row, "I2"));
    if Alpha3(i2) then i2 else statementCurrency
  }

  const DEBIT_PLAIN := ["Db", "Deb", "DebQ"]
  const CREDIT_PLAIN := ["Cre", "Credit", "CreQ"]

  /** Where the amount stands: strictly in the `Q` field of a foreign statement, strictly in the plain
      fields when those hold the account currency, and in the plain fields first otherwise. */
  function AmountChain(direction: Direction, currency: string, plainIsAccount: bool): seq<string>
  {
    var takeQ := currency != "" && currency != "BYN" && !plainIsAccount;
    if direction == Debit then
      if takeQ then ["DebQ"] else if plainIsAccount then ["Db", "Deb"] else DEBIT_PLAIN
    else
      if takeQ then ["CreQ"] else if plainIsAccount then ["Cre", "Credit"] else CREDIT_PLAIN
  }

  function DigitsOnly(s: string): string
  {
    if s == "" then "" else (if Digit(s[0]) then [s[0]] else "") + DigitsOnly(s[1..])
  }

  predicate Letter(c: char)
  {
    'A' <= c <= 'Z' || 'a' <= c <= 'z'
  }

  /** Six letters, then two or five letters or digits. */
  predicate BicShaped(s: string)
  {
    && |s| in {8, 11} && (forall k :: 0 <= k < 6 ==> Letter(s[k]))
    && forall k :: 6 <= k < |s| ==> Letter(s[k]) || Digit(s[k])
  }

  function PartyOf(row: Fields): Party
  {
    var code := FirstOf(row, ["Cod", "Code"]);
    Party(Trim(FieldOr(row, "KorName")), DigitsOnly(if "KorUNP" in row then row["KorUNP"] else FieldOr(row, "UNNRec")),
          Trim(FieldOr(row, "Acc")), if BicShaped(code) then code else "")
  }

  // ---- Dates

  /** Two digits, a dot, two digits, a dot, four digits. */
  predicate DayShaped(s: string)
  {
    |s| == 10 && s[2] == s[5] == '.' && Digits(s[..2]) && Digits(s[3..5]) && Digits(s[6..])
  }

  predicate TimeShaped(s: string)
  {
    |s| == 8 && s[2] == s[5] == ':' && Digits(s[..2]) && Digits(s[3..5]) && Digits(s[6..])
  }

  function DayToIso(day: string): string
    requires |day| == 10
  {
    day[6..] + "-" + day[3..5] + "-" + day[..2]
  }

  /** A day, and after white space a time, become an ISO 8601 date; anything else becomes nothing. */
  function DateToIso(value: string): string
  {
    var raw := Trim(value);
    if |raw| < 10 || !DayShaped(raw[..10]) then ""
    else if |raw| == 10 then DayToIso(raw)
    else if |raw| >= 19 && TimeShaped(raw[|raw| - 8..]) && Blank(raw[10..|raw| - 8]) then DayToIso(raw[..10]) + "T" + raw[|raw| - 8..]
    else ""
  }

  /** A text of a day, alone or with white space and a time behind it, and what it becomes. */
  predicate Spells(raw: string, day: string, gap: string, time: string, iso: string)
  {
    && raw == day + gap + time && DayShaped(day)
    && if gap == "" then time == "" && iso == DayToIso(day) else Blank(gap) && TimeShaped(time) && iso == DayToIso(day) + "T" + time
  }

  /** A date is read from exactly such texts, padded or not. */
  lemma DateExactly(value: string, iso: string)
    requires iso != ""
    ensures DateToIso(value) == iso <==> exists day, gap, time :: Spells(Trim(value), day, gap, time, iso)
  {
    hide Trim, Digits, IsSpace;
    var raw := Trim(value);
    if DateToIso(value) == iso {
      if |raw| == 10 {
        assert raw == raw[..10] == raw + "" + "";
        assert Spells(raw, raw, "", "", iso);
      } else {
        assert raw == raw[..10] + raw[10..|raw| - 8] + raw[|raw| - 8..];
        assert Spells(raw, raw[..10], raw[10..|raw| - 8], raw[|raw| - 8..], iso);
      }
    }
    if day, gap, time :| Spells(raw, day, gap, time, iso) {
      assert raw[..10] == day;
      if gap == "" {
        assert raw == day;
      } else {
        assert raw[10..|raw| - 8] == gap && raw[|raw| - 8..] == time;
      }
    }
  }

  function OperDateOf(row: Fields): string
  {
    var accept, oper := DateToIso(FieldOr(row, "OpDate")), DateToIso(FieldOr(row, "DocDate"));
    if oper != (if |accept| > 10 then accept[..10] else accept) then oper else ""
  }

  /** The date of the document is given exactly when it names another day than the acceptance, or a time. */
  lemma OperDateExactly(row: Fields)
    ensures var accept, oper := DateToIso(FieldOr(row, "OpDate")), DateToIso(FieldOr(row, "DocDate"));
            && OperDateOf(row) in {"", oper}
            && (OperDateOf(row) != "" <==> oper != "" && (accept == "" || oper[..10] != accept[..10] || |oper| > 10))
  {
    hide Trim, Digits, Blank;
    var accept, oper := DateToIso(FieldOr(row, "OpDate")), DateToIso(FieldOr(row, "DocDate"));
    IsoLength(FieldOr(row, "OpDate"));
    IsoLength(FieldOr(row, "DocDate"));
    hide DateToIso;
    assert |oper| == 10 ==> oper[..10] == oper;
    assert |accept| == 10 ==> accept[..10] == accept;
  }

  lemma IsoLength(value: string)
    ensures |DateToIso(value)| in {0, 10, 19}
  {
    hide Trim, Digits, Blank;
  }

  function NormalizeRow(row: Fields, account: string, statementCurrency: string, plainIsAccount: bool,
                        money: string -> real): Item
  {
    var currency := RowCurrency(row, statementCurrency);
    var direction := if money(FirstOf(row, DEBIT_PLAIN)) > 0.0 then Debit else Credit;
    Item(account, RowDocId(row), Trim(FieldOr(row, "Num")), direction,
         money(FirstOf(row, AmountChain(direction, currency, plainIsAccount))), currency,
         Trim(FieldOr(row, "Nazn") + FieldOr(row, "Nazn2")), PartyOf(row), DateToIso(FieldOr(row, "OpDate")), OperDateOf(row),
         Trim(FieldOr(row, "Opr")))
  }

  datatype Settings = Settings(account: string, currency: string, plainIsAccount: bool)

  function SettingsOf(parsed: Parsed, ctx: Context): Settings
  {
    Settings(if ctx.account != "" then ctx.account else parsed.general.acc,
             DetectStatementCurrency(parsed, ctx.currency), PlainFieldHoldsAccountCurrency(parsed))
  }

  function ItemOf(row: Fields, s: Settings, money: string -> real): Item
  {
    NormalizeRow(row, s.account, s.currency, s.plainIsAccount, money)
  }

  /** The positions of what is kept. */
  function Positions<T>(rows: seq<T>, keep: T -> bool): (idx: seq<nat>)
    ensures forall k :: 0 <= k < |idx| ==> idx[k] < |rows|
  {
    if rows == [] then []
    else
      var n := |rows| - 1;
      Positions(rows[..n], keep) + if keep(rows[n]) then [n] else []
  }

  lemma {:induction false} PositionsExactly<T>(rows: seq<T>, keep: T -> bool)
    ensures var idx := Positions(rows, keep);
            && (forall j, k :: 0 <= j < k < |idx| ==> idx[j] < idx[k])
            && (forall i :: 0 <= i < |rows| ==> (i in idx <==> keep(rows[i])))
            && |idx| <= |rows|
  {
    if rows != [] {
      var n := |rows| - 1;
      PositionsExactly(rows[..n], keep);
      var before := Positions(rows[..n], keep);
      forall i | 0 <= i < |rows| ensures i in Positions(rows, keep) <==> keep(rows[i]) {
        assert n !in before;
        if i < n {
          assert rows[..n][i] == rows[i];
        }
      }
    }
  }

  function Moves(s: Settings, money: string -> real): Fields -> bool
  {
    row => ItemOf(row, s, money).amount != 0.0
  }

  /** The rows that moved money, by position. */
  function Payments(rows: seq<Fields>, s: Settings, money: string -> real): (idx: seq<nat>)
    ensures forall k :: 0 <= k < |idx| ==> idx[k] < |rows|
  {
    Positions(rows, Moves(s, money))
  }

  lemma PaymentsExactly(rows: seq<Fields>, s: Settings, money: string -> real)
    ensures var idx := Payments(rows, s, money);
            && (forall j, k :: 0 <= j < k < |idx| ==> idx[j] < idx[k])
            && (forall i :: 0 <= i < |rows| ==> (i in idx <==> ItemOf(rows[i], s, money).amount != 0.0))
            && |idx| <= |rows|
  {
    hide ItemOf;
    PositionsExactly(rows, Moves(s, money));
  }

  lemma NoItems(rows: seq<Fields>, s: Settings, money: string -> real)
    ensures ItemsOf([], rows, Payments(rows[..0], s, money), s, money)
  {
  }

  lemma PaymentsNext(rows: seq<Fields>, i: nat, s: Settings, money: string -> real)
    requires i < |rows|
    ensures Payments(rows[..i + 1], s, money) ==
            Payments(rows[..i], s, money) + if ItemOf(rows[i], s, money).amount == 0.0 then [] else [i]
  {
    hide ItemOf;
    assert rows[..i + 1][..i] == rows[..i];
  }

  /** These items are what becomes of the rows at these positions, each of positive amount. */
  ghost predicate ItemsOf(items: seq<Item>, rows: seq<Fields>, idx: seq<nat>, s: Settings, money: string -> real)
  {
    && |items| == |idx|
    && forall k :: 0 <= k < |idx| ==> idx[k] < |rows| && items[k] == ItemOf(rows[idx[k]], s, money) && items[k].amount > 0.0
  }

  lemma ItemsNext(items: seq<Item>, rows: seq<Fields>, i: nat, s: Settings, money: string -> real)
    requires MoneyReader(money) && i < |rows| && ItemsOf(items, rows, Payments(rows[..i], s, money), s, money)
    ensures var item := ItemOf(rows[i], s, money);
            ItemsOf(items + if item.amount == 0.0 then [] else [item], rows, Payments(rows[..i + 1], s, money), s, money)
  {
    hide ItemOf, Payments;
    PaymentsNext(rows, i, s, money);
    NonNegative(rows[i], s, money);
  }

  /** Every row becomes exactly one operation of positive amount, in file order, or one counted
      non-payment. */
  method NormalizeClientBankRows(parsed: Parsed, ctx: Context, money: string -> real) returns (r: Normalized)
    requires MoneyReader(money)
    ensures var rows, s := parsed.outParam.items, SettingsOf(parsed, ctx);
            && ItemsOf(r.items, rows, Payments(rows, s, money), s, money)
            && r.nonPayment == |rows| - |r.items| && r.unreadable == 0
  {
    hide SettingsOf, NormalizeRow, Payments, ItemsOf;
    var s := SettingsOf(parsed, ctx);
    var rows := parsed.outParam.items;
    var items: seq<Item> := [];
    var nonPayment := 0;
    NoItems(rows, s, money);
    for i := 0 to |rows|
      invariant ItemsOf(items, rows, Payments(rows[..i], s, money), s, money)
      invariant nonPayment == i - |items|
    {
      ItemsNext(items, rows, i, s, money);
      var item := NormalizeRow(rows[i], s.account, s.currency, s.plainIsAccount, money);
      if item.amount == 0.0 {
        nonPayment := nonPayment + 1;
        assert items + [] == items;
        continue;
      }
      items := items + [item];
    }
    assert rows[..|rows|] == rows;
    r := Normalized(items, nonPayment, 0);
  }

  lemma NonNegative(row: Fields, s: Settings, money: string -> real)
    requires MoneyReader(money)
    ensures ItemOf(row, s, money).amount >= 0.0
  {
  }

  lemma FirstOfOne(row: Fields, key: string)
    ensures FirstOf(row, [key]) == Trim(FieldOr(row, key))
  {
    hide Trim;
    assert [key][1..] == [];
  }

  lemma FirstOfTwo(row: Fields, x: string, y: string)
    ensures FirstOf(row, [x, y]) == if Trim(FieldOr(row, x)) != "" then Trim(FieldOr(row, x)) else Trim(FieldOr(row, y))
  {
    hide Trim;
    assert [x, y][1..] == [y];
    FirstOfOne(row, y);
  }

  lemma FirstOfThree(row: Fields, x: string, y: string, z: string)
    ensures FirstOf(row, [x, y, z]) == if FirstOf(row, [x, y]) != "" then FirstOf(row, [x, y]) else Trim(FieldOr(row, z))
  {
    hide Trim;
    assert [x, y, z][1..] == [y, z] && [y, z][1..] == [z];
    FirstOfTwo(row, x, y);
    FirstOfTwo(row, y, z);
  }

  /** A foreign statement never passes a national-currency figure off as its own: the amount is exactly
      the quantity field of the side the debit fields show, and the plain fields decide nothing else. */
  lemma ForeignAmountFromQ(row: Fields, s: Settings, money: string -> real)
    requires RowCurrency(row, s.currency) !in {"", "BYN"} && !s.plainIsAccount
    ensures var op, debit := ItemOf(row, s, money), money(FirstOf(row, DEBIT_PLAIN)) > 0.0;
            && op.direction == (if debit then Debit else Credit)
            && op.amount == money(Trim(FieldOr(row, if debit then "DebQ" else "CreQ")))
            && op.currency == RowCurrency(row, s.currency)
  {
    hide Trim, Alpha3;
    FirstOfOne(row, "DebQ");
    FirstOfOne(row, "CreQ");
  }

  /** Where the plain fields hold the account currency the amount is theirs. The quantity field of the
      debit side counts only while both plain debit fields are blank: it then makes the row a debit of
      nothing, whatever the credit fields hold. */
  lemma AccountAmountFromPlain(row: Fields, s: Settings, money: string -> real)
    requires s.plainIsAccount
    ensures var op, debit, credit := ItemOf(row, s, money), FirstOf(row, ["Db", "Deb"]), FirstOf(row, ["Cre", "Credit"]);
            && op.amount == money(if op.direction == Debit then debit else credit)
            && op.direction == (if money(if debit != "" then debit else Trim(FieldOr(row, "DebQ"))) > 0.0 then Debit else Credit)
            && op.currency == RowCurrency(row, s.currency)
  {
    hide Trim, Alpha3;
    FirstOfThree(row, "Db", "Deb", "DebQ");
  }

  /** A row with a positive plain credit is lost exactly when both plain debit fields are blank and its
      debit quantity is positive. */
  lemma CreditLostExactly(row: Fields, s: Settings, money: string -> real)
    requires MoneyReader(money) && s.plainIsAccount && money("") == 0.0 && money(FirstOf(row, ["Cre", "Credit"])) > 0.0
    ensures Payments([row], s, money) == [] <==> FirstOf(row, ["Db", "Deb"]) == "" && money(Trim(FieldOr(row, "DebQ"))) > 0.0
    ensures Payments([row], s, money) == [] <==> ItemOf(row, s, money).amount == 0.0
  {
    hide Trim, FirstOf, FieldOr, ItemOf, Payments, RowCurrency;
    AccountAmountFromPlain(row, s, money);
    OneRow(row, s, money);
    assert [0] != [];
    assert ItemOf(row, s, money).amount == 0.0 <==> FirstOf(row, ["Db", "Deb"]) == "" && money(Trim(FieldOr(row, "DebQ"))) > 0.0;
  }

  lemma OneRow(row: Fields, s: Settings, money: string -> real)
    ensures Payments([row], s, money) == if ItemOf(row, s, money).amount == 0.0 then [] else [0]
  {
    hide ItemOf;
    assert [row][..1] == [row];
    PaymentsNext([row], 0, s, money);
    NoItems([row], s, money);
  }

  /** A credit with a debit quantity beside it is taken for a debit of nothing, and counted as none. */
  lemma CreditLost(money: string -> real, s: Settings)
    requires s.plainIsAccount && money("") == 0.0 && money("5") == 5.0 && money("7") == 7.0
    ensures var row := map["Cre" := "5", "DebQ" := "7"];
            && ItemOf(row, s, money).direction == Debit && ItemOf(row, s, money).amount == 0.0
            && Payments([row], s, money) == []
  {
    hide Trim, FirstOf, Alpha3;
    var row := map["Cre" := "5", "DebQ" := "7"];
    AccountAmountFromPlain(row, s, money);
    FirstOfTwo(row, "Db", "Deb");
    TrimOfTrimmed("7");
    TrimOfTrimmed("");
    assert [row][..0] == [];
  }
}

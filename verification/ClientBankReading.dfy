/** From the lines of a client-bank export to the operations (app/utils/clientBankText.ts,
    app/utils/clientBankStatement.ts): which line gives which field, told without the tables the parser goes
    by. */
module ClientBankReading {
  import opened Outcome
  import opened Text
  import opened Numerals
  import opened Statement
  import opened ClientBankText
  import opened ClientBankStatement

  // ---- What a row holds

  /** A line writes the field of its own key; a document date also the operation date, a document time the
      operation time, and one spelling of the payer number the other. */
  predicate Writes(p: Pair, key: string)
  {
    p.key == key || (p.key, key) in {("DocDate", "OpDate"), ("DocTime", "OpTime"), ("UNNRec", "KorUNP")}
  }

  /** The value as given, but for the separators of a document date. */
  function Dotted(s: string): (t: string)
    ensures |t| == |s| && forall k :: 0 <= k < |s| ==> t[k] == if s[k] == '/' then '.' else s[k]
  {
    seq(|s|, k requires 0 <= k < |s| => if s[k] == '/' then '.' else s[k])
  }

  function Given(p: Pair): string
  {
    if p.key == "DocDate" then Dotted(p.value) else p.value
  }

  const ROW_KEYS := {
    "DocDate", "DocTime", "Num", "Opr", "PaymCode", "Code", "Cod", "Acc", "DebQ", "CreQ", "Deb", "Cre", "I2", "Amount", "Rate",
    "KorUNP", "UNNRec", "KorName", "Nazn", "Nazn2", "OpDate", "DocID", "OperationID", "Credit", "Db", "OutRate"}

  /** Of the lines of row `r`, from its document date to the next one, line `k` is the last that writes this
      field. */
  ghost predicate LastIn(pairs: seq<Pair>, n: nat, r: nat, key: string, k: nat)
    requires n <= |pairs|
  {
    && k < n && pairs[k].key in ROW_KEYS && Writes(pairs[k], key) && DocDates(pairs, k + 1) == r + 1
    && forall j :: k < j < n ==> !(pairs[j].key in ROW_KEYS && Writes(pairs[j], key) && DocDates(pairs, j + 1) == r + 1)
  }

  ghost predicate NoneIn(pairs: seq<Pair>, n: nat, r: nat, key: string)
    requires n <= |pairs|
  {
    forall j :: 0 <= j < n ==> !(pairs[j].key in ROW_KEYS && Writes(pairs[j], key) && DocDates(pairs, j + 1) == r + 1)
  }

  lemma {:induction false} ReplacedDots(s: string)
    ensures ReplaceChar(s, '/', ".") == Dotted(s)
  {
    if s != "" {
      ReplacedDots(s[1..]);
      assert Dotted(s) == [Dotted(s)[0]] + Dotted(s[1..]);
    }
  }

  lemma RowKeys(key: string)
    ensures BucketOf(key) == Items <==> key in ROW_KEYS
  {
  }

  lemma NamesWrites(p: Pair, key: string)
    requires p.key in ROW_KEYS
    ensures Names(p, key) <==> Writes(p, key)
    ensures StoredValue(p) == Given(p)
  {
    hide ReplaceChar;
    ReplacedDots(p.value);
  }

  lemma {:induction false} LastRowWriteMeans(pairs: seq<Pair>, n: nat, r: nat, key: string)
    requires n <= |pairs|
    ensures LastRowWrite(pairs, n, r, key) == None <==> NoneIn(pairs, n, r, key)
    ensures forall k :: 0 <= k < n && LastIn(pairs, n, r, key, k) ==> LastRowWrite(pairs, n, r, key) == Some(Given(pairs[k]))
  {
    hide BucketOf, Names, StoredValue, Writes, DocDates, Given;
    if n > 0 {
      var p := pairs[n - 1];
      LastRowWriteMeans(pairs, n - 1, r, key);
      RowKeys(p.key);
      if p.key in ROW_KEYS {
        NamesWrites(p, key);
      }
      forall k | 0 <= k < n && LastIn(pairs, n, r, key, k) ensures LastRowWrite(pairs, n, r, key) == Some(Given(pairs[k])) {
        if k < n - 1 {
          assert LastIn(pairs, n - 1, r, key, k);
        }
      }
    }
  }

  /** Each row holds, under each key, what the last of its own lines wrote there, and nothing under the
      others. */
  lemma RowSays(pairs: seq<Pair>, r: nat, key: string)
    requires r < DocDates(pairs, |pairs|)
    ensures var items := StoreAll(pairs).section.items;
            && |items| == DocDates(pairs, |pairs|)
            && (forall k :: 0 <= k < |pairs| && LastIn(pairs, |pairs|, r, key, k) ==> key in items[r] && items[r][key] == Given(pairs[k]))
            && (NoneIn(pairs, |pairs|, r, key) ==> key !in items[r])
  {
    hide StoreAll, DocDates, LastIn, NoneIn, Given, LastRowWrite;
    assert pairs[..|pairs|] == pairs;
    RowsClosure(pairs, |pairs|, r, key);
    LastRowWriteMeans(pairs, |pairs|, r, key);
  }

  // ---- What header, footer and the rest hold

  const HEAD_KEYS := {
    "Time", "Header1", "Header2", "Header3", "Header4", "Header5", "DateBegin", "DateEnd", "DateIn", "RestIn", "CrIn", "CrInQ",
    "RestInQ", "InCre", "InCreQ", "AcPa", "AcPa1", "I1", "I1str", "UNN", "CurrCode"}
  const FOOT_KEYS := {
    "DB", "CR", "RestOut", "DebVQ", "CreVQ", "DebV", "CreV", "RestOutQ", "CrOut", "OutCre", "DebOut"}

  /** A line of the header writes the field of its own key, and two spellings of the opening balance that one as
      well; the footer does the same with the closing balance; any other line, its own key. */
  predicate WritesHead(p: Pair, key: string)
  {
    p.key in HEAD_KEYS && (p.key == key || (p.key in {"CrIn", "InCre"} && key == "RestIn"))
  }

  predicate WritesFoot(p: Pair, key: string)
  {
    p.key in FOOT_KEYS && (p.key == key || (p.key in {"CrOut", "OutCre"} && key == "RestOut"))
  }

  predicate WritesRest(p: Pair, key: string)
  {
    p.key !in HEAD_KEYS + FOOT_KEYS + ROW_KEYS && p.key != "__proto__" && p.key == key
  }

  predicate WritesIn(bucket: Bucket, p: Pair, key: string)
  {
    match bucket
    case Header => WritesHead(p, key)
    case Footer => WritesFoot(p, key)
    case Items => p.key in ROW_KEYS && Writes(p, key)
    case Unrouted => WritesRest(p, key)
  }

  lemma HeadKeys(key: string)
    ensures BucketOf(key) == Header <==> key in HEAD_KEYS
    ensures BucketOf(key) == Footer <==> key in FOOT_KEYS
  {
  }

  lemma HeadNames(p: Pair, key: string, bucket: Bucket)
    requires bucket != Items
    ensures BucketOf(p.key) == bucket && Names(p, key) && p.key != "__proto__" <==> WritesIn(bucket, p, key)
    ensures WritesIn(bucket, p, key) ==> StoredValue(p) == p.value
  {
    hide HEADER_KEYS, FOOTER_KEYS, ITEM_KEYS, HEAD_KEYS, FOOT_KEYS, ROW_KEYS, BucketOf, ReplaceChar;
    HeadKeys(p.key);
    RowKeys(p.key);
    AliasKeys();
    NoProto();
  }

  lemma AliasKeys()
    ensures "CrIn" in HEAD_KEYS && "InCre" in HEAD_KEYS && "CrOut" in FOOT_KEYS && "OutCre" in FOOT_KEYS
    ensures "DocDate" in ROW_KEYS && "DocTime" in ROW_KEYS && "UNNRec" in ROW_KEYS
    ensures "DocDate" !in HEAD_KEYS + FOOT_KEYS && "DocTime" !in HEAD_KEYS + FOOT_KEYS && "UNNRec" !in HEAD_KEYS + FOOT_KEYS
    ensures "CrIn" !in FOOT_KEYS && "InCre" !in FOOT_KEYS && "CrOut" !in HEAD_KEYS && "OutCre" !in HEAD_KEYS
  {
  }

  lemma NoProto()
    ensures "__proto__" !in HEAD_KEYS + FOOT_KEYS + ROW_KEYS
  {
  }

  lemma {:induction false} LastWriteMeans(pairs: seq<Pair>, n: nat, bucket: Bucket, key: string)
    requires n <= |pairs| && bucket != Items
    ensures LastWrite(pairs, n, bucket, key) == None <==> forall j :: 0 <= j < n ==> !WritesIn(bucket, pairs[j], key)
    ensures forall k :: 0 <= k < n && WritesIn(bucket, pairs[k], key) && (forall j :: k < j < n ==> !WritesIn(bucket, pairs[j], key)) ==>
              LastWrite(pairs, n, bucket, key) == Some(pairs[k].value)
  {
    hide BucketOf, Names, StoredValue, WritesIn;
    if n > 0 {
      LastWriteMeans(pairs, n - 1, bucket, key);
      HeadNames(pairs[n - 1], key, bucket);
    }
  }

  ghost predicate FieldSays(fields: Fields, pairs: seq<Pair>, bucket: Bucket, key: string)
  {
    && (key in fields <==> exists k :: 0 <= k < |pairs| && WritesIn(bucket, pairs[k], key))
    && forall k :: 0 <= k < |pairs| && WritesIn(bucket, pairs[k], key) && (forall j :: k < j < |pairs| ==> !WritesIn(bucket, pairs[j], key)) ==>
         key in fields && fields[key] == pairs[k].value
  }

  /** Header, footer and the rest hold what the last line that writes there gave. */
  lemma FieldsSay(pairs: seq<Pair>, key: string)
    ensures var s := StoreAll(pairs).section;
            FieldSays(s.header, pairs, Header, key) && FieldSays(s.footer, pairs, Footer, key) && FieldSays(s.unrouted, pairs, Unrouted, key)
  {
    hide StoreAll, WritesIn, LastWrite;
    assert pairs[..|pairs|] == pairs;
    FieldsClosure(pairs, |pairs|, key);
    LastWriteMeans(pairs, |pairs|, Header, key);
    LastWriteMeans(pairs, |pairs|, Footer, key);
    LastWriteMeans(pairs, |pairs|, Unrouted, key);
  }

  // ---- Shapes

  predicate AllDigit(s: string)
  {
    forall k :: 0 <= k < |s| ==> '0' <= s[k] <= '9'
  }

  /** Two digits, two digits and some more, with a mark between. */
  predicate ThreeParts(s: string, a: string, b: string, c: string, mark: string, last: nat)
  {
    |a| == 2 && |b| == 2 && |c| == last && AllDigit(a) && AllDigit(b) && AllDigit(c) && s == a + mark + b + mark + c
  }

  /** A day and a time are written with their own marks and no other. */
  lemma ShapesExactly(s: string)
    ensures DayShaped(s) <==> exists a, b, c :: ThreeParts(s, a, b, c, ".", 4)
    ensures TimeShaped(s) <==> exists a, b, c :: ThreeParts(s, a, b, c, ":", 2)
  {
    if DayShaped(s) {
      assert s == s[..2] + "." + s[3..5] + "." + s[6..];
      assert ThreeParts(s, s[..2], s[3..5], s[6..], ".", 4);
    }
    if TimeShaped(s) {
      assert s == s[..2] + ":" + s[3..5] + ":" + s[6..];
      assert ThreeParts(s, s[..2], s[3..5], s[6..], ":", 2);
    }
    if a, b, c :| ThreeParts(s, a, b, c, ".", 4) {
      assert s[..2] == a && s[3..5] == b && s[6..] == c;
    }
    if a, b, c :| ThreeParts(s, a, b, c, ":", 2) {
      assert s[..2] == a && s[3..5] == b && s[6..] == c;
    }
  }

  /** The day comes first in what is read, the year last; it is turned round. */
  lemma DayTurned(s: string, a: string, b: string, c: string)
    requires ThreeParts(s, a, b, c, ".", 4)
    ensures DayToIso(s) == c + "-" + b + "-" + a
  {
    assert s[..2] == a && s[3..5] == b && s[6..] == c;
  }

  predicate LatinLetter(c: char)
  {
    'A' <= c <= 'Z' || 'a' <= c <= 'z'
  }

  /** A bank's code is six letters and then two or five letters or digits. */
  predicate CodeParts(s: string, front: string, back: string)
  {
    && |front| == 6 && |back| in {2, 5} && s == front + back
    && (forall k :: 0 <= k < |front| ==> LatinLetter(front[k]))
    && forall k :: 0 <= k < |back| ==> LatinLetter(back[k]) || '0' <= back[k] <= '9'
  }

  lemma BankCodeExactly(s: string)
    ensures BicShaped(s) <==> exists front, back :: CodeParts(s, front, back)
  {
    if BicShaped(s) {
      assert s == s[..6] + s[6..];
      assert CodeParts(s, s[..6], s[6..]);
    }
    if front, back :| CodeParts(s, front, back) {
      forall k | 6 <= k < |s| ensures Letter(s[k]) || Digit(s[k]) {
        assert s[k] == back[k - 6];
      }
    }
  }

  // ---- What an operation takes from its row

  function At(row: Fields, key: string): string
  {
    if key in row then row[key] else ""
  }

  /** Each descriptive field comes from its own key. */
  lemma OperationSays(row: Fields, s: Settings, money: string -> real)
    ensures var item := ItemOf(row, s, money);
            && item.account == s.account && item.docNum == Trim(At(row, "Num")) && item.operCodeName == Trim(At(row, "Opr"))
            && item.purpose == Trim(At(row, "Nazn") + At(row, "Nazn2"))
            && item.counterparty.name == Trim(At(row, "KorName")) && item.counterparty.account == Trim(At(row, "Acc"))
            && item.counterparty.unp == DigitsOnly(if "KorUNP" in row then At(row, "KorUNP") else At(row, "UNNRec"))
            && item.acceptDate == DateToIso(At(row, "OpDate"))
            && item.operDate in {"", DateToIso(At(row, "DocDate"))}
  {
    hide Trim, FirstOf, DateToIso, DigitsOnly, RowDocId, RowCurrency, AmountChain, BicShaped;
  }

  /** The bank's code is the first of two keys that is not blank, if it looks like one; the id is the first
      of two, and where there is none, number and date with a bar between. */
  lemma IdsSay(row: Fields, s: Settings, money: string -> real)
    ensures var item, cod, code := ItemOf(row, s, money), Trim(At(row, "Cod")), Trim(At(row, "Code"));
            var bic := if cod != "" then cod else code;
            item.counterparty.bic == if BicShaped(bic) then bic else ""
    ensures var item, a, b := ItemOf(row, s, money), Trim(At(row, "DocID")), Trim(At(row, "OperationID"));
            var num, date := Trim(At(row, "Num")), Trim(At(row, "DocDate"));
            && (a != "" ==> item.docId == a) && (a == "" && b != "" ==> item.docId == b)
            && (a == b == "" ==> item.docId == if num == date == "" then "" else num + "|" + date)
  {
    hide Trim, DateToIso, DigitsOnly, RowCurrency, AmountChain, BicShaped;
    FirstOfTwo(row, "Cod", "Code");
    FirstOfTwo(row, "DocID", "OperationID");
  }

  lemma {:induction false} DigitsAppend(a: string, b: string)
    ensures DigitsOnly(a + b) == DigitsOnly(a) + DigitsOnly(b)
  {
    hide Digit, DigitsOnly;
    if a == "" {
      assert a + b == b;
      NoDigits();
    } else {
      assert (a + b)[1..] == a[1..] + b && (a + b)[0] == a[0];
      DigitsFirst(a + b);
      DigitsFirst(a);
      DigitsAppend(a[1..], b);
    }
  }

  lemma DigitsFirst(s: string)
    requires s != ""
    ensures DigitsOnly(s) == (if Digit(s[0]) then [s[0]] else "") + DigitsOnly(s[1..])
  {
    hide Digit;
  }

  lemma NoDigits()
    ensures DigitsOnly("") == ""
  {
  }

  lemma OneDigit(c: char)
    ensures DigitsOnly([c]) == if '0' <= c <= '9' then [c] else ""
  {
    assert [c][1..] == "";
  }

  /** Of a payer number the digits stay, each where it is, and all else goes. */
  lemma DigitsKept(a: string, c: char, b: string)
    ensures DigitsOnly(a + [c] + b) == DigitsOnly(a) + (if '0' <= c <= '9' then [c] else "") + DigitsOnly(b)
  {
    hide DigitsOnly;
    DigitsAppend(a + [c], b);
    DigitsAppend(a, [c]);
    OneDigit(c);
  }

  // ---- The currency

  predicate Upper3(s: string)
  {
    |s| == 3 && 'A' <= s[0] <= 'Z' && 'A' <= s[1] <= 'Z' && 'A' <= s[2] <= 'Z'
  }

  /** What each place says the currency is, in order of precedence; one that says nothing is blank. */
  function Marks(parsed: Parsed, ctxCurrency: string): seq<string>
  {
    var i3, i1, code := At(parsed.outParam.unrouted, "I3"), At(parsed.outParam.header, "I1"), At(parsed.outParam.header, "CurrCode");
    [if Upper3(i3) then i3 else "", if Upper3(i1) then i1 else "", if Upper3(ctxCurrency) then ctxCurrency else "",
     Coded(Trim(code)), Coded(Trim(i3)), Coded(Trim(i1)), if BelarusianAccount(parsed.general.acc) then "BYN" else ""]
  }

  lemma CodedMeans(code: string)
    ensures FromNumericCode(code) == if Coded(Trim(code)) == "" then None else Some(Coded(Trim(code)))
  {
    hide Trim, Coded, NUMERIC_CURRENCY;
    CodedExactly(Trim(code));
  }

  /** The currency is what the first place says that says anything. */
  lemma CurrencyExactly(parsed: Parsed, ctxCurrency: string, k: nat)
    requires k < 7 && forall j :: 0 <= j < k ==> Marks(parsed, ctxCurrency)[j] == ""
    ensures Marks(parsed, ctxCurrency)[k] != "" ==> DetectStatementCurrency(parsed, ctxCurrency) == Marks(parsed, ctxCurrency)[k]
    ensures k == 6 && Marks(parsed, ctxCurrency)[k] == "" ==> DetectStatementCurrency(parsed, ctxCurrency) == ""
  {
    hide Trim, BelarusianAccount, Coded, FromNumericCode;
    CodedMeans(At(parsed.outParam.header, "CurrCode"));
    CodedMeans(At(parsed.outParam.unrouted, "I3"));
    CodedMeans(At(parsed.outParam.header, "I1"));
    var marks := Marks(parsed, ctxCurrency);
    assert |marks| == 7;
    assert forall j :: 0 <= j < k ==> marks[j] == "";
    assert k > 0 ==> marks[0] == "";
    assert k > 1 ==> marks[1] == "";
    assert k > 2 ==> marks[2] == "";
    assert k > 3 ==> marks[3] == "";
    assert k > 4 ==> marks[4] == "";
    assert k > 5 ==> marks[5] == "";
  }

  /** A row's own mark goes before the statement's. */
  lemma RowCurrencyExactly(row: Fields, statementCurrency: string)
    ensures RowCurrency(row, statementCurrency) == if Upper3(Trim(At(row, "I2"))) then Trim(At(row, "I2")) else statementCurrency
  {
    hide Trim;
  }

  /** An account is Belarusian by the two letters in front, in either case, or by thirteen digits. */
  lemma BelarusianExactly(account: string)
    requires Trimmed(account)
    ensures BelarusianAccount(account) <==>
            (|account| >= 2 && account[..2] in {"BY", "By", "bY", "by"}) || (|account| == 13 && DigitsOnly(account) == account)
  {
    hide IsSpace, Trim, DigitsOnly;
    TrimOfTrimmed(account);
    if |account| >= 2 {
      TwoLetters(account[0], account[1]);
      assert account[..2] == [account[0], account[1]];
    }
    AllDigits(account);
  }

  lemma TwoLetters(c: char, d: char)
    ensures [c, d] in {"BY", "By", "bY", "by"} <==> c in "Bb" && d in "Yy"
  {
    assert [c, d][0] == c && [c, d][1] == d;
    assert c in "Bb" && d in "Yy" ==> [c, d] == "BY" || [c, d] == "By" || [c, d] == "bY" || [c, d] == "by";
  }

  lemma {:induction false} AllDigits(s: string)
    ensures DigitsOnly(s) == s <==> forall k :: 0 <= k < |s| ==> '0' <= s[k] <= '9'
    ensures |DigitsOnly(s)| <= |s|
  {
    if s != "" {
      AllDigits(s[1..]);
      assert s == [s[0]] + s[1..];
      if DigitsOnly(s) == s {
        assert DigitsOnly(s) == [s[0]] + DigitsOnly(s[1..]);
        assert DigitsOnly(s)[1..] == DigitsOnly(s[1..]);
      }
    }
  }

  /** The plain fields hold the account's currency exactly for type 6 where the first of four places that is
      there for the mark is blank, or none is. */
  lemma PlainFieldsExactly(parsed: Parsed)
    ensures var places := [Lookup(parsed.outParam.unrouted, "I3"), Lookup(parsed.outParam.header, "I3"),
                           Lookup(parsed.inParam.unrouted, "I3"), Lookup(parsed.inParam.header, "I3")];
            PlainFieldHoldsAccountCurrency(parsed) <==>
            && Trim(parsed.general.typ) == "6"
            && forall k :: 0 <= k < 4 && places[k].Some? && (forall j :: 0 <= j < k ==> places[j].None?) ==> places[k].value == ""
  {
    hide Trim;
    var places := [Lookup(parsed.outParam.unrouted, "I3"), Lookup(parsed.outParam.header, "I3"),
                   Lookup(parsed.inParam.unrouted, "I3"), Lookup(parsed.inParam.header, "I3")];
    assert |places| == 4;
    if PlainFieldHoldsAccountCurrency(parsed) {
      forall k | 0 <= k < 4 && places[k].Some? && (forall j :: 0 <= j < k ==> places[j].None?) ensures places[k].value == "" {
        assert k > 0 ==> places[0].None?;
        assert k > 1 ==> places[1].None?;
        assert k > 2 ==> places[2].None?;
      }
    }
    if forall k :: 0 <= k < 4 && places[k].Some? && (forall j :: 0 <= j < k ==> places[j].None?) ==> places[k].value == "" {
      assert places[0].Some? ==> places[0].value == "";
      assert places[0].None? && places[1].Some? ==> places[1].value == "";
      assert places[0].None? && places[1].None? && places[2].Some? ==> places[2].value == "";
      assert places[0].None? && places[1].None? && places[2].None? && places[3].Some? ==> places[3].value == "";
    }
  }

  /** The account is the caller's if given, else the file's. */
  lemma SettingsSay(parsed: Parsed, ctx: Context)
    ensures var s := SettingsOf(parsed, ctx);
            && (ctx.account != "" ==> s.account == ctx.account) && (ctx.account == "" ==> s.account == parsed.general.acc)
            && s.currency == DetectStatementCurrency(parsed, ctx.currency)
            && (s.plainIsAccount <==> PlainFieldHoldsAccountCurrency(parsed))
  {
    hide DetectStatementCurrency, PlainFieldHoldsAccountCurrency;
  }

  /** In a national statement the amount stands in the first of the three fields of its side that is not
      blank, and the side is debit exactly when the three debit fields give more than nothing. */
  lemma NationalAmount(row: Fields, s: Settings, money: string -> real)
    requires RowCurrency(row, s.currency) in {"", "BYN"} && !s.plainIsAccount
    ensures var item := ItemOf(row, s, money);
            var debit, credit := FirstGiven(row, "Db", "Deb", "DebQ"), FirstGiven(row, "Cre", "Credit", "CreQ");
            && item.direction == (if money(debit) > 0.0 then Debit else Credit)
            && item.amount == money(if money(debit) > 0.0 then debit else credit)
            && item.currency == RowCurrency(row, s.currency)
  {
    hide Trim, RowCurrency, PartyOf, DateToIso, RowDocId, OperDateOf;
    FirstOfThreeKeys(row, "Db", "Deb", "DebQ");
    FirstOfThreeKeys(row, "Cre", "Credit", "CreQ");
  }

  function FirstGiven(row: Fields, x: string, y: string, z: string): string
  {
    if Trim(At(row, x)) != "" then Trim(At(row, x)) else if Trim(At(row, y)) != "" then Trim(At(row, y)) else Trim(At(row, z))
  }

  lemma FirstOfThreeKeys(row: Fields, x: string, y: string, z: string)
    ensures FirstOf(row, [x, y, z]) == FirstGiven(row, x, y, z)
  {
    hide Trim;
    FirstOfTwo(row, x, y);
    FirstOfThree(row, x, y, z);
  }
}

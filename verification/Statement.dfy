/** The operation every statement format is normalized to (app/types/statement.ts). An absent optional
    text is the empty string. */
module Statement {
  datatype Direction = Debit | Credit

  datatype Party = Party(name: string, unp: string, account: string, bic: string)

  datatype Item = Item(account: string, docId: string, docNum: string, direction: Direction, amount: real,
                       currency: string, purpose: string, counterparty: Party, acceptDate: string,
                       operDate: string, operCodeName: string)

  /** What a normalizer needs beyond the parsed file. */
  datatype Context = Context(account: string, currency: string)

  datatype Normalized = Normalized(items: seq<Item>, nonPayment: nat, unreadable: nat)

  const NOTHING := Normalized([], 0, 0)

  /** What becomes of one row. */
  datatype Verdict = Emit(item: Item) | NonPayment | Unreadable

  function Add(n: Normalized, v: Verdict): Normalized
  {
    match v
    case Emit(item) => n.(items := n.items + [item])
    case NonPayment => n.(nonPayment := n.nonPayment + 1)
    case Unreadable => n.(unreadable := n.unreadable + 1)
  }

  /** Money by direction. */
  function SumOfItems(items: seq<Item>, d: Direction): real
  {
    if items == [] then 0.0
    else
      var item := items[|items| - 1];
      SumOfItems(items[..|items| - 1], d) + if item.direction == d then item.amount else 0.0
  }

  lemma SumOfItemsNext(items: seq<Item>, item: Item, d: Direction)
    ensures SumOfItems(items + [item], d) == SumOfItems(items, d) + if item.direction == d then item.amount else 0.0
  {
    assert (items + [item])[..|items|] == items;
  }

  /** ISO 4217 numeric codes, as app/utils/clientBankStatement.ts lists them. */
  const NUMERIC_CURRENCY := map[
    "933" := "BYN", "840" := "USD", "978" := "EUR", "643" := "RUB", "156" := "CNY", "985" := "PLN",
    "826" := "GBP", "980" := "UAH", "398" := "KZT", "756" := "CHF", "392" := "JPY"]

  /** The currency of a numeric code; blank for any other text. */
  function Coded(code: string): string
  {
    if code == "933" then "BYN" else if code == "840" then "USD" else if code == "978" then "EUR" else if code == "643" then "RUB"
    else if code == "156" then "CNY" else if code == "985" then "PLN" else if code == "826" then "GBP" else if code == "980" then "UAH"
    else if code == "398" then "KZT" else if code == "756" then "CHF" else if code == "392" then "JPY" else ""
  }

  lemma CodedExactly(code: string)
    ensures code in NUMERIC_CURRENCY <==> Coded(code) != ""
    ensures code in NUMERIC_CURRENCY ==> NUMERIC_CURRENCY[code] == Coded(code)
  {
  }

  /** Each verdict goes to its own place, behind what is there. */
  lemma AddExactly(n: Normalized, v: Verdict)
    ensures var m := Add(n, v);
            && (v.Emit? ==> m == Normalized(n.items + [v.item], n.nonPayment, n.unreadable))
            && (v.NonPayment? ==> m == Normalized(n.items, n.nonPayment + 1, n.unreadable))
            && (v.Unreadable? ==> m == Normalized(n.items, n.nonPayment, n.unreadable + 1))
  {
  }
}

/**
 * app/transactions/page.tsx: the activity list of one account. The page
 * fetches the account's transactions, normalises every entry, shows each
 * with the parts of its date labels, and totals inflow and outflow.
 */
module TransactionsPage {
  import opened Text
  import opened Js
  import Lists

  /** This page's `asStr`: a string as it is (not trimmed), "" for anything else. */
  function AsText(v: Value): (r: string)
    ensures v.Str? ==> r == v.s
    ensures !v.Str? ==> r == ""
  {
    if v.Str? then v.s else ""
  }

  /** This page's `asNum`: a number as it is, else `Number(v)`, 0 when that is not finite. */
  function AsNum(lib: Lib, v: Value): (r: real)
    ensures v.Num? ==> r == v.n
    ensures !v.Num? && ToNumber(lib, v).Finite? ==> r == ToNumber(lib, v).r
    ensures !v.Num? && !ToNumber(lib, v).Finite? ==> r == 0.0
  {
    if v.Num? then v.n
    else
      var n := ToNumber(lib, v);
      if n.Finite? then n.r else 0.0
  }

  // ----- comma parts of the date labels -----

  /** `s.split(",").map(x => x.trim()).filter(Boolean)` */
  function CommaParts(s: string): (parts: seq<string>)
    ensures forall i :: 0 <= i < |parts| ==> parts[i] != "" && IsTrimmed(parts[i])
  {
    var trimmed := Lists.Map(Trim, Split(s, ','));
    assert forall p :: p in trimmed ==> IsTrimmed(p);
    NonEmpty(trimmed)
  }

  /** `lastCommaPart`: the last non-blank comma-separated piece, trimmed; the text itself when there is none. */
  function LastCommaPart(s: string): string
  {
    var parts := CommaParts(s);
    if |parts| > 0 then parts[|parts| - 1] else s
  }

  /** `firstCommaPart`: the first non-blank comma-separated piece, trimmed; the text itself when there is none. */
  function FirstCommaPart(s: string): string
  {
    var parts := CommaParts(s);
    if |parts| > 0 then parts[0] else s
  }

  /** Text made only of commas and white space is shown as it is. */
  lemma BlankPartsKeepText(s: string)
    requires forall i :: 0 <= i < |s| ==> s[i] == ',' || IsSpace(s[i])
    ensures LastCommaPart(s) == s && FirstCommaPart(s) == s
  {
    var split := Split(s, ',');
    forall p | p in split
      ensures Trim(p) == ""
    {
      JoinSplitMember(s, p);
    }
    var trimmed := Lists.Map(Trim, split);
    assert forall p :: p in trimmed ==> p == "";
    NoNonEmpty(trimmed);
  }

  /** Splitting text of commas and white space gives only blank parts. */
  lemma {:induction false} JoinSplitMember(s: string, p: string)
    requires forall i :: 0 <= i < |s| ==> s[i] == ',' || IsSpace(s[i])
    requires p in Split(s, ',')
    ensures IsBlank(p)
  {
    if s != [] {
      var rest := Split(s[1..], ',');
      assert forall i :: 0 <= i < |s[1..]| ==> s[1..][i] == s[i + 1];
      if s[0] == ',' {
        assert Split(s, ',') == [""] + rest;
        if p != "" {
          assert p in rest;
          JoinSplitMember(s[1..], p);
        }
      } else if p == [s[0]] + rest[0] {
        JoinSplitMember(s[1..], rest[0]);
        assert forall i :: 0 < i < |p| ==> p[i] == rest[0][i - 1];
      } else {
        assert Split(s, ',') == [[s[0]] + rest[0]] + rest[1..];
        assert p in rest[1..];
        assert p in rest;
        JoinSplitMember(s[1..], p);
      }
    }
  }

  lemma {:induction false} NoNonEmpty(parts: seq<string>)
    requires forall p :: p in parts ==> p == ""
    ensures NonEmpty(parts) == []
  {
    if parts != [] {
      assert parts[0] in parts;
      assert forall p :: p in parts[1..] ==> p in parts;
      NoNonEmpty(parts[1..]);
    }
  }

  /** The piece after the last comma is the last part, trimmed: "Mon, 1 Jan, 10:00" gives "10:00". */
  lemma LastPartAfterLastComma(a: string, b: string)
    requires ',' !in b && !IsBlank(b)
    ensures LastCommaPart(a + "," + b) == Trim(b)
  {
    SplitLast(a, b, ',');
    var split := Split(a, ',');
    var trimmed := Lists.Map(Trim, split + [b]);
    assert trimmed == Lists.Map(Trim, split) + [Trim(b)];
    NonEmptyAppend(Lists.Map(Trim, split), Trim(b));
  }

  /** The piece before the first comma is the first part, trimmed: "Monday, 1 Jan" gives "Monday". */
  lemma FirstPartBeforeFirstComma(a: string, b: string)
    requires ',' !in a && !IsBlank(a)
    ensures FirstCommaPart(a + "," + b) == Trim(a)
  {
    var s := a + "," + b;
    assert s[..|a|] == a && s[|a| + 1..] == b;
    SplitAt(s, ',', |a|);
    var trimmed := Lists.Map(Trim, Split(s, ','));
    assert trimmed[0] == Trim(a);
    assert NonEmpty(trimmed)[0] == Trim(a);
  }

  // ----- normalisation -----

  datatype TxType = Sender | Receiver

  datatype Transaction = Transaction(
    transactionId: string,
    counterpartyAccountNumber: string,
    counterpartyAccountName: string,
    date: string,
    dateName: string,
    created: string,
    createdName: string,
    createdBy: string,
    txType: TxType,
    description: string,
    amount: real)

  datatype ApiResponse = ApiResponse(accountExists: bool, message: string, transactions: seq<Transaction>)

  /** One entry of `transactions`, each field read with `asStr`/`asNum`; the type is `sender` only for the exact string. */
  function NormalizeTx(lib: Lib, t: Value): Transaction
  {
    Transaction(
      AsText(Get(t, "transaction_id")),
      AsText(Get(t, "counterparty_account_number")),
      AsText(Get(t, "counterparty_account_name")),
      AsText(Get(t, "date")),
      AsText(Get(t, "date_name")),
      AsText(Get(t, "created")),
      AsText(Get(t, "created_name")),
      AsText(Get(t, "created_by")),
      if Get(t, "type") == Str("sender") then Sender else Receiver,
      AsText(Get(t, "description")),
      AsNum(lib, Get(t, "amount")))
  }

  /** The raw entries: `payload.transactions` when it is an array, else none. */
  function Entries(payload: Value): seq<Value>
  {
    var txs := Get(payload, "transactions");
    if txs.Arr? then txs.items else []
  }

  /** The normalised response of a successful request. */
  function Normalize(lib: Lib, payload: Value): ApiResponse
  {
    var message := AsText(Get(payload, "message"));
    ApiResponse(
      Truthy(Get(payload, "exists")),
      if message != "" then message else "ok",
      Lists.Map((t: Value) => NormalizeTx(lib, t), Entries(payload)))
  }

  /**
   * Normalising keeps every entry, in order, and no other; a non-array
   * `transactions` gives none; an entry is outgoing exactly when its
   * `type` is the string "sender".
   */
  lemma NormalizeKeepsEntries(lib: Lib, payload: Value)
    ensures var r := Normalize(lib, payload);
      var entries := Entries(payload);
      && |r.transactions| == |entries|
      && (!Get(payload, "transactions").Arr? ==> r.transactions == [])
      && (forall i :: 0 <= i < |entries| ==> r.transactions[i] == NormalizeTx(lib, entries[i]))
      && (forall i :: 0 <= i < |entries| ==>
            (r.transactions[i].txType == Sender <==> Get(entries[i], "type") == Str("sender")))
      && r.message != ""
  {
  }

  // ----- fetching -----

  /** What `fetch` gave: a thrown error (its `message` value), or a response with its parsed body (`null` when unreadable). */
  datatype Fetch = Threw(message: Value) | Responded(ok: bool, status: int, payload: Value)

  /** The page state `fetchData` leaves: the data shown and the error line. */
  datatype Loaded = Loaded(data: ApiResponse, error: string)

  /** The data shown after any failure. */
  const Failed := ApiResponse(false, "error", [])

  /** `fetchData` after the request settles. */
  function FetchData(lib: Lib, f: Fetch): Loaded
  {
    match f
    case Threw(message) =>
      var m := AsText(message);
      Loaded(Failed, if m != "" then m else "Failed to load transactions.")
    case Responded(ok, status, payload) =>
      if !ok then
        var m := AsText(Get(payload, "message"));
        var thrown := if m != "" then m else "Request failed (" + IntToString(status) + ")";
        Loaded(Failed, thrown)
      else Loaded(Normalize(lib, payload), "")
  }

  /**
   * A failed request always shows an error and the empty failure data;
   * a rejected response's error is the body's `message`, else
   * "Request failed (status)"; a successful one shows no error and the
   * normalized body; a thrown fetch shows its message, or a fixed one.
   */
  lemma FetchOutcomes(lib: Lib, f: Fetch)
    ensures var r := FetchData(lib, f);
      && (r.error == "" <==> f.Responded? && f.ok)
      && (r.error != "" ==> r.data == Failed)
      && (f.Responded? && !f.ok && AsText(Get(f.payload, "message")) != "" ==> r.error == AsText(Get(f.payload, "message")))
      && (f.Responded? && !f.ok && AsText(Get(f.payload, "message")) == "" ==> r.error == "Request failed (" + IntToString(f.status) + ")")
      && (f.Responded? && f.ok ==> r.data == Normalize(lib, f.payload))
      && (f.Threw? ==> r.error == (if AsText(f.message) != "" then AsText(f.message) else "Failed to load transactions."))
  {
  }

  // ----- inflow and outflow -----

  function Amount(t: Transaction): real
  {
    t.amount
  }

  /** The entries counted as inflow: received ones. */
  function Inflow(txs: seq<Transaction>): seq<Transaction>
  {
    Lists.Filter((t: Transaction) => t.txType == Receiver, txs)
  }

  /** The entries counted as outflow: sent ones. */
  function Outflow(txs: seq<Transaction>): seq<Transaction>
  {
    Lists.Filter((t: Transaction) => t.txType == Sender, txs)
  }

  /** Every entry is counted in exactly one of the two totals, and together they are the whole list's sum. */
  lemma FlowsPartition(txs: seq<Transaction>)
    ensures forall t :: t in txs ==> (t in Inflow(txs) <==> !(t in Outflow(txs)))
    ensures forall t :: t in Inflow(txs) || t in Outflow(txs) ==> t in txs
    ensures Lists.SumBy(Amount, Inflow(txs)) + Lists.SumBy(Amount, Outflow(txs)) == Lists.SumBy(Amount, txs)
  {
    Lists.FilterSplitsSum((t: Transaction) => t.txType == Receiver, (t: Transaction) => t.txType == Sender, Amount, txs);
  }
}

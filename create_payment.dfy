/**
 * app/create-payment/page.tsx: the transfer form. It checks the amount as
 * it is typed, decides when the form may be submitted, and on submit
 * builds the transfer payload and resets the form for the next one.
 */
module CreatePayment {
  import opened Text
  import opened Js
  import Lists

  // ----- class names -----

  /** `xs.filter(Boolean)` for the arguments of `cn`: None stands for `false`, `null` and `undefined`. */
  function ClassNames(xs: seq<Option<string>>): (r: seq<string>)
    ensures forall i :: 0 <= i < |r| ==> r[i] != ""
    ensures forall c :: c in r <==> Some(c) in xs && c != ""
  {
    if xs == [] then []
    else
      var rest := ClassNames(xs[1..]);
      assert forall o :: o in xs <==> o == xs[0] || o in xs[1..];
      if xs[0].Some? && xs[0].value != "" then [xs[0].value] + rest else rest
  }

  /** `cn`: the truthy class names, joined with single spaces. */
  function Cn(xs: seq<Option<string>>): string
  {
    Join(ClassNames(xs), " ")
  }

  /**
   * For class names without spaces, `cn` is empty exactly when nothing
   * truthy was given, and otherwise splits back at its spaces into the
   * truthy names in order; so it holds no leading, trailing or doubled space.
   */
  lemma CnSplitsBack(xs: seq<Option<string>>)
    requires forall o :: o in xs && o.Some? ==> ' ' !in o.value
    ensures Cn(xs) == "" <==> ClassNames(xs) == []
    ensures ClassNames(xs) != [] ==> Split(Cn(xs), ' ') == ClassNames(xs)
  {
    var names := ClassNames(xs);
    if names != [] {
      assert forall i :: 0 <= i < |names| ==> Some(names[i]) in xs;
      SplitJoin(names, ' ');
      assert Split(Cn(xs), ' ')[0] != "";
    }
  }

  // ----- the amount field -----

  /** The length of the run of decimal digits `s` starts with. */
  function DigitRun(s: string): (k: nat)
    ensures k <= |s| && AllDigits(s[..k])
    ensures k < |s| ==> !IsDigit(s[k])
  {
    if s != [] && IsDigit(s[0]) then
      var k := 1 + DigitRun(s[1..]);
      assert forall i :: 0 < i < k ==> s[..k][i] == s[1..][..k - 1][i - 1];
      k
    else 0
  }

  /** `isMoney`, the pattern `^(\d+)?(\.\d{0,2})?$` read left to right: digits, then the end, or a point and at most two digits. */
  predicate IsMoney(s: string)
  {
    if s == [] then true
    else if IsDigit(s[0]) then IsMoney(s[1..])
    else s[0] == '.' && |s| <= 3 && AllDigits(s[1..])
  }

  /** An accepted text is its leading digits followed by nothing, or by a point and at most two digits. */
  lemma {:induction false} MoneySplit(s: string)
    ensures var k := DigitRun(s);
      IsMoney(s) <==> k == |s| || (s[k] == '.' && |s| - k <= 3 && AllDigits(s[k + 1..]))
  {
    if s != [] && IsDigit(s[0]) {
      MoneySplit(s[1..]);
      var k := DigitRun(s);
      if k < |s| {
        assert s[1..][k - 1] == s[k];
        assert s[1..][k..] == s[k + 1..];
      }
    }
  }

  /** The optional tail of the pattern: empty, or a point followed by at most two digits. */
  predicate IsFraction(t: string)
  {
    t == "" || (t[0] == '.' && |t| <= 3 && AllDigits(t[1..]))
  }

  /** The pattern as written: the text splits into an all-digit head and a fraction. */
  ghost predicate MatchesPattern(s: string)
  {
    exists k :: 0 <= k <= |s| && AllDigits(s[..k]) && IsFraction(s[k..])
  }

  /** A digit run followed by the end or a non-digit is the text's leading digit run. */
  lemma {:induction false} DigitRunUnique(s: string, k: nat)
    requires k <= |s| && AllDigits(s[..k])
    requires k < |s| ==> !IsDigit(s[k])
    ensures DigitRun(s) == k
  {
    if k > 0 {
      assert s[..k][0] == s[0];
      assert s[1..][..k - 1] == s[..k][1..];
      DigitRunUnique(s[1..], k - 1);
    }
  }

  /** The left-to-right reading accepts exactly the texts the pattern matches. */
  lemma IsMoneyMatchesPattern(s: string)
    ensures IsMoney(s) <==> MatchesPattern(s)
  {
    var r := DigitRun(s);
    MoneySplit(s);
    if IsMoney(s) {
      assert s[r..] == "" || s[r..][1..] == s[r + 1..];
      assert AllDigits(s[..r]) && IsFraction(s[r..]);
    }
    if MatchesPattern(s) {
      var k :| 0 <= k <= |s| && AllDigits(s[..k]) && IsFraction(s[k..]);
      if k < |s| {
        assert s[k..][0] == s[k];
      }
      DigitRunUnique(s, k);
      assert s[k..] == "" || s[k..][1..] == s[k + 1..];
    }
  }

  /**
   * The characters an amount may hold: only digits and at most one point,
   * with at most two characters after it; and every such text is accepted.
   */
  lemma MoneyCharacters(s: string)
    ensures IsMoney(s) <==>
      && (forall i :: 0 <= i < |s| ==> IsDigit(s[i]) || s[i] == '.')
      && (forall i, j :: 0 <= i < j < |s| ==> !(s[i] == '.' && s[j] == '.'))
      && (forall i :: 0 <= i < |s| && s[i] == '.' ==> |s| - i <= 3)
  {
    var k := DigitRun(s);
    MoneySplit(s);
    assert forall i :: 0 <= i < k ==> s[i] == s[..k][i];
    assert forall i :: k < i < |s| ==> s[i] == s[k + 1..][i - k - 1];
  }

  /** Texts the field accepts. */
  lemma MoneyAccepted()
    ensures IsMoney("") && IsMoney(".") && IsMoney("12.") && IsMoney(".5") && IsMoney("12.34") && IsMoney("007")
  {
    MoneyCharacters("12.34");
  }

  /** Texts the field refuses: signs, letters, exponents, a third decimal, a second point, spaces. */
  lemma MoneyRefused()
    ensures !IsMoney("-1") && !IsMoney("+1") && !IsMoney("1e3") && !IsMoney("1.234") && !IsMoney("1.2.3") && !IsMoney(" 1")
  {
    MoneyCharacters("-1");
    MoneyCharacters("+1");
    MoneyCharacters("1e3");
    assert "1.234"[1] == '.';
    MoneyCharacters("1.234");
    assert "1.2.3"[1] == '.' && "1.2.3"[3] == '.';
    MoneyCharacters("1.2.3");
    MoneyCharacters(" 1");
  }

  /** The empty field and "0" are money texts worth nothing. */
  lemma ZeroIsMoney()
    ensures IsMoney("") && IsMoney("0") && Cents("0") == 0
  {
    assert DigitRun("0") == 1;
    assert "0"[..1] == "0";
  }

  function DigitValue(c: char): nat
    requires IsDigit(c)
  {
    c as int - '0' as int
  }

  /** The hundredths a fraction stands for: ".5" is 50, ".05" is 5, "" and "." are 0. */
  function FracCents(t: string): nat
    requires IsFraction(t)
  {
    if |t| <= 1 then 0
    else
      assert t[1..][0] == t[1];
      assert |t| == 3 ==> t[1..][1] == t[2];
      10 * DigitValue(t[1]) + (if |t| == 3 then DigitValue(t[2]) else 0)
  }

  /** The amount an accepted text stands for, in hundredths: "12.5" is 1250; "" and "." are 0. */
  function Cents(s: string): nat
    requires IsMoney(s)
  {
    MoneySplit(s);
    var k := DigitRun(s);
    assert s[k..] == "" || s[k..][1..] == s[k + 1..];
    DigitsValue(s[..k]) * 100 + FracCents(s[k..])
  }

  predicate NonZeroDigit(c: char)
  {
    '1' <= c <= '9'
  }

  predicate HasNonZero(t: string)
  {
    exists i :: 0 <= i < |t| && NonZeroDigit(t[i])
  }

  lemma HasNonZeroConcat(a: string, b: string)
    ensures HasNonZero(a + b) <==> HasNonZero(a) || HasNonZero(b)
  {
    if HasNonZero(a + b) {
      var i :| 0 <= i < |a + b| && NonZeroDigit((a + b)[i]);
      if i >= |a| {
        assert b[i - |a|] == (a + b)[i];
      }
    }
    if HasNonZero(b) {
      var i :| 0 <= i < |b| && NonZeroDigit(b[i]);
      assert (a + b)[|a| + i] == b[i];
    }
    if HasNonZero(a) {
      var i :| 0 <= i < |a| && NonZeroDigit(a[i]);
      assert (a + b)[i] == a[i];
    }
  }

  lemma {:induction false} DigitsPositive(t: string)
    requires AllDigits(t)
    ensures DigitsValue(t) > 0 <==> HasNonZero(t)
  {
    if t != [] {
      var init := t[..|t| - 1];
      assert AllDigits(init) by {
        assert forall i :: 0 <= i < |init| ==> init[i] == t[i];
      }
      DigitsPositive(init);
      assert t == init + [t[|t| - 1]];
      HasNonZeroConcat(init, [t[|t| - 1]]);
      assert HasNonZero([t[|t| - 1]]) <==> NonZeroDigit(t[|t| - 1]);
    }
  }

  lemma FracPositive(t: string)
    requires IsFraction(t)
    ensures FracCents(t) > 0 <==> HasNonZero(t)
  {
    if |t| >= 2 {
      assert t[1..][0] == t[1];
      assert |t| == 3 ==> t[1..][1] == t[2];
    }
  }

  /** An accepted text read as its leading digits and its fraction. */
  lemma CentsSplit(s: string)
    requires IsMoney(s)
    ensures var k := DigitRun(s);
      && AllDigits(s[..k]) && IsFraction(s[k..]) && s == s[..k] + s[k..]
      && Cents(s) == DigitsValue(s[..k]) * 100 + FracCents(s[k..])
  {
    MoneySplit(s);
    var k := DigitRun(s);
    assert s[k..] == "" || s[k..][1..] == s[k + 1..];
  }

  /** An accepted amount is above zero exactly when it holds a digit other than 0. */
  lemma CentsPositive(s: string)
    requires IsMoney(s)
    ensures Cents(s) > 0 <==> HasNonZero(s)
  {
    CentsSplit(s);
    var k := DigitRun(s);
    var whole, frac := s[..k], s[k..];
    DigitsPositive(whole);
    FracPositive(frac);
    HasNonZeroConcat(whole, frac);
  }

  /** `Number(amount || "0")` */
  function AmountNum(lib: Lib, amount: string): Number
  {
    ToNumber(lib, Str(if amount == "" then "0" else amount))
  }

  /** `isFinite(amountNum) && amountNum > 0` */
  predicate PositiveAmount(n: Number)
  {
    n.Finite? && n.r > 0.0
  }

  /**
   * What ECMAScript's `Number` does with the texts the field can hold: a
   * lone "." is not a numeric literal (NaN); any other one is read as the
   * decimal it spells.
   */
  ghost predicate ReadsDecimals(lib: Lib)
  {
    && lib.stringToNumber(".") == NaN
    && forall s :: IsMoney(s) && s != "" && s != "." ==> lib.stringToNumber(s) == Finite(Cents(s) as real / 100.0)
  }

  /**
   * The amount part of `canSubmit` holds for an accepted text exactly
   * when the text holds a non-zero digit: "", ".", "0" and "0.00" are
   * refused, "0.01" and "12." are not.
   */
  lemma AmountPositiveIffNonZeroDigit(lib: Lib, amount: string)
    requires ReadsDecimals(lib) && IsMoney(amount)
    ensures PositiveAmount(AmountNum(lib, amount)) <==> HasNonZero(amount)
  {
    CentsPositive(amount);
    if amount == "" {
      ZeroIsMoney();
    } else if amount == "." {
      assert Cents(".") == 0;
    }
  }

  // ----- accounts -----

  /** The `TypeError` thrown by reading `account_number` of the null or undefined entry at `index`. */
  datatype Thrown = NullishEntry(index: nat)

  /** No entry of the list is null or undefined, so reading each entry's `account_number` never throws. */
  predicate NoNullishEntry(accounts: seq<Value>)
  {
    forall j :: 0 <= j < |accounts| ==> !Nullish(accounts[j])
  }

  /** Where a search stopped: the match found, the entry that threw, or the end of the list. */
  function StopIndex(r: Result<Option<nat>, Thrown>, n: nat): nat
  {
    match r
    case Ok(None) => n
    case Ok(Some(i)) => i
    case Err(t) => t.index
  }

  /**
   * `accounts.find(x => x.account_number === number)`, as the index of the
   * entry found: the first entry with that number, None when there is
   * none, and the TypeError of the first null or undefined entry reached
   * before a match.
   */
  function FindAccount(accounts: seq<Value>, number: string): (r: Result<Option<nat>, Thrown>)
    ensures r.Ok? && r.value.Some? ==> r.value.value < |accounts| && Get(accounts[r.value.value], "account_number") == Str(number)
    ensures r.Err? ==> r.error.index < |accounts| && Nullish(accounts[r.error.index])
    ensures forall j :: 0 <= j < |accounts| && j < StopIndex(r, |accounts|) ==>
      !Nullish(accounts[j]) && Get(accounts[j], "account_number") != Str(number)
    ensures r == Ok(None) <==> forall j :: 0 <= j < |accounts| ==> !Nullish(accounts[j]) && Get(accounts[j], "account_number") != Str(number)
  {
    if accounts == [] then Ok(None)
    else if Nullish(accounts[0]) then Err(NullishEntry(0))
    else if Get(accounts[0], "account_number") == Str(number) then Ok(Some(0))
    else
      match FindAccount(accounts[1..], number)
      case Ok(None) => Ok(None)
      case Ok(Some(i)) => Ok(Some(i + 1))
      case Err(t) => Err(NullishEntry(t.index + 1))
  }

  /** A list without null entries is searched without a throw. */
  lemma FindAccountWithoutNullish(accounts: seq<Value>, number: string)
    ensures NoNullishEntry(accounts) ==> FindAccount(accounts, number).Ok?
  {
    var r := FindAccount(accounts, number);
    if r.Err? {
      assert Nullish(accounts[r.error.index]);
    }
  }

  /**
   * `accounts.find(x => x.account_number === receiver)?.account_name || ""`:
   * the name of the first account with that number, or "" when there is
   * none or its name is falsy; the search's TypeError when it throws.
   */
  function ReceiverName(accounts: seq<Value>, receiver: string): (r: Result<Value, Thrown>)
    ensures r.Err? <==> FindAccount(accounts, receiver).Err?
    ensures r.Err? ==> r.error == FindAccount(accounts, receiver).error
    ensures NoNullishEntry(accounts) ==> r.Ok?
    ensures FindAccount(accounts, receiver) == Ok(None) ==> r == Ok(Str(""))
    ensures r.Ok? && Truthy(r.value) ==>
      exists j :: 0 <= j < |accounts| && Get(accounts[j], "account_number") == Str(receiver) && r.value == Get(accounts[j], "account_name")
    ensures r.Ok? && Truthy(r.value) ==>
      FindAccount(accounts, receiver).value.Some? && r.value == Get(accounts[FindAccount(accounts, receiver).value.value], "account_name")
    ensures FindAccount(accounts, receiver).Ok? && FindAccount(accounts, receiver).value.Some?
            && Truthy(Get(accounts[FindAccount(accounts, receiver).value.value], "account_name")) ==>
      r == Ok(Get(accounts[FindAccount(accounts, receiver).value.value], "account_name"))
    ensures r.Ok? && !Truthy(r.value) ==> r.value == Str("")
  {
    FindAccountWithoutNullish(accounts, receiver);
    match FindAccount(accounts, receiver)
    case Err(t) => Err(t)
    case Ok(None) => Ok(Str(""))
    case Ok(Some(i)) => Ok(Or(Get(accounts[i], "account_name"), Str("")))
  }

  /**
   * The destination choices `accounts.filter(a => a.account_number !== senderNumber)`,
   * built at every render: None when an entry is null or undefined, for
   * which the filter throws and the page fails to render.
   */
  function DestinationOptions(accounts: seq<Value>, senderNumber: string): (r: Option<seq<Value>>)
    ensures r.None? <==> exists j :: 0 <= j < |accounts| && Nullish(accounts[j])
  {
    if NoNullishEntry(accounts) then Some(Lists.Filter((a: Value) => Get(a, "account_number") != Str(senderNumber), accounts))
    else None
  }

  /** On a page that renders, the sender's own account is never offered as a destination, and every other account is. */
  lemma DestinationsExcludeSender(accounts: seq<Value>, senderNumber: string)
    ensures NoNullishEntry(accounts) <==> DestinationOptions(accounts, senderNumber).Some?
    ensures var r := DestinationOptions(accounts, senderNumber);
      r.Some? ==>
        && (forall o :: o in r.value ==> o in accounts && Get(o, "account_number") != Str(senderNumber))
        && (forall a :: a in accounts && Get(a, "account_number") != Str(senderNumber) ==> a in r.value)
  {
  }

  // ----- the form -----

  datatype TxType = Credit | Debit

  /** The state the page renders from: every `useState` of the page. */
  datatype FormState = FormState(
    accounts: seq<Value>,
    loadingAccounts: bool,
    senderAccount: Value,
    loadingSender: bool,
    txType: TxType,
    amount: string,
    receiver: string,
    createdBy: string,
    ledgerId: string,
    description: string,
    submitting: bool,
    err: string,
    msg: string)

  /** What holds between events: the amount field holds only text `isMoney` accepts, and no submit is under way. */
  predicate ValidState(s: FormState)
  {
    IsMoney(s.amount) && !s.submitting
  }

  /** `asStr(senderAccount?.account_number || "")` */
  function SenderNumber(s: FormState): (r: string)
    ensures IsTrimmed(r)
  {
    AsStr(Or(Get(s.senderAccount, "account_number"), Str("")))
  }

  /** `asStr(senderAccount?.account_name || "")` */
  function SenderName(s: FormState): (r: string)
    ensures IsTrimmed(r)
  {
    AsStr(Or(Get(s.senderAccount, "account_name"), Str("")))
  }

  /** `canSubmit` */
  predicate CanSubmit(lib: Lib, s: FormState)
  {
    && !s.loadingAccounts
    && !s.loadingSender
    && !s.submitting
    && Trim(s.ledgerId) != ""
    && PositiveAmount(AmountNum(lib, s.amount))
    && SenderNumber(s) != ""
    && Trim(s.receiver) != ""
    && s.receiver != SenderNumber(s)
    && Trim(s.createdBy) != ""
    && Trim(s.description) != ""
  }

  /** The transfer `submit` builds. */
  datatype Payload = Payload(
    accountNumber: string,
    senderAccountNumber: string,
    senderAccountName: string,
    receiverAccountNumber: string,
    receiverAccountName: Value,
    txType: TxType,
    description: string,
    amount: real,
    createdBy: string,
    ledgerId: string)

  /** A transfer between two different accounts, of a positive amount, with every required field filled in. */
  predicate WellFormed(p: Payload)
  {
    && p.accountNumber == p.senderAccountNumber
    && p.senderAccountNumber != ""
    && Trim(p.receiverAccountNumber) != ""
    && p.receiverAccountNumber != p.senderAccountNumber
    && p.amount > 0.0
    && p.description != "" && IsTrimmed(p.description)
    && p.createdBy != "" && IsTrimmed(p.createdBy)
    && Trim(p.ledgerId) != ""
  }

  /** The payload of `submit`, built from the rendered state. */
  function PayloadOf(lib: Lib, s: FormState): (p: Payload)
    requires CanSubmit(lib, s) && ReceiverName(s.accounts, s.receiver).Ok?
    ensures WellFormed(p)
    ensures p.senderAccountNumber == SenderNumber(s) && p.receiverAccountNumber == s.receiver
    ensures p.amount == AmountNum(lib, s.amount).r && p.ledgerId == s.ledgerId && p.txType == s.txType
    ensures p.receiverAccountName == ReceiverName(s.accounts, s.receiver).value
  {
    var number := SenderNumber(s);
    Payload(number, number, SenderName(s), s.receiver, ReceiverName(s.accounts, s.receiver).value, s.txType,
      Trim(s.description), AmountNum(lib, s.amount).r, Trim(s.createdBy), s.ledgerId)
  }

  /** What a submit leaves: the next state and the transfer handed on, if any. */
  datatype Outcome = Outcome(state: FormState, sent: Option<Payload>)

  /** The catch of `submit`: the thrown error's message, trimmed, or "Failed to submit." when that is empty. */
  function SubmitFailure(message: string): (m: string)
    ensures m != "" && IsTrimmed(m)
    ensures Trim(message) != "" ==> m == Trim(message)
  {
    if Trim(message) != "" then Trim(message) else "Failed to submit."
  }

  /**
   * `submit`: refused with a message unless `canSubmit`; when the receiver
   * name's search throws (`typeError` is that TypeError's message), the
   * catch shows it; else the transfer is handed on and the form reset for
   * the next one.
   */
  function AfterSubmit(lib: Lib, s: FormState, newLedgerId: string, typeError: string): Outcome
  {
    if !CanSubmit(lib, s) then
      Outcome(s.(err := "Please complete all fields.", msg := ""), None)
    else if ReceiverName(s.accounts, s.receiver).Err? then
      Outcome(s.(err := SubmitFailure(typeError), msg := "", submitting := false), None)
    else
      Outcome(
        s.(err := "", msg := "Transfer prepared.", ledgerId := newLedgerId,
           amount := "", description := "", receiver := "", submitting := false),
        Some(PayloadOf(lib, s)))
  }

  /**
   * A refused submit changes only the two message lines. A search that
   * throws on a null account entry changes only them too, showing the
   * error; on a page that renders, no entry is null and this never
   * happens. An accepted one hands on a well-formed transfer, takes the
   * new ledger id, clears amount, memo and receiver, and keeps the type,
   * the operator and the loaded accounts. All keep the form valid.
   */
  lemma SubmitOutcomes(lib: Lib, s: FormState, newLedgerId: string, typeError: string)
    ensures var o := AfterSubmit(lib, s, newLedgerId, typeError);
      && (ValidState(s) ==> ValidState(o.state))
      && (o.sent.None? <==> !CanSubmit(lib, s) || FindAccount(s.accounts, s.receiver).Err?)
      && (NoNullishEntry(s.accounts) ==> (o.sent.None? <==> !CanSubmit(lib, s)))
      && (!CanSubmit(lib, s) ==> o.state == s.(err := "Please complete all fields.", msg := ""))
      && (CanSubmit(lib, s) && FindAccount(s.accounts, s.receiver).Err? ==>
            o.state == s.(err := SubmitFailure(typeError), msg := ""))
      && (o.sent.Some? ==>
            && WellFormed(o.sent.value)
            && o.state.err == "" && o.state.msg == "Transfer prepared."
            && o.state.ledgerId == newLedgerId
            && o.state.amount == "" && o.state.description == "" && o.state.receiver == ""
            && o.state.txType == s.txType && o.state.createdBy == s.createdBy
            && o.state.accounts == s.accounts && o.state.senderAccount == s.senderAccount)
  {
    ZeroIsMoney();
  }

  /** A transfer cannot be sent twice in a row: the cleared amount reads as 0, so the next submit is refused. */
  lemma NoSecondSubmit(lib: Lib, s: FormState, id1: string, id2: string, e1: string, e2: string)
    requires ReadsDecimals(lib)
    requires AfterSubmit(lib, s, id1, e1).sent.Some?
    ensures AfterSubmit(lib, AfterSubmit(lib, s, id1, e1).state, id2, e2).sent.None?
  {
    ZeroIsMoney();
  }

  /** The amount input's `onChange`: the trimmed text is taken when it is empty or `isMoney` accepts it. */
  function AfterAmountChange(s: FormState, raw: string): FormState
  {
    var v := Trim(raw);
    if v == "" || IsMoney(v) then s.(amount := v) else s
  }

  /** Only the amount changes, to the trimmed text exactly when that is a money text; the field never holds anything else. */
  lemma AmountChangeKeepsMoney(s: FormState, raw: string)
    ensures var r := AfterAmountChange(s, raw);
      && r == s.(amount := r.amount)
      && (IsMoney(Trim(raw)) ==> r.amount == Trim(raw))
      && (!IsMoney(Trim(raw)) ==> r.amount == s.amount)
      && (ValidState(s) ==> ValidState(r))
  {
    ZeroIsMoney();
  }

  /** The sender request settling: `reply` is the parsed body, None when the request or the parsing threw. */
  function AfterSenderLoaded(s: FormState, reply: Option<Value>): FormState
  {
    var settled := match reply
      case None => s.(err := "Failed to load sender account.")
      case Some(j) =>
        var account := Get(j, "account");
        var acc := if Truthy(account) && TypeofObject(account) then account else Null;
        if Truthy(Get(j, "exists")) && Truthy(Get(acc, "account_number")) then s.(senderAccount := acc)
        else
          var message := AsStr(Get(j, "message"));
          s.(err := if message != "" then message else "Sender account not found.");
    settled.(loadingSender := false)
  }

  /**
   * The sender request ends the sender's loading and either stores an
   * account object with a truthy number, which the body flagged as
   * existing, or shows a non-empty error; nothing else changes.
   */
  lemma SenderLoadOutcomes(s: FormState, reply: Option<Value>)
    ensures var r := AfterSenderLoaded(s, reply);
      && r == s.(senderAccount := r.senderAccount, err := r.err, loadingSender := false)
      && (|| (r.err == s.err && reply.Some? && Truthy(Get(reply.value, "exists"))
              && IsObject(r.senderAccount) && r.senderAccount == Get(reply.value, "account")
              && Truthy(Get(r.senderAccount, "account_number")))
          || (r.err != "" && r.senderAccount == s.senderAccount))
  {
  }

  /** The accounts request settling: the body's `accounts` when it is an array, else none; an error line when it threw. */
  function AfterAccountsLoaded(s: FormState, reply: Option<Value>): FormState
  {
    var settled := match reply
      case None => s.(err := "Failed to load accounts.")
      case Some(j) =>
        var list := Get(j, "accounts");
        s.(accounts := if list.Arr? then list.items else []);
    settled.(loadingAccounts := false)
  }

  /** The accounts request ends the list's loading; a reply replaces the list with its array (or none), a failure keeps it and says so. */
  lemma AccountsLoadOutcomes(s: FormState, reply: Option<Value>)
    ensures var r := AfterAccountsLoaded(s, reply);
      && r == s.(accounts := r.accounts, err := r.err, loadingAccounts := false)
      && (reply.None? ==> r.accounts == s.accounts && r.err == "Failed to load accounts.")
      && (reply.Some? ==>
            && r.err == s.err
            && r.accounts == (if Get(reply.value, "accounts").Arr? then Get(reply.value, "accounts").items else []))
  {
  }

  /** Choosing a destination: `onChange(a.account_number)`; a number that is not a string is kept as "". */
  function AfterSelect(s: FormState, option: Value): FormState
  {
    var number := Get(option, "account_number");
    s.(receiver := if number.Str? then number.s else "")
  }

  /** A destination chosen from the offered options, while the sender is known, is never the sender. */
  lemma SelectedReceiverIsNotSender(s: FormState, k: nat)
    requires SenderNumber(s) != ""
    requires DestinationOptions(s.accounts, SenderNumber(s)).Some?
    requires k < |DestinationOptions(s.accounts, SenderNumber(s)).value|
    ensures AfterSelect(s, DestinationOptions(s.accounts, SenderNumber(s)).value[k]).receiver != SenderNumber(s)
  {
    var options := DestinationOptions(s.accounts, SenderNumber(s)).value;
    DestinationsExcludeSender(s.accounts, SenderNumber(s));
    assert options[k] in options;
  }

  /**
   * A reply whose `accounts` array holds a null entry is stored as it is,
   * and the next render's filter throws: the page shows no destinations
   * and no form.
   */
  lemma NullAccountEntryBreaksRender(s: FormState, items: seq<Value>, k: nat)
    requires k < |items| && items[k] == Null
    ensures var r := AfterAccountsLoaded(s, Some(Obj(map["accounts" := Arr(items)])));
      r.accounts == items && DestinationOptions(r.accounts, SenderNumber(r)).None?
  {
    var r := AfterAccountsLoaded(s, Some(Obj(map["accounts" := Arr(items)])));
    assert Nullish(r.accounts[k]);
  }

  /** The page's state, updated in place by its event handlers. */
  class PaymentForm {
    var accounts: seq<Value>
    var loadingAccounts: bool
    var senderAccount: Value
    var loadingSender: bool
    var txType: TxType
    var amount: string
    var receiver: string
    var createdBy: string
    var ledgerId: string
    var description: string
    var submitting: bool
    var err: string
    var msg: string

    function State(): FormState
      reads this
    {
      FormState(accounts, loadingAccounts, senderAccount, loadingSender, txType, amount, receiver,
        createdBy, ledgerId, description, submitting, err, msg)
    }

    predicate Valid()
      reads this
    {
      IsMoney(amount) && !submitting
    }

    /** The initial state: both requests loading, no sender yet, a credit, every field empty. */
    constructor ()
      ensures Valid()
      ensures State() == FormState([], true, Null, true, Credit, "", "", "", "", "", false, "", "")
    {
      accounts := [];
      loadingAccounts := true;
      senderAccount := Null;
      loadingSender := true;
      txType := Credit;
      amount := "";
      receiver := "";
      createdBy := "";
      ledgerId := "";
      description := "";
      submitting := false;
      err := "";
      msg := "";
      ZeroIsMoney();
    }

    /** The mount effect `setLedgerId(makeUuid())`; the generated id is the parameter. */
    method GenerateLedgerId(id: string)
      requires Valid()
      modifies this
      ensures Valid()
      ensures State() == old(State()).(ledgerId := id)
    {
      ledgerId := id;
    }

    method SenderLoaded(reply: Option<Value>)
      requires Valid()
      modifies this
      ensures Valid()
      ensures State() == AfterSenderLoaded(old(State()), reply)
    {
      if reply.None? {
        err := "Failed to load sender account.";
      } else {
        var j := reply.value;
        var account := Get(j, "account");
        var acc := if Truthy(account) && TypeofObject(account) then account else Null;
        if Truthy(Get(j, "exists")) && Truthy(Get(acc, "account_number")) {
          senderAccount := acc;
        } else {
          var message := AsStr(Get(j, "message"));
          err := if message != "" then message else "Sender account not found.";
        }
      }
      loadingSender := false;
    }

    method AccountsLoaded(reply: Option<Value>)
      requires Valid()
      modifies this
      ensures Valid()
      ensures State() == AfterAccountsLoaded(old(State()), reply)
    {
      if reply.None? {
        err := "Failed to load accounts.";
      } else {
        var list := Get(reply.value, "accounts");
        accounts := if list.Arr? then list.items else [];
      }
      loadingAccounts := false;
    }

    method ChangeAmount(raw: string)
      requires Valid()
      modifies this
      ensures Valid()
      ensures State() == AfterAmountChange(old(State()), raw)
    {
      var v := Trim(raw);
      if v == "" || IsMoney(v) {
        amount := v;
      }
      AmountChangeKeepsMoney(old(State()), raw);
    }

    /**
     * Picking the `k`-th destination of the rendered list; the picker is
     * enabled only once both requests settled and the sender is known, and
     * exists only when the page rendered.
     */
    method SelectReceiver(k: nat)
      requires Valid()
      requires !loadingAccounts && !loadingSender && SenderNumber(State()) != ""
      requires DestinationOptions(accounts, SenderNumber(State())).Some?
      requires k < |DestinationOptions(accounts, SenderNumber(State())).value|
      modifies this
      ensures Valid()
      ensures State() == AfterSelect(old(State()), DestinationOptions(old(accounts), SenderNumber(old(State()))).value[k])
      ensures receiver != SenderNumber(State())
    {
      var options := DestinationOptions(accounts, SenderNumber(State())).value;
      SelectedReceiverIsNotSender(State(), k);
      var number := Get(options[k], "account_number");
      receiver := if number.Str? then number.s else "";
    }

    /** The refused submit: both message lines cleared, then the error shown. */
    method Refuse()
      requires Valid()
      modifies this
      ensures Valid()
      ensures State() == old(State()).(err := "Please complete all fields.", msg := "")
    {
      err := "";
      msg := "";
      err := "Please complete all fields.";
    }

    /**
     * The accepted submit's updates, in the handler's order. The
     * `submitting` flag it raises before them and lowers after them is
     * never seen raised, as nothing is awaited in between.
     */
    method Reset(newLedgerId: string)
      requires Valid()
      modifies this
      ensures Valid()
      ensures State() == old(State()).(err := "", msg := "Transfer prepared.", ledgerId := newLedgerId,
        amount := "", description := "", receiver := "", submitting := false)
    {
      err := "";
      msg := "Transfer prepared.";
      ledgerId := newLedgerId;
      amount := "";
      description := "";
      receiver := "";
    }

    /**
     * `submit`. The handler reads the state it was rendered with, so the
     * check and the payload use the state before its own updates; the
     * next ledger id and the message of a TypeError the receiver search
     * throws are the parameters.
     */
    method Submit(lib: Lib, newLedgerId: string, typeError: string) returns (sent: Option<Payload>)
      requires Valid()
      modifies this
      ensures Valid()
      ensures State() == AfterSubmit(lib, old(State()), newLedgerId, typeError).state
      ensures sent == AfterSubmit(lib, old(State()), newLedgerId, typeError).sent
      ensures sent.Some? ==> WellFormed(sent.value)
    {
      var rendered := State();
      if !CanSubmit(lib, rendered) {
        Refuse();
        return None;
      }
      if ReceiverName(rendered.accounts, rendered.receiver).Err? {
        err := "";
        msg := "";
        err := SubmitFailure(typeError);
        return None;
      }
      sent := Some(PayloadOf(lib, rendered));
      Reset(newLedgerId);
    }
  }
}

/**
  * The settlement engine: from the two income channels (iFood and 99), each
  * partner's expense total, the rent fee, the split pair and a rule name it
  * builds the nine-field breakdown. Money is exact (`real`); every output is
  * quantised to hundredths with ROUND_HALF_UP, and only at output assembly.
  */
module Settlement {
  import opened Wrappers
  import opened Decimals

  const Rafael := "Rafael"
  const Guilherme := "Guilherme"

  const RentBeforeSplit := "rent_before_split"
  const RentAfterSplit := "rent_after_split"

  datatype SettlementError =
    | UnsupportedRule(rule: string)   // ValueError
    | InvalidNumber(text: string)     // decimal.InvalidOperation

  /** A money or ratio argument as the engine accepts it (floats are not modelled). */
  datatype Amount = DecimalAmount(value: real) | IntAmount(n: int) | TextAmount(text: string)

  /** `_to_decimal`: a Decimal passes through, anything else goes through its text. */
  function ToDecimal(a: Amount): (r: Result<real, SettlementError>)
    ensures a.DecimalAmount? ==> r == Success(a.value)
    ensures a.IntAmount? ==> r == Success(a.n as real)
    ensures a.TextAmount? ==> (r.Success? <==> ParseDecimal(a.text).Some?)
    ensures a.TextAmount? && r.Success? ==> Some(r.value) == ParseDecimal(a.text)
    ensures r.Failure? ==> a.TextAmount? && r.error == InvalidNumber(a.text)
  {
    match a
    case DecimalAmount(v) => Success(v)
    case IntAmount(n) => IntTextRoundTrip(n); Success(ParseDecimal(IntText(n)).value)
    case TextAmount(t) =>
      match ParseDecimal(t)
      case Some(v) => Success(v)
      case None => Failure(InvalidNumber(t))
  }

  /**
    * `_quantize` in whole hundredths: `Decimal.quantize(Decimal("0.01"), ROUND_HALF_UP)`
    * rounds to the nearest hundredth and breaks ties away from zero.
    */
  function Cents(x: real): (c: int)
    ensures 0.0 <= x ==> c as real - 0.5 <= 100.0 * x < c as real + 0.5
    ensures x < 0.0 ==> c as real - 0.5 < 100.0 * x <= c as real + 0.5
  {
    if x >= 0.0 then (100.0 * x + 0.5).Floor else -(0.5 - 100.0 * x).Floor
  }

  /** The Decimal value of a whole number of hundredths. */
  function Hundredths(c: int): real {
    c as real / 100.0
  }

  /** The breakdown, each field in hundredths. */
  datatype Breakdown = Breakdown(
    rentFee: int,
    incomeTotal: int,
    reimbRafael: int,
    reimbGuilherme: int,
    netForSplit: int,
    shareRafael: int,
    shareGuilherme: int,
    totalRafael: int,
    totalGuilherme: int)

  /** The same nine values before quantisation. */
  datatype Unrounded = Unrounded(
    rentFee: real,
    incomeTotal: real,
    reimbRafael: real,
    reimbGuilherme: real,
    netForSplit: real,
    shareRafael: real,
    shareGuilherme: real,
    totalRafael: real,
    totalGuilherme: real)

  /** `expenses_by_partner.get(partner, Decimal())`. */
  function Reimbursement(expenses: map<string, real>, partner: string): real {
    if partner in expenses then expenses[partner] else 0.0
  }

  /** The rule branch of `compute_settlement`, on exact values. */
  function UnroundedSettlement(
    expenses: map<string, real>, ifood: real, ninety9: real,
    rentFee: real, split: (real, real), rule: string): Result<Unrounded, SettlementError>
  {
    var incomeTotal := ifood + ninety9;
    var reimbRafael := Reimbursement(expenses, Rafael);
    var reimbGuilherme := Reimbursement(expenses, Guilherme);
    if rule == RentBeforeSplit then
      var net := incomeTotal - reimbRafael - reimbGuilherme - rentFee;
      var shareRafael, shareGuilherme := Share(net, split.0), Share(net, split.1);
      Success(Unrounded(rentFee, incomeTotal, reimbRafael, reimbGuilherme, net,
                        shareRafael, shareGuilherme,
                        reimbRafael + rentFee + shareRafael, reimbGuilherme + shareGuilherme))
    else if rule == RentAfterSplit then
      var net := incomeTotal - reimbRafael - reimbGuilherme;
      var shareRafael, shareGuilherme := Share(net, split.0), Share(net, split.1);
      Success(Unrounded(rentFee, incomeTotal, reimbRafael, reimbGuilherme, net,
                        shareRafael, shareGuilherme,
                        reimbRafael + shareRafael + rentFee, reimbGuilherme + shareGuilherme))
    else
      Failure(UnsupportedRule(rule))
  }

  /** A partner's share of the pot: `net_for_split * split`. */
  function Share(net: real, ratio: real): real {
    net * ratio
  }

  /** Output assembly: every field quantised on its own. */
  function Quantize(u: Unrounded): Breakdown {
    Breakdown(Cents(u.rentFee), Cents(u.incomeTotal), Cents(u.reimbRafael), Cents(u.reimbGuilherme),
              Cents(u.netForSplit), Cents(u.shareRafael), Cents(u.shareGuilherme),
              Cents(u.totalRafael), Cents(u.totalGuilherme))
  }

  /** `compute_settlement` on values that are already Decimals, with the source's defaults. */
  function ComputeSettlement(
    expenses: map<string, real>, ifood: real, ninety9: real,
    rentFee: real := 50.0, split: (real, real) := (0.5, 0.5),
    rule: string := RentBeforeSplit): (r: Result<Breakdown, SettlementError>)
    ensures r.Failure? <==> rule != RentBeforeSplit && rule != RentAfterSplit
    ensures r.Failure? ==> r.error == UnsupportedRule(rule)
  {
    match UnroundedSettlement(expenses, ifood, ninety9, rentFee, split, rule)
    case Success(u) => Success(Quantize(u))
    case Failure(e) => Failure(e)
  }

  /**
    * `compute_settlement` on raw arguments: each is normalised with `_to_decimal`
    * in the source's order (rent fee, the two ratios, the two incomes, then the two
    * partners' expenses) before the rule is looked at. Other map entries are never read.
    */
  function ComputeSettlementOf(
    expenses: map<string, Amount>, ifood: Amount, ninety9: Amount,
    rentFee: Amount, split: (Amount, Amount), rule: string): (r: Result<Breakdown, SettlementError>)
    ensures !AllRead(expenses, ifood, ninety9, rentFee, split) <==> r.Failure? && r.error.InvalidNumber?
    ensures r.Failure? && r.error.InvalidNumber? ==>
      TextAmount(r.error.text) in Arguments(expenses, ifood, ninety9, rentFee, split)
    ensures AllRead(expenses, ifood, ninety9, rentFee, split) ==>
      r == ComputeSettlement(
             map[Rafael := ToDecimal(ExpenseArgument(expenses, Rafael)).value,
                 Guilherme := ToDecimal(ExpenseArgument(expenses, Guilherme)).value],
             ToDecimal(ifood).value, ToDecimal(ninety9).value, ToDecimal(rentFee).value,
             (ToDecimal(split.0).value, ToDecimal(split.1).value), rule)
  {
    var rent :- ToDecimal(rentFee);
    var splitRafael :- ToDecimal(split.0);
    var splitGuilherme :- ToDecimal(split.1);
    var ifoodValue :- ToDecimal(ifood);
    var ninety9Value :- ToDecimal(ninety9);
    var reimbRafael :- ToDecimal(ExpenseArgument(expenses, Rafael));
    var reimbGuilherme :- ToDecimal(ExpenseArgument(expenses, Guilherme));
    ComputeSettlement(map[Rafael := reimbRafael, Guilherme := reimbGuilherme],
                      ifoodValue, ninety9Value, rent, (splitRafael, splitGuilherme), rule)
  }

  /** `expenses_by_partner.get(partner, Decimal())` before normalisation. */
  function ExpenseArgument(expenses: map<string, Amount>, partner: string): Amount {
    if partner in expenses then expenses[partner] else DecimalAmount(0.0)
  }

  /** The arguments `compute_settlement` normalises, in the order it normalises them. */
  function Arguments(
    expenses: map<string, Amount>, ifood: Amount, ninety9: Amount,
    rentFee: Amount, split: (Amount, Amount)): seq<Amount>
  {
    [rentFee, split.0, split.1, ifood, ninety9, ExpenseArgument(expenses, Rafael), ExpenseArgument(expenses, Guilherme)]
  }

  /** Every argument is a number `_to_decimal` can read. */
  predicate AllRead(
    expenses: map<string, Amount>, ifood: Amount, ninety9: Amount,
    rentFee: Amount, split: (Amount, Amount))
  {
    && ToDecimal(rentFee).Success? && ToDecimal(split.0).Success? && ToDecimal(split.1).Success?
    && ToDecimal(ifood).Success? && ToDecimal(ninety9).Success?
    && ToDecimal(ExpenseArgument(expenses, Rafael)).Success?
    && ToDecimal(ExpenseArgument(expenses, Guilherme)).Success?
  }

  // ---------------------------------------------------------------------------
  // Quantisation

  /** The half-up interval pins the number of hundredths down uniquely. */
  lemma CentsUnique(x: real, c: int)
    requires 0.0 <= x ==> c as real - 0.5 <= 100.0 * x < c as real + 0.5
    requires x < 0.0 ==> c as real - 0.5 < 100.0 * x <= c as real + 0.5
    ensures c == Cents(x)
  {
  }

  /** A value that already has two decimal places is left as it is. */
  lemma CentsOfHundredths(k: int)
    ensures Cents(Hundredths(k)) == k
  {
    CentsUnique(Hundredths(k), k);
  }

  /** Rounding is symmetric about zero: ROUND_HALF_UP is not a floor. */
  lemma CentsOdd(x: real)
    ensures Cents(-x) == -Cents(x)
  {
  }

  /** Rounding never moves a value by more than half a hundredth. */
  lemma CentsError(x: real)
    ensures -0.005 <= Hundredths(Cents(x)) - x <= 0.005
  {
  }

  /** Ties go away from zero, not to the even neighbour. */
  lemma CentsTies()
    ensures Cents(0.005) == 1 && Cents(-0.005) == -1
    ensures Cents(0.025) == 3 && Cents(-0.025) == -3
    ensures Cents(0.0049) == 0 && Cents(-0.0049) == 0
  {
    CentsUnique(0.025, 3);
    CentsUnique(-0.025, -3);
  }

  lemma CentsMonotone(x: real, y: real)
    requires x <= y
    ensures Cents(x) <= Cents(y)
  {
  }

  // ---------------------------------------------------------------------------
  // The rules

  /** Under either rule the output holds the rent, the income sum and the reimbursements. */
  lemma {:induction false} CommonFields(
    expenses: map<string, real>, ifood: real, ninety9: real,
    rentFee: real, split: (real, real), rule: string)
    requires rule == RentBeforeSplit || rule == RentAfterSplit
    ensures var r := ComputeSettlement(expenses, ifood, ninety9, rentFee, split, rule);
      && r.Success?
      && r.value.rentFee == Cents(rentFee)
      && r.value.incomeTotal == Cents(ifood + ninety9)
      && r.value.reimbRafael == Cents(Reimbursement(expenses, Rafael))
      && r.value.reimbGuilherme == Cents(Reimbursement(expenses, Guilherme))
  {
  }

  /** A partner without an entry is reimbursed nothing; it is not an error. */
  lemma MissingPartnerReimbursedNothing(
    expenses: map<string, real>, ifood: real, ninety9: real,
    rentFee: real, split: (real, real), rule: string)
    requires rule == RentBeforeSplit || rule == RentAfterSplit
    ensures var r := ComputeSettlement(expenses, ifood, ninety9, rentFee, split, rule);
      && r.Success?
      && (Rafael !in expenses ==> r.value.reimbRafael == 0)
      && (Guilherme !in expenses ==> r.value.reimbGuilherme == 0)
  {
    CommonFields(expenses, ifood, ninety9, rentFee, split, rule);
  }

  /**
    * Rent before split: the rent leaves the pot before it is shared, Rafael gets it back
    * on top of his reimbursement and share, Guilherme gets reimbursement and share.
    */
  lemma RentBeforeSplitFields(
    expenses: map<string, real>, ifood: real, ninety9: real, rentFee: real, split: (real, real))
    ensures var u := UnroundedSettlement(expenses, ifood, ninety9, rentFee, split, RentBeforeSplit).value;
      var rR, rG := Reimbursement(expenses, Rafael), Reimbursement(expenses, Guilherme);
      && u.netForSplit == ifood + ninety9 - rR - rG - rentFee
      && u.shareRafael == u.netForSplit * split.0 && u.shareGuilherme == u.netForSplit * split.1
      && u.totalRafael == rR + rentFee + u.netForSplit * split.0
      && u.totalGuilherme == rG + u.netForSplit * split.1
  {
  }

  /**
    * Rent after split: the pot is exactly the rent larger than under rent-before-split,
    * and Rafael's total still adds the whole rent, so each partner's total grows by
    * the rent times that partner's ratio.
    */
  lemma {:induction false} RentAfterSplitVersusBefore(
    expenses: map<string, real>, ifood: real, ninety9: real, rentFee: real, split: (real, real))
    ensures var a := UnroundedSettlement(expenses, ifood, ninety9, rentFee, split, RentBeforeSplit).value;
      var b := UnroundedSettlement(expenses, ifood, ninety9, rentFee, split, RentAfterSplit).value;
      && b.netForSplit == a.netForSplit + rentFee
      && b.shareRafael == b.netForSplit * split.0 && b.shareGuilherme == b.netForSplit * split.1
      && b.totalRafael == a.totalRafael + rentFee * split.0
      && b.totalGuilherme == a.totalGuilherme + rentFee * split.1
      && b.totalRafael == b.reimbRafael + b.shareRafael + rentFee
  {
    var a := UnroundedSettlement(expenses, ifood, ninety9, rentFee, split, RentBeforeSplit).value;
    var b := UnroundedSettlement(expenses, ifood, ninety9, rentFee, split, RentAfterSplit).value;
    assert b.shareRafael == a.shareRafael + rentFee * split.0 by {
      assert b.netForSplit == a.netForSplit + rentFee;
    }
    assert b.shareGuilherme == a.shareGuilherme + rentFee * split.1 by {
      assert b.netForSplit == a.netForSplit + rentFee;
    }
  }

  /** With whole-cent inputs the published pots differ by exactly the rent. */
  lemma {:induction false} RentAfterSplitNetInCents(
    expenses: map<string, real>, ifood: int, ninety9: int, rentFee: int, split: (real, real))
    requires forall name | name in expenses :: expenses[name] == Hundredths(Cents(expenses[name]))
    ensures var a := ComputeSettlement(expenses, Hundredths(ifood), Hundredths(ninety9), Hundredths(rentFee), split, RentBeforeSplit).value;
      var b := ComputeSettlement(expenses, Hundredths(ifood), Hundredths(ninety9), Hundredths(rentFee), split, RentAfterSplit).value;
      b.netForSplit == a.netForSplit + rentFee
  {
    var rR, rG := Reimbursement(expenses, Rafael), Reimbursement(expenses, Guilherme);
    var cR, cG := Cents(rR), Cents(rG);
    assert rR == Hundredths(cR) && rG == Hundredths(cG);
    var netA := Hundredths(ifood) + Hundredths(ninety9) - rR - rG - Hundredths(rentFee);
    assert netA == Hundredths(ifood + ninety9 - cR - cG - rentFee);
    assert netA + Hundredths(rentFee) == Hundredths(ifood + ninety9 - cR - cG);
    CentsOfHundredths(ifood + ninety9 - cR - cG - rentFee);
    CentsOfHundredths(ifood + ninety9 - cR - cG);
  }

  /**
    * When the ratios add up to one, rent-before-split pays out exactly the income,
    * and rent-after-split pays out the income plus the rent.
    */
  lemma {:induction false} PayoutsAddUp(
    expenses: map<string, real>, ifood: real, ninety9: real, rentFee: real, split: (real, real))
    requires split.0 + split.1 == 1.0
    ensures var a := UnroundedSettlement(expenses, ifood, ninety9, rentFee, split, RentBeforeSplit).value;
      a.totalRafael + a.totalGuilherme == ifood + ninety9
    ensures var b := UnroundedSettlement(expenses, ifood, ninety9, rentFee, split, RentAfterSplit).value;
      b.totalRafael + b.totalGuilherme == ifood + ninety9 + rentFee
  {
    var a := UnroundedSettlement(expenses, ifood, ninety9, rentFee, split, RentBeforeSplit).value;
    assert a.shareRafael + a.shareGuilherme == a.netForSplit by {
      assert a.netForSplit * split.0 + a.netForSplit * split.1 == a.netForSplit * (split.0 + split.1);
    }
    var b := UnroundedSettlement(expenses, ifood, ninety9, rentFee, split, RentAfterSplit).value;
    assert b.shareRafael + b.shareGuilherme == b.netForSplit by {
      assert b.netForSplit * split.0 + b.netForSplit * split.1 == b.netForSplit * (split.0 + split.1);
    }
  }

  /**
    * Each published field is the half-up rounding of its exact value, ties away
    * from zero, and so lies within half a hundredth of it.
    */
  lemma {:induction false} FieldsAreRounded(
    expenses: map<string, real>, ifood: real, ninety9: real,
    rentFee: real, split: (real, real), rule: string)
    requires rule == RentBeforeSplit || rule == RentAfterSplit
    ensures var u := UnroundedSettlement(expenses, ifood, ninety9, rentFee, split, rule).value;
      var b := ComputeSettlement(expenses, ifood, ninety9, rentFee, split, rule).value;
      && b.netForSplit == Cents(u.netForSplit)
      && b.shareRafael == Cents(u.shareRafael) && b.shareGuilherme == Cents(u.shareGuilherme)
      && b.totalRafael == Cents(u.totalRafael) && b.totalGuilherme == Cents(u.totalGuilherme)
    ensures var u := UnroundedSettlement(expenses, ifood, ninety9, rentFee, split, rule).value;
      var b := ComputeSettlement(expenses, ifood, ninety9, rentFee, split, rule).value;
      && -0.005 <= Hundredths(b.netForSplit) - u.netForSplit <= 0.005
      && -0.005 <= Hundredths(b.shareRafael) - u.shareRafael <= 0.005
      && -0.005 <= Hundredths(b.shareGuilherme) - u.shareGuilherme <= 0.005
      && -0.005 <= Hundredths(b.totalRafael) - u.totalRafael <= 0.005
      && -0.005 <= Hundredths(b.totalGuilherme) - u.totalGuilherme <= 0.005
  {
    var u := UnroundedSettlement(expenses, ifood, ninety9, rentFee, split, rule).value;
    CentsError(u.netForSplit);
    CentsError(u.shareRafael);
    CentsError(u.shareGuilherme);
    CentsError(u.totalRafael);
    CentsError(u.totalGuilherme);
  }

  /**
    * Rent before split with ratios adding up to one: the two published totals add up
    * to the published income within one hundredth (each is rounded on its own).
    */
  lemma {:induction false} TotalsWithinOneCent(
    expenses: map<string, real>, ifood: real, ninety9: real, rentFee: real, split: (real, real))
    requires split.0 + split.1 == 1.0
    ensures var b := ComputeSettlement(expenses, ifood, ninety9, rentFee, split, RentBeforeSplit).value;
      -1 <= b.totalRafael + b.totalGuilherme - b.incomeTotal <= 1
  {
    var u := UnroundedSettlement(expenses, ifood, ninety9, rentFee, split, RentBeforeSplit).value;
    PayoutsAddUp(expenses, ifood, ninety9, rentFee, split);
    CentsError(u.totalRafael);
    CentsError(u.totalGuilherme);
    CentsError(u.incomeTotal);
  }

  /**
    * Under either rule each published share is the rounding of the exact pot times
    * that partner's ratio: the pot is not rounded before it is shared.
    */
  lemma {:induction false} SharesUseUnroundedNet(
    expenses: map<string, real>, ifood: real, ninety9: real,
    rentFee: real, split: (real, real), rule: string)
    requires rule == RentBeforeSplit || rule == RentAfterSplit
    ensures var u := UnroundedSettlement(expenses, ifood, ninety9, rentFee, split, rule).value;
      var b := ComputeSettlement(expenses, ifood, ninety9, rentFee, split, rule).value;
      && b.shareRafael == Cents(Share(u.netForSplit, split.0))
      && b.shareGuilherme == Cents(Share(u.netForSplit, split.1))
  {
  }

  lemma RoundedProduct(c: int, s: real, net: real, ratio: real)
    requires c == Cents(s) && s == net * ratio
    ensures c == Cents(net * ratio)
  {
  }

  /** A pot of 0.009 is published as 0.01, yet each half of it rounds to 0.00. */
  lemma SharesUseUnroundedNetExample()
    ensures var b := ComputeSettlement(map[], 0.009, 0.0, 0.0).value;
      b.netForSplit == 1 && b.shareRafael == 0 && b.shareGuilherme == 0
  {
    CentsTies();
  }

  // ---------------------------------------------------------------------------
  // The worked cases of the test suite (defaults: rent 50, split 0.5/0.5, rent before split)

  lemma BaseCase()
    ensures var b := ComputeSettlement(map[Rafael := 500.0, Guilherme := 0.0], 500.0, 500.0).value;
      b.netForSplit == 45000 && b.totalRafael == 77500 && b.totalGuilherme == 22500
  {
  }

  lemma NoExpensesCase()
    ensures var b := ComputeSettlement(map[], 1000.0, 500.0).value;
      && b.reimbRafael == 0 && b.reimbGuilherme == 0
      && b.netForSplit == 145000 && b.totalRafael == 77500 && b.totalGuilherme == 72500
  {
  }

  /** Losses are published as they are, not clamped at zero. */
  lemma NegativeNetCase()
    ensures var b := ComputeSettlement(map[Rafael := 800.0, Guilherme := 200.0], 500.0, 100.0).value;
      b.netForSplit == -45000 && b.totalRafael == 62500 && b.totalGuilherme == -2500
  {
  }

  lemma UnknownRuleCase()
    ensures ComputeSettlement(map[], 1000.0, 500.0, rule := "rent_split") == Failure(UnsupportedRule("rent_split"))
  {
  }

  /** Raw text arguments are read exactly. */
  lemma {:induction false} TextArgumentsCase()
    ensures ComputeSettlementOf(map[], TextAmount("1000"), IntAmount(500), TextAmount("50.00"),
                                (TextAmount("0.50"), DecimalAmount(0.5)), RentBeforeSplit)
            == ComputeSettlement(map[Rafael := 0.0, Guilherme := 0.0], 1000.0, 500.0)
  {
    ReadsThousand();
    ReadsFifty();
    ReadsHalf();
  }

  lemma ReadsThousand()
    ensures ToDecimal(TextAmount("1000")) == Success(1000.0)
  {
    assert DigitChar(0) == '0' && DigitChar(1) == '1';
    assert NatText(1000) == "1000" by {
      assert NatText(1) == "1" && NatText(10) == "10" && NatText(100) == "100";
    }
    assert IntText(1000) == "1000";
    IntTextRoundTrip(1000);
  }

  lemma ReadsFifty()
    ensures ToDecimal(TextAmount("50.00")) == Success(50.0)
  {
    assert DigitChar(0) == '0' && DigitChar(5) == '5';
    assert CentsText(5000) == "50.00" by {
      assert NatText(5) == "5" && NatText(50) == "50";
    }
    CentsTextRoundTrip(5000);
  }

  lemma ReadsHalf()
    ensures ToDecimal(TextAmount("0.50")) == Success(0.5)
  {
    assert DigitChar(0) == '0' && DigitChar(5) == '5';
    assert CentsText(50) == "0.50" by {
      assert CentsText(50) == NatText(0) + "." + [DigitChar(5), DigitChar(0)];
      assert NatText(0) == "0";
    }
    CentsTextRoundTrip(50);
  }

  /** Text that is not a number fails before the rule is looked at. */
  lemma {:induction false} BadTextCase()
    ensures ComputeSettlementOf(map[], TextAmount("1,000"), IntAmount(500), DecimalAmount(50.0),
                                (DecimalAmount(0.5), DecimalAmount(0.5)), "rent_split")
            == Failure(InvalidNumber("1,000"))
  {
    ForeignCharRejected("1,000", 1);
  }
}

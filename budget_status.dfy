/** The computation behind `updateBudgetDisplay`: the share of the budget already spent,
    the status band it falls in, the progress bar's width and colour class, and the amount
    the status message quotes. */
module BudgetStatus {

  /** `part` as a percentage of `whole`, or 0 unless `whole` is positive: the spend
      against the budget here, and an item against the grand total in the breakdown. */
  function Percentage(part: real, whole: real): (p: real)
    ensures whole <= 0.0 ==> p == 0.0
    ensures whole > 0.0 ==> p * whole == part * 100.0
  {
    if whole > 0.0 then part / whole * 100.0 else 0.0
  }

  /** The four status messages: under budget, approaching the limit, over budget, and
      significantly over budget. */
  datatype Band = Under | Approaching | Over | SignificantlyOver

  /** The chain of tests that picks the status message. */
  function BandOf(p: real): (b: Band)
    ensures b == Under <==> p < 90.0
    ensures b == Approaching <==> 90.0 <= p < 100.0
    ensures b == Over <==> 100.0 <= p < 110.0
    ensures b == SignificantlyOver <==> 110.0 <= p
  {
    if p < 90.0 then Under
    else if p >= 90.0 && p < 100.0 then Approaching
    else if p >= 100.0 && p < 110.0 then Over
    else SignificantlyOver
  }

  /** Position of a band from least to most spent. */
  function Severity(b: Band): nat {
    match b
    case Under => 0
    case Approaching => 1
    case Over => 2
    case SignificantlyOver => 3
  }

  /** `Math.min(percentage, 100)`: the bar never grows past full width and otherwise
      follows the percentage. */
  function BarWidth(p: real): (w: real)
    ensures w <= 100.0 && w <= p
    ensures w == p || w == 100.0
  {
    if p < 100.0 then p else 100.0
  }

  /** The class added to `budget-bar`: none, `warning` or `danger`. */
  datatype BarClass = Plain | Warning | Danger

  function BarClassOf(p: real): (c: BarClass)
    ensures c == Warning <==> 90.0 <= p < 100.0
    ensures c == Danger <==> 100.0 <= p
  {
    if p >= 90.0 && p < 100.0 then Warning
    else if p >= 100.0 then Danger
    else Plain
  }

  /** The class added to `budget-status`; the two "over" bands share one. */
  function StatusClass(b: Band): (r: string)
    ensures r == "over" <==> Severity(b) >= 2
  {
    match b
    case Under => "under"
    case Approaching => "at"
    case Over => "over"
    case SignificantlyOver => "over"
  }

  /** The amount the message quotes: what remains while under the budget, its absolute
      value once over it. */
  function MessageAmount(b: Band, remaining: real): (r: real)
    ensures Severity(b) >= 2 ==> r >= 0.0
    ensures r == remaining || r == -remaining
  {
    match b
    case Under => remaining
    case Approaching => remaining
    case Over => if remaining < 0.0 then -remaining else remaining
    case SignificantlyOver => if remaining < 0.0 then -remaining else remaining
  }

  /** Everything `updateBudgetDisplay` derives from the amount spent and the budget. */
  datatype Status = Status(
    remaining: real,
    percentage: real,
    barWidth: real,
    bar: BarClass,
    band: Band,
    statusClass: string,
    quoted: real)

  function Evaluate(spent: real, budget: real): (s: Status)
    ensures s.remaining == budget - spent
    ensures budget <= 0.0 ==> s.percentage == 0.0
    ensures budget > 0.0 ==> s.percentage * budget == spent * 100.0
    ensures s.barWidth <= 100.0 && s.barWidth <= s.percentage
    ensures s.barWidth == s.percentage || s.barWidth == 100.0
    ensures s.band == BandOf(s.percentage)
    ensures s.bar == Plain <==> s.band == Under
    ensures s.bar == Warning <==> s.band == Approaching
    ensures s.bar == Danger <==> Severity(s.band) >= 2
    ensures s.statusClass == StatusClass(s.band)
    ensures s.quoted == s.remaining || s.quoted == -s.remaining
    ensures Severity(s.band) >= 2 ==> s.quoted >= 0.0
  {
    var remaining := budget - spent;
    var p := Percentage(spent, budget);
    var band := BandOf(p);
    BarAgreesWithBand(p);
    Status(remaining, p, BarWidth(p), BarClassOf(p), band, StatusClass(band), MessageAmount(band, remaining))
  }

  // ---------------------------------------------------------------- properties

  /** The bar colour and the message agree: no class while under, `warning` while
      approaching, `danger` in both over bands. */
  lemma BarAgreesWithBand(p: real)
    ensures BarClassOf(p) == Plain <==> BandOf(p) == Under
    ensures BarClassOf(p) == Warning <==> BandOf(p) == Approaching
    ensures BarClassOf(p) == Danger <==> Severity(BandOf(p)) >= 2
  {
  }

  /** Spending more never moves the status to a milder band. */
  lemma BandMonotone(p: real, q: real)
    requires p <= q
    ensures Severity(BandOf(p)) <= Severity(BandOf(q))
  {
  }

  /** With a positive budget the percentage is below a threshold `t` exactly when the
      spend is below `t` hundredths of the budget. */
  lemma PercentageBelow(spent: real, budget: real, t: real)
    requires budget > 0.0
    ensures Percentage(spent, budget) < t <==> spent * 100.0 < t * budget
  {
    var p := Percentage(spent, budget);
    assert p * budget == spent * 100.0;
    if p < t {
      assert (t - p) * budget > 0.0;
    } else {
      assert (p - t) * budget >= 0.0;
    }
  }

  /** With a positive budget the bands in terms of money: under below 90% of the budget,
      approaching up to the budget, over up to 110% of it, significantly over beyond. */
  lemma BandBySpent(spent: real, budget: real)
    requires budget > 0.0
    ensures var b := BandOf(Percentage(spent, budget));
      (b == Under <==> spent < 0.9 * budget) &&
      (b == Approaching <==> 0.9 * budget <= spent < budget) &&
      (b == Over <==> budget <= spent < 1.1 * budget) &&
      (b == SignificantlyOver <==> 1.1 * budget <= spent)
  {
    PercentageBelow(spent, budget, 90.0);
    PercentageBelow(spent, budget, 100.0);
    PercentageBelow(spent, budget, 110.0);
  }

  /** The message quotes a positive amount left while under the budget, and the exact
      overspend once over it. */
  lemma QuotedAmount(spent: real, budget: real)
    requires budget > 0.0
    ensures var s := Evaluate(spent, budget);
      (Severity(s.band) < 2 ==> s.quoted == budget - spent && s.quoted > 0.0) &&
      (Severity(s.band) >= 2 ==> s.quoted == spent - budget && s.quoted >= 0.0)
  {
    BandBySpent(spent, budget);
  }

  /** Without a budget the percentage is 0, so the status reads "under" with no bar. */
  lemma NoBudget(spent: real, budget: real)
    requires budget <= 0.0
    ensures var s := Evaluate(spent, budget);
      s.percentage == 0.0 && s.barWidth == 0.0 && s.bar == Plain && s.band == Under
  {
  }

  /** A budget of 100: spending 89, 95, 105 and 150 gives the four bands in turn, and the
      bar is full from 100 on. */
  lemma HundredExamples()
    ensures Evaluate(89.0, 100.0).band == Under && Evaluate(89.0, 100.0).barWidth == 89.0
    ensures Evaluate(95.0, 100.0).band == Approaching && Evaluate(95.0, 100.0).bar == Warning
      && Evaluate(95.0, 100.0).barWidth == 95.0
    ensures Evaluate(105.0, 100.0).band == Over && Evaluate(105.0, 100.0).quoted == 5.0
    ensures Evaluate(150.0, 100.0).band == SignificantlyOver && Evaluate(150.0, 100.0).barWidth == 100.0
  {
    assert Percentage(89.0, 100.0) == 89.0;
    assert Percentage(95.0, 100.0) == 95.0;
    assert Percentage(105.0, 100.0) == 105.0;
    assert Percentage(150.0, 100.0) == 150.0;
  }
}

/** `evaluate_risk_guards` and its condition matrix. */
module RiskGuards {
  import opened ReasonCodes

  datatype GuardStatus = Success | DegradedGuard | Abort

  datatype Condition = MaxDrawdown | DailyLossLimit | MaxPositionSize | MaxTradeLoss | MaxLeverage | MaxWalletDrift

  // The six figures, as limits or as current readings.
  datatype Figures = Figures(drawdown: real, dailyLoss: real, positionSize: real, tradeLoss: real, leverage: real, walletDrift: real) {
    function Of(c: Condition): real {
      match c
      case MaxDrawdown => drawdown
      case DailyLossLimit => dailyLoss
      case MaxPositionSize => positionSize
      case MaxTradeLoss => tradeLoss
      case MaxLeverage => leverage
      case MaxWalletDrift => walletDrift
    }
  }

  function MatrixStatus(c: Condition): GuardStatus {
    if c in {MaxDrawdown, MaxTradeLoss} then Abort else DegradedGuard
  }

  function MatrixCode(c: Condition): ReasonCode {
    match c
    case MaxDrawdown => MaxDrawdownExceeded
    case DailyLossLimit => DailyLossLimitExceeded
    case MaxPositionSize => MaxPositionSizeExceeded
    case MaxTradeLoss => MaxTradeLossExceeded
    case MaxLeverage => MaxLeverageExceeded
    case MaxWalletDrift => WalletDriftExceeded
  }

  function Severity(s: GuardStatus): nat {
    match s
    case Success => 0
    case DegradedGuard => 1
    case Abort => 2
  }

  const CHECKS := [MaxDrawdown, DailyLossLimit, MaxPositionSize, MaxTradeLoss, MaxLeverage, MaxWalletDrift]

  predicate Exceeded(limits: Figures, current: Figures, c: Condition) {
    current.Of(c) > limits.Of(c)
  }

  // What a guard evaluation must come to.
  predicate Verdict(limits: Figures, current: Figures, status: GuardStatus) {
    && (status == Success <==> forall c: Condition :: !Exceeded(limits, current, c))
    && (status == Abort <==> Exceeded(limits, current, MaxDrawdown) || Exceeded(limits, current, MaxTradeLoss))
  }

  // The codes of the exceeded conditions, in the order of the checks.
  function Codes(limits: Figures, current: Figures, checks: seq<Condition>): seq<ReasonCode> {
    if checks == [] then [] else
    var before, c := Codes(limits, current, checks[..|checks| - 1]), checks[|checks| - 1];
    if Exceeded(limits, current, c) then before + [MatrixCode(c)] else before
  }

  method EvaluateRiskGuards(limits: Figures, current: Figures) returns (status: GuardStatus, reasons: seq<ReasonCode>)
    ensures Verdict(limits, current, status)
    ensures reasons == Codes(limits, current, CHECKS)
  {
    status, reasons := Success, [];
    for i := 0 to |CHECKS|
      invariant reasons == Codes(limits, current, CHECKS[..i])
      invariant forall j | 0 <= j < i && Exceeded(limits, current, CHECKS[j]) :: Severity(MatrixStatus(CHECKS[j])) <= Severity(status)
      invariant status != Success ==> exists j | 0 <= j < i :: Exceeded(limits, current, CHECKS[j]) && MatrixStatus(CHECKS[j]) == status
    {
      assert CHECKS[..i + 1][..i] == CHECKS[..i];
      if Exceeded(limits, current, CHECKS[i]) {
        reasons := reasons + [MatrixCode(CHECKS[i])];
        var candidate := MatrixStatus(CHECKS[i]);
        if Severity(candidate) > Severity(status) {
          status := candidate;
        }
      }
    }
    assert CHECKS[..|CHECKS|] == CHECKS;
    assert CHECKS[0] == MaxDrawdown && CHECKS[1] == DailyLossLimit && CHECKS[2] == MaxPositionSize;
    assert CHECKS[3] == MaxTradeLoss && CHECKS[4] == MaxLeverage && CHECKS[5] == MaxWalletDrift;
  }

  // There is one verdict, and a code for each exceeded condition.
  lemma VerdictUnique(limits: Figures, current: Figures, a: GuardStatus, b: GuardStatus)
    requires Verdict(limits, current, a) && Verdict(limits, current, b)
    ensures a == b
  {
  }

  lemma {:induction false} CodesOfExceeded(limits: Figures, current: Figures, checks: seq<Condition>)
    ensures forall c <- checks | Exceeded(limits, current, c) :: MatrixCode(c) in Codes(limits, current, checks)
    ensures forall code <- Codes(limits, current, checks) :: exists c <- checks :: Exceeded(limits, current, c) && MatrixCode(c) == code
  {
    if checks != [] {
      var init := checks[..|checks| - 1];
      CodesOfExceeded(limits, current, init);
      assert checks == init + [checks[|checks| - 1]];
    }
  }

  lemma CodeMeans(limits: Figures, current: Figures, c: Condition)
    ensures MatrixCode(c) in Codes(limits, current, CHECKS) <==> Exceeded(limits, current, c)
  {
    EveryConditionChecked(c);
    CodesOfExceeded(limits, current, CHECKS);
    if Exceeded(limits, current, c) {
      assert c in CHECKS;
    }
  }

  // Each code by its own figure and its own limit.
  lemma CodesInFigures(limits: Figures, current: Figures)
    ensures var codes := Codes(limits, current, CHECKS);
            && (MaxDrawdownExceeded in codes <==> current.drawdown > limits.drawdown)
            && (DailyLossLimitExceeded in codes <==> current.dailyLoss > limits.dailyLoss)
            && (MaxPositionSizeExceeded in codes <==> current.positionSize > limits.positionSize)
            && (MaxTradeLossExceeded in codes <==> current.tradeLoss > limits.tradeLoss)
            && (MaxLeverageExceeded in codes <==> current.leverage > limits.leverage)
            && (WalletDriftExceeded in codes <==> current.walletDrift > limits.walletDrift)
  {
    CodeMeans(limits, current, MaxDrawdown);
    CodeMeans(limits, current, DailyLossLimit);
    CodeMeans(limits, current, MaxPositionSize);
    CodeMeans(limits, current, MaxTradeLoss);
    CodeMeans(limits, current, MaxLeverage);
    CodeMeans(limits, current, MaxWalletDrift);
  }

  // No other code is reported.
  lemma {:induction false} OnlyGuardCodes(limits: Figures, current: Figures, checks: seq<Condition>, code: ReasonCode)
    requires code in Codes(limits, current, checks)
    ensures code in {MaxDrawdownExceeded, DailyLossLimitExceeded, MaxPositionSizeExceeded, MaxTradeLossExceeded, MaxLeverageExceeded, WalletDriftExceeded}
  {
    CodesOfExceeded(limits, current, checks);
    var c :| c in checks && Exceeded(limits, current, c) && MatrixCode(c) == code;
  }

  // A stopped run always says why.
  lemma NotSuccessHasCode(limits: Figures, current: Figures, status: GuardStatus)
    requires Verdict(limits, current, status) && status != Success
    ensures Codes(limits, current, CHECKS) != []
  {
    var c :| Exceeded(limits, current, c);
    EveryConditionChecked(c);
    CodesOfExceeded(limits, current, CHECKS);
    assert MatrixCode(c) in Codes(limits, current, CHECKS);
  }

  lemma EveryConditionChecked(c: Condition)
    ensures c in CHECKS
  {
    assert CHECKS[0] == MaxDrawdown && CHECKS[1] == DailyLossLimit && CHECKS[2] == MaxPositionSize;
    assert CHECKS[3] == MaxTradeLoss && CHECKS[4] == MaxLeverage && CHECKS[5] == MaxWalletDrift;
  }
}

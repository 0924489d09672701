/**
 * The acceptance policy applied to a decoded verification response: a fixed
 * chain of checks, each of which may reject with its own reason, evaluated in
 * order until the first rejection.
 */
module Policy {
  import opened Wrappers
  import opened Types

  /** The minimum score in force: the caller's threshold unless it is zero. */
  function Threshold(options: VerifyOption): (t: real)
    ensures t != 0.0
    ensures t == options.threshold || t == DefaultThreshold
    ensures options.threshold != 0.0 ==> t == options.threshold
  {
    if options.threshold != 0.0 then options.threshold else DefaultThreshold
  }

  /**
   * The general checks, then the scoring-version checks. `elapsed` is the number
   * of seconds between the challenge and the moment of evaluation.
   */
  function Confirm(res: Response, options: VerifyOption, elapsed: real): (r: Outcome)
    ensures r.RemoteError? <==> res.errorCodes.Some?
    ensures r.RemoteError? ==> r.codes == res.errorCodes.value
    ensures r.ChallengeFailed? <==> res.errorCodes.None? && !res.success
    ensures !r.RemoteError? && !r.ChallengeFailed? ==> res.errorCodes.None? && res.success
    ensures r.HostnameMismatch? ==>
              r.got == res.hostname && r.want == options.hostname && r.want != "" && r.got != r.want
    ensures r.ResponseTooSlow? ==>
              r.spent == elapsed && r.limit == options.responseTime && r.limit != 0.0 && r.limit < r.spent
    ensures r.ApkMismatch? ==>
              res.apkPackageName == Some(r.got) && r.want == options.apkPackageName && r.want != "" && r.got != r.want
    ensures r.ActionMismatch? ==>
              res.action == Some(r.got) && r.want == options.action && r.want != "" && r.got != r.want
    ensures r.ScoreTooLow? ==>
              res.score == Some(r.score) && r.threshold == Threshold(options) && r.score <= r.threshold
  {
    if res.errorCodes.Some? then RemoteError(res.errorCodes.value)
    else if !res.success then ChallengeFailed
    else if |options.hostname| > 0 && options.hostname != res.hostname then
      HostnameMismatch(res.hostname, options.hostname)
    else if options.responseTime != 0.0 && options.responseTime < elapsed then
      ResponseTooSlow(elapsed, options.responseTime)
    else if res.apkPackageName.Some? && |options.apkPackageName| > 0
            && options.apkPackageName != res.apkPackageName.value then
      ApkMismatch(res.apkPackageName.value, options.apkPackageName)
    else ConfirmV3(res, options)
  }

  /** The scoring-version checks: ignored when the response carries neither score nor action. */
  function ConfirmV3(res: Response, options: VerifyOption): (r: Outcome)
    ensures r == Accept || r.ActionMismatch? || r.ScoreTooLow?
    ensures res.score.None? && res.action.None? ==> r == Accept
    ensures r.ActionMismatch? ==>
              res.action == Some(r.got) && r.want == options.action && r.want != "" && r.got != r.want
    ensures r.ScoreTooLow? ==>
              res.score == Some(r.score) && r.threshold == Threshold(options) && r.score <= r.threshold
    ensures r == Accept ==> res.score.None? || Threshold(options) < res.score.value
  {
    if res.score.None? && res.action.None? then Accept
    else if res.action.Some? && |options.action| > 0 && options.action != res.action.value then
      ActionMismatch(res.action.value, options.action)
    else if res.score.None? then Accept
    else
      var threshold := Threshold(options);
      if threshold >= res.score.value then ScoreTooLow(res.score.value, threshold)
      else Accept
  }

  // ---------------------------------------------------------------------------
  // An independent statement of the policy: the checks as separate stages,
  // their order as data, and acceptance as a plain conjunction.
  // ---------------------------------------------------------------------------

  /** One acceptance check of the policy. */
  datatype Stage = CheckErrorCodes | CheckSuccess | CheckHostname | CheckResponseTime | CheckApkPackage | CheckAction | CheckScore

  /** The order in which the checks are made. */
  const Order: seq<Stage> := [CheckErrorCodes, CheckSuccess, CheckHostname, CheckResponseTime, CheckApkPackage, CheckAction, CheckScore]

  /** The verdict of a single stage considered on its own: `Accept` when it passes. */
  function Verdict(stage: Stage, res: Response, options: VerifyOption, elapsed: real): (v: Outcome)
  {
    match stage
    case CheckErrorCodes =>
      if res.errorCodes.Some? then RemoteError(res.errorCodes.value) else Accept
    case CheckSuccess =>
      if res.success then Accept else ChallengeFailed
    case CheckHostname =>
      if options.hostname == "" || options.hostname == res.hostname then Accept
      else HostnameMismatch(res.hostname, options.hostname)
    case CheckResponseTime =>
      if options.responseTime == 0.0 || elapsed <= options.responseTime then Accept
      else ResponseTooSlow(elapsed, options.responseTime)
    case CheckApkPackage => (
      match res.apkPackageName
      case None => Accept
      case Some(got) =>
        if options.apkPackageName == "" || options.apkPackageName == got then Accept
        else ApkMismatch(got, options.apkPackageName))
    case CheckAction => (
      match res.action
      case None => Accept
      case Some(got) =>
        if options.action == "" || options.action == got then Accept
        else ActionMismatch(got, options.action))
    case CheckScore => (
      match res.score
      case None => Accept
      case Some(score) =>
        if Threshold(options) < score then Accept else ScoreTooLow(score, Threshold(options)))
  }

  /** The verdicts of the given stages, in the same order. */
  function Verdicts(stages: seq<Stage>, res: Response, options: VerifyOption, elapsed: real): (v: seq<Outcome>)
    ensures |v| == |stages|
    ensures forall i :: 0 <= i < |stages| ==> v[i] == Verdict(stages[i], res, options, elapsed)
  {
    if stages == [] then []
    else [Verdict(stages[0], res, options, elapsed)] + Verdicts(stages[1..], res, options, elapsed)
  }

  /** Short-circuit evaluation: the first rejection in the list, or `Accept` if there is none. */
  function FirstFailure(verdicts: seq<Outcome>): (r: Outcome)
    ensures r != Accept ==> r in verdicts
    ensures r == Accept && verdicts != [] ==> verdicts[0] == Accept
  {
    if verdicts == [] then Accept
    else if verdicts[0] != Accept then verdicts[0]
    else FirstFailure(verdicts[1..])
  }

  /** Acceptance stated as a conjunction: every check is passed or switched off. */
  predicate Admissible(res: Response, options: VerifyOption, elapsed: real)
  {
    && res.errorCodes.None?
    && res.success
    && (options.hostname == "" || options.hostname == res.hostname)
    && (options.responseTime == 0.0 || elapsed <= options.responseTime)
    && (res.apkPackageName.None? || options.apkPackageName == ""
        || options.apkPackageName == res.apkPackageName.value)
    && (res.action.None? || options.action == "" || options.action == res.action.value)
    && (res.score.None? || Threshold(options) < res.score.value)
  }

  // ---------------------------------------------------------------------------
  // Short-circuit evaluation
  // ---------------------------------------------------------------------------

  /** A list of verdicts accepts exactly when every verdict in it accepts. */
  lemma {:induction false} FirstFailureAcceptIff(verdicts: seq<Outcome>)
    ensures FirstFailure(verdicts) == Accept <==> forall i :: 0 <= i < |verdicts| ==> verdicts[i] == Accept
  {
    if verdicts != [] {
      FirstFailureAcceptIff(verdicts[1..]);
      if FirstFailure(verdicts) == Accept {
        forall i | 0 <= i < |verdicts| ensures verdicts[i] == Accept {
          if i > 0 { assert verdicts[i] == verdicts[1..][i - 1]; }
        }
      } else if verdicts[0] == Accept {
        var j :| 0 <= j < |verdicts[1..]| && verdicts[1..][j] != Accept;
        assert verdicts[j + 1] != Accept;
      }
    }
  }

  /** A rejection is the verdict at some position, and every verdict before it accepts. */
  lemma {:induction false} FirstFailureAt(verdicts: seq<Outcome>) returns (k: nat)
    requires FirstFailure(verdicts) != Accept
    ensures k < |verdicts| && verdicts[k] == FirstFailure(verdicts)
    ensures forall j :: 0 <= j < k ==> verdicts[j] == Accept
  {
    if verdicts[0] != Accept {
      k := 0;
    } else {
      var k' := FirstFailureAt(verdicts[1..]);
      k := k' + 1;
      forall j | 0 <= j < k ensures verdicts[j] == Accept {
        if j > 0 { assert verdicts[j] == verdicts[1..][j - 1]; }
      }
    }
  }

  /** One step of short-circuit evaluation on a suffix of the verdicts. */
  lemma FirstFailureStep(verdicts: seq<Outcome>, i: nat)
    requires i < |verdicts|
    ensures FirstFailure(verdicts[i..]) ==
              if verdicts[i] != Accept then verdicts[i] else FirstFailure(verdicts[i + 1..])
  {
    assert verdicts[i..][1..] == verdicts[i + 1..];
  }

  /** Short-circuit evaluation of seven verdicts, written out. */
  lemma FirstFailureOfSeven(v: seq<Outcome>)
    requires |v| == 7
    ensures FirstFailure(v) ==
              if v[0] != Accept then v[0] else if v[1] != Accept then v[1]
              else if v[2] != Accept then v[2] else if v[3] != Accept then v[3]
              else if v[4] != Accept then v[4] else if v[5] != Accept then v[5] else v[6]
  {
    assert v[0..] == v;
    assert v[7..] == [];
    FirstFailureStep(v, 0);
    FirstFailureStep(v, 1);
    FirstFailureStep(v, 2);
    FirstFailureStep(v, 3);
    FirstFailureStep(v, 4);
    FirstFailureStep(v, 5);
    FirstFailureStep(v, 6);
  }

  /** The stages of Order, listed. */
  lemma VerdictsOfOrder(res: Response, options: VerifyOption, elapsed: real)
    ensures var v := Verdicts(Order, res, options, elapsed);
            && |v| == 7
            && v[0] == Verdict(CheckErrorCodes, res, options, elapsed)
            && v[1] == Verdict(CheckSuccess, res, options, elapsed)
            && v[2] == Verdict(CheckHostname, res, options, elapsed)
            && v[3] == Verdict(CheckResponseTime, res, options, elapsed)
            && v[4] == Verdict(CheckApkPackage, res, options, elapsed)
            && v[5] == Verdict(CheckAction, res, options, elapsed)
            && v[6] == Verdict(CheckScore, res, options, elapsed)
  {
  }

  /** Confirm's early returns, each rewritten as the verdict of one stage. */
  lemma ConfirmByStages(res: Response, options: VerifyOption, elapsed: real)
    ensures var V := (s: Stage) => Verdict(s, res, options, elapsed);
            Confirm(res, options, elapsed) ==
              if V(CheckErrorCodes) != Accept then V(CheckErrorCodes)
              else if V(CheckSuccess) != Accept then V(CheckSuccess)
              else if V(CheckHostname) != Accept then V(CheckHostname)
              else if V(CheckResponseTime) != Accept then V(CheckResponseTime)
              else if V(CheckApkPackage) != Accept then V(CheckApkPackage)
              else if V(CheckAction) != Accept then V(CheckAction)
              else V(CheckScore)
  {
  }

  /** The nested early returns of Confirm are exactly short-circuit evaluation of the stages in Order. */
  lemma ConfirmIsFirstFailure(res: Response, options: VerifyOption, elapsed: real)
    ensures Confirm(res, options, elapsed) == FirstFailure(Verdicts(Order, res, options, elapsed))
  {
    VerdictsOfOrder(res, options, elapsed);
    FirstFailureOfSeven(Verdicts(Order, res, options, elapsed));
    ConfirmByStages(res, options, elapsed);
  }

  /**
   * A rejection names the first failing stage of Order: the stage at its position
   * rejects with exactly this reason, and every stage before it passes.
   */
  lemma RejectionIsFirstFailingStage(res: Response, options: VerifyOption, elapsed: real) returns (k: nat)
    requires Confirm(res, options, elapsed) != Accept
    ensures k < |Order| && Verdict(Order[k], res, options, elapsed) == Confirm(res, options, elapsed)
    ensures forall j :: 0 <= j < k ==> Verdict(Order[j], res, options, elapsed) == Accept
  {
    ConfirmIsFirstFailure(res, options, elapsed);
    k := FirstFailureAt(Verdicts(Order, res, options, elapsed));
  }

  /** Confirm accepts exactly the admissible responses. */
  lemma ConfirmAcceptIff(res: Response, options: VerifyOption, elapsed: real)
    ensures Confirm(res, options, elapsed) == Accept <==> Admissible(res, options, elapsed)
  {
  }

  // ---------------------------------------------------------------------------
  // Checks that are switched off, boundaries and monotonicity
  // ---------------------------------------------------------------------------

  /** With no expected hostname, the response's hostname has no influence at all. */
  lemma HostnameIgnoredWhenUnset(res: Response, options: VerifyOption, elapsed: real, hostname: string)
    requires options.hostname == ""
    ensures Confirm(res, options, elapsed) == Confirm(res.(hostname := hostname), options, elapsed)
  {
  }

  /** With no expected package name, the response's package name has no influence at all. */
  lemma ApkIgnoredWhenUnset(res: Response, options: VerifyOption, elapsed: real, apk: Option<string>)
    requires options.apkPackageName == ""
    ensures Confirm(res, options, elapsed) == Confirm(res.(apkPackageName := apk), options, elapsed)
  {
  }

  /** With no expected action, the response's action (present or absent) has no influence at all. */
  lemma ActionIgnoredWhenUnset(res: Response, options: VerifyOption, elapsed: real, action: Option<string>)
    requires options.action == ""
    ensures Confirm(res, options, elapsed) == Confirm(res.(action := action), options, elapsed)
  {
  }

  /** With no time limit, elapsed time has no influence at all. */
  lemma ElapsedIgnoredWhenUnset(res: Response, options: VerifyOption, elapsed: real, elapsed': real)
    requires options.responseTime == 0.0
    ensures Confirm(res, options, elapsed) == Confirm(res, options, elapsed')
  {
  }

  /** A response of the non-scoring (v2) version is judged without regard to the threshold and action options. */
  lemma ScoringOptionsIgnoredForV2(res: Response, options: VerifyOption, elapsed: real, threshold: real, action: string)
    requires res.score.None? && res.action.None?
    ensures Confirm(res, options, elapsed) == Confirm(res, options.(threshold := threshold, action := action), elapsed)
  {
  }

  /** The time limit is inclusive: a response exactly at the limit is never too slow. */
  lemma ResponseTimeLimitInclusive(res: Response, options: VerifyOption)
    ensures !Confirm(res, options, options.responseTime).ResponseTooSlow?
  {
  }

  /** Answering faster never turns an acceptance into a rejection. */
  lemma FasterStillAccepted(res: Response, options: VerifyOption, elapsed: real, faster: real)
    requires faster <= elapsed
    requires Confirm(res, options, elapsed) == Accept
    ensures Confirm(res, options, faster) == Accept
  {
  }

  /** A higher score never turns an acceptance into a rejection. */
  lemma HigherScoreStillAccepted(res: Response, options: VerifyOption, elapsed: real, higher: real)
    requires res.score.Some? && res.score.value <= higher
    requires Confirm(res, options, elapsed) == Accept
    ensures Confirm(res.(score := Some(higher)), options, elapsed) == Accept
  {
  }

  /** The score check is strict: a score equal to the threshold in force is rejected. */
  lemma ScoreAtThresholdRejected(res: Response, options: VerifyOption, elapsed: real)
    requires res.score == Some(Threshold(options))
    ensures Confirm(res, options, elapsed) != Accept
  {
  }

  /** Under the options of a plain Verify only the remote verdict and the default score threshold matter. */
  lemma DefaultOptionsAcceptIff(res: Response, elapsed: real)
    ensures Confirm(res, NoOptions, elapsed) == Accept <==>
              res.errorCodes.None? && res.success && (res.score.None? || DefaultThreshold < res.score.value)
  {
  }

  /** The scenarios of the package's own test suite. */
  lemma TestSuiteScenarios(elapsed: real)
    ensures var r := Response(false, 0.0, None, None, "", None, None);
            Confirm(r, NoOptions, elapsed) == ChallengeFailed
    ensures var r := Response(true, 0.0, None, None, "localhost", None, None);
            Confirm(r, NoOptions.(hostname := "localhost1"), elapsed) == HostnameMismatch("localhost", "localhost1")
    ensures var r := Response(true, 0.0, None, None, "", Some("app name"), None);
            Confirm(r, NoOptions.(apkPackageName := "app name1"), elapsed) == ApkMismatch("app name", "app name1")
    ensures var r := Response(true, 0.0, Some(0.4), None, "", None, None);
            Confirm(r, NoOptions.(threshold := 0.6), elapsed) == ScoreTooLow(0.4, 0.6)
            && Confirm(r, NoOptions, elapsed) == ScoreTooLow(0.4, 0.5)
    ensures var r := Response(true, 0.0, None, Some("homepage"), "", None, None);
            Confirm(r, NoOptions.(action := "homepage1"), elapsed) == ActionMismatch("homepage", "homepage1")
            && Confirm(r, NoOptions, elapsed) == Accept
    ensures Confirm(Response(true, 0.0, None, None, "", None, None), NoOptions, elapsed) == Accept
    ensures Confirm(Response(true, 0.0, Some(1.0), None, "", None, None), NoOptions, elapsed) == Accept
    ensures Confirm(Response(true, 0.0, Some(0.5), None, "", None, None), NoOptions, elapsed).ScoreTooLow?
    ensures Confirm(Response(true, 0.0, Some(0.50001), None, "", None, None), NoOptions, elapsed) == Accept
    ensures Confirm(Response(true, 0.0, None, None, "", None, Some([])), NoOptions, elapsed) == RemoteError([])
  {
  }

  /** The suite's response-time scenario: a one-second limit, with more than a second elapsed. */
  lemma TestSuiteResponseTimeScenario(elapsed: real)
    requires 1.0 < elapsed
    ensures Confirm(Response(true, 0.0, None, None, "", None, None), NoOptions.(responseTime := 1.0), elapsed)
              == ResponseTooSlow(elapsed, 1.0)
  {
  }
}

/**
 What the verdict engine decides, said of the scan results themselves and in plain values:
 which reports delete, which quarantine, what a passing message looks like, which class and
 reason a decision carries, and what a scanner that is down does.
 */
module VerdictEvidence {
  import opened Verdict
  import opened VerdictLaws

  // ----- Reading results ------------------------------------------------------------------------

  /** With distinct scanners each result is what its scanner says, and nothing else counts. */
  lemma ResultCounts(results: seq<ScanResult>, r: ScanResult)
    requires DistinctScanners(results) && r in results && !r.scanner.Other?
    ensures Of(ReportsOf(results), r.scanner) == Reported(r) && ReadOff(ReportsOf(results), Collect(results))
  {
    CollectReadsOff(results);
    ReportExact(results, r.scanner);
  }

  lemma ReportIsResult(results: seq<ScanResult>, k: Scanner)
    requires DistinctScanners(results) && !k.Other?
    ensures Of(ReportsOf(results), k).Reported? ==>
              Of(ReportsOf(results), k).result in results && Of(ReportsOf(results), k).result.scanner == k
    ensures ReadOff(ReportsOf(results), Collect(results))
  {
    CollectReadsOff(results);
    ReportExact(results, k);
  }

  // ----- A scanner that is down ---------------------------------------------------------------------

  /** ClamAV, YARA and rspamd are the scanners a verdict cannot do without. */
  predicate Down(r: ScanResult) {
    r.finding == Error && (r.scanner == ClamAV || r.scanner == Yara || r.scanner == Rspamd)
  }

  /** A report that is not enough by itself. */
  predicate WeakReport(r: ScanResult) {
    || (r.scanner == IpReputation && r.finding == Suspicious)
    || (r.scanner == VirusTotal && r.finding == Malicious && 1.0 <= r.score < 3.0)
    || (r.scanner == NrdCheck && r.finding == Suspicious)
    || (r.scanner == HiddenText && r.finding == Suspicious)
  }

  predicate Authenticated(e: Email) {
    e.spf == "pass" || e.dkim == "pass" || e.dmarc == "pass"
  }

  predicate NoWeakSignal(s: Signals) {
    !s.ipSuspicious && !(0 < s.vtPositives < 3) && s.nrd.Quiet? && s.hidden.Quiet?
  }

  lemma AbsorbsNoWeak(s: Signals, r: ScanResult)
    requires NoWeakSignal(s) && !WeakReport(r)
    ensures NoWeakSignal(Absorb(s, r))
  {
  }

  lemma {:induction false} NoWeakReport(results: seq<ScanResult>)
    requires forall i :: 0 <= i < |results| ==> !WeakReport(results[i])
    ensures NoWeakSignal(Collect(results))
  {
    if results != [] {
      NoWeakReport(results[..|results| - 1]);
      AbsorbsNoWeak(Collect(results[..|results| - 1]), results[|results| - 1]);
    }
  }

  /** When one of the three is down nothing passes, and without any weak signal the message is
      quarantined or deleted. */
  lemma DownNeverPasses(t: Thresholds, e: Email, results: seq<ScanResult>, r: ScanResult)
    requires r in results && Down(r)
    ensures var d := DecideSpec(t, e, results).decision;
      && d != Pass
      && (Authenticated(e) && (forall q :: q in results ==> !WeakReport(q)) ==> d == Quarantine || d == Delete)
  {
    DecisionTable(t, e, results);
    if forall q :: q in results ==> !WeakReport(q) { NoWeakReport(results); }
  }

  // ----- What each report does ------------------------------------------------------------------------

  /** The report makes the message malware. */
  predicate SaysMalware(r: ScanResult) {
    r.finding == Malicious &&
    (|| r.scanner == ClamAV || r.scanner == Yara || r.scanner == MalwareBazaar || r.scanner == IpReputation
     || (r.scanner == VirusTotal && r.score >= 3.0))
  }

  /** The report makes the message phishing. */
  predicate SaysPhishing(r: ScanResult) {
    || (r.scanner == UrlCheck && (r.finding == Malicious || r.finding == Suspicious))
    || (r.scanner == UrlUnshorten && r.finding == Malicious)
    || (r.scanner == Onnx && r.finding == Malicious)
  }

  predicate Scores(r: ScanResult, threshold: real) {
    r.scanner == Rspamd && r.score >= threshold
  }

  predicate SaysSmuggling(r: ScanResult) {
    r.scanner == HtmlSmuggling && r.finding == Suspicious
  }

  lemma MalwareDeletes(t: Thresholds, e: Email, results: seq<ScanResult>, r: ScanResult)
    requires DistinctScanners(results) && r in results && SaysMalware(r)
    ensures var v := DecideSpec(t, e, results); v.decision == Delete && v.class_ == MALWARE && 0.85 <= v.confidence <= 0.99
  {
    MalwareCounts(results, r);
    DecisionTable(t, e, results);
    ClassTable(t, e, Collect(results), FirstCritical(results));
    ConfidenceTable(t, e, Collect(results), FirstCritical(results));
  }

  lemma MalwareCounts(results: seq<ScanResult>, r: ScanResult)
    requires DistinctScanners(results) && r in results && SaysMalware(r)
    ensures MalwareSignal(Collect(results))
  {
    ResultCounts(results, r);
    if r.scanner == VirusTotal { TruncateKeepsThree(r.score); }
  }

  lemma TruncateKeepsThree(x: real)
    ensures x >= 3.0 ==> Truncate(x) >= 3
    ensures 1.0 <= x < 3.0 ==> 0 < Truncate(x) < 3
  {
  }

  lemma RejectScoreDeletes(t: Thresholds, e: Email, results: seq<ScanResult>, r: ScanResult)
    requires DistinctScanners(results) && r in results && Scores(r, t.reject)
    ensures var v := DecideSpec(t, e, results); v.decision == Delete && (v.class_ == SPAM || v.class_ == MALWARE)
  {
    ResultCounts(results, r);
  }

  lemma StrongCounts(t: Thresholds, e: Email, results: seq<ScanResult>, r: ScanResult)
    requires DistinctScanners(results) && r in results && (SaysPhishing(r) || Scores(r, t.spam) || SaysSmuggling(r))
    ensures StrongEvidence(t, e, Collect(results))
  {
    ResultCounts(results, r);
  }

  /** Phishing, a spam score, an executable attachment or HTML smuggling quarantines at least. */
  lemma StrongQuarantines(t: Thresholds, e: Email, results: seq<ScanResult>, r: ScanResult)
    requires DistinctScanners(results) && r in results
    requires SaysPhishing(r) || Scores(r, t.spam) || SaysSmuggling(r) || e.hasExecutable
    ensures var d := DecideSpec(t, e, results).decision; d == Quarantine || d == Delete
  {
    if SaysPhishing(r) || Scores(r, t.spam) || SaysSmuggling(r) { StrongCounts(t, e, results, r); }
    DecisionTable(t, e, results);
  }

  lemma WeakCounts(e: Email, results: seq<ScanResult>, r: ScanResult)
    requires DistinctScanners(results) && r in results && WeakReport(r)
    ensures WeakCount(e, Collect(results)) >= 1
  {
    ResultCounts(results, r);
    var s := Collect(results);
    if r.scanner == VirusTotal {
      TruncateKeepsThree(r.score);
      assert s.vtPositives == Truncate(r.score);
    } else if r.scanner == IpReputation {
      assert s.ipSuspicious;
    } else {
      assert s.nrd.Hit? || s.hidden.Hit?;
    }
  }

  lemma SuspiciousAiCounts(t: Thresholds, e: Email, results: seq<ScanResult>, r: ScanResult)
    requires DistinctScanners(results) && r in results && r.scanner == Onnx && r.finding == Suspicious && !Authenticated(e)
    ensures StrongEvidence(t, e, Collect(results))
  {
    ResultCounts(results, r);
  }

  /** A weak report, or a message that no check authenticates, never passes; missing
      authentication beside a suspicious AI verdict quarantines at least. */
  lemma WeakNeverPasses(t: Thresholds, e: Email, results: seq<ScanResult>, r: ScanResult)
    requires DistinctScanners(results) && r in results && (WeakReport(r) || !Authenticated(e))
    ensures DecideSpec(t, e, results).decision != Pass
    ensures r.scanner == Onnx && r.finding == Suspicious && !Authenticated(e) ==>
              var d := DecideSpec(t, e, results).decision; d == Quarantine || d == Delete
  {
    if WeakReport(r) { WeakCounts(e, results, r); }
    if r.scanner == Onnx && r.finding == Suspicious && !Authenticated(e) { SuspiciousAiCounts(t, e, results, r); }
    DecisionTable(t, e, results);
  }

  /** Two weak reports quarantine at least. */
  lemma TwoWeakQuarantine(t: Thresholds, e: Email, results: seq<ScanResult>, p: ScanResult, q: ScanResult)
    requires DistinctScanners(results) && p in results && q in results && p.scanner != q.scanner
    requires WeakReport(p) && WeakReport(q)
    ensures var d := DecideSpec(t, e, results).decision; d == Quarantine || d == Delete
  {
    ResultCounts(results, p);
    ResultCounts(results, q);
    DecisionTable(t, e, results);
  }

  // ----- What passes -------------------------------------------------------------------------------------

  /** A report that lets the message through. */
  predicate Harmless(t: Thresholds, r: ScanResult) {
    && !Down(r) && !WeakReport(r) && !SaysMalware(r) && !SaysPhishing(r) && !SaysSmuggling(r)
    && !Scores(r, t.spam) && !Scores(r, t.reject)
  }

  /** A message passes exactly if it is authenticated, has no executable attachment, and every
      report is harmless; where rspamd is silent its score counts as zero. */
  lemma PassesExactly(t: Thresholds, e: Email, results: seq<ScanResult>)
    requires DistinctScanners(results)
    ensures DecideSpec(t, e, results).decision == Pass <==>
            && Authenticated(e) && !e.hasExecutable && (forall r :: r in results ==> Harmless(t, r))
            && ((exists r :: r in results && r.scanner == Rspamd) || (0.0 < t.spam && 0.0 < t.reject))
  {
    if DecideSpec(t, e, results).decision == Pass {
      forall r | r in results ensures Harmless(t, r) { PassedIsHarmless(t, e, results, r); }
      PassedScore(t, e, results);
    } else if && Authenticated(e) && !e.hasExecutable && (forall r :: r in results ==> Harmless(t, r))
              && ((exists r :: r in results && r.scanner == Rspamd) || (0.0 < t.spam && 0.0 < t.reject)) {
      HarmlessPasses(t, e, results);
    }
  }

  lemma PassedIsHarmless(t: Thresholds, e: Email, results: seq<ScanResult>, r: ScanResult)
    requires DistinctScanners(results) && DecideSpec(t, e, results).decision == Pass && r in results
    ensures Harmless(t, r)
  {
    if SaysMalware(r) { MalwareDeletes(t, e, results, r); }
    if Scores(r, t.reject) { RejectScoreDeletes(t, e, results, r); }
    if SaysPhishing(r) || Scores(r, t.spam) || SaysSmuggling(r) { StrongQuarantines(t, e, results, r); }
    if WeakReport(r) { WeakNeverPasses(t, e, results, r); }
    if Down(r) { DownNeverPasses(t, e, results, r); }
  }

  lemma PassedScore(t: Thresholds, e: Email, results: seq<ScanResult>)
    requires DistinctScanners(results) && DecideSpec(t, e, results).decision == Pass
    ensures Authenticated(e) && !e.hasExecutable
    ensures (exists r :: r in results && r.scanner == Rspamd) || (0.0 < t.spam && 0.0 < t.reject)
  {
    ReportIsResult(results, Rspamd);
  }

  lemma HarmlessPasses(t: Thresholds, e: Email, results: seq<ScanResult>)
    requires DistinctScanners(results) && Authenticated(e) && !e.hasExecutable && forall r :: r in results ==> Harmless(t, r)
    requires (exists r :: r in results && r.scanner == Rspamd) || (0.0 < t.spam && 0.0 < t.reject)
    ensures DecideSpec(t, e, results).decision == Pass
  {
    var p := ReportsOf(results);
    forall k: Scanner | !k.Other? ensures Of(p, k).Reported? ==> Harmless(t, Of(p, k).result) && Of(p, k).result.scanner == k {
      ReportIsResult(results, k);
    }
    CollectReadsOff(results);
    HarmlessSignals(t, p, Collect(results));
    HarmlessScore(t, results);
    FirstCriticalExact(results);
  }

  lemma HarmlessScore(t: Thresholds, results: seq<ScanResult>)
    requires DistinctScanners(results) && forall r :: r in results ==> Harmless(t, r)
    requires (exists r :: r in results && r.scanner == Rspamd) || (0.0 < t.spam && 0.0 < t.reject)
    ensures Collect(results).rspamdScore < t.spam && Collect(results).rspamdScore < t.reject
  {
    ReportIsResult(results, Rspamd);
    ReportExact(results, Rspamd);
  }

  /** Harmless reports leave no signal. */
  lemma HarmlessSignals(t: Thresholds, p: Reports, s: Signals)
    requires ReadOff(p, s)
    requires forall k: Scanner :: !k.Other? ==> Of(p, k).Reported? ==> Harmless(t, Of(p, k).result) && Of(p, k).result.scanner == k
    ensures s.clam.Quiet? && s.yara.Quiet? && s.mb.Quiet? && !s.ipMalicious && !s.ipSuspicious && s.vtPositives <= 0
    ensures s.url.Quiet? && !s.onnxMalicious && s.smuggling.Quiet? && s.nrd.Quiet? && s.hidden.Quiet?
  {
    assert Of(p, ClamAV) == p.clam && Of(p, Yara) == p.yara && Of(p, MalwareBazaar) == p.mb && Of(p, IpReputation) == p.ip;
    assert Of(p, VirusTotal) == p.vt && Of(p, UrlCheck) == p.url && Of(p, UrlUnshorten) == p.unshorten && Of(p, Onnx) == p.onnx;
    assert Of(p, HtmlSmuggling) == p.smuggling && Of(p, NrdCheck) == p.nrd && Of(p, HiddenText) == p.hidden;
  }

  // ----- Class and confidence -----------------------------------------------------------------------------

  predicate MalwareSignal(s: Signals) {
    s.clam.Hit? || s.yara.Hit? || s.vtPositives >= 3 || s.mb.Hit? || s.ipMalicious
  }

  predicate PhishingSignal(s: Signals) {
    s.url.Hit? || s.onnxMalicious
  }

  /** Which class a decision carries: malware before everything, then a reject score, then
      phishing, then a spam score, and the rest is suspicious or clean. */
  lemma ClassTable(t: Thresholds, e: Email, s: Signals, c: Failure)
    ensures var v := Rules(t, e, s, c);
      && (v.class_ == MALWARE <==> MalwareSignal(s))
      && (v.class_ == SPAM <==>
          !MalwareSignal(s) && (s.rspamdScore >= t.reject || (s.rspamdScore >= t.spam && !PhishingSignal(s))))
      && (v.class_ == PHISH <==> !MalwareSignal(s) && s.rspamdScore < t.reject && PhishingSignal(s))
      && (v.class_ == CLEAN <==> v.decision == Pass)
      && (v.decision == Delete ==> v.class_ == MALWARE || v.class_ == SPAM)
      && (v.decision == Flag ==> v.class_ == SUSPICIOUS)
  {
  }

  /** How sure a decision is. */
  lemma ConfidenceTable(t: Thresholds, e: Email, s: Signals, c: Failure)
    ensures var v := Rules(t, e, s, c);
      && (v.decision == Flag ==> v.confidence == 0.40)
      && (v.decision == Pass ==> v.confidence == 1.0)
      && (s.clam.Hit? ==> v.confidence == 0.99)
      && (MalwareSignal(s) ==> 0.85 <= v.confidence <= 0.99)
      && (v.class_ == PHISH ==> v.confidence == if s.url.Hit? then 0.97 else 0.87)
      && (v.class_ == SUSPICIOUS ==> 0.40 <= v.confidence <= 0.80)
      && (v.class_ == SPAM ==> v.confidence == ScaleConfidence(s.rspamdScore, t.spam, t.reject))
  {
  }

  /** The scaled confidence runs from 0.70 at the lower threshold to 0.99 at the upper one. */
  lemma ScaleEnds(low: real, high: real, score: real)
    requires low < high
    ensures ScaleConfidence(low, low, high) == 0.70 && ScaleConfidence(high, low, high) == 0.99
    ensures score > high ==> ScaleConfidence(score, low, high) == 0.99
  {
    var d := high - low;
    assert d / d == 1.0 && (low - low) / d == 0.0;
    if score > high {
      Ratio(score - low, d);
    }
  }

  lemma Ratio(x: real, d: real)
    requires d > 0.0 && x > d
    ensures x / d > 1.0
  {
    assert x / d * d == x;
    if x / d <= 1.0 { AtMost(x / d, d); }
  }

  lemma AtMost(ratio: real, d: real)
    requires d > 0.0 && ratio <= 1.0
    ensures ratio * d <= d
  {
    assert (1.0 - ratio) * d >= 0.0;
  }

  // ----- Reasons -----------------------------------------------------------------------------------------------

  predicate Says(results: seq<ScanResult>, k: Scanner, f: Finding, detail: string) {
    exists r :: r in results && r.scanner == k && r.finding == f && r.detail == detail
  }

  /** The reason names what it rests on: a report with its detail, a score and its threshold, a
      scanner that is down. */
  predicate True(t: Thresholds, e: Email, results: seq<ScanResult>, v: VerdictDecision) {
    match v.reason
    case ClamReason(d) => Says(results, ClamAV, Malicious, d)
    case YaraReason(d) => Says(results, Yara, Malicious, d)
    case VtReason(d) => Says(results, VirusTotal, Malicious, d)
    case MbReason(d) => Says(results, MalwareBazaar, Malicious, d)
    case IpReason(d) => Says(results, IpReputation, Malicious, d)
    case AiPhishReason(d) => Says(results, Onnx, Malicious, d)
    case AiDgaReason(d) => Says(results, Onnx, Suspicious, d)
    case SmugglingReason(d) => Says(results, HtmlSmuggling, Suspicious, d)
    case UrlReason(_) => exists r :: r in results && SaysPhishing(r) && r.scanner != Onnx
    case RejectReason(score, threshold) => threshold == t.reject && score >= threshold
    case SpamReason(score, threshold) => threshold == t.spam && t.reject > score >= threshold
    case ExtensionReason(extensions) => e.hasExecutable && extensions == Extensions(e.attachments)
    case WeakReason(signals) => signals != [] && (|signals| == 1 <==> v.decision == Flag)
    case ScannerFailedReason(k) => exists r :: r in results && Down(r) && r.scanner == k
    case NoThreatReason => v.decision == Pass
  }

  lemma ReportSays(results: seq<ScanResult>, k: Scanner, f: Finding)
    requires DistinctScanners(results) && !k.Other? && Said(Of(ReportsOf(results), k), f)
    ensures Says(results, k, f, Of(ReportsOf(results), k).result.detail)
  {
    ReportIsResult(results, k);
  }

  lemma UrlReported(results: seq<ScanResult>)
    requires DistinctScanners(results) && Collect(results).url.Hit?
    ensures exists r :: r in results && SaysPhishing(r) && r.scanner != Onnx
  {
    ReportIsResult(results, UrlCheck);
    ReportIsResult(results, UrlUnshorten);
    var p := ReportsOf(results);
    if Said(p.unshorten, Malicious) {
      assert p.unshorten.result in results && SaysPhishing(p.unshorten.result);
    } else {
      assert p.url.result in results && SaysPhishing(p.url.result);
    }
  }

  /** The same of the collected signals. */
  predicate TrueOfSignals(t: Thresholds, e: Email, s: Signals, c: Failure, v: VerdictDecision) {
    match v.reason
    case ClamReason(d) => s.clam == Hit(d)
    case YaraReason(d) => s.yara == Hit(d)
    case VtReason(d) => s.vtPositives >= 3 && s.vtDetail == d
    case MbReason(d) => s.mb == Hit(d)
    case IpReason(d) => s.ipMalicious && s.ipDetail == d
    case AiPhishReason(d) => s.onnxMalicious && s.onnxDetail == d
    case AiDgaReason(d) => s.onnxSuspicious && s.onnxDetail == d
    case SmugglingReason(d) => s.smuggling == Hit(d)
    case UrlReason(_) => s.url.Hit?
    case RejectReason(score, threshold) => threshold == t.reject && score >= threshold
    case SpamReason(score, threshold) => threshold == t.spam && t.reject > score >= threshold
    case ExtensionReason(extensions) => e.hasExecutable && extensions == Extensions(e.attachments)
    case WeakReason(signals) => signals != [] && (|signals| == 1 <==> v.decision == Flag)
    case ScannerFailedReason(k) => c == Failed(k)
    case NoThreatReason => v.decision == Pass
  }

  lemma RulesGiveTrueReasons(t: Thresholds, e: Email, s: Signals, c: Failure)
    ensures TrueOfSignals(t, e, s, c, Rules(t, e, s, c))
  {
  }

  lemma DownNamed(results: seq<ScanResult>, k: Scanner)
    requires FirstCritical(results) == Failed(k)
    ensures exists r :: r in results && Down(r) && r.scanner == k
  {
    FirstCriticalExact(results);
    var r :| r in results && CriticalError(r) && r.scanner == k;
    assert Down(r);
  }

  lemma MalwareReasonIsTrue(t: Thresholds, e: Email, results: seq<ScanResult>, v: VerdictDecision)
    requires DistinctScanners(results) && TrueOfSignals(t, e, Collect(results), FirstCritical(results), v)
    requires v.reason.ClamReason? || v.reason.YaraReason? || v.reason.VtReason? || v.reason.MbReason? || v.reason.IpReason?
    ensures True(t, e, results, v)
  {
    CollectReadsOff(results);
    match v.reason
    case ClamReason(_) => ReportSays(results, ClamAV, Malicious);
    case YaraReason(_) => ReportSays(results, Yara, Malicious);
    case VtReason(_) => ReportSays(results, VirusTotal, Malicious);
    case MbReason(_) => ReportSays(results, MalwareBazaar, Malicious);
    case IpReason(_) => ReportSays(results, IpReputation, Malicious);
  }

  lemma ContentReasonIsTrue(t: Thresholds, e: Email, results: seq<ScanResult>, v: VerdictDecision)
    requires DistinctScanners(results) && TrueOfSignals(t, e, Collect(results), FirstCritical(results), v)
    requires v.reason.AiPhishReason? || v.reason.AiDgaReason? || v.reason.SmugglingReason?
    ensures True(t, e, results, v)
  {
    CollectReadsOff(results);
    match v.reason
    case AiPhishReason(_) => ReportSays(results, Onnx, Malicious);
    case AiDgaReason(_) => ReportSays(results, Onnx, Suspicious);
    case SmugglingReason(_) => ReportSays(results, HtmlSmuggling, Suspicious);
  }

  lemma TrueOfResults(t: Thresholds, e: Email, results: seq<ScanResult>, v: VerdictDecision)
    requires DistinctScanners(results) && TrueOfSignals(t, e, Collect(results), FirstCritical(results), v)
    ensures True(t, e, results, v)
  {
    match v.reason
    case UrlReason(_) => UrlReported(results);
    case ScannerFailedReason(k) => DownNamed(results, k);
    case AiPhishReason(_) => ContentReasonIsTrue(t, e, results, v);
    case AiDgaReason(_) => ContentReasonIsTrue(t, e, results, v);
    case SmugglingReason(_) => ContentReasonIsTrue(t, e, results, v);
    case RejectReason(_, _) =>
    case SpamReason(_, _) =>
    case ExtensionReason(_) =>
    case WeakReason(_) =>
    case NoThreatReason =>
    case _ => MalwareReasonIsTrue(t, e, results, v);
  }

  lemma ReasonIsTrue(t: Thresholds, e: Email, results: seq<ScanResult>)
    requires DistinctScanners(results)
    ensures True(t, e, results, DecideSpec(t, e, results))
  {
    RulesGiveTrueReasons(t, e, Collect(results), FirstCritical(results));
    TrueOfResults(t, e, results, DecideSpec(t, e, results));
  }
}

/**
 What the verdict engine promises beyond its decision table: monotonicity in the evidence
 and its one exception, fail-closed behaviour, confidence bounds, and independence of the order in
 which the scanners report.
 */
module VerdictLaws {
  import opened Verdict

  // ----- Monotonicity ---------------------------------------------------------------

  function Rank(d: Decision): nat {
    match d case Pass => 0 case Flag => 1 case Quarantine => 2 case Delete => 3
  }

  predicate Implies(a: bool, b: bool) { a ==> b }

  /** Every signal of (e2, s2) is at least as alarming as that of (e1, s1). */
  predicate Raised(e1: Email, s1: Signals, e2: Email, s2: Signals) {
    && Implies(s1.clam.Hit?, s2.clam.Hit?) && Implies(s1.yara.Hit?, s2.yara.Hit?)
    && Implies(s1.url.Hit?, s2.url.Hit?) && Implies(s1.mb.Hit?, s2.mb.Hit?)
    && Implies(s1.nrd.Hit?, s2.nrd.Hit?) && Implies(s1.smuggling.Hit?, s2.smuggling.Hit?)
    && Implies(s1.hidden.Hit?, s2.hidden.Hit?)
    && Implies(s1.ipMalicious, s2.ipMalicious)
    && Implies(s1.ipSuspicious, s2.ipSuspicious || s2.ipMalicious)
    && Implies(s1.onnxMalicious, s2.onnxMalicious)
    && Implies(s1.onnxSuspicious, s2.onnxSuspicious || s2.onnxMalicious)
    && s1.rspamdScore <= s2.rspamdScore && s1.vtPositives <= s2.vtPositives
    && Implies(e1.hasExecutable, e2.hasExecutable) && Implies(AuthPass(e2), AuthPass(e1))
  }

  /** More evidence lowers the decision in exactly one family of cases: a critical scanner
      failed, nothing weak or strong was found before, and the added evidence is one weak
      signal, which turns a fail-closed quarantine into a flag. */
  lemma MonotoneExceptFailClosed(t: Thresholds, e1: Email, s1: Signals, c1: Failure,
                                 e2: Email, s2: Signals, c2: Failure)
    requires Raised(e1, s1, e2, s2) && (c1.Failed? ==> c2.Failed?)
    ensures Rank(Rules(t, e2, s2, c2).decision) < Rank(Rules(t, e1, s1, c1).decision) <==>
      && c1.Failed? && WeakCount(e1, s1) == 0 && WeakCount(e2, s2) == 1
      && !DeleteEvidence(t, s2) && !StrongEvidence(t, e2, s2)
  {
  }

  /** With every critical scanner healthy the decision is monotone in the evidence. */
  lemma Monotone(t: Thresholds, e1: Email, results1: seq<ScanResult>, e2: Email, results2: seq<ScanResult>)
    requires forall r :: r in results1 ==> !CriticalError(r)
    requires Raised(e1, Collect(results1), e2, Collect(results2))
    ensures Rank(DecideSpec(t, e1, results1).decision) <= Rank(DecideSpec(t, e2, results2).decision)
  {
    FirstCriticalExact(results1);
    MonotoneExceptFailClosed(t, e1, Collect(results1), FirstCritical(results1), e2, Collect(results2), FirstCritical(results2));
  }

  /** Fail-closed: after a critical failure nothing passes, and the message stays below
      quarantine exactly when one weak signal is all there is. */
  lemma FailClosed(t: Thresholds, e: Email, results: seq<ScanResult>, r: ScanResult)
    requires r in results && CriticalError(r)
    ensures var d, s := DecideSpec(t, e, results).decision, Collect(results);
      && !d.Pass?
      && (Rank(d) < Rank(Quarantine) <==> WeakCount(e, s) == 1 && !DeleteEvidence(t, s) && !StrongEvidence(t, e, s))
  {
    DecisionTable(t, e, results);
  }

  /** The exception is real: clamd down and one weak signal gives a flag, although clamd
      down and no signal at all gives a quarantine. */
  lemma FailClosedIsNotTotal()
    ensures var t, down := Thresholds(6.0, 15.0), ScanResult(ClamAV, Error, 0.0, "");
      && DecideSpec(t, Email("pass", "none", "none", false, []), [down]).decision == Quarantine
      && DecideSpec(t, Email("none", "none", "none", false, []), [down]).decision == Flag
  {
    var t, down := Thresholds(6.0, 15.0), ScanResult(ClamAV, Error, 0.0, "");
    assert [down][..0] == [];
    assert Collect([down]) == NoSignals;
    assert "none"[0] == 'n' && "pass"[0] == 'p';
  }

  // ----- Confidence -----------------------------------------------------------------

  lemma ScaleBounds(score: real, low: real, high: real)
    requires low <= score || high <= low
    ensures 0.70 <= ScaleConfidence(score, low, high) <= 0.99
  {
    if low < high {
      var d := high - low;
      assert (score - low) / d * d == score - low;
      assert (score - low) / d >= 0.0;
    }
  }

  /** Confidence lies in [0.40, 1.0] for every input and every pair of thresholds. */
  lemma ConfidenceBounds(t: Thresholds, e: Email, results: seq<ScanResult>)
    ensures 0.40 <= DecideSpec(t, e, results).confidence <= 1.0
  {
    var s := Collect(results);
    if t.reject <= t.spam || t.spam <= s.rspamdScore {
      ScaleBounds(s.rspamdScore, t.spam, t.reject);
    }
  }

  /** A higher rspamd score never lowers the scaled confidence. */
  lemma ScaleMonotone(a: real, b: real, low: real, high: real)
    requires a <= b
    ensures ScaleConfidence(a, low, high) <= ScaleConfidence(b, low, high)
  {
    if low < high {
      var d := high - low;
      assert (a - low) / d * d == a - low && (b - low) / d * d == b - low;
      assert (a - low) / d <= (b - low) / d;
    }
  }

  // ----- Independence of the arrival order ---------------------------------------------

  predicate DistinctScanners(results: seq<ScanResult>) {
    forall i, j :: 0 <= i < j < |results| ==> results[i].scanner != results[j].scanner
  }

  datatype Report = Silent | Reported(result: ScanResult)

  /** What each known scanner reported. */
  datatype Reports = Reports(rspamd: Report, clam: Report, yara: Report, url: Report, unshorten: Report, nrd: Report,
                             smuggling: Report, hidden: Report, vt: Report, mb: Report, ip: Report, onnx: Report)

  const NoReports := Reports(Silent, Silent, Silent, Silent, Silent, Silent, Silent, Silent, Silent, Silent, Silent, Silent)

  function Note(p: Reports, r: ScanResult): Reports {
    match r.scanner
    case Rspamd => p.(rspamd := Reported(r))
    case ClamAV => p.(clam := Reported(r))
    case Yara => p.(yara := Reported(r))
    case UrlCheck => p.(url := Reported(r))
    case UrlUnshorten => p.(unshorten := Reported(r))
    case NrdCheck => p.(nrd := Reported(r))
    case HtmlSmuggling => p.(smuggling := Reported(r))
    case HiddenText => p.(hidden := Reported(r))
    case VirusTotal => p.(vt := Reported(r))
    case MalwareBazaar => p.(mb := Reported(r))
    case IpReputation => p.(ip := Reported(r))
    case Onnx => p.(onnx := Reported(r))
    case Other(_) => p
  }

  function Of(p: Reports, k: Scanner): Report {
    match k
    case Rspamd => p.rspamd
    case ClamAV => p.clam
    case Yara => p.yara
    case UrlCheck => p.url
    case UrlUnshorten => p.unshorten
    case NrdCheck => p.nrd
    case HtmlSmuggling => p.smuggling
    case HiddenText => p.hidden
    case VirusTotal => p.vt
    case MalwareBazaar => p.mb
    case IpReputation => p.ip
    case Onnx => p.onnx
    case Other(_) => Silent
  }

  function ReportsOf(results: seq<ScanResult>): Reports {
    if results == [] then NoReports
    else Note(ReportsOf(results[..|results| - 1]), results[|results| - 1])
  }

  predicate Said(o: Report, f: Finding) {
    o.Reported? && o.result.finding == f
  }

  function DetailIf(o: Report, f: Finding): Hit {
    if Said(o, f) then Hit(o.result.detail) else Quiet
  }

  /** The signals are what the individual reports say; only the URL detail is left open. */
  predicate ReadOff(p: Reports, s: Signals) {
    && s.rspamdScore == (if p.rspamd.Reported? then p.rspamd.result.score else 0.0)
    && s.clam == DetailIf(p.clam, Malicious)
    && s.yara == DetailIf(p.yara, Malicious)
    && s.mb == DetailIf(p.mb, Malicious)
    && s.nrd == DetailIf(p.nrd, Suspicious)
    && s.smuggling == DetailIf(p.smuggling, Suspicious)
    && s.hidden == DetailIf(p.hidden, Suspicious)
    && (s.url.Hit? <==> Said(p.url, Malicious) || Said(p.url, Suspicious) || Said(p.unshorten, Malicious))
    && s.vtPositives == (if Said(p.vt, Malicious) then Truncate(p.vt.result.score) else 0)
    && s.vtDetail == (if Said(p.vt, Malicious) then p.vt.result.detail else "")
    && (s.ipMalicious <==> Said(p.ip, Malicious)) && (s.ipSuspicious <==> Said(p.ip, Suspicious))
    && s.ipDetail == (if s.ipMalicious || s.ipSuspicious then p.ip.result.detail else "")
    && (s.onnxMalicious <==> Said(p.onnx, Malicious)) && (s.onnxSuspicious <==> Said(p.onnx, Suspicious))
    && s.onnxDetail == (if s.onnxMalicious || s.onnxSuspicious then p.onnx.result.detail else "")
  }

  // One lemma per scanner: its report moves the signals it owns and no others.

  lemma RspamdOwns(p: Reports, s: Signals, r: ScanResult)
    requires ReadOff(p, s) && p.rspamd == Silent
    ensures ReadOff(p.(rspamd := Reported(r)), s.(rspamdScore := r.score))
  {}

  lemma ClamAVOwns(p: Reports, s: Signals, r: ScanResult)
    requires ReadOff(p, s) && p.clam == Silent
    ensures ReadOff(p.(clam := Reported(r)),
      if r.finding.Malicious? then s.(clam := Hit(r.detail)) else s)
  {}

  lemma YaraOwns(p: Reports, s: Signals, r: ScanResult)
    requires ReadOff(p, s) && p.yara == Silent
    ensures ReadOff(p.(yara := Reported(r)),
      if r.finding.Malicious? then s.(yara := Hit(r.detail)) else s)
  {}

  lemma MalwareBazaarOwns(p: Reports, s: Signals, r: ScanResult)
    requires ReadOff(p, s) && p.mb == Silent
    ensures ReadOff(p.(mb := Reported(r)),
      if r.finding.Malicious? then s.(mb := Hit(r.detail)) else s)
  {}

  lemma UrlCheckOwns(p: Reports, s: Signals, r: ScanResult)
    requires ReadOff(p, s) && p.url == Silent
    ensures ReadOff(p.(url := Reported(r)),
      if r.finding.Malicious? || r.finding.Suspicious? then s.(url := Hit(r.detail)) else s)
  {}

  lemma UrlUnshortenOwns(p: Reports, s: Signals, r: ScanResult)
    requires ReadOff(p, s) && p.unshorten == Silent
    ensures ReadOff(p.(unshorten := Reported(r)),
      if r.finding.Malicious? then s.(url := Hit(r.detail)) else s)
  {}

  lemma NrdCheckOwns(p: Reports, s: Signals, r: ScanResult)
    requires ReadOff(p, s) && p.nrd == Silent
    ensures ReadOff(p.(nrd := Reported(r)),
      if r.finding.Suspicious? then s.(nrd := Hit(r.detail)) else s)
  {}

  lemma HtmlSmugglingOwns(p: Reports, s: Signals, r: ScanResult)
    requires ReadOff(p, s) && p.smuggling == Silent
    ensures ReadOff(p.(smuggling := Reported(r)),
      if r.finding.Suspicious? then s.(smuggling := Hit(r.detail)) else s)
  {}

  lemma HiddenTextOwns(p: Reports, s: Signals, r: ScanResult)
    requires ReadOff(p, s) && p.hidden == Silent
    ensures ReadOff(p.(hidden := Reported(r)),
      if r.finding.Suspicious? then s.(hidden := Hit(r.detail)) else s)
  {}

  lemma VirusTotalOwns(p: Reports, s: Signals, r: ScanResult)
    requires ReadOff(p, s) && p.vt == Silent
    ensures ReadOff(p.(vt := Reported(r)),
      if r.finding.Malicious? then s.(vtPositives := Truncate(r.score), vtDetail := r.detail) else s)
  {}

  lemma IpReputationOwns(p: Reports, s: Signals, r: ScanResult)
    requires ReadOff(p, s) && p.ip == Silent
    ensures ReadOff(p.(ip := Reported(r)),
      if r.finding.Malicious? then s.(ipMalicious := true, ipDetail := r.detail)
      else if r.finding.Suspicious? then s.(ipSuspicious := true, ipDetail := r.detail) else s)
  {}

  lemma OnnxOwns(p: Reports, s: Signals, r: ScanResult)
    requires ReadOff(p, s) && p.onnx == Silent
    ensures ReadOff(p.(onnx := Reported(r)),
      if r.finding.Malicious? then s.(onnxMalicious := true, onnxDetail := r.detail)
      else if r.finding.Suspicious? then s.(onnxSuspicious := true, onnxDetail := r.detail) else s)
  {}

  lemma AbsorbReadsOff(p: Reports, s: Signals, r: ScanResult)
    requires ReadOff(p, s) && Of(p, r.scanner) == Silent
    ensures ReadOff(Note(p, r), Absorb(s, r))
  {
    match r.scanner {
      case Rspamd => RspamdOwns(p, s, r);
      case ClamAV => ClamAVOwns(p, s, r);
      case Yara => YaraOwns(p, s, r);
      case MalwareBazaar => MalwareBazaarOwns(p, s, r);
      case UrlCheck => UrlCheckOwns(p, s, r);
      case UrlUnshorten => UrlUnshortenOwns(p, s, r);
      case NrdCheck => NrdCheckOwns(p, s, r);
      case HtmlSmuggling => HtmlSmugglingOwns(p, s, r);
      case HiddenText => HiddenTextOwns(p, s, r);
      case VirusTotal => VirusTotalOwns(p, s, r);
      case IpReputation => IpReputationOwns(p, s, r);
      case Onnx => OnnxOwns(p, s, r);
      case Other(_) =>
    }
  }

  lemma {:induction false} ReportExact(results: seq<ScanResult>, k: Scanner)
    requires DistinctScanners(results) && !k.Other?
    ensures var o := Of(ReportsOf(results), k);
      && (o.Reported? ==> o.result in results && o.result.scanner == k)
      && (forall r :: r in results && r.scanner == k ==> o == Reported(r))
  {
    if results != [] {
      var n := |results| - 1;
      ReportExact(results[..n], k);
      NoteOf(ReportsOf(results[..n]), results[n], k);
      assert results == results[..n] + [results[n]];
    }
  }

  lemma NoteOf(p: Reports, r: ScanResult, k: Scanner)
    requires !k.Other?
    ensures Of(Note(p, r), k) == if r.scanner == k then Reported(r) else Of(p, k)
  {
  }

  lemma {:induction false} CollectReadsOff(results: seq<ScanResult>)
    requires DistinctScanners(results)
    ensures ReadOff(ReportsOf(results), Collect(results))
  {
    if results != [] {
      var n := |results| - 1;
      CollectReadsOff(results[..n]);
      if !results[n].scanner.Other? { ReportExact(results[..n], results[n].scanner); }
      AbsorbReadsOff(ReportsOf(results[..n]), Collect(results[..n]), results[n]);
    }
  }

  lemma SameReports(p: seq<ScanResult>, q: seq<ScanResult>)
    requires DistinctScanners(p) && DistinctScanners(q)
    requires forall r :: r in p <==> r in q
    ensures ReportsOf(p) == ReportsOf(q)
  {
    forall k: Scanner | !k.Other? ensures Of(ReportsOf(p), k) == Of(ReportsOf(q), k) {
      ReportExact(p, k);
      ReportExact(q, k);
    }
    OfDetermines(ReportsOf(p), ReportsOf(q));
  }

  lemma OfDetermines(p: Reports, q: Reports)
    requires forall k: Scanner :: !k.Other? ==> Of(p, k) == Of(q, k)
    ensures p == q
  {
    assert Of(p, Rspamd) == Of(q, Rspamd) && Of(p, ClamAV) == Of(q, ClamAV) && Of(p, Yara) == Of(q, Yara);
    assert Of(p, UrlCheck) == Of(q, UrlCheck) && Of(p, UrlUnshorten) == Of(q, UrlUnshorten) && Of(p, NrdCheck) == Of(q, NrdCheck);
    assert Of(p, HtmlSmuggling) == Of(q, HtmlSmuggling) && Of(p, HiddenText) == Of(q, HiddenText);
    assert Of(p, VirusTotal) == Of(q, VirusTotal) && Of(p, MalwareBazaar) == Of(q, MalwareBazaar);
    assert Of(p, IpReputation) == Of(q, IpReputation) && Of(p, Onnx) == Of(q, Onnx);
  }

  predicate OrderDependent(r: Reason) { r.UrlReason? || r.ScannerFailedReason? }

  lemma SameRules(t: Thresholds, e: Email, s1: Signals, c1: Failure, s2: Signals, c2: Failure)
    requires s2 == s1.(url := s2.url) && s1.url.Hit? == s2.url.Hit? && c1.Failed? == c2.Failed?
    ensures var v1, v2 := Rules(t, e, s1, c1), Rules(t, e, s2, c2);
      && v1.decision == v2.decision && v1.class_ == v2.class_ && v1.confidence == v2.confidence
      && (v1.reason != v2.reason ==> OrderDependent(v1.reason) && OrderDependent(v2.reason))
  {
  }

  lemma SameSignals(p: seq<ScanResult>, q: seq<ScanResult>)
    requires DistinctScanners(p) && DistinctScanners(q)
    requires forall r :: r in p <==> r in q
    ensures Collect(q) == Collect(p).(url := Collect(q).url) && Collect(p).url.Hit? == Collect(q).url.Hit?
  {
    CollectReadsOff(p);
    CollectReadsOff(q);
    SameReports(p, q);
  }

  /** The same results in any order decide the same thing. Only the text of the reason can
      differ, and only when two URL scanners hit or several critical scanners failed. */
  lemma OrderIndependent(t: Thresholds, e: Email, p: seq<ScanResult>, q: seq<ScanResult>)
    requires DistinctScanners(p) && DistinctScanners(q)
    requires forall r :: r in p <==> r in q
    ensures var v1, v2 := DecideSpec(t, e, p), DecideSpec(t, e, q);
      && v1.decision == v2.decision && v1.class_ == v2.class_ && v1.confidence == v2.confidence
      && (v1.reason != v2.reason ==> OrderDependent(v1.reason) && OrderDependent(v2.reason))
  {
    SameSignals(p, q);
    FirstCriticalExact(p);
    FirstCriticalExact(q);
    SameRules(t, e, Collect(p), FirstCritical(p), Collect(q), FirstCritical(q));
  }

  // ----- Extensions ---------------------------------------------------------------

  /** The extension list names each dangerous extension once and nothing else. */
  lemma {:induction false} ExtensionsExact(atts: seq<Attachment>)
    ensures forall x :: x in Extensions(atts) <==> exists a :: a in atts && a.dangerous && a.extension == x
    ensures forall i, j :: 0 <= i < j < |Extensions(atts)| ==> Extensions(atts)[i] != Extensions(atts)[j]
  {
    if atts != [] {
      var n := |atts| - 1;
      ExtensionsExact(atts[..n]);
      assert atts == atts[..n] + [atts[n]];
    }
  }
}

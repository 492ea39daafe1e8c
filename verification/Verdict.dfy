/**
 The verdict engine: what the collected scan results decide together. Scores and
 confidences are reals; reason texts are kept as structured values.
 */
module Verdict {

  /** A hit flag together with its detail text. */
  datatype Hit = Quiet | Hit(detail: string)

  /** Whether a critical scanner failed to run, and which one. */
  datatype Failure = AllRan | Failed(scanner: Scanner)

  datatype Scanner =
    | Rspamd | ClamAV | Yara | UrlCheck | UrlUnshorten | NrdCheck | HtmlSmuggling | HiddenText
    | VirusTotal | MalwareBazaar | IpReputation | Onnx | Other(name: string)

  datatype Finding = Clean | Suspicious | Malicious | Error | Skip | Unknown(text: string)

  datatype ScanResult = ScanResult(scanner: Scanner, finding: Finding, score: real, detail: string)

  datatype Thresholds = Thresholds(spam: real, reject: real)

  datatype Attachment = Attachment(extension: string, dangerous: bool)

  datatype Email = Email(spf: string, dkim: string, dmarc: string, hasExecutable: bool, attachments: seq<Attachment>)

  datatype Decision = Pass | Flag | Quarantine | Delete

  datatype Class = CLEAN | SPAM | PHISH | MALWARE | SUSPICIOUS

  datatype WeakSignal =
    | AllAuthFailed | IpSuspicion(detail: string) | FewEngines(count: int) | NewDomain(detail: string) | HiddenContent(detail: string)

  datatype Reason =
    | ClamReason(detail: string) | YaraReason(detail: string) | VtReason(detail: string) | MbReason(detail: string)
    | IpReason(detail: string) | RejectReason(score: real, threshold: real) | UrlReason(detail: string)
    | AiPhishReason(detail: string) | SpamReason(score: real, threshold: real) | ExtensionReason(extensions: seq<string>)
    | SmugglingReason(detail: string) | AiDgaReason(detail: string) | WeakReason(signals: seq<WeakSignal>)
    | ScannerFailedReason(scanner: Scanner) | NoThreatReason

  datatype VerdictDecision = VerdictDecision(decision: Decision, class_: Class, reason: Reason, confidence: real)

  // ----- Signals ------------------------------------------------------------------

  /** The local variables of Decide; a hit flag and its detail are one value. */
  datatype Signals = Signals(
    rspamdScore: real,
    clam: Hit,
    yara: Hit,
    url: Hit,
    vtPositives: int,
    vtDetail: string,
    mb: Hit,
    ipMalicious: bool,
    ipSuspicious: bool,
    ipDetail: string,
    nrd: Hit,
    smuggling: Hit,
    hidden: Hit,
    onnxMalicious: bool,
    onnxSuspicious: bool,
    onnxDetail: string)

  const NoSignals := Signals(0.0, Quiet, Quiet, Quiet, 0, "", Quiet, false, false, "", Quiet, Quiet, Quiet, false, false, "")

  /** Go's conversion of a float to int: truncation toward zero. */
  function Truncate(x: real): int {
    if x >= 0.0 then x.Floor else -((-x).Floor)
  }

  /** One turn of the collecting loop. */
  function Absorb(s: Signals, r: ScanResult): Signals {
    match r.scanner
    case Rspamd => s.(rspamdScore := r.score)
    case ClamAV => if r.finding.Malicious? then s.(clam := Hit(r.detail)) else s
    case Yara => if r.finding.Malicious? then s.(yara := Hit(r.detail)) else s
    case UrlCheck => if r.finding.Malicious? || r.finding.Suspicious? then s.(url := Hit(r.detail)) else s
    case UrlUnshorten => if r.finding.Malicious? then s.(url := Hit(r.detail)) else s
    case NrdCheck => if r.finding.Suspicious? then s.(nrd := Hit(r.detail)) else s
    case HtmlSmuggling => if r.finding.Suspicious? then s.(smuggling := Hit(r.detail)) else s
    case HiddenText => if r.finding.Suspicious? then s.(hidden := Hit(r.detail)) else s
    case VirusTotal =>
      if r.finding.Malicious? then s.(vtPositives := Truncate(r.score), vtDetail := r.detail) else s
    case MalwareBazaar => if r.finding.Malicious? then s.(mb := Hit(r.detail)) else s
    case IpReputation =>
      if r.finding.Malicious? then s.(ipMalicious := true, ipDetail := r.detail)
      else if r.finding.Suspicious? then s.(ipSuspicious := true, ipDetail := r.detail) else s
    case Onnx =>
      if r.finding.Malicious? then s.(onnxMalicious := true, onnxDetail := r.detail)
      else if r.finding.Suspicious? then s.(onnxSuspicious := true, onnxDetail := r.detail) else s
    case Other(_) => s
  }

  function Collect(results: seq<ScanResult>): Signals {
    if results == [] then NoSignals
    else Absorb(Collect(results[..|results| - 1]), results[|results| - 1])
  }

  predicate CriticalError(r: ScanResult) {
    (r.scanner.ClamAV? || r.scanner.Yara? || r.scanner.Rspamd?) && r.finding.Error?
  }

  /** The first critical scanner, in arrival order, that failed to run. */
  function FirstCritical(results: seq<ScanResult>): Failure {
    if results == [] then AllRan
    else if CriticalError(results[0]) then Failed(results[0].scanner)
    else FirstCritical(results[1..])
  }

  // ----- The rules ------------------------------------------------------------------

  predicate AuthPass(e: Email) {
    e.spf == "pass" || e.dkim == "pass" || e.dmarc == "pass"
  }

  function When(c: bool, w: WeakSignal): seq<WeakSignal> { if c then [w] else [] }

  function WeakSignals(e: Email, s: Signals): seq<WeakSignal> {
    When(!AuthPass(e), AllAuthFailed) +
    When(s.ipSuspicious, IpSuspicion(s.ipDetail)) +
    When(0 < s.vtPositives < 3, FewEngines(s.vtPositives)) +
    (if s.nrd.Hit? then [NewDomain(s.nrd.detail)] else []) +
    (if s.hidden.Hit? then [HiddenContent(s.hidden.detail)] else [])
  }

  function ScaleConfidence(score: real, low: real, high: real): real {
    if high <= low then 0.70
    else
      var ratio := (score - low) / (high - low);
      if ratio > 1.0 then 0.99 else 0.70 + 0.29 * ratio
  }

  /** The distinct dangerous extensions, in order of first appearance. */
  function Extensions(atts: seq<Attachment>): seq<string> {
    if atts == [] then []
    else
      var before, a := Extensions(atts[..|atts| - 1]), atts[|atts| - 1];
      if a.dangerous && a.extension !in before then before + [a.extension] else before
  }

  /** The priority chain of Decide over the collected signals: the first matching rule wins. */
  function Rules(t: Thresholds, e: Email, s: Signals, critical: Failure): VerdictDecision {
    if s.clam.Hit? then VerdictDecision(Delete, MALWARE, ClamReason(s.clam.detail), 0.99)
    else if s.yara.Hit? then VerdictDecision(Delete, MALWARE, YaraReason(s.yara.detail), 0.95)
    else if s.vtPositives >= 3 then VerdictDecision(Delete, MALWARE, VtReason(s.vtDetail), 0.90)
    else if s.mb.Hit? then VerdictDecision(Delete, MALWARE, MbReason(s.mb.detail), 0.88)
    else if s.ipMalicious then VerdictDecision(Delete, MALWARE, IpReason(s.ipDetail), 0.85)
    else if s.rspamdScore >= t.reject then
      VerdictDecision(Delete, SPAM, RejectReason(s.rspamdScore, t.reject), ScaleConfidence(s.rspamdScore, t.spam, t.reject))
    else if s.url.Hit? then VerdictDecision(Quarantine, PHISH, UrlReason(s.url.detail), 0.97)
    else if s.onnxMalicious then VerdictDecision(Quarantine, PHISH, AiPhishReason(s.onnxDetail), 0.87)
    else if s.rspamdScore >= t.spam then
      VerdictDecision(Quarantine, SPAM, SpamReason(s.rspamdScore, t.spam), ScaleConfidence(s.rspamdScore, t.spam, t.reject))
    else if e.hasExecutable then VerdictDecision(Quarantine, SUSPICIOUS, ExtensionReason(Extensions(e.attachments)), 0.70)
    else if s.smuggling.Hit? then VerdictDecision(Quarantine, SUSPICIOUS, SmugglingReason(s.smuggling.detail), 0.80)
    else if s.onnxSuspicious && (!AuthPass(e) || s.nrd.Hit?) then
      VerdictDecision(Quarantine, SUSPICIOUS, AiDgaReason(s.onnxDetail), 0.75)
    else
      var weak := WeakSignals(e, s);
      if |weak| >= 2 then VerdictDecision(Quarantine, SUSPICIOUS, WeakReason(weak), 0.60)
      else if |weak| == 1 then VerdictDecision(Flag, SUSPICIOUS, WeakReason(weak), 0.40)
      else if critical.Failed? then VerdictDecision(Quarantine, SUSPICIOUS, ScannerFailedReason(critical.scanner), 0.50)
      else VerdictDecision(Pass, CLEAN, NoThreatReason, 1.0)
  }

  function DecideSpec(t: Thresholds, e: Email, results: seq<ScanResult>): VerdictDecision {
    Rules(t, e, Collect(results), FirstCritical(results))
  }

  // ----- Decision table ------------------------------------------------------------

  predicate DeleteEvidence(t: Thresholds, s: Signals) {
    s.clam.Hit? || s.yara.Hit? || s.vtPositives >= 3 || s.mb.Hit? || s.ipMalicious || s.rspamdScore >= t.reject
  }

  predicate StrongEvidence(t: Thresholds, e: Email, s: Signals) {
    s.url.Hit? || s.onnxMalicious || s.rspamdScore >= t.spam || e.hasExecutable || s.smuggling.Hit? ||
    (s.onnxSuspicious && (!AuthPass(e) || s.nrd.Hit?))
  }

  function One(b: bool): nat { if b then 1 else 0 }

  /** How many of the five weak signals are present. */
  function WeakCount(e: Email, s: Signals): nat {
    One(!AuthPass(e)) + One(s.ipSuspicious) + One(0 < s.vtPositives < 3) + One(s.nrd.Hit?) + One(s.hidden.Hit?)
  }

  lemma {:induction false} FirstCriticalExact(results: seq<ScanResult>)
    ensures FirstCritical(results).Failed? <==> exists r :: r in results && CriticalError(r)
    ensures FirstCritical(results).Failed? ==>
      exists r :: r in results && CriticalError(r) && r.scanner == FirstCritical(results).scanner
  {
    if results != [] {
      assert results[0] in results;
      FirstCriticalExact(results[1..]);
      assert forall r :: r in results <==> r == results[0] || r in results[1..];
    }
  }

  /** Each decision is taken exactly on its evidence. */
  ghost predicate DecidedOnEvidence(t: Thresholds, e: Email, results: seq<ScanResult>, d: Decision) {
    var s, failed := Collect(results), (exists r :: r in results && CriticalError(r));
    var weak := WeakCount(e, s);
    && (d.Delete? <==> DeleteEvidence(t, s))
    && (d.Quarantine? <==> !DeleteEvidence(t, s) && (StrongEvidence(t, e, s) || weak >= 2 || (weak == 0 && failed)))
    && (d.Flag? <==> !DeleteEvidence(t, s) && !StrongEvidence(t, e, s) && weak == 1)
    && (d.Pass? <==> !DeleteEvidence(t, s) && !StrongEvidence(t, e, s) && weak == 0 && !failed)
  }

  /** The rules decide on the evidence alone, whatever the thresholds. */
  lemma DecisionTable(t: Thresholds, e: Email, results: seq<ScanResult>)
    ensures DecidedOnEvidence(t, e, results, DecideSpec(t, e, results).decision)
  {
    FirstCriticalExact(results);
  }

  // ----- The code -----------------------------------------------------------------

  method ExecutableExtensions(atts: seq<Attachment>) returns (exts: seq<string>)
    ensures exts == Extensions(atts)
  {
    var seen: set<string> := {};
    exts := [];
    for i := 0 to |atts|
      invariant exts == Extensions(atts[..i])
      invariant forall x :: x in seen <==> x in exts
    {
      assert atts[..i + 1][..i] == atts[..i];
      if atts[i].dangerous && atts[i].extension !in seen {
        seen := seen + {atts[i].extension};
        exts := exts + [atts[i].extension];
      }
    }
    assert atts[..|atts|] == atts;
  }

  /** Decide: collect the signals in arrival order, then apply the rules in priority order. */
  method Decide(t: Thresholds, e: Email, results: seq<ScanResult>) returns (v: VerdictDecision)
    ensures v == DecideSpec(t, e, results)
    ensures DecidedOnEvidence(t, e, results, v.decision)
  {
    DecisionTable(t, e, results);
    var s := NoSignals;
    for i := 0 to |results|
      invariant s == Collect(results[..i])
    {
      s := Absorb(s, results[i]);
      assert results[..i + 1][..i] == results[..i];
    }
    assert results[..|results|] == results;
    if s.clam.Hit? { return VerdictDecision(Delete, MALWARE, ClamReason(s.clam.detail), 0.99); }
    if s.yara.Hit? { return VerdictDecision(Delete, MALWARE, YaraReason(s.yara.detail), 0.95); }
    if s.vtPositives >= 3 { return VerdictDecision(Delete, MALWARE, VtReason(s.vtDetail), 0.90); }
    if s.mb.Hit? { return VerdictDecision(Delete, MALWARE, MbReason(s.mb.detail), 0.88); }
    if s.ipMalicious { return VerdictDecision(Delete, MALWARE, IpReason(s.ipDetail), 0.85); }
    if s.rspamdScore >= t.reject {
      return VerdictDecision(Delete, SPAM, RejectReason(s.rspamdScore, t.reject), ScaleConfidence(s.rspamdScore, t.spam, t.reject));
    }
    if s.url.Hit? { return VerdictDecision(Quarantine, PHISH, UrlReason(s.url.detail), 0.97); }
    if s.onnxMalicious { return VerdictDecision(Quarantine, PHISH, AiPhishReason(s.onnxDetail), 0.87); }
    if s.rspamdScore >= t.spam {
      return VerdictDecision(Quarantine, SPAM, SpamReason(s.rspamdScore, t.spam), ScaleConfidence(s.rspamdScore, t.spam, t.reject));
    }
    if e.hasExecutable {
      var exts := ExecutableExtensions(e.attachments);
      return VerdictDecision(Quarantine, SUSPICIOUS, ExtensionReason(exts), 0.70);
    }
    if s.smuggling.Hit? { return VerdictDecision(Quarantine, SUSPICIOUS, SmugglingReason(s.smuggling.detail), 0.80); }
    if s.onnxSuspicious && (!AuthPass(e) || s.nrd.Hit?) {
      return VerdictDecision(Quarantine, SUSPICIOUS, AiDgaReason(s.onnxDetail), 0.75);
    }
    var weak := WeakSignals(e, s);
    if |weak| >= 2 { return VerdictDecision(Quarantine, SUSPICIOUS, WeakReason(weak), 0.60); }
    if |weak| == 1 { return VerdictDecision(Flag, SUSPICIOUS, WeakReason(weak), 0.40); }
    for i := 0 to |results|
      invariant FirstCritical(results) == FirstCritical(results[i..])
    {
      if CriticalError(results[i]) {
        return VerdictDecision(Quarantine, SUSPICIOUS, ScannerFailedReason(results[i].scanner), 0.50);
      }
      assert results[i..][1..] == results[i + 1..];
    }
    return VerdictDecision(Pass, CLEAN, NoThreatReason, 1.0);
  }
}

/**
 The budgets of the mail parser: how much of a message's parts is kept, and which URLs are
 extracted. A string stands for a byte string.
 */
module MimeBudget {
  import opened Options

  datatype Kind = Text | Html | OtherKind

  /** One call of NextPart: an error, an inline part, or an attachment. The body of a broken
      attachment ends in a read error instead of its end. */
  datatype Part =
    | Bad
    | Inline(kind: Kind, body: string)
    | Attached(dangerous: bool, body: string, broken: bool)

  datatype Attachment = Attachment(raw: string, dangerous: bool)

  const MB: nat := 1024 * 1024
  const INLINE_PART: nat := 10 * MB
  const INLINE_TOTAL: nat := 20 * MB
  const ATTACHMENT: nat := 50 * MB

  /** io.ReadAll(io.LimitReader(body, limit)). */
  function Cut(s: string, limit: nat): string {
    if |s| <= limit then s else s[..limit]
  }

  // ----- Inline bodies ---------------------------------------------------------------------------

  /** A byte of an inline part, with the kind of the part. */
  datatype Tagged = Tagged(kind: Kind, c: char)

  function Tag(kind: Kind, s: string): (t: seq<Tagged>)
    ensures |t| == |s| && forall i :: 0 <= i < |s| ==> t[i] == Tagged(kind, s[i])
  {
    seq(|s|, i requires 0 <= i < |s| => Tagged(kind, s[i]))
  }

  /** All inline bytes of a message, each part cut to its own limit. */
  function InlineBytes(parts: seq<Part>): seq<Tagged> {
    if parts == [] then []
    else
      var p := parts[|parts| - 1];
      InlineBytes(parts[..|parts| - 1]) + if p.Inline? then Tag(p.kind, First(p.body, 10_485_760)) else []
  }

  function First<T>(s: seq<T>, limit: nat): seq<T> {
    if |s| <= limit then s else s[..limit]
  }

  /** The bytes of one kind. */
  function Of(kind: Kind, t: seq<Tagged>): string {
    if t == [] then []
    else Of(kind, t[..|t| - 1]) + if t[|t| - 1].kind == kind then [t[|t| - 1].c] else []
  }

  lemma {:induction false} OfConcat(kind: Kind, a: seq<Tagged>, b: seq<Tagged>)
    ensures Of(kind, a + b) == Of(kind, a) + Of(kind, b)
  {
    if b == [] {
      assert a + b == a;
    } else {
      OfConcat(kind, a, b[..|b| - 1]);
      assert (a + b)[..|a + b| - 1] == a + b[..|b| - 1];
    }
  }

  lemma {:induction false} OfTag(kind: Kind, tag: Kind, s: string)
    ensures Of(kind, Tag(tag, s)) == if kind == tag then s else []
  {
    if s != [] {
      var n := |s| - 1;
      OfTag(kind, tag, s[..n]);
      assert Tag(tag, s)[..n] == Tag(tag, s[..n]);
      assert s == s[..n] + [s[n]];
    }
  }

  /** Cutting a stream cuts what comes last. */
  lemma FirstConcat<T>(a: seq<T>, b: seq<T>, limit: nat)
    ensures First(a + b, limit) == First(a, limit) + First(b, limit - |First(a, limit)|)
  {
  }

  lemma CutTag(kind: Kind, s: string, part: nat, room: nat)
    ensures First(Tag(kind, Cut(s, part)), room) == Tag(kind, Cut(s, if part < room then part else room))
  {
  }

  // ----- Attachments -----------------------------------------------------------------------------

  /** buildAttachment: nothing if the read fails within the budget. */
  function Build(p: Part, budget: nat): Option<Attachment>
    requires p.Attached?
  {
    if p.broken && |p.body| < budget then None else Some(Attachment(Cut(p.body, budget), p.dangerous))
  }

  function Total(atts: seq<Attachment>): nat {
    if atts == [] then 0 else Total(atts[..|atts| - 1]) + |atts[|atts| - 1].raw|
  }

  function Raw(atts: seq<Attachment>): string {
    if atts == [] then [] else Raw(atts[..|atts| - 1]) + atts[|atts| - 1].raw
  }

  lemma {:induction false} RawTotal(atts: seq<Attachment>)
    ensures |Raw(atts)| == Total(atts)
  {
    if atts != [] { RawTotal(atts[..|atts| - 1]); }
  }

  /** All attachment bytes of a message, each attachment cut to its own limit. */
  function AttachedBytes(parts: seq<Part>): string {
    if parts == [] then []
    else
      var p := parts[|parts| - 1];
      AttachedBytes(parts[..|parts| - 1]) + if p.Attached? then First(p.body, 52_428_800) else []
  }

  /** No attachment ends in a read error. */
  predicate Intact(parts: seq<Part>) {
    forall i :: 0 <= i < |parts| && parts[i].Attached? ==> !parts[i].broken
  }

  /** What the cap leaves of them; a cap that is not positive means no cap. */
  function Kept(parts: seq<Part>, cap: int): string {
    if cap > 0 then First(AttachedBytes(parts), cap) else AttachedBytes(parts)
  }

  /** Every attachment, cut to its own limit only. */
  function Whole(parts: seq<Part>): seq<Attachment> {
    if parts == [] then []
    else
      var p := parts[|parts| - 1];
      Whole(parts[..|parts| - 1]) + if p.Attached? then [Attachment(First(p.body, 52_428_800), p.dangerous)] else []
  }

  /** The cap, if any, is out of reach. */
  predicate Roomy(parts: seq<Part>, cap: int) {
    cap <= 0 || |AttachedBytes(parts)| < cap
  }

  // ----- The parse loop ----------------------------------------------------------------------------

  datatype Email = Email(text: string, html: string, attachments: seq<Attachment>, hasExecutable: bool, hadErrors: bool)

  ghost predicate InlineDone(parts: seq<Part>, text: string, html: string, total: nat) {
    var kept := First(InlineBytes(parts), INLINE_TOTAL);
    total == |kept| && text == Of(Text, kept) && html == Of(Html, kept)
  }

  ghost predicate AttachmentsDone(parts: seq<Part>, cap: int, atts: seq<Attachment>, total: nat) {
    && total == Total(atts)
    && (forall a :: a in atts ==> |a.raw| <= ATTACHMENT)
    && (cap > 0 ==> total <= cap)
    && (Intact(parts) ==> Raw(atts) == Kept(parts, cap))
    && (Intact(parts) && Roomy(parts, cap) ==> atts == Whole(parts))
  }

  /** An inline part: nothing once the total is used up, else at most 10 MB of what is left. */
  method ReadInline(ghost parts: seq<Part>, p: Part, text: string, html: string, total: nat)
    returns (text': string, html': string, total': nat)
    requires p.Inline? && InlineDone(parts, text, html, total)
    ensures InlineDone(parts + [p], text', html', total')
  {
    text', html', total' := text, html, total;
    var remaining: int := INLINE_TOTAL - total;
    InlineStep(parts, p);
    assert text + "" == text && html + "" == html;
    if remaining <= 0 { return; }
    var read := Cut(p.body, if INLINE_PART < remaining then INLINE_PART else remaining);
    total' := total + |read|;
    match p.kind
    case Text => text' := text + read;
    case Html => html' := html + read;
    case OtherKind =>
  }

  lemma InlineStep(parts: seq<Part>, p: Part)
    requires p.Inline?
    ensures var kept, kept' := First(InlineBytes(parts), INLINE_TOTAL), First(InlineBytes(parts + [p]), INLINE_TOTAL);
      var room := INLINE_TOTAL - |kept|;
      var read := Cut(p.body, if INLINE_PART < room then INLINE_PART else room);
      && |kept'| == |kept| + |read|
      && forall kind :: Of(kind, kept') == Of(kind, kept) + if kind == p.kind then read else ""
  {
    var kept := First(InlineBytes(parts), INLINE_TOTAL);
    var room := INLINE_TOTAL - |kept|;
    var read := Cut(p.body, if INLINE_PART < room then INLINE_PART else room);
    assert (parts + [p])[..|parts|] == parts;
    FirstConcat(InlineBytes(parts), Tag(p.kind, Cut(p.body, INLINE_PART)), INLINE_TOTAL);
    CutTag(p.kind, p.body, INLINE_PART, room);
    forall kind ensures Of(kind, kept + Tag(p.kind, read)) == Of(kind, kept) + if kind == p.kind then read else "" {
      OfConcat(kind, kept, Tag(p.kind, read));
      OfTag(kind, p.kind, read);
    }
  }

  /** An attachment: nothing once the cap is used up, else at most 50 MB of what is left. */
  method ReadAttachment(ghost parts: seq<Part>, p: Part, cap: int, atts: seq<Attachment>, total: nat)
    returns (att: Option<Attachment>)
    requires p.Attached? && AttachmentsDone(parts, cap, atts, total)
    ensures att.None? ==> AttachmentsDone(parts + [p], cap, atts, total)
    ensures att.Some? ==> AttachmentsDone(parts + [p], cap, atts + [att.value], total + |att.value.raw|)
    ensures att.Some? ==> att.value.dangerous == p.dangerous
    ensures var budget: int := if cap > 0 && cap - total < 52_428_800 then cap - total else 52_428_800;
      && (att.Some? <==> budget > 0 && !(p.broken && |p.body| < budget))
      && (att.Some? ==> att.value.raw == First(p.body, budget))
  {
    var budget: nat := ATTACHMENT;
    IntactStep(parts, p);
    if cap > 0 {
      var remaining := cap - total;
      if remaining <= 0 {
        SkipStep(parts, p, cap, atts, total);
        return None;
      }
      if remaining < budget { budget := remaining; }
    }
    att := Build(p, budget);
    if att.Some? {
      KeepStep(parts, p, cap, atts, total, budget, att.value);
    }
  }

  lemma IntactStep(parts: seq<Part>, p: Part)
    requires p.Attached?
    ensures Intact(parts + [p]) <==> Intact(parts) && !p.broken
    ensures AttachedBytes(parts + [p]) == AttachedBytes(parts) + Cut(p.body, ATTACHMENT)
    ensures Whole(parts + [p]) == Whole(parts) + [Attachment(Cut(p.body, ATTACHMENT), p.dangerous)]
  {
    var longer := parts + [p];
    assert longer[..|parts|] == parts;
    assert forall i :: 0 <= i < |parts| ==> longer[i] == parts[i];
    assert longer[|parts|] == p;
  }

  lemma SkipStep(parts: seq<Part>, p: Part, cap: int, atts: seq<Attachment>, total: nat)
    requires p.Attached? && AttachmentsDone(parts, cap, atts, total) && total >= cap > 0
    ensures AttachmentsDone(parts + [p], cap, atts, total)
  {
    IntactStep(parts, p);
    RawTotal(atts);
    FirstConcat(AttachedBytes(parts), Cut(p.body, ATTACHMENT), cap);
  }

  lemma KeepStep(parts: seq<Part>, p: Part, cap: int, atts: seq<Attachment>, total: nat, budget: nat, att: Attachment)
    requires p.Attached? && AttachmentsDone(parts, cap, atts, total) && (cap > 0 ==> total < cap)
    requires budget == if cap > 0 && cap - total < ATTACHMENT then cap - total else ATTACHMENT
    requires att == Attachment(Cut(p.body, budget), p.dangerous)
    ensures AttachmentsDone(parts + [p], cap, atts + [att], total + |att.raw|)
  {
    var longer := atts + [att];
    assert longer[..|atts|] == atts;
    IntactStep(parts, p);
    RawTotal(atts);
    if cap > 0 {
      FirstConcat(AttachedBytes(parts), Cut(p.body, ATTACHMENT), cap);
    }
  }

  /** The loop over the MIME parts. Of the inline bytes, cut to 10 MB a part, exactly the first
      20 MB are read, and each goes to the body of its kind. Of the attachment bytes, cut to
      50 MB an attachment, never more than `cap` are kept if it is positive, and exactly the
      first `cap` if no attachment is broken; with room to spare every attachment is kept. */
  method ParseParts(parts: seq<Part>, cap: int) returns (email: Email, totalBody: nat)
    ensures totalBody == |First(InlineBytes(parts), 20_971_520)| <= 20_971_520
    ensures email.text == Of(Text, First(InlineBytes(parts), 20_971_520))
    ensures email.html == Of(Html, First(InlineBytes(parts), 20_971_520))
    ensures forall a :: a in email.attachments ==> |a.raw| <= 52_428_800
    ensures cap > 0 ==> Total(email.attachments) <= cap
    ensures Intact(parts) ==> Raw(email.attachments) == Kept(parts, cap)
    ensures Intact(parts) && Roomy(parts, cap) ==> email.attachments == Whole(parts)
    ensures email.hasExecutable <==> exists a :: a in email.attachments && a.dangerous
    ensures email.hadErrors <==> Bad in parts
  {
    var text, html, attachments: seq<Attachment>, hasExecutable, hadErrors := "", "", [], false, false;
    var totalAttached: nat := 0;
    totalBody := 0;
    for n := 0 to |parts|
      invariant InlineDone(parts[..n], text, html, totalBody)
      invariant AttachmentsDone(parts[..n], cap, attachments, totalAttached)
      invariant hasExecutable <==> exists a :: a in attachments && a.dangerous
      invariant hadErrors <==> Bad in parts[..n]
    {
      var p := parts[n];
      assert parts[..n + 1] == parts[..n] + [p];
      OtherStep(parts[..n], p, cap, attachments, totalAttached);
      match p
      case Bad =>
        hadErrors := true;
      case Inline(_, _) =>
        text, html, totalBody := ReadInline(parts[..n], p, text, html, totalBody);
      case Attached(_, _, _) =>
        var att := ReadAttachment(parts[..n], p, cap, attachments, totalAttached);
        if att.Some? {
          totalAttached := totalAttached + |att.value.raw|;
          attachments := attachments + [att.value];
          if att.value.dangerous { hasExecutable := true; }
        }
    }
    assert parts[..|parts|] == parts;
    email := Email(text, html, attachments, hasExecutable, hadErrors);
  }

  /** A part of one sort leaves the bytes of the other alone. */
  lemma OtherStep(parts: seq<Part>, p: Part, cap: int, atts: seq<Attachment>, total: nat)
    ensures !p.Inline? ==> InlineBytes(parts + [p]) == InlineBytes(parts)
    ensures !p.Attached? && AttachmentsDone(parts, cap, atts, total) ==> AttachmentsDone(parts + [p], cap, atts, total)
  {
    var longer := parts + [p];
    assert longer[..|parts|] == parts;
    if !p.Attached? {
      assert AttachedBytes(longer) == AttachedBytes(parts) && Whole(longer) == Whole(parts);
      assert Intact(longer) ==> Intact(parts) by {
        assert forall i :: 0 <= i < |parts| ==> longer[i] == parts[i];
      }
    }
  }

  // ----- URLs ------------------------------------------------------------------------------------------

  const MAX_URLS: nat := 100

  /** What the extraction relies on: the URL normaliser and the gateway-link decoder. */
  datatype Tools = Tools(normalize: string -> string, decode: string -> Option<string>)

  /** The first occurrences, in order. */
  function Distinct(s: seq<string>): seq<string> {
    if s == [] then []
    else
      var rest, last := s[..|s| - 1], s[|s| - 1];
      if last in rest then Distinct(rest) else Distinct(rest) + [last]
  }

  lemma {:induction false} DistinctSame(s: seq<string>, x: string)
    ensures x in Distinct(s) <==> x in s
  {
    if s != [] {
      DistinctSame(s[..|s| - 1], x);
      assert s == s[..|s| - 1] + [s[|s| - 1]];
    }
  }

  lemma DistinctSnoc(s: seq<string>, x: string)
    ensures Distinct(s + [x]) == if x in s then Distinct(s) else Distinct(s) + [x]
  {
    assert (s + [x])[..|s|] == s;
  }

  predicate NoDuplicates(s: seq<string>) {
    forall i, j :: 0 <= i < j < |s| ==> s[i] != s[j]
  }

  lemma {:induction false} DistinctNoDuplicates(s: seq<string>)
    ensures NoDuplicates(Distinct(s))
  {
    if s != [] {
      var rest := s[..|s| - 1];
      DistinctNoDuplicates(rest);
      DistinctSame(rest, s[|s| - 1]);
    }
  }

  lemma {:induction false} DistinctIdentity(s: seq<string>)
    requires NoDuplicates(s)
    ensures Distinct(s) == s
  {
    if s != [] {
      DistinctIdentity(s[..|s| - 1]);
      assert s == s[..|s| - 1] + [s[|s| - 1]];
    }
  }

  /** What one raw URL contributes: its normal form and that of the link it wraps. */
  function KeysOf(tools: Tools, raw: string): seq<string> {
    NonEmpty(tools.normalize(raw)) +
    match tools.decode(raw)
    case None => []
    case Some(inner) => if inner == "" then [] else NonEmpty(tools.normalize(inner))
  }

  function NonEmpty(s: string): seq<string> {
    if s == "" then [] else [s]
  }

  function AllKeys(tools: Tools, raws: seq<string>): seq<string> {
    if raws == [] then [] else AllKeys(tools, raws[..|raws| - 1]) + KeysOf(tools, raws[|raws| - 1])
  }

  /** The first hundred different ones. */
  function Capped(keys: seq<string>): seq<string> {
    First(Distinct(keys), 100)
  }

  /** One more key: appended if it is new and there is room. */
  lemma CappedSnoc(keys: seq<string>, x: string)
    ensures Capped(keys + [x]) == if x in Capped(keys) || |Capped(keys)| == MAX_URLS then Capped(keys) else Capped(keys) + [x]
  {
    DistinctSame(keys, x);
    assert (keys + [x])[..|keys|] == keys;
    if |Distinct(keys)| > MAX_URLS {
      assert Distinct(keys + [x])[..MAX_URLS] == Distinct(keys)[..MAX_URLS];
    }
  }

  /** A full list stays as it is. */
  lemma {:induction false} FullStays(keys: seq<string>, more: seq<string>)
    requires |Capped(keys)| == MAX_URLS
    ensures Capped(keys + more) == Capped(keys)
  {
    if more == [] {
      assert keys + more == keys;
    } else {
      var n := |more| - 1;
      FullStays(keys, more[..n]);
      CappedSnoc(keys + more[..n], more[n]);
      assert keys + more == keys + more[..n] + [more[n]];
    }
  }

  predicate StartsWithHttp(s: string) {
    |s| >= 4 && s[..4] == "http"
  }

  function HttpOnly(values: seq<string>): seq<string> {
    if values == [] then []
    else HttpOnly(values[..|values| - 1]) + if StartsWithHttp(values[|values| - 1]) then [values[|values| - 1]] else []
  }

  /** The keys are the non-empty normal forms of the URLs and of the links that they wrap. */
  lemma {:induction false} KeysExact(tools: Tools, raws: seq<string>, x: string)
    ensures x in AllKeys(tools, raws) <==>
      exists raw :: raw in raws && x != "" &&
        (x == tools.normalize(raw) ||
         (tools.decode(raw).Some? && tools.decode(raw).value != "" && x == tools.normalize(tools.decode(raw).value)))
  {
    if raws != [] {
      var n := |raws| - 1;
      KeysExact(tools, raws[..n], x);
      assert raws == raws[..n] + [raws[n]];
    }
  }

  /** So as long as fewer than a hundred are found, every one of them is. */
  lemma NothingMissed(keys: seq<string>, x: string)
    requires |Capped(keys)| < 100
    ensures x in Capped(keys) <==> x in keys
  {
    DistinctSame(keys, x);
  }

  /** An attribute value counts exactly if it begins with http. */
  lemma {:induction false} HttpOnlyExact(values: seq<string>, x: string)
    ensures x in HttpOnly(values) <==> x in values && "http" <= x
  {
    if values != [] {
      var n := |values| - 1;
      HttpOnlyExact(values[..n], x);
      assert values == values[..n] + [values[n]];
    }
  }

  /** The closure of extractURLs with the variables it captures. */
  class Extractor {
    var seen: set<string>
    var urls: seq<string>

    constructor ()
      ensures urls == [] && seen == {}
    {
      urls, seen := [], {};
    }

    ghost predicate Holds(keys: seq<string>)
      reads this
    {
      urls == Capped(keys) && forall u :: u in seen <==> u in urls
    }

    method AddURL(tools: Tools, raw: string, ghost keys: seq<string>) returns (more: bool)
      requires Holds(keys)
      modifies this
      ensures Holds(keys + KeysOf(tools, raw))
      ensures !more ==> |urls| == MAX_URLS
    {
      var outer, inner := tools.normalize(raw), tools.decode(raw);
      ghost var second := if inner.Some? && inner.value != "" then NonEmpty(tools.normalize(inner.value)) else [];
      assert KeysOf(tools, raw) == NonEmpty(outer) + second;
      assert keys + NonEmpty(outer) + second == keys + KeysOf(tools, raw);
      if |urls| >= MAX_URLS {
        FullStays(keys, KeysOf(tools, raw));
        return false;
      }
      CappedSnoc(keys, outer);
      assert keys + [] == keys;
      if outer != "" && outer !in seen {
        seen := seen + {outer};
        urls := urls + [outer];
      }
      ghost var sofar := keys + NonEmpty(outer);
      assert Holds(sofar);
      assert sofar + [] == sofar;
      if inner.Some? && inner.value != "" {
        var target := tools.normalize(inner.value);
        CappedSnoc(sofar, target);
        if target != "" && target !in seen {
          if |urls| >= MAX_URLS { return false; }
          seen := seen + {target};
          urls := urls + [target];
        }
      }
      return true;
    }

    /** Adds one URL after the other until the list is full. */
    method AddAll(tools: Tools, raws: seq<string>, ghost keys: seq<string>)
      requires Holds(keys)
      modifies this
      ensures Holds(keys + AllKeys(tools, raws))
    {
      assert keys + [] == keys;
      for n := 0 to |raws|
        invariant Holds(keys + AllKeys(tools, raws[..n]))
      {
        ghost var done := keys + AllKeys(tools, raws[..n]);
        AllKeysSnoc(tools, raws, n, keys);
        var more := AddURL(tools, raws[n], done);
        if !more {
          RestStays(tools, raws, n + 1, keys);
          return;
        }
      }
      assert raws[..|raws|] == raws;
    }

    /** extractURLs: of all URLs in the text and in the attributes that start with http, the
        first hundred different normal forms, wrapped links included. */
    method ExtractURLs(tools: Tools, inText: seq<string>, attributes: seq<string>)
      requires urls == [] && seen == {}
      modifies this
      ensures urls == Capped(AllKeys(tools, inText) + AllKeys(tools, HttpOnly(attributes)))
      ensures |urls| <= 100 && NoDuplicates(urls)
    {
      ghost var keys := AllKeys(tools, inText);
      DistinctNoDuplicates(keys + AllKeys(tools, HttpOnly(attributes)));
      assert [] + keys == keys;
      AddAll(tools, inText, []);
      if |urls| >= MAX_URLS {
        FullStays(keys, AllKeys(tools, HttpOnly(attributes)));
      } else {
        AddAll(tools, HttpOnly(attributes), keys);
      }
    }
  }

  lemma AllKeysSnoc(tools: Tools, raws: seq<string>, n: nat, keys: seq<string>)
    requires n < |raws|
    ensures keys + AllKeys(tools, raws[..n + 1]) == keys + AllKeys(tools, raws[..n]) + KeysOf(tools, raws[n])
  {
    assert raws[..n + 1][..n] == raws[..n];
    Associative(keys, AllKeys(tools, raws[..n]), KeysOf(tools, raws[n]));
  }

  lemma Associative(a: seq<string>, b: seq<string>, c: seq<string>)
    ensures a + b + c == a + (b + c)
  {
  }

  /** Once the list is full the remaining URLs do not matter. */
  lemma {:induction false} RestStays(tools: Tools, raws: seq<string>, n: nat, keys: seq<string>)
    requires n <= |raws| && |Capped(keys + AllKeys(tools, raws[..n]))| == MAX_URLS
    ensures Capped(keys + AllKeys(tools, raws)) == Capped(keys + AllKeys(tools, raws[..n]))
    decreases |raws| - n
  {
    if n == |raws| {
      assert raws[..n] == raws;
    } else {
      AllKeysSnoc(tools, raws, n, keys);
      FullStays(keys + AllKeys(tools, raws[..n]), KeysOf(tools, raws[n]));
      RestStays(tools, raws, n + 1, keys);
    }
  }

  /** The merge of the URLs found in QR codes: exactly the new ones are appended, in order, so
      the final list has no duplicates. */
  method MergeQR(urls: seq<string>, qr: seq<string>) returns (merged: seq<string>)
    requires NoDuplicates(urls)
    ensures merged == Distinct(urls + qr) && NoDuplicates(merged)
  {
    DistinctIdentity(urls);
    assert urls + [] == urls;
    DistinctNoDuplicates(urls + qr);
    merged := urls;
    if |qr| == 0 { return; }
    var seen := Members(urls);
    for n := 0 to |qr|
      invariant merged == Distinct(urls + qr[..n])
      invariant forall u :: u in seen <==> u in urls + qr[..n]
    {
      QRStep(urls, qr, n);
      if qr[n] !in seen {
        seen := seen + {qr[n]};
        merged := merged + [qr[n]];
      }
    }
    assert qr[..|qr|] == qr;
  }

  lemma QRStep(urls: seq<string>, qr: seq<string>, n: nat)
    requires n < |qr|
    ensures var before, after := urls + qr[..n], urls + qr[..n + 1];
      && Distinct(after) == (if qr[n] in before then Distinct(before) else Distinct(before) + [qr[n]])
      && forall u :: u in after <==> u in before || u == qr[n]
  {
    DistinctSnoc(urls + qr[..n], qr[n]);
    assert urls + qr[..n + 1] == urls + qr[..n] + [qr[n]];
  }

  method Members(urls: seq<string>) returns (seen: set<string>)
    ensures forall u :: u in seen <==> u in urls
  {
    seen := {};
    for n := 0 to |urls|
      invariant forall u :: u in seen <==> u in urls[..n]
    {
      seen := seen + {urls[n]};
    }
    assert urls[..|urls|] == urls;
  }
}

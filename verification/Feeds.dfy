/**
 The threat-feed index: a flat key set for membership tests beside one key set per feed.
 `url.Parse` is a parameter, and lower-casing is ASCII.
 */
module Feeds {

  datatype Url = Unparsed | Parsed(hostname: string, path: string)

  type Parser = string -> Url

  function LowerChar(c: char): char {
    if 'A' <= c <= 'Z' then c - 'A' + 'a' else c
  }

  function Lower(s: string): string {
    seq(|s|, i requires 0 <= i < |s| => LowerChar(s[i]))
  }

  function TrimWww(s: string): string {
    if "www." <= s then s[4..] else s
  }

  /** The lookup key of a URL. */
  function NormalizeURL(parse: Parser, raw: string): string {
    match parse(raw)
    case Unparsed => Lower(raw)
    case Parsed(hostname, path) => TrimWww(Lower(hostname)) + path
  }

  /** The host-only key; here the prefix is trimmed before lower-casing. */
  function HostKey(parse: Parser, raw: string): string {
    match parse(raw)
    case Unparsed => ""
    case Parsed(hostname, _) => Lower(TrimWww(hostname))
  }

  const FEEDS: seq<string> := ["urlhaus", "openphish", "phishtank", "threatfox"]

  predicate HostIndexed(feed: string) {
    feed != "urlhaus" && feed != "threatfox"
  }

  function ThreatType(feed: string): string {
    if feed == "urlhaus" || feed == "threatfox" then "malware"
    else if feed == "phishtank" || feed == "openphish" then "phishing"
    else ""
  }

  /** The keys one listed URL contributes. */
  function UrlKeys(parse: Parser, feed: string, raw: string): set<string> {
    var key, host := NormalizeURL(parse, raw), HostKey(parse, raw);
    if key == "" then {}
    else if HostIndexed(feed) && host != "" then {key, host}
    else {key}
  }

  function FeedKeys(parse: Parser, feed: string, urls: seq<string>): set<string> {
    if urls == [] then {}
    else FeedKeys(parse, feed, urls[..|urls| - 1]) + UrlKeys(parse, feed, urls[|urls| - 1])
  }

  lemma FeedKeysSnoc(parse: Parser, feed: string, urls: seq<string>, i: nat)
    requires i < |urls|
    ensures FeedKeys(parse, feed, urls[..i + 1]) == FeedKeys(parse, feed, urls[..i]) + UrlKeys(parse, feed, urls[i])
  {
    assert urls[..i + 1][..i] == urls[..i];
  }

  datatype Fetch = Failed | Fetched(urls: seq<string>)

  type FeedSets = map<string, set<string>>

  function Union(feeds: FeedSets): set<string> {
    set f, u | f in feeds && u in feeds[f] :: u
  }

  /** What Refresh has built so far. */
  datatype Built = Built(index: set<string>, feeds: FeedSets)

  const Nothing := Built({}, map[])

  /** One turn of Refresh's loop. */
  function AddFeed(parse: Parser, prev: FeedSets, built: Built, feed: string, got: Fetch): Built {
    match got
    case Failed =>
      if feed in prev then Built(built.index + prev[feed], built.feeds[feed := prev[feed]]) else built
    case Fetched(urls) =>
      var keys := FeedKeys(parse, feed, urls);
      Built(built.index + keys, built.feeds[feed := keys])
  }

  /** Refresh after the feeds whose fetch results are in `got`, in the order of FEEDS. */
  function Build(parse: Parser, prev: FeedSets, got: seq<Fetch>): Built
    requires |got| <= |FEEDS|
  {
    if got == [] then Nothing
    else
      var n := |got| - 1;
      AddFeed(parse, prev, Build(parse, prev, got[..n]), FEEDS[n], got[n])
  }

  /** The index is the union of the feed sets and does not hold the empty key. */
  predicate IndexRight(index: set<string>, feeds: FeedSets) {
    index == Union(feeds) && "" !in index
  }

  /** Trimming before lower-casing gives the same host as the key function does, except
      exactly for a "www." prefix that is not written in lower case. */
  lemma HostKeyAgreesExactly(hostname: string)
    ensures Lower(TrimWww(hostname)) == TrimWww(Lower(hostname)) <==>
      "www." <= hostname || !("www." <= Lower(hostname))
  {
    if "www." <= hostname {
      assert Lower(hostname)[..4] == "www.";
      assert Lower(hostname[4..]) == Lower(hostname)[4..];
    }
  }

  // ----- Facts about one refresh ------------------------------------------------------

  lemma {:induction false} FeedKeysNonEmpty(parse: Parser, feed: string, urls: seq<string>)
    ensures "" !in FeedKeys(parse, feed, urls)
  {
    if urls != [] { FeedKeysNonEmpty(parse, feed, urls[..|urls| - 1]); }
  }

  lemma UnionAfterAdd(feeds: FeedSets, feed: string, keys: set<string>)
    requires feed !in feeds
    ensures Union(feeds[feed := keys]) == Union(feeds) + keys
  {
    var after := feeds[feed := keys];
    forall u | u in Union(feeds) + keys ensures u in Union(after) {
      if u in keys {
        assert feed in after && u in after[feed];
      } else {
        var f :| f in feeds && u in feeds[f];
        assert f in after && u in after[f];
      }
    }
  }

  lemma AddFeedKeepsIndex(parse: Parser, prev: FeedSets, built: Built, feed: string, got: Fetch)
    requires IndexRight(built.index, built.feeds) && "" !in Union(prev) && feed !in built.feeds
    ensures var after := AddFeed(parse, prev, built, feed, got); IndexRight(after.index, after.feeds)
  {
    match got
    case Failed =>
      if feed in prev {
        assert forall u :: u in prev[feed] ==> u in Union(prev);
        UnionAfterAdd(built.feeds, feed, prev[feed]);
      }
    case Fetched(urls) =>
      FeedKeysNonEmpty(parse, feed, urls);
      UnionAfterAdd(built.feeds, feed, FeedKeys(parse, feed, urls));
  }

  lemma FeedsDistinct()
    ensures forall i, j :: 0 <= i < j < |FEEDS| ==> FEEDS[i] != FEEDS[j]
  {
    assert FEEDS[0][0] == 'u' && FEEDS[1][0] == 'o' && FEEDS[2][0] == 'p' && FEEDS[3][0] == 't';
  }

  /** Index and feed sets agree at every stage of a refresh, whatever fails. */
  lemma {:induction false} BuildRight(parse: Parser, prev: FeedSets, got: seq<Fetch>)
    requires |got| <= |FEEDS| && "" !in Union(prev)
    ensures var b := Build(parse, prev, got);
      IndexRight(b.index, b.feeds) && forall f :: f in b.feeds ==> f in FEEDS[..|got|]
  {
    if got != [] {
      var n := |got| - 1;
      BuildRight(parse, prev, got[..n]);
      FeedsDistinct();
      assert FEEDS[n] !in FEEDS[..n];
      AddFeedKeepsIndex(parse, prev, Build(parse, prev, got[..n]), FEEDS[n], got[n]);
      assert FEEDS[..n + 1] == FEEDS[..n] + [FEEDS[n]];
    }
  }

  /** What one refresh leaves for one feed: the keys of its fetch, else what it had before. */
  ghost predicate FeedRight(parse: Parser, prev: FeedSets, after: FeedSets, feed: string, got: Fetch) {
    match got
    case Fetched(urls) => feed in after && after[feed] == FeedKeys(parse, feed, urls)
    case Failed => if feed in prev then feed in after && after[feed] == prev[feed] else feed !in after
  }

  lemma OtherFeed(parse: Parser, prev: FeedSets, built: Built, feed: string, got: Fetch, other: string)
    requires other != feed
    ensures var after := AddFeed(parse, prev, built, feed, got).feeds;
      (other in after <==> other in built.feeds) && (other in after ==> after[other] == built.feeds[other])
  {
  }

  lemma OwnFeed(parse: Parser, prev: FeedSets, built: Built, feed: string, got: Fetch)
    requires feed !in built.feeds
    ensures FeedRight(parse, prev, AddFeed(parse, prev, built, feed, got).feeds, feed, got)
  {
  }

  lemma {:induction false} BuildExact(parse: Parser, prev: FeedSets, got: seq<Fetch>, i: nat)
    requires i < |got| <= |FEEDS|
    ensures FeedRight(parse, prev, Build(parse, prev, got).feeds, FEEDS[i], got[i])
  {
    var n := |got| - 1;
    var built := Build(parse, prev, got[..n]);
    if i < n {
      FeedsDistinct();
      BuildExact(parse, prev, got[..n], i);
      OtherFeed(parse, prev, built, FEEDS[n], got[n], FEEDS[i]);
    } else {
      NotYetBuilt(parse, prev, got[..n], i);
      OwnFeed(parse, prev, built, FEEDS[n], got[n]);
    }
  }

  lemma {:induction false} NotYetBuilt(parse: Parser, prev: FeedSets, got: seq<Fetch>, i: nat)
    requires |got| <= i < |FEEDS|
    ensures FEEDS[i] !in Build(parse, prev, got).feeds
  {
    FeedsDistinct();
    if got != [] { NotYetBuilt(parse, prev, got[..|got| - 1], i); }
  }

  // ----- The code ---------------------------------------------------------------------

  /** The two index tests of ContainsURL; the host test is not guarded against an empty host. */
  predicate InIndex(index: set<string>, parse: Parser, raw: string) {
    NormalizeURL(parse, raw) in index || (parse(raw).Parsed? && HostKey(parse, raw) in index)
  }

  class Manager {
    const parse: Parser
    var index: set<string>
    var feedURLs: FeedSets

    constructor (parse: Parser)
      ensures this.parse == parse && index == {} && feedURLs == map[] && IndexRight(index, feedURLs)
    {
      this.parse := parse;
      index, feedURLs := {}, map[];
    }

    /** The inner loop of Refresh over the URLs of one fetched feed. */
    method CollectKeys(feed: string, urls: seq<string>, newIndex: set<string>)
      returns (keys: set<string>, index': set<string>)
      ensures keys == FeedKeys(parse, feed, urls) && index' == newIndex + keys
    {
      keys, index' := {}, newIndex;
      for i := 0 to |urls|
        invariant keys == FeedKeys(parse, feed, urls[..i]) && index' == newIndex + keys
      {
        var added := KeysOfOne(feed, urls[i]);
        FeedKeysSnoc(parse, feed, urls, i);
        index', keys := index' + added, keys + added;
      }
      assert urls[..|urls|] == urls;
    }

    method KeysOfOne(feed: string, raw: string) returns (added: set<string>)
      ensures added == UrlKeys(parse, feed, raw)
    {
      var hostIndex := feed != "urlhaus" && feed != "threatfox";
      var key := NormalizeURL(parse, raw);
      if key == "" { return {}; }
      added := {key};
      if hostIndex {
        var host := HostKey(parse, raw);
        if host != "" { added := added + {host}; }
      }
    }

    /** Refresh with nobody else refreshing: fetch every feed, fall back to the previous set of
        a feed whose fetch fails, swap the fields. */
    method Refresh(got: seq<Fetch>)
      requires IndexRight(index, feedURLs) && |got| == |FEEDS|
      modifies this
      ensures Built(index, feedURLs) == Build(parse, old(feedURLs), got)
      ensures IndexRight(index, feedURLs)
    {
      var prev := feedURLs;
      var newIndex: set<string>, newFeedURLs: FeedSets := {}, map[];
      for i := 0 to |FEEDS|
        invariant Built(newIndex, newFeedURLs) == Build(parse, prev, got[..i])
      {
        var feed := FEEDS[i];
        assert got[..i + 1][..i] == got[..i];
        match got[i]
        case Failed =>
          if feed in prev {
            newIndex, newFeedURLs := newIndex + prev[feed], newFeedURLs[feed := prev[feed]];
          }
        case Fetched(urls) =>
          var keys;
          keys, newIndex := CollectKeys(feed, urls, newIndex);
          newFeedURLs := newFeedURLs[feed := keys];
      }
      assert got[..|FEEDS|] == got;
      BuildRight(parse, prev, got);
      index, feedURLs := newIndex, newFeedURLs;
    }

    /** ContainsURL; `custom` is the answer of the custom-entry query. */
    method ContainsURL(raw: string, custom: bool) returns (found: bool)
      ensures found <==> InIndex(index, parse, raw) || (custom && HostKey(parse, raw) != "")
    {
      var key := NormalizeURL(parse, raw);
      var host, hostIn := "", false;
      if parse(raw).Parsed? {
        host := HostKey(parse, raw);
        hostIn := host in index;
      }
      if key in index || hostIn { return true; }
      return host != "" && custom;
    }

    /** LookupURL: some feed that lists the URL or its host, in map order. */
    method LookupURL(raw: string) returns (feed: string, threat: string, ok: bool)
      ensures ok <==> exists f :: f in feedURLs && Lists(feedURLs[f], parse, raw)
      ensures ok ==> feed in feedURLs && Lists(feedURLs[feed], parse, raw)
      ensures ok && (feed == "urlhaus" || feed == "threatfox") ==> threat == "malware"
      ensures ok && (feed == "phishtank" || feed == "openphish") ==> threat == "phishing"
      ensures !ok ==> feed == "" && threat == ""
    {
      var rest := feedURLs.Keys;
      while rest != {}
        invariant rest <= feedURLs.Keys
        invariant forall f :: f in feedURLs && f !in rest ==> !Lists(feedURLs[f], parse, raw)
        decreases rest
      {
        var f :| f in rest;
        if Lists(feedURLs[f], parse, raw) { return f, ThreatType(f), true; }
        rest := rest - {f};
      }
      return "", "", false;
    }

    /** LookupURLExact: the same without the host. */
    method LookupURLExact(raw: string) returns (feed: string, threat: string, ok: bool)
      ensures ok <==> exists f :: f in feedURLs && NormalizeURL(parse, raw) in feedURLs[f]
      ensures ok ==> feed in feedURLs && NormalizeURL(parse, raw) in feedURLs[feed]
      ensures ok && (feed == "urlhaus" || feed == "threatfox") ==> threat == "malware"
      ensures ok && (feed == "phishtank" || feed == "openphish") ==> threat == "phishing"
    {
      var key := NormalizeURL(parse, raw);
      var rest := feedURLs.Keys;
      while rest != {}
        invariant rest <= feedURLs.Keys
        invariant forall f :: f in feedURLs && f !in rest ==> key !in feedURLs[f]
        decreases rest
      {
        var f :| f in rest;
        if key in feedURLs[f] { return f, ThreatType(f), true; }
        rest := rest - {f};
      }
      return "", "", false;
    }
  }

  /** A feed lists a URL by its key or by its host. */
  predicate Lists(keys: set<string>, parse: Parser, raw: string) {
    NormalizeURL(parse, raw) in keys || (HostKey(parse, raw) != "" && HostKey(parse, raw) in keys)
  }

  /** The flat index answers ContainsURL exactly as the per-feed sets answer LookupURL, and an
      exact hit is a hit. */
  lemma ContainsAgreesWithLookup(index: set<string>, feeds: FeedSets, parse: Parser, raw: string)
    requires IndexRight(index, feeds)
    ensures InIndex(index, parse, raw) <==> exists f :: f in feeds && Lists(feeds[f], parse, raw)
    ensures (exists f :: f in feeds && NormalizeURL(parse, raw) in feeds[f]) ==>
      exists f :: f in feeds && Lists(feeds[f], parse, raw)
  {
    var key, host := NormalizeURL(parse, raw), HostKey(parse, raw);
    if key in index {
      var f :| f in feeds && key in feeds[f];
      assert Lists(feeds[f], parse, raw);
    } else if host in index {
      var f :| f in feeds && host in feeds[f];
      assert Lists(feeds[f], parse, raw);
    }
    if f :| f in feeds && NormalizeURL(parse, raw) in feeds[f] {
      assert Lists(feeds[f], parse, raw);
    }
  }

  // ----- No feed amnesia ----------------------------------------------------------------

  /** The fetch results of one refresh, in the order of FEEDS. */
  type Round = r: seq<Fetch> | |r| == |FEEDS| witness [Failed, Failed, Failed, Failed]

  /** The feed sets after a sequence of refreshes that do not overlap. */
  function AfterRounds(parse: Parser, rounds: seq<Round>): FeedSets {
    if rounds == [] then map[]
    else Build(parse, AfterRounds(parse, rounds[..|rounds| - 1]), rounds[|rounds| - 1]).feeds
  }

  /** The latest successful fetch of feed `i`. */
  function Latest(rounds: seq<Round>, i: nat): Fetch
    requires i < |FEEDS|
  {
    if rounds == [] then Failed
    else if rounds[|rounds| - 1][i].Fetched? then rounds[|rounds| - 1][i]
    else Latest(rounds[..|rounds| - 1], i)
  }

  /** After any sequence of non-overlapping refreshes each feed holds exactly the keys of its
      latest successful fetch, and is absent if it never succeeded: failures drop nothing and
      a feed that recovers drops its stale entries. */
  lemma {:induction false} NoAmnesia(parse: Parser, rounds: seq<Round>, i: nat)
    requires i < |FEEDS|
    ensures var sets, latest := AfterRounds(parse, rounds), Latest(rounds, i);
      && (FEEDS[i] in sets <==> latest.Fetched?)
      && (latest.Fetched? ==> sets[FEEDS[i]] == FeedKeys(parse, FEEDS[i], latest.urls))
  {
    if rounds != [] {
      var n := |rounds| - 1;
      NoAmnesia(parse, rounds[..n], i);
      BuildExact(parse, AfterRounds(parse, rounds[..n]), rounds[n], i);
    }
  }

  // ----- Overlapping refreshes -----------------------------------------------------------

  /** A refresh under way: its snapshot and the fetch results so far. */
  datatype Job = Job(prev: FeedSets, got: seq<Fetch>)

  datatype State = State(index: set<string>, feeds: FeedSets, jobs: map<nat, Job>)

  /** Begin: snapshot under the read lock. Next: one more fetch. Publish: the swap. */
  datatype Label = Begin(id: nat) | Next(id: nat, fetch: Fetch) | Publish(id: nat)

  predicate Enabled(s: State, l: Label) {
    match l
    case Begin(id) => id !in s.jobs
    case Next(id, _) => id in s.jobs && |s.jobs[id].got| < |FEEDS|
    case Publish(id) => id in s.jobs && |s.jobs[id].got| == |FEEDS|
  }

  function Step(parse: Parser, s: State, l: Label): State {
    if !Enabled(s, l) then s else
    match l
    case Begin(id) => s.(jobs := s.jobs[id := Job(s.feeds, [])])
    case Next(id, fetch) => s.(jobs := s.jobs[id := s.jobs[id].(got := s.jobs[id].got + [fetch])])
    case Publish(id) =>
      var built := Build(parse, s.jobs[id].prev, s.jobs[id].got);
      State(built.index, built.feeds, s.jobs - {id})
  }

  function Run(parse: Parser, schedule: seq<Label>): State {
    if schedule == [] then State({}, map[], map[])
    else Step(parse, Run(parse, schedule[..|schedule| - 1]), schedule[|schedule| - 1])
  }

  ghost predicate Sound(s: State) {
    && IndexRight(s.index, s.feeds)
    && forall id :: id in s.jobs ==> "" !in Union(s.jobs[id].prev) && |s.jobs[id].got| <= |FEEDS|
  }

  /** Under any interleaving of refreshes, with arbitrary failures, the published index is the
      union of the published feed sets and never holds the empty key. */
  lemma {:induction false} IndexRefinesFeeds(parse: Parser, schedule: seq<Label>)
    ensures Sound(Run(parse, schedule))
  {
    if schedule != [] {
      var s, l := Run(parse, schedule[..|schedule| - 1]), schedule[|schedule| - 1];
      IndexRefinesFeeds(parse, schedule[..|schedule| - 1]);
      if Enabled(s, l) && l.Publish? {
        BuildRight(parse, s.jobs[l.id].prev, s.jobs[l.id].got);
      }
    }
  }

  /** Publishing drops feed `i` exactly when this refresh failed to fetch it and had not seen
      it in its snapshot, which needs another refresh to have published in between. */
  lemma LosesFeedExactly(parse: Parser, schedule: seq<Label>, id: nat, i: nat)
    requires i < |FEEDS| && Enabled(Run(parse, schedule), Publish(id))
    ensures var s := Run(parse, schedule); var t := Step(parse, s, Publish(id));
      FEEDS[i] in s.feeds && FEEDS[i] !in t.feeds <==>
      FEEDS[i] in s.feeds && s.jobs[id].got[i].Failed? && FEEDS[i] !in s.jobs[id].prev
  {
    var s := Run(parse, schedule);
    BuildExact(parse, s.jobs[id].prev, s.jobs[id].got, i);
  }

  /** Publishing replaces the published set of feed `i` without having fetched the feed exactly
      when the fetch failed and the snapshot holds another set, which is then put back. */
  lemma RepublishesOlderExactly(parse: Parser, schedule: seq<Label>, id: nat, i: nat)
    requires i < |FEEDS| && Enabled(Run(parse, schedule), Publish(id))
    ensures var s, feed := Run(parse, schedule), FEEDS[i];
      var t, prev := Step(parse, s, Publish(id)), s.jobs[id].prev;
      && (s.jobs[id].got[i].Failed? && feed in s.feeds && feed in t.feeds && t.feeds[feed] != s.feeds[feed] <==>
          s.jobs[id].got[i].Failed? && feed in s.feeds && feed in prev && prev[feed] != s.feeds[feed])
      && (s.jobs[id].got[i].Failed? && feed in prev ==> feed in t.feeds && t.feeds[feed] == prev[feed])
  {
    var s := Run(parse, schedule);
    BuildExact(parse, s.jobs[id].prev, s.jobs[id].got, i);
  }

  /** The snapshot of a refresh differs from what is published only if another refresh has
      published since it began. */
  lemma {:induction false} SnapshotIsCurrent(parse: Parser, before: seq<Label>, id: nat, since: seq<Label>)
    requires Enabled(Run(parse, before), Begin(id)) && forall l :: l in since ==> !l.Publish?
    ensures var s := Run(parse, before + [Begin(id)] + since); id in s.jobs && s.jobs[id].prev == s.feeds
  {
    if since == [] {
      assert before + [Begin(id)] + since == before + [Begin(id)];
      RunOneMore(parse, before, Begin(id));
    } else {
      var n := |since| - 1;
      SnapshotIsCurrent(parse, before, id, since[..n]);
      assert before + [Begin(id)] + since == before + [Begin(id)] + since[..n] + [since[n]];
      RunOneMore(parse, before + [Begin(id)] + since[..n], since[n]);
    }
  }

  // ----- Refreshes one at a time are rounds --------------------------------------------------

  /** No refresh begins while another is under way. */
  predicate OneAtATime(parse: Parser, schedule: seq<Label>) {
    forall k :: 0 <= k < |schedule| && schedule[k].Begin? ==> Run(parse, schedule[..k]).jobs == map[]
  }

  /** The fetch results of the refreshes that a schedule publishes, in order. */
  function Published(parse: Parser, schedule: seq<Label>): seq<Round> {
    if schedule == [] then []
    else
      var s, l := Run(parse, schedule[..|schedule| - 1]), schedule[|schedule| - 1];
      Published(parse, schedule[..|schedule| - 1]) + if l.Publish? && Enabled(s, l) then [s.jobs[l.id].got] else []
  }

  ghost predicate Alone(s: State) {
    && (forall id :: id in s.jobs ==> s.jobs[id].prev == s.feeds)
    && (forall id, other :: id in s.jobs && other in s.jobs ==> id == other)
  }

  lemma AloneStep(parse: Parser, s: State, l: Label)
    requires Alone(s) && (l.Begin? ==> s.jobs == map[])
    ensures Alone(Step(parse, s, l))
  {
  }

  /** Under every schedule that does not overlap refreshes, the published sets are those of the
      published refreshes taken as rounds, so NoAmnesia speaks of them. */
  lemma {:induction false} OneAtATimeIsRounds(parse: Parser, schedule: seq<Label>)
    requires OneAtATime(parse, schedule)
    ensures Run(parse, schedule).feeds == AfterRounds(parse, Published(parse, schedule)) && Alone(Run(parse, schedule))
  {
    if schedule != [] {
      var n := |schedule| - 1;
      var earlier, l := schedule[..n], schedule[n];
      assert OneAtATime(parse, earlier) by {
        assert forall k :: 0 <= k < n ==> earlier[k] == schedule[k] && earlier[..k] == schedule[..k];
      }
      OneAtATimeIsRounds(parse, earlier);
      var s := Run(parse, earlier);
      AloneStep(parse, s, l);
      if l.Publish? && Enabled(s, l) {
        OneMoreRound(parse, Published(parse, earlier), s.jobs[l.id].got);
      } else {
        assert Published(parse, schedule) == Published(parse, earlier);
      }
    }
  }

  lemma OneMoreRound(parse: Parser, rounds: seq<Round>, r: Round)
    ensures AfterRounds(parse, rounds + [r]) == Build(parse, AfterRounds(parse, rounds), r).feeds
  {
    assert (rounds + [r])[..|rounds|] == rounds;
  }

  /** So after every such schedule each feed holds exactly its latest published fetch. */
  lemma NoAmnesiaOneAtATime(parse: Parser, schedule: seq<Label>, i: nat)
    requires OneAtATime(parse, schedule) && i < |FEEDS|
    ensures var sets, latest := Run(parse, schedule).feeds, Latest(Published(parse, schedule), i);
      && (FEEDS[i] in sets <==> latest.Fetched?)
      && (latest.Fetched? ==> sets[FEEDS[i]] == FeedKeys(parse, FEEDS[i], latest.urls))
  {
    OneAtATimeIsRounds(parse, schedule);
    NoAmnesia(parse, Published(parse, schedule), i);
  }

  lemma RunOneMore(parse: Parser, schedule: seq<Label>, l: Label)
    ensures Run(parse, schedule + [l]) == Step(parse, Run(parse, schedule), l)
  {
    assert (schedule + [l])[..|schedule|] == schedule;
  }

  function Fetching(id: nat, got: seq<Fetch>): seq<Label> {
    seq(|got|, i requires 0 <= i < |got| => Next(id, got[i]))
  }

  lemma {:induction false} FetchingRuns(parse: Parser, schedule: seq<Label>, id: nat, got: seq<Fetch>)
    requires id in Run(parse, schedule).jobs && Run(parse, schedule).jobs[id].got == [] && |got| <= |FEEDS|
    ensures var s := Run(parse, schedule);
      Run(parse, schedule + Fetching(id, got)) == s.(jobs := s.jobs[id := Job(s.jobs[id].prev, got)])
  {
    if got == [] {
      assert schedule + Fetching(id, got) == schedule;
    } else {
      var n := |got| - 1;
      FetchingRuns(parse, schedule, id, got[..n]);
      assert schedule + Fetching(id, got) == schedule + Fetching(id, got[..n]) + [Next(id, got[n])];
      RunOneMore(parse, schedule + Fetching(id, got[..n]), Next(id, got[n]));
      assert got[..n] + [got[n]] == got;
    }
  }

  /** Two overlapping refreshes can lose a feed that one of them fetched. */
  lemma OverlapLosesFeed(parse: Parser, url: string) returns (before: seq<Label>, after: seq<Label>)
    ensures before <= after
    ensures FEEDS[0] in Run(parse, before).feeds && FEEDS[0] !in Run(parse, after).feeds
  {
    var good, bad := [Fetched([url]), Failed, Failed, Failed], [Failed, Failed, Failed, Failed];
    RunOneMore(parse, [], Begin(0));
    RunOneMore(parse, [] + [Begin(0)], Begin(1));
    var both := [] + [Begin(0)] + [Begin(1)];
    assert Run(parse, both).jobs == map[0 := Job(map[], []), 1 := Job(map[], [])];
    FetchingRuns(parse, both, 1, good);
    RunOneMore(parse, both + Fetching(1, good), Publish(1));
    before := both + Fetching(1, good) + [Publish(1)];
    BuildExact(parse, map[], good, 0);
    FetchingRuns(parse, before, 0, bad);
    RunOneMore(parse, before + Fetching(0, bad), Publish(0));
    after := before + Fetching(0, bad) + [Publish(0)];
    BuildExact(parse, map[], bad, 0);
  }

  /** A refresh of feed 0 alone, with the other fetches failing. */
  function OnlyFirst(f: Fetch): seq<Fetch> { [f, Failed, Failed, Failed] }

  lemma PublishRuns(parse: Parser, schedule: seq<Label>, id: nat, f: Fetch)
    requires id in Run(parse, schedule).jobs && Run(parse, schedule).jobs[id].got == []
    ensures var s, after := Run(parse, schedule), schedule + Fetching(id, OnlyFirst(f)) + [Publish(id)];
      && Run(parse, after).feeds == Build(parse, s.jobs[id].prev, OnlyFirst(f)).feeds
      && Run(parse, after).jobs == s.jobs - {id}
  {
    FetchingRuns(parse, schedule, id, OnlyFirst(f));
    RunOneMore(parse, schedule + Fetching(id, OnlyFirst(f)), Publish(id));
    var s := Run(parse, schedule);
    assert s.jobs[id := Job(s.jobs[id].prev, OnlyFirst(f))] - {id} == s.jobs - {id};
  }

  lemma BeginRuns(parse: Parser, schedule: seq<Label>, id: nat)
    requires id !in Run(parse, schedule).jobs
    ensures var s := Run(parse, schedule);
      Run(parse, schedule + [Begin(id)]) == s.(jobs := s.jobs[id := Job(s.feeds, [])])
  {
    RunOneMore(parse, schedule, Begin(id));
  }

  /** An overlapping refresh can put back an older set: entries that the latest fetch of the feed
      has dropped come back. */
  lemma OverlapPutsBackOlder(parse: Parser, url: string) returns (before: seq<Label>, after: seq<Label>)
    requires NormalizeURL(parse, url) != ""
    ensures before <= after
    ensures var sets, sets' := Run(parse, before).feeds, Run(parse, after).feeds;
      && FEEDS[0] in sets && sets[FEEDS[0]] == {}
      && FEEDS[0] in sets' && NormalizeURL(parse, url) in sets'[FEEDS[0]]
  {
    BeginRuns(parse, [], 0);
    PublishRuns(parse, [] + [Begin(0)], 0, Fetched([url]));
    var first := [] + [Begin(0)] + Fetching(0, OnlyFirst(Fetched([url]))) + [Publish(0)];
    BuildExact(parse, map[], OnlyFirst(Fetched([url])), 0);
    var snapshot := Run(parse, first).feeds;
    BeginRuns(parse, first, 1);
    BeginRuns(parse, first + [Begin(1)], 2);
    var both := first + [Begin(1)] + [Begin(2)];
    PublishRuns(parse, both, 2, Fetched([]));
    before := both + Fetching(2, OnlyFirst(Fetched([]))) + [Publish(2)];
    BuildExact(parse, snapshot, OnlyFirst(Fetched([])), 0);
    PublishRuns(parse, before, 1, Failed);
    after := before + Fetching(1, OnlyFirst(Failed)) + [Publish(1)];
    BuildExact(parse, snapshot, OnlyFirst(Failed), 0);
    assert FeedKeys(parse, FEEDS[0], [url]) >= UrlKeys(parse, FEEDS[0], url);
  }

  // ----- Which URLs share a key -------------------------------------------------------------------

  lemma LowerExact(s: string)
    ensures |Lower(s)| == |s|
    ensures forall i :: 0 <= i < |s| ==>
      Lower(s)[i] as int == s[i] as int + if 'A' <= s[i] <= 'Z' then 32 else 0
  {
  }

  lemma TrimExact(s: string)
    ensures "www." + TrimWww(s) == s || (TrimWww(s) == s && !("www." <= s))
  {
  }

  /** Hosts agree after lower-casing and without a leading "www.". */
  predicate SameHost(h: string, k: string) {
    TrimWww(Lower(h)) == TrimWww(Lower(k))
  }

  /** A parsed URL as url.Parse gives it: no slash in the host, and a path that is empty or
      begins with one. */
  predicate WellFormed(u: Url) {
    u.Parsed? && '/' !in u.hostname && (u.path == "" || u.path[0] == '/')
  }

  lemma NoSlashAfter(h: string)
    requires '/' !in h
    ensures '/' !in TrimWww(Lower(h))
  {
    LowerExact(h);
    forall i | 0 <= i < |h| ensures Lower(h)[i] != '/' { assert h[i] in h; }
  }

  /** A text has one split into a part without a slash and a rooted rest. */
  lemma OneSplit(h: string, p: string, k: string, q: string)
    requires '/' !in h && '/' !in k && (p == "" || p[0] == '/') && (q == "" || q[0] == '/')
    ensures h + p == k + q <==> h == k && p == q
  {
    if h + p == k + q {
      var all := h + p;
      assert forall i :: 0 <= i < |h| ==> all[i] == h[i] && h[i] in h;
      assert forall i :: 0 <= i < |k| ==> all[i] == k[i] && k[i] in k;
      assert |h| < |all| ==> all[|h|] == '/';
      assert |k| < |all| ==> all[|k|] == '/';
      assert |h| == |k|;
      assert h == all[..|h|] && k == all[..|h|] && p == all[|h|..] && q == all[|h|..];
    }
  }

  /** Two URLs have the same key exactly if their paths are equal and their hosts agree. */
  lemma SameUrlExactly(parse: Parser, x: string, y: string)
    requires WellFormed(parse(x)) && WellFormed(parse(y))
    ensures NormalizeURL(parse, x) == NormalizeURL(parse, y) <==>
            parse(x).path == parse(y).path && SameHost(parse(x).hostname, parse(y).hostname)
  {
    NoSlashAfter(parse(x).hostname);
    NoSlashAfter(parse(y).hostname);
    OneSplit(TrimWww(Lower(parse(x).hostname)), parse(x).path, TrimWww(Lower(parse(y).hostname)), parse(y).path);
  }

  // ----- What a lookup finds, in terms of the listed URLs --------------------------------------------

  lemma {:induction false} KeyListed(parse: Parser, feed: string, urls: seq<string>, key: string)
    ensures key in FeedKeys(parse, feed, urls) <==> exists u :: u in urls && key in UrlKeys(parse, feed, u)
  {
    if urls != [] {
      var n := |urls| - 1;
      KeyListed(parse, feed, urls[..n], key);
      assert urls == urls[..n] + [urls[n]];
    }
  }

  /** The feed sets after the first refresh, in which only feed `i` could be fetched. */
  function OnlyFeed(parse: Parser, i: nat, urls: seq<string>): FeedSets
    requires i < |FEEDS|
  {
    Build(parse, map[], seq(|FEEDS|, k => if k == i then Fetched(urls) else Failed)).feeds
  }

  lemma OnlyFeedExact(parse: Parser, i: nat, urls: seq<string>)
    requires i < |FEEDS|
    ensures OnlyFeed(parse, i, urls) == map[FEEDS[i] := FeedKeys(parse, FEEDS[i], urls)]
  {
    var got := seq(|FEEDS|, k => if k == i then Fetched(urls) else Failed);
    var after := OnlyFeed(parse, i, urls);
    FeedsDistinct();
    forall k: nat | k < |FEEDS| ensures FEEDS[k] in after <==> k == i { BuildExact(parse, map[], got, k); }
    BuildExact(parse, map[], got, i);
    BuildRight(parse, map[], got);
    forall f | f in after ensures f == FEEDS[i] {
      var k :| 0 <= k < |FEEDS| && FEEDS[k] == f;
    }
  }

  /** The feed lists this URL: same path and agreeing host. */
  predicate ListsUrl(parse: Parser, urls: seq<string>, raw: string)
    requires parse(raw).Parsed?
  {
    exists u :: u in urls && parse(u).Parsed? && parse(u).path == parse(raw).path && SameHost(parse(u).hostname, parse(raw).hostname)
  }

  /** The feed lists a URL that consists of this host alone. */
  predicate ListsHost(parse: Parser, urls: seq<string>, host: string) {
    exists u :: u in urls && parse(u).Parsed? && parse(u).path == "" && TrimWww(Lower(parse(u).hostname)) == host
  }

  /** The URL has a path or a host other than "www.". */
  predicate HasContent(u: Url) {
    u.Parsed? && (u.path != "" || TrimWww(Lower(u.hostname)) != "")
  }

  predicate AllWellFormed(parse: Parser, urls: seq<string>) {
    forall u :: u in urls ==> WellFormed(parse(u))
  }

  /** After a fetch of URLhaus or ThreatFox an exact lookup hits a URL exactly if the feed listed
      one with that host and path. */
  lemma ExactLookupExactly(parse: Parser, i: nat, urls: seq<string>, raw: string)
    requires (i == 0 && FEEDS[i] == "urlhaus") || (i == 3 && FEEDS[i] == "threatfox")
    requires AllWellFormed(parse, urls) && WellFormed(parse(raw)) && HasContent(parse(raw))
    ensures var sets := OnlyFeed(parse, i, urls);
      (exists f :: f in sets && NormalizeURL(parse, raw) in sets[f]) <==> ListsUrl(parse, urls, raw)
  {
    OnlyFeedExact(parse, i, urls);
    KeyListed(parse, FEEDS[i], urls, NormalizeURL(parse, raw));
    forall u | u in urls ensures NormalizeURL(parse, u) == NormalizeURL(parse, raw) <==>
        parse(u).path == parse(raw).path && SameHost(parse(u).hostname, parse(raw).hostname) {
      SameUrlExactly(parse, u, raw);
    }
    assert FEEDS[i] in OnlyFeed(parse, i, urls);
    KeyIsNotEmpty(parse, raw);
  }

  lemma KeyIsNotEmpty(parse: Parser, raw: string)
    requires HasContent(parse(raw))
    ensures NormalizeURL(parse, raw) != ""
  {
    assert |NormalizeURL(parse, raw)| >= |parse(raw).path|;
  }

  /** A lookup with these feeds hits no other URL on the host, unless the host alone is listed. */
  lemma HostLookupOfMalwareFeeds(parse: Parser, i: nat, urls: seq<string>, raw: string)
    requires (i == 0 && FEEDS[i] == "urlhaus") || (i == 3 && FEEDS[i] == "threatfox")
    requires AllWellFormed(parse, urls) && WellFormed(parse(raw)) && HasContent(parse(raw))
    ensures var sets := OnlyFeed(parse, i, urls);
      (exists f :: f in sets && Lists(sets[f], parse, raw)) ==>
        ListsUrl(parse, urls, raw) || ListsHost(parse, urls, HostKey(parse, raw))
  {
    var sets := OnlyFeed(parse, i, urls);
    ExactLookupExactly(parse, i, urls, raw);
    OnlyFeedExact(parse, i, urls);
    var host := HostKey(parse, raw);
    KeyListed(parse, FEEDS[i], urls, host);
    if host != "" && host in sets[FEEDS[i]] {
      var u :| u in urls && host in UrlKeys(parse, FEEDS[i], u);
      HostKeyHasNoSlash(parse, raw);
      NoSlashAfter(parse(u).hostname);
      OneSplit(TrimWww(Lower(parse(u).hostname)), parse(u).path, host, "");
      assert host + "" == host;
    }
  }

  lemma HostKeyHasNoSlash(parse: Parser, raw: string)
    requires WellFormed(parse(raw))
    ensures '/' !in HostKey(parse, raw)
  {
    var h := parse(raw).hostname;
    var trimmed := TrimWww(h);
    LowerExact(trimmed);
    forall i | 0 <= i < |trimmed| ensures Lower(trimmed)[i] != '/' {
      assert trimmed[i] in h;
    }
  }

  /** After a fetch of OpenPhish or PhishTank a lookup hits every URL on a listed host. */
  lemma PhishingHostHits(parse: Parser, i: nat, urls: seq<string>, u: string, raw: string)
    requires (i == 1 && FEEDS[i] == "openphish") || (i == 2 && FEEDS[i] == "phishtank")
    requires u in urls && HasContent(parse(u)) && parse(raw).Parsed?
    requires Lower(TrimWww(parse(u).hostname)) == Lower(TrimWww(parse(raw).hostname)) != ""
    ensures var sets := OnlyFeed(parse, i, urls); exists f :: f in sets && Lists(sets[f], parse, raw)
  {
    OnlyFeedExact(parse, i, urls);
    KeyIsNotEmpty(parse, u);
    KeyListed(parse, FEEDS[i], urls, HostKey(parse, raw));
    assert HostKey(parse, raw) in UrlKeys(parse, FEEDS[i], u);
    assert Lists(OnlyFeed(parse, i, urls)[FEEDS[i]], parse, raw);
  }

  /** A listed text that is not a URL is found again under any spelling of its letters' case. */
  lemma UnparsedIsFound(parse: Parser, i: nat, urls: seq<string>, u: string, raw: string)
    requires i < |FEEDS| && u in urls && u != "" && parse(u).Unparsed? && parse(raw).Unparsed? && Lower(raw) == Lower(u)
    ensures var sets := OnlyFeed(parse, i, urls); FEEDS[i] in sets && NormalizeURL(parse, raw) in sets[FEEDS[i]]
  {
    OnlyFeedExact(parse, i, urls);
    LowerExact(u);
    KeyListed(parse, FEEDS[i], urls, NormalizeURL(parse, raw));
    assert Lower(u) in UrlKeys(parse, FEEDS[i], u);
  }
}

/**
 The Proofpoint URL Defense decoders. A string stands for a Go byte string: one char per byte.
 */
module Proofpoint {
  import opened Options

  // ----- The library functions that the decoders use ------------------------------------------

  predicate IsHex(c: char) {
    '0' <= c <= '9' || 'A' <= c <= 'F' || 'a' <= c <= 'f'
  }

  function HexValue(c: char): (v: nat)
    requires IsHex(c)
    ensures v < 16
  {
    if c <= '9' then c as int - '0' as int
    else if c <= 'F' then c as int - 'A' as int + 10
    else c as int - 'a' as int + 10
  }

  function Pair(high: char, low: char): char
    requires IsHex(high) && IsHex(low)
  {
    (16 * HexValue(high) + HexValue(low)) as char
  }

  /** The text starts with `marker` and two hex digits. */
  predicate Marked(marker: char, e: string) {
    |e| >= 3 && e[0] == marker && IsHex(e[1]) && IsHex(e[2])
  }

  /** Every marker followed by two hex digits becomes a percent sign. */
  function MarkersToPercent(marker: char, e: string): string {
    if e == [] then []
    else if Marked(marker, e) then ['%', e[1], e[2]] + MarkersToPercent(marker, e[3..])
    else [e[0]] + MarkersToPercent(marker, e[1..])
  }

  /** url.QueryUnescape: an error on a percent sign without two hex digits. */
  function QueryUnescape(e: string): Option<string> {
    if e == [] then Some([])
    else if e[0] == '%' then
      if !Marked('%', e) then None
      else
        match QueryUnescape(e[3..])
        case None => None
        case Some(s) => Some([Pair(e[1], e[2])] + s)
    else
      match QueryUnescape(e[1..])
      case None => None
      case Some(s) => Some([if e[0] == '+' then ' ' else e[0]] + s)
  }

  predicate HasPrefix(s: string, p: string) {
    |p| <= |s| && s[..|p|] == p
  }

  /** strings.ReplaceAll, from left to right and without overlap. */
  function ReplaceAll(s: string, from: string, to: string): string
    requires from != []
    decreases |s|
  {
    if s == [] then []
    else if HasPrefix(s, from) then to + ReplaceAll(s[|from|..], from, to)
    else [s[0]] + ReplaceAll(s[1..], from, to)
  }

  predicate IsUrl(s: string) {
    HasPrefix(s, "http://") || HasPrefix(s, "https://")
  }

  // ----- The decoders ----------------------------------------------------------------------------

  function DecodeV2(encoded: string): string {
    match QueryUnescape(MarkersToPercent('-', encoded))
    case None => ""
    case Some(s) => if IsUrl(s) then s else DecodeV2Underscore(encoded)
  }

  function DecodeV2Underscore(encoded: string): string {
    var percent := MarkersToPercent('-', encoded);
    var text := match QueryUnescape(percent) case None => percent case Some(s) => s;
    var result := ReplaceAll(ReplaceAll(text, "__", "//"), "_", "/");
    if IsUrl(result) then result else ""
  }

  /** At k stands the end of the embedded URL: two underscores, then a semicolon or nothing. */
  predicate IsEnd(body: string, k: nat) {
    k + 2 <= |body| && body[k] == '_' && body[k + 1] == '_' && (k + 2 == |body| || body[k + 2] == ';')
  }

  /** The shortest match of `.+?` before an end; a dot does not match a newline. */
  function FindEnd(body: string, k: nat): (end: Option<nat>)
    requires k <= |body|
    ensures end.Some? ==> 0 < end.value < |body| && k <= end.value
    decreases |body| - k
  {
    if k > 0 && IsEnd(body, k) then Some(k)
    else if k == |body| || body[k] == '\n' then None
    else FindEnd(body, k + 1)
  }

  const V3_PREFIX := "/v3/__"

  function DecodeV3(path: string): string {
    if !HasPrefix(path, V3_PREFIX) then ""
    else
      var body := path[|V3_PREFIX|..];
      match FindEnd(body, 0)
      case None => ""
      case Some(k) =>
        match QueryUnescape(MarkersToPercent('*', body[..k]))
        case None => ""
        case Some(s) => if IsUrl(s) then s else ""
  }

  // ----- The formats -----------------------------------------------------------------------------

  /** `e` is an encoding of `s`, byte by byte: a plain byte stands for itself, a plus sign for a
      space, a marker or percent sign with two hex digits for the byte they name, and a marker
      without two hex digits for itself. */
  ghost predicate Encodes(marker: char, s: string, e: string) {
    if e == [] then s == []
    else if Marked(marker, e) || Marked('%', e) then
      s != [] && s[0] == Pair(e[1], e[2]) && Encodes(marker, s[1..], e[3..])
    else
      s != [] && e[0] != '%' && s[0] == (if e[0] == '+' then ' ' else e[0]) && Encodes(marker, s[1..], e[1..])
  }

  /** Replacing the markers first and unescaping then reads exactly the encodings. */
  lemma {:induction false} DecodesExactly(marker: char, s: string, e: string)
    requires !IsHex(marker) && marker != '+'
    ensures QueryUnescape(MarkersToPercent(marker, e)) == Some(s) <==> Encodes(marker, s, e)
    decreases |e|
  {
    if e != [] {
      var percent := MarkersToPercent(marker, e);
      if Marked(marker, e) {
        assert percent[3..] == MarkersToPercent(marker, e[3..]);
        Prepend(QueryUnescape(percent[3..]), Pair(e[1], e[2]), s);
        if s != [] { DecodesExactly(marker, s[1..], e[3..]); }
      } else if e[0] == '%' {
        PercentStays(marker, e);
        if Marked('%', e) {
          assert percent[3..] == MarkersToPercent(marker, e[3..]);
          Prepend(QueryUnescape(percent[3..]), Pair(e[1], e[2]), s);
          if s != [] { DecodesExactly(marker, s[1..], e[3..]); }
        }
      } else {
        assert percent[1..] == MarkersToPercent(marker, e[1..]);
        Prepend(QueryUnescape(percent[1..]), if e[0] == '+' then ' ' else e[0], s);
        if s != [] { DecodesExactly(marker, s[1..], e[1..]); }
      }
    }
  }

  lemma Prepend(tail: Option<string>, c: char, s: string)
    ensures (tail.Some? && [c] + tail.value == s) <==> (s != [] && s[0] == c && tail == Some(s[1..]))
  {
    if s != [] { assert s == [s[0]] + s[1..]; }
  }

  /** The two characters after a percent sign are hex digits after the replacement exactly when
      they were before. */
  lemma PercentStays(marker: char, e: string)
    requires e != [] && e[0] == '%' && !Marked(marker, e) && !IsHex(marker)
    ensures Marked('%', MarkersToPercent(marker, e)) <==> Marked('%', e)
    ensures Marked('%', e) ==> MarkersToPercent(marker, e) == e[..3] + MarkersToPercent(marker, e[3..])
  {
    Unmarked(marker, e);
    var one := e[1..];
    HexFirst(marker, one);
    if one != [] && IsHex(one[0]) {
      var two := one[1..];
      HexFirst(marker, two);
      assert two != [] ==> two[1..] == e[3..];
    }
  }

  /** A text starts with a hex digit after the replacement exactly if it did before, and keeps it. */
  lemma HexFirst(marker: char, e: string)
    requires !IsHex(marker)
    ensures var percent := MarkersToPercent(marker, e);
      && ((percent != [] && IsHex(percent[0])) <==> (e != [] && IsHex(e[0])))
      && (e != [] && IsHex(e[0]) ==> percent == [e[0]] + MarkersToPercent(marker, e[1..]))
  {
  }

  /** What does not start with a marked byte keeps its first character. */
  lemma Unmarked(marker: char, e: string)
    requires e != [] && !Marked(marker, e)
    ensures var percent := MarkersToPercent(marker, e);
      percent != [] && percent[0] == e[0] && percent[1..] == MarkersToPercent(marker, e[1..])
  {
  }

  // ----- An encoder ------------------------------------------------------------------------------

  function HexDigit(v: nat): (c: char)
    requires v < 16
    ensures IsHex(c) && HexValue(c) == v
  {
    if v < 10 then '0' + v as char else 'A' + (v - 10) as char
  }

  predicate IsBytes(s: string) {
    forall i :: 0 <= i < |s| ==> s[i] as int < 256
  }

  /** Percent-encoding with another marker: what the caller calls safe is kept, everything else
      is written as the marker and two hex digits. */
  function Encode(marker: char, safe: char -> bool, s: string): string
    requires IsBytes(s)
  {
    if s == [] then []
    else
      (if safe(s[0]) then [s[0]] else [marker, HexDigit(s[0] as int / 16), HexDigit(s[0] as int % 16)]) +
      Encode(marker, safe, s[1..])
  }

  ghost predicate KeepsPlain(marker: char, safe: char -> bool) {
    !safe(marker) && !safe('%') && !safe('+')
  }

  lemma {:induction false} EncodeEncodes(marker: char, safe: char -> bool, s: string)
    requires IsBytes(s) && KeepsPlain(marker, safe)
    ensures Encodes(marker, s, Encode(marker, safe, s))
  {
    if s != [] {
      EncodeEncodes(marker, safe, s[1..]);
      var e := Encode(marker, safe, s);
      if safe(s[0]) {
        assert e[1..] == Encode(marker, safe, s[1..]);
      } else {
        assert Pair(e[1], e[2]) == s[0];
        assert e[3..] == Encode(marker, safe, s[1..]);
      }
    }
  }

  lemma {:induction false} EncodeUses(marker: char, safe: char -> bool, s: string, c: char)
    requires IsBytes(s) && c in Encode(marker, safe, s)
    ensures safe(c) || c == marker || IsHex(c)
  {
    if !(c == marker || IsHex(c) || safe(c)) {
      EncodeUses(marker, safe, s[1..], c);
    }
  }

  // ----- Version 2 -------------------------------------------------------------------------------

  /** Every http or https URL comes back from the hyphen form. */
  lemma V2RoundTrip(url: string, e: string)
    requires IsUrl(url) && Encodes('-', url, e)
    ensures DecodeV2(e) == url
  {
    DecodesExactly('-', url, e);
  }

  /** In particular for a plain encoder. */
  lemma V2EncoderRoundTrip(url: string, safe: char -> bool)
    requires IsUrl(url) && IsBytes(url) && KeepsPlain('-', safe)
    ensures DecodeV2(Encode('-', safe, url)) == url
  {
    EncodeEncodes('-', safe, url);
    V2RoundTrip(url, Encode('-', safe, url));
  }

  function Swap(s: string, from: char, to: char): (r: string)
    ensures |r| == |s| && forall i :: 0 <= i < |s| ==> r[i] == if s[i] == from then to else s[i]
  {
    if s == [] then [] else [if s[0] == from then to else s[0]] + Swap(s[1..], from, to)
  }

  /** The second pass maps the first character and goes on with the rest. */
  lemma PassesOver(c: char, rest: string)
    ensures ReplaceAll([c] + rest, "_", "/") == [if c == '_' then '/' else c] + ReplaceAll(rest, "_", "/")
  {
    var s := [c] + rest;
    assert s[1..] == rest;
    assert HasPrefix(s, "_") <==> c == '_' by { assert s[..1] == [c]; }
  }

  lemma PairFirst(s: string)
    requires HasPrefix(s, "__")
    ensures ReplaceAll(s, "__", "//") == ['/'] + (['/'] + ReplaceAll(s[2..], "__", "//"))
    ensures Swap(s, '_', '/') == ['/'] + (['/'] + Swap(s[2..], '_', '/'))
  {
    assert s[..2][0] == s[0] && s[..2][1] == s[1];
    assert s[1..][1..] == s[2..];
  }

  /** Replacing pairs of underscores first and single ones then maps every underscore to a
      slash. */
  lemma {:induction false} TwoPassesMapUnderscores(s: string)
    ensures ReplaceAll(ReplaceAll(s, "__", "//"), "_", "/") == Swap(s, '_', '/')
    decreases |s|
  {
    if s != [] {
      if HasPrefix(s, "__") {
        var rest := ReplaceAll(s[2..], "__", "//");
        PairFirst(s);
        PassesOver('/', ['/'] + rest);
        PassesOver('/', rest);
        TwoPassesMapUnderscores(s[2..]);
      } else {
        PassesOver(s[0], ReplaceAll(s[1..], "__", "//"));
        TwoPassesMapUnderscores(s[1..]);
      }
    }
  }

  lemma UnderscoredIsNoUrl(url: string)
    ensures !IsUrl(Swap(url, '/', '_'))
  {
    var text := Swap(url, '/', '_');
    if |text| >= 7 {
      assert text[5] != '/' && text[6] != '/';
      assert "http://"[5] == '/' && "https://"[6] == '/';
    }
  }

  /** In the older form, in which slashes are written as underscores, exactly the http and https
      URLs without an underscore of their own come back. */
  lemma V2UnderscoreRoundTrip(url: string, e: string)
    requires IsUrl(url) && Encodes('-', Swap(url, '/', '_'), e)
    ensures DecodeV2(e) == url <==> '_' !in url
  {
    var text := Swap(url, '/', '_');
    DecodesExactly('-', text, e);
    UnderscoredIsNoUrl(url);
    TwoPassesMapUnderscores(text);
    var back := Swap(text, '_', '/');
    if '_' in url {
      var i :| 0 <= i < |url| && url[i] == '_';
      assert back[i] == '/';
    } else {
      assert back == url;
    }
  }

  // ----- Version 3 -------------------------------------------------------------------------------

  lemma {:induction false} FindsFirstEnd(body: string, k: nat, end: nat)
    requires k <= end <= |body| && end > 0 && IsEnd(body, end)
    requires forall j :: k <= j < end ==> body[j] != '\n' && (j > 0 ==> !IsEnd(body, j))
    ensures FindEnd(body, k) == Some(end)
    decreases end - k
  {
    if k < end { FindsFirstEnd(body, k + 1, end); }
  }

  lemma {:induction false} FoundEnd(body: string, k: nat)
    requires k <= |body|
    ensures FindEnd(body, k).Some? ==>
              var end := FindEnd(body, k).value;
              k <= end < |body| && IsEnd(body, end) && forall j :: k <= j < end ==> body[j] != '\n' && (j > 0 ==> !IsEnd(body, j))
    decreases |body| - k
  {
    if !(k > 0 && IsEnd(body, k)) && k < |body| && body[k] != '\n' { FoundEnd(body, k + 1); }
  }

  /** What may follow the embedded URL: nothing, or a token after a semicolon. */
  predicate IsSuffix(suffix: string) {
    suffix == [] || suffix[0] == ';'
  }

  /** The encoded URL itself contains what ends it. */
  ghost predicate EndsEarly(e: string) {
    exists k: nat :: EndInside(e, k)
  }

  predicate EndInside(e: string, k: nat) {
    0 < k && k + 3 <= |e| && e[k] == '_' && e[k + 1] == '_' && e[k + 2] == ';'
  }

  /** In a path, an end before the real one is one inside the encoded URL. */
  lemma EarlierEnd(e: string, suffix: string, k: nat)
    requires IsSuffix(suffix) && 0 < k < |e|
    ensures IsEnd(e + "__" + suffix, k) <==> EndInside(e, k)
  {
    var body := e + "__" + suffix;
    assert body[|e|] == '_' && body[|e| + 1] == '_';
  }

  /** Cutting an encoding at an underscore cuts it between two bytes. */
  lemma {:induction false} CutEncoding(marker: char, s: string, e: string, k: nat)
    requires Encodes(marker, s, e) && k < |e| && e[k] == '_'
    ensures exists m: nat :: m < |s| && Encodes(marker, s[..m], e[..k])
    decreases |e|
  {
    if k == 0 {
      assert Encodes(marker, s[..0], e[..0]);
    } else {
      var n := if Marked(marker, e) || Marked('%', e) then 3 else 1;
      assert n <= k;
      CutEncoding(marker, s[1..], e[n..], k - n);
      var m: nat :| m < |s[1..]| && Encodes(marker, s[1..][..m], e[n..][..k - n]);
      assert s[..m + 1][1..] == s[1..][..m];
      assert e[..k][n..] == e[n..][..k - n];
      assert Marked(marker, e[..k]) == Marked(marker, e) && Marked('%', e[..k]) == Marked('%', e);
      assert Encodes(marker, s[..m + 1], e[..k]);
    }
  }

  /** Of all encodings of http and https URLs, with any token after them, exactly those come
      back that have no newline and do not contain their own end. */
  lemma V3RoundTripExactly(url: string, e: string, suffix: string)
    requires IsUrl(url) && Encodes('*', url, e) && IsSuffix(suffix)
    ensures DecodeV3(V3_PREFIX + e + "__" + suffix) == url <==> '\n' !in e && !EndsEarly(e)
  {
    var path, body := V3_PREFIX + e + "__" + suffix, e + "__" + suffix;
    assert path[|V3_PREFIX|..] == body && path[..|V3_PREFIX|] == V3_PREFIX;
    DecodesExactly('*', url, e);
    assert IsEnd(body, |e|);
    if '\n' !in e && !EndsEarly(e) {
      forall j | 0 <= j < |e| ensures body[j] != '\n' && (j > 0 ==> !IsEnd(body, j)) {
        assert body[j] in e;
        if j > 0 { EarlierEnd(e, suffix, j); }
      }
      FindsFirstEnd(body, 0, |e|);
      assert body[..|e|] == e;
    } else {
      CutShort(url, e, suffix);
    }
  }

  lemma CutShort(url: string, e: string, suffix: string)
    requires IsUrl(url) && Encodes('*', url, e) && IsSuffix(suffix)
    requires '\n' in e || EndsEarly(e)
    ensures DecodeV3(V3_PREFIX + e + "__" + suffix) != url
  {
    var path, body := V3_PREFIX + e + "__" + suffix, e + "__" + suffix;
    assert path[|V3_PREFIX|..] == body;
    FoundEnd(body, 0);
    var found := FindEnd(body, 0);
    if found.Some? {
      var k := found.value;
      if k >= |e| {
        forall j | 0 <= j < |e| ensures e[j] != '\n' { assert body[j] == e[j]; }
        var j: nat :| EndInside(e, j);
        EarlierEnd(e, suffix, j);
        assert false;
      } else {
        assert body[..k] == e[..k] && body[k] == e[k];
        CutEncoding('*', url, e, k);
        var m: nat :| m < |url| && Encodes('*', url[..m], e[..k]);
        DecodesExactly('*', url[..m], e[..k]);
      }
    }
  }

  /** Such URLs exist: a literal end inside the URL cuts it short. */
  lemma LiteralEndCutsShort()
    ensures DecodeV3(V3_PREFIX + "http://h/__;x" + "__;t!!k") == "http://h/"
  {
    var e, suffix := "http://h/__;x", ";t!!k";
    var path, body := V3_PREFIX + e + "__;t!!k", e + "__" + suffix;
    assert path[|V3_PREFIX|..] == body;
    FindsFirstEnd(body, 0, 9);
    assert body[..9] == "http://h/";
    PlainEncodes("http://h/");
    DecodesExactly('*', "http://h/", "http://h/");
  }

  lemma {:induction false} PlainEncodes(s: string)
    requires '*' !in s && '%' !in s && '+' !in s
    ensures Encodes('*', s, s)
  {
    if s != [] { PlainEncodes(s[1..]); }
  }

  /** An encoder that escapes the semicolon and the newline brings back every http or https
      URL, with any token. */
  lemma V3EncoderRoundTrip(url: string, safe: char -> bool, suffix: string)
    requires IsUrl(url) && IsBytes(url) && IsSuffix(suffix)
    requires KeepsPlain('*', safe) && !safe(';') && !safe('\n')
    ensures DecodeV3(V3_PREFIX + Encode('*', safe, url) + "__" + suffix) == url
  {
    var e := Encode('*', safe, url);
    EncodeEncodes('*', safe, url);
    if '\n' in e { EncodeUses('*', safe, url, '\n'); }
    if EndsEarly(e) {
      var k: nat :| EndInside(e, k);
      assert e[k + 2] == ';';
      EncodeUses('*', safe, url, ';');
    }
    V3RoundTripExactly(url, e, suffix);
  }

  /** Every decoder gives a text that begins with http:// or https://, or nothing. */
  lemma DecodesToUrl(e: string)
    ensures forall s :: s in [DecodeV2(e), DecodeV2Underscore(e), DecodeV3(e)] ==>
      s == "" || "http://" <= s || "https://" <= s
  {
    UrlPrefix(DecodeV2(e));
    UrlPrefix(DecodeV2Underscore(e));
    UrlPrefix(DecodeV3(e));
  }

  lemma UrlPrefix(s: string)
    ensures IsUrl(s) <==> "http://" <= s || "https://" <= s
  {
  }

  /** Hex digits of either case stand for their values. */
  lemma HexExamples()
    ensures Pair('3', 'A') == ':' && Pair('2', 'f') == '/' && Pair('4', '1') == 'A'
  {
  }
}

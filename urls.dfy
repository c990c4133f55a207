/**
 * The part of Python's `urllib.parse.urlparse` that `Node.register_node`
 * (node.py) relies on: the scheme and the network location of a peer address,
 * and the normalised `scheme://netloc` form a peer is stored under.
 */
module Urls {
  import opened Wrappers

  predicate IsAsciiLetter(ch: char) {
    'a' <= ch <= 'z' || 'A' <= ch <= 'Z'
  }

  predicate IsDigit(ch: char) {
    '0' <= ch <= '9'
  }

  /** The characters a URL scheme may consist of. */
  predicate IsSchemeChar(ch: char) {
    IsAsciiLetter(ch) || IsDigit(ch) || ch == '+' || ch == '-' || ch == '.'
  }

  /** Tab, carriage return and line feed are deleted anywhere in the URL. */
  predicate IsUnsafe(ch: char) {
    ch == '\t' || ch == '\r' || ch == '\n'
  }

  /** The characters that end a network location. */
  predicate IsNetlocEnd(ch: char) {
    ch == '/' || ch == '?' || ch == '#'
  }

  /** Leading C0 control characters and spaces are stripped. */
  function StripLeadingControls(s: string): (r: string)
    ensures |r| <= |s| && r == s[|s| - |r|..]
    ensures r != [] ==> r[0] > ' '
    ensures s != [] && s[0] > ' ' ==> r == s
  {
    if s != [] && s[0] <= ' ' then StripLeadingControls(s[1..]) else s
  }

  function RemoveUnsafe(s: string): (r: string)
    ensures forall k :: 0 <= k < |r| ==> !IsUnsafe(r[k])
    ensures forall ch :: ch in r ==> ch in s
  {
    if s == [] then [] else (if IsUnsafe(s[0]) then [] else [s[0]]) + RemoveUnsafe(s[1..])
  }

  lemma {:induction false} RemoveUnsafeKeepsSafe(s: string)
    ensures (forall k :: 0 <= k < |s| ==> !IsUnsafe(s[k])) ==> RemoveUnsafe(s) == s
    decreases |s|
  {
    if s != [] {
      RemoveUnsafeKeepsSafe(s[1..]);
    }
  }

  /** ASCII lower-casing, which is what `str.lower` does to a scheme. */
  function Lower(s: string): (r: string)
    ensures |r| == |s|
    ensures forall k :: 0 <= k < |s| ==> (IsAsciiLetter(s[k]) <==> IsAsciiLetter(r[k]))
    ensures forall k :: 0 <= k < |s| ==> (IsSchemeChar(s[k]) <==> IsSchemeChar(r[k]))
    ensures forall k :: 0 <= k < |r| ==> !('A' <= r[k] <= 'Z')
    ensures forall k :: 0 <= k < |s| && 'A' <= s[k] <= 'Z' ==> r[k] as int == s[k] as int + 32
    ensures forall k :: 0 <= k < |s| && !('A' <= s[k] <= 'Z') ==> r[k] == s[k]
    ensures (forall k :: 0 <= k < |s| ==> !('A' <= s[k] <= 'Z')) ==> r == s
  {
    seq(|s|, k requires 0 <= k < |s| => if 'A' <= s[k] <= 'Z' then (s[k] as int + 32) as char else s[k])
  }

  /** Two characters that are equal, or the same ASCII letter in the other case. */
  predicate SameUpToCase(a: char, b: char) {
    a == b || (IsAsciiLetter(a) && IsAsciiLetter(b) && (a as int - b as int == 32 || b as int - a as int == 32))
  }

  /** Schemes that differ only in the case of their letters lower to the same string,
      so `HTTP://h` and `http://h` name the same peer. */
  lemma LowerIgnoresCase(s: string, t: string)
    requires |s| == |t| && forall k :: 0 <= k < |s| ==> SameUpToCase(s[k], t[k])
    ensures Lower(s) == Lower(t)
  {
    forall k | 0 <= k < |s|
      ensures Lower(s)[k] == Lower(t)[k]
    {
      assert SameUpToCase(s[k], t[k]);
    }
  }

  /** Python's `s.find(ch)`. */
  function Find(s: string, ch: char): (r: int)
    ensures -1 <= r < |s|
    ensures r >= 0 ==> s[r] == ch && forall k :: 0 <= k < r ==> s[k] != ch
    ensures r == -1 ==> forall k :: 0 <= k < |s| ==> s[k] != ch
  {
    if s == [] then -1
    else if s[0] == ch then 0
    else var rest := Find(s[1..], ch); if rest == -1 then -1 else rest + 1
  }

  /** The network location: everything up to the first `/`, `?` or `#`. */
  function TakeNetloc(s: string): (r: string)
    ensures |r| <= |s| && r == s[..|r|]
    ensures forall k :: 0 <= k < |r| ==> !IsNetlocEnd(r[k])
    ensures |r| < |s| ==> IsNetlocEnd(s[|r|])
  {
    if s == [] || IsNetlocEnd(s[0]) then [] else [s[0]] + TakeNetloc(s[1..])
  }

  datatype Parts = Parts(scheme: string, netloc: string)

  /** Leading controls stripped, then tabs and line breaks deleted. */
  function Clean(address: string): (url: string)
    ensures forall k :: 0 <= k < |url| ==> !IsUnsafe(url[k])
    ensures address != [] && address[0] > ' ' && (forall k :: 0 <= k < |address| ==> !IsUnsafe(address[k]))
            ==> url == address
  {
    var stripped := StripLeadingControls(address);
    RemoveUnsafeKeepsSafe(stripped);
    RemoveUnsafe(stripped)
  }

  /** Whether the text before the first colon (at i) is taken as the scheme. */
  predicate HasScheme(url: string, i: int) {
    0 < i < |url| && IsAsciiLetter(url[0]) && forall k :: 0 <= k < i ==> IsSchemeChar(url[k])
  }

  /** The netloc of what follows the scheme: present only after `//`. */
  function NetlocAfter(rest: string): (n: string)
    ensures forall k :: 0 <= k < |n| ==> !IsNetlocEnd(n[k])
    ensures (forall k :: 0 <= k < |rest| ==> !IsUnsafe(rest[k])) ==> NetlocOk(n)
    ensures forall m :: rest == "//" + m && (forall k :: 0 <= k < |m| ==> !IsNetlocEnd(m[k])) ==> n == m
  {
    if |rest| >= 2 && rest[..2] == "//" then
      var n := TakeNetloc(rest[2..]);
      assert forall k :: 0 <= k < |n| ==> n[k] == rest[k + 2];
      n
    else []
  }

  /** A scheme as `Split` produces it: lower-case scheme characters, starting with a letter. */
  predicate SchemeOk(scheme: string) {
    && (scheme != [] ==> IsAsciiLetter(scheme[0]))
    && (forall k :: 0 <= k < |scheme| ==> IsSchemeChar(scheme[k]) && !('A' <= scheme[k] <= 'Z'))
  }

  /** A netloc as `Split` produces it: no tabs, line breaks or delimiters. */
  predicate NetlocOk(netloc: string) {
    forall k :: 0 <= k < |netloc| ==> !IsUnsafe(netloc[k]) && !IsNetlocEnd(netloc[k])
  }

  /** The parts of a clean URL whose first colon, at i, ends a scheme. */
  function SchemedParts(url: string, i: int): (p: Parts)
    requires HasScheme(url, i) && forall k :: 0 <= k < |url| ==> !IsUnsafe(url[k])
    ensures SchemeOk(p.scheme) && NetlocOk(p.netloc)
  {
    var scheme, rest := url[..i], url[i + 1..];
    assert forall k :: 0 <= k < |scheme| ==> scheme[k] == url[k];
    assert forall k :: 0 <= k < |rest| ==> rest[k] == url[i + 1 + k];
    Parts(Lower(scheme), NetlocAfter(rest))
  }

  /** `urlsplit(address)` as far as its scheme and netloc go. */
  function Split(address: string): (p: Parts)
    ensures SchemeOk(p.scheme) && NetlocOk(p.netloc)
  {
    var url := Clean(address);
    var i := Find(url, ':');
    if HasScheme(url, i) then SchemedParts(url, i) else Parts([], NetlocAfter(url))
  }

  /** `scheme or 'http'`. */
  function SchemeOrHttp(scheme: string): (r: string)
    requires SchemeOk(scheme)
    ensures r != [] && SchemeOk(r)
    ensures scheme != [] ==> r == scheme
  {
    if scheme == [] then "http" else scheme
  }

  /** The form `register_node` stores a peer under: `scheme://netloc`, with `http`
      when the address has no scheme; nothing when it has no netloc. */
  function NodeUrl(address: string): Option<string> {
    var parts := Split(address);
    if parts.netloc == [] then None else Some(SchemeOrHttp(parts.scheme) + "://" + parts.netloc)
  }

  /** The characters `_checknetloc` deletes before normalising a netloc. */
  predicate IsNfkcIgnored(ch: char) {
    ch == '@' || ch == ':' || ch == '#' || ch == '?'
  }

  /** The characters a normalised netloc must not gain. */
  predicate IsNfkcBreaker(ch: char) {
    ch == '/' || IsNfkcIgnored(ch)
  }

  predicate IsAsciiText(s: string) {
    forall k :: 0 <= k < |s| ==> s[k] < 128 as char
  }

  /** The netloc with '@', ':', '#' and '?' deleted, in order. */
  function DropIgnored(s: string): (r: string)
    ensures forall k :: 0 <= k < |r| ==> !IsNfkcIgnored(r[k])
    ensures forall ch :: ch in r ==> ch in s
  {
    if s == [] then [] else (if IsNfkcIgnored(s[0]) then [] else [s[0]]) + DropIgnored(s[1..])
  }

  lemma {:induction false} DropIgnoredKeepsOthers(s: string)
    ensures (forall k :: 0 <= k < |s| ==> !IsNfkcIgnored(s[k])) ==> DropIgnored(s) == s
    decreases |s|
  {
    if s != [] {
      DropIgnoredKeepsOthers(s[1..]);
    }
  }

  /**
   * `_checknetloc`, which urlsplit runs on every netloc: an empty or ASCII netloc
   * passes; otherwise its NFKC form, taken after deleting '@', ':', '#' and '?',
   * must either equal the text it came from or hold none of '/', '?', '#', '@', ':'.
   * `nfkc` stands for `unicodedata.normalize('NFKC', ·)`.
   */
  predicate PassesNfkcCheck(nfkc: string -> string, netloc: string) {
    if netloc == [] || IsAsciiText(netloc) then true
    else DropIgnored(netloc) == NfkcForm(nfkc, netloc) || HasNoBreaker(NfkcForm(nfkc, netloc))
  }

  /** The normal form `_checknetloc` inspects. */
  function NfkcForm(nfkc: string -> string, netloc: string): string {
    nfkc(DropIgnored(netloc))
  }

  predicate HasNoBreaker(s: string) {
    forall k :: 0 <= k < |s| ==> !IsNfkcBreaker(s[k])
  }

  /** urlsplit's "Invalid IPv6 URL" test: '[' without ']', or ']' without '['. */
  predicate UnbalancedBrackets(netloc: string) {
    ('[' in netloc) != (']' in netloc)
  }

  /** Whether `urlsplit(address)` raises `ValueError` rather than returning `Split(address)`. */
  predicate SplitRaises(nfkc: string -> string, address: string) {
    var netloc := Split(address).netloc;
    UnbalancedBrackets(netloc) || !PassesNfkcCheck(nfkc, netloc)
  }

  /**
   * What the NFKC check means for a netloc as urlsplit cuts it out (no '/', '?' or
   * '#' in it): it is refused exactly when it is not ASCII and its normal form holds
   * one of the five delimiters.
   */
  lemma NfkcCheckMeaning(nfkc: string -> string, netloc: string)
    requires NetlocOk(netloc)
    ensures PassesNfkcCheck(nfkc, netloc) <==> IsAsciiText(netloc) || HasNoBreaker(NfkcForm(nfkc, netloc))
  {
    var n := DropIgnored(netloc);
    if netloc != [] && !IsAsciiText(netloc) && n == NfkcForm(nfkc, netloc) {
      forall k | 0 <= k < |n| ensures !IsNfkcBreaker(n[k]) {
        assert n[k] in n;
        var j :| 0 <= j < |netloc| && netloc[j] == n[k];
        assert !IsNetlocEnd(netloc[j]);
      }
    }
  }

  /**
   * A netloc free of delimiters and of the deleted characters, not ASCII, whose NFKC
   * form gains a delimiter: registering it as `http://netloc` makes urlsplit raise.
   */
  lemma NfkcExpansionRaises(nfkc: string -> string, netloc: string, k: int)
    requires NetlocOk(netloc) && !IsAsciiText(netloc)
    requires forall j :: 0 <= j < |netloc| ==> !IsNfkcIgnored(netloc[j])
    requires 0 <= k < |NfkcForm(nfkc, netloc)| && IsNfkcBreaker(NfkcForm(nfkc, netloc)[k])
    ensures Split(SchemeOrHttp([]) + "://" + netloc).netloc == netloc
    ensures SplitRaises(nfkc, SchemeOrHttp([]) + "://" + netloc)
  {
    SplitNormalForm(SchemeOrHttp([]), netloc);
    DropIgnoredKeepsOthers(netloc);
    NfkcCheckMeaning(nfkc, netloc);
  }

  /**
   * The fullwidth solidus U+FF0F normalises to '/', so "ex\uFF0Fample" meets the
   * conditions of `NfkcExpansionRaises`: urlsplit refuses "http://ex\uFF0Fample".
   */
  lemma FullwidthSolidusNetloc(nfkc: string -> string, netloc: string)
    requires netloc == "ex\U{FF0F}ample"
    requires nfkc(netloc) == "ex/ample"
    ensures NetlocOk(netloc) && !IsAsciiText(netloc)
    ensures forall j :: 0 <= j < |netloc| ==> !IsNfkcIgnored(netloc[j])
    ensures 2 < |NfkcForm(nfkc, netloc)| && IsNfkcBreaker(NfkcForm(nfkc, netloc)[2])
  {
    assert netloc[2] as int == 0xFF0F;
    DropIgnoredKeepsOthers(netloc);
  }

  /** `scheme://netloc` holds no character that cleaning would touch. */
  lemma NormalFormIsClean(s: string, n: string)
    requires s != [] && SchemeOk(s) && NetlocOk(n)
    ensures Clean(s + "://" + n) == s + "://" + n
  {
    var u, t := s + "://" + n, "://" + n;
    assert u == s + t;
    forall k | 0 <= k < |u| ensures !IsUnsafe(u[k]) {
      if k < |s| {
        assert u[k] == s[k];
      } else {
        assert u[k] == t[k - |s|];
        if k - |s| >= 3 {
          assert t[k - |s|] == n[k - |s| - 3];
        }
      }
    }
    assert u[0] == s[0];
  }

  /** The first colon of `scheme://netloc` ends the scheme. */
  lemma NormalFormColon(s: string, n: string)
    requires SchemeOk(s)
    ensures Find(s + "://" + n, ':') == |s|
  {
    var u := s + "://" + n;
    assert u[|s|] == ':';
    forall k | 0 <= k < |s| ensures u[k] != ':' {
      assert u[k] == s[k];
    }
  }

  lemma NormalFormSlices(s: string, n: string)
    ensures (s + "://" + n)[..|s|] == s
    ensures (s + "://" + n)[|s| + 1..] == "//" + n
  {
    assert "://" == [':'] + "//";
    assert s + "://" + n == (s + [':']) + ("//" + n);
  }

  /** How `Split` reads a clean URL whose first colon ends a scheme. */
  lemma SplitSchemed(url: string, i: int)
    requires Clean(url) == url && Find(url, ':') == i && HasScheme(url, i)
    ensures Split(url) == Parts(Lower(url[..i]), NetlocAfter(url[i + 1..]))
  {
  }

  /** A string already in `scheme://netloc` form splits back into its two parts. */
  lemma SplitNormalForm(s: string, n: string)
    requires s != [] && SchemeOk(s) && NetlocOk(n)
    ensures Split(s + "://" + n) == Parts(s, n)
  {
    var u := s + "://" + n;
    assert Split(u) == Parts(Lower(u[..|s|]), NetlocAfter(u[|s| + 1..])) by {
      NormalFormIsClean(s, n);
      NormalFormColon(s, n);
      assert HasScheme(u, |s|) by {
        forall k | 0 <= k < |s| ensures IsSchemeChar(u[k]) {
          assert u[k] == s[k];
        }
      }
      SplitSchemed(u, |s|);
    }
    NormalFormSlices(s, n);
    assert Lower(s) == s;
    assert NetlocAfter("//" + n) == n;
  }

  /**
   * Normalising is idempotent: the stored form of a peer parses back to the same
   * scheme and netloc, so registering it again is the same as registering the
   * address it came from, and urlsplit raises on it exactly when it raises on that
   * address.
   */
  lemma NodeUrlIdempotent(address: string, nfkc: string -> string)
    ensures NodeUrl(address).Some? ==> NodeUrl(NodeUrl(address).value) == NodeUrl(address)
    ensures NodeUrl(address).Some? ==> Split(NodeUrl(address).value).netloc == Split(address).netloc
    ensures NodeUrl(address).Some? ==> (SplitRaises(nfkc, NodeUrl(address).value) <==> SplitRaises(nfkc, address))
  {
    if NodeUrl(address).Some? {
      var parts := Split(address);
      var s := SchemeOrHttp(parts.scheme);
      SplitNormalForm(s, parts.netloc);
    }
  }

  function Digit(d: int): char
    requires 0 <= d < 10
  {
    ('0' as int + d) as char
  }

  /** Python's `str(n)` for a natural number. */
  function NatToString(n: nat): (r: string)
    ensures |r| >= 1 && forall k :: 0 <= k < |r| ==> IsDigit(r[k])
    ensures r[0] == '0' <==> n == 0
    ensures n == 0 ==> r == "0"
  {
    if n < 10 then [Digit(n)] else NatToString(n / 10) + [Digit(n % 10)]
  }

  /** The value of a string of decimal digits. */
  function DigitsValue(s: string): int
    requires forall k :: 0 <= k < |s| ==> IsDigit(s[k])
  {
    if s == [] then 0 else 10 * DigitsValue(s[..|s| - 1]) + (s[|s| - 1] as int - '0' as int)
  }

  /** Decimal rendering loses nothing: the digits read back as the number. */
  lemma {:induction false} NatToStringRoundTrip(n: nat)
    ensures DigitsValue(NatToString(n)) == n
  {
    if n >= 10 {
      NatToStringRoundTrip(n / 10);
      var r := NatToString(n);
      assert r[..|r| - 1] == NatToString(n / 10);
    }
  }

  /** Python's `str(i)` for any integer. */
  function IntToString(i: int): (r: string)
    ensures |r| >= 1
    ensures i >= 0 ==> (forall k :: 0 <= k < |r| ==> IsDigit(r[k])) && DigitsValue(r) == i
    ensures i < 0 ==> r[0] == '-' && (forall k :: 1 <= k < |r| ==> IsDigit(r[k])) && DigitsValue(r[1..]) == -i
    ensures i >= 0 && r[0] == '0' ==> r == "0"
    ensures i < 0 ==> |r| >= 2 && r[1] != '0'
  {
    NatToStringRoundTrip(if i < 0 then -i else i);
    if i < 0 then "-" + NatToString(-i) else NatToString(i)
  }

  /** Distinct integers render differently, so a port is recognised by its text. */
  lemma IntToStringInjective(i: int, j: int)
    requires IntToString(i) == IntToString(j)
    ensures i == j
  {
    var r := IntToString(i);
    assert (r[0] == '-') == (i < 0);
    assert (r[0] == '-') == (j < 0);
  }

  /** The URL a node calls its own: `http://host:port`. */
  function SelfUrl(host: string, port: int): string {
    "http://" + host + ":" + IntToString(port)
  }
}

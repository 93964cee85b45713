/**
 Host names read out of printed addresses: the gRPC peer string and the URL of
 an outgoing HTTP call.
 */
module Hosts {
  import opened Text

  const FALLBACK := "127.0.0.1"

  // ------------------------------------------------------------------
  // gRPC peers
  // ------------------------------------------------------------------

  predicate HasScheme(peer: string) {
    StartsWith(peer, "ipv4:") || StartsWith(peer, "ipv6:")
  }

  function DropScheme(peer: string): string {
    if HasScheme(peer) then peer[5..] else peer
  }

  function DropPort(peer: string): string {
    match FindLast(peer, ":")
    case Some(colon) => peer[..colon]
    case None => peer
  }

  predicate Bracketed(host: string) {
    |host| > 2 && host[0] == '[' && host[|host| - 1] == ']'
  }

  predicate PercentBracketed(host: string) {
    |host| > 6 && StartsWith(host, "%5B") && host[|host| - 3..] == "%5D"
  }

  /** Something between a pair of brackets, literal or percent-encoded. */
  ghost predicate IsWrapped(host: string) {
    exists inside: string :: inside != "" && Wraps(host, inside)
  }

  predicate Wraps(host: string, inside: string) {
    host == "[" + inside + "]" || host == "%5B" + inside + "%5D"
  }

  lemma WrappedIff(host: string)
    ensures IsWrapped(host) <==> Bracketed(host) || PercentBracketed(host)
  {
    if Bracketed(host) {
      assert host == "[" + host[1..|host| - 1] + "]";
      assert Wraps(host, host[1..|host| - 1]);
    } else if PercentBracketed(host) {
      assert host == "%5B" + host[3..|host| - 3] + "%5D";
      assert Wraps(host, host[3..|host| - 3]);
    }
    if IsWrapped(host) {
      var inside :| inside != "" && Wraps(host, inside);
      if host == "[" + inside + "]" {
        assert host[|host| - 1] == ']';
      } else {
        assert host[..3] == "%5B" && host[|host| - 3..] == "%5D";
      }
    }
  }

  function DropBrackets(host: string): string {
    if Bracketed(host) then host[1..|host| - 1]
    else if PercentBracketed(host) then host[3..|host| - 3]
    else host
  }

  /** The bare host of a gRPC peer string. */
  function ResolvePeerHost(peer: string): string {
    if StartsWith(peer, "unix") then FALLBACK
    else
      var host := DropBrackets(DropPort(DropScheme(peer)));
      if host == "" then FALLBACK else host
  }

  lemma DropPortOfPrinted(host: string, port: string)
    requires ':' !in port
    ensures DropPort(host + ":" + port) == host
  {
    var s := host + ":" + port;
    assert s[|host| + 1..] == port;
    FindLastCharAt(s, ':', |host|);
  }

  /** How gRPC prints a peer address: `scheme:host:port`. */
  function PrintPeer(scheme: string, host: string, port: string): string {
    scheme + ":" + host + ":" + port
  }

  lemma SchemeDropped(scheme: string, rest: string)
    requires scheme == "ipv4" || scheme == "ipv6"
    ensures !StartsWith(scheme + ":" + rest, "unix")
    ensures DropScheme(scheme + ":" + rest) == rest
  {
    var s := scheme + ":" + rest;
    assert s[0] == 'i';
    assert s[..5] == scheme + ":";
    assert s[5..] == rest;
  }

  /** The three steps of the parser, one after the other. */
  lemma ResolvedBy(peer: string, bare: string, host: string)
    requires !StartsWith(peer, "unix") && DropScheme(peer) == bare && DropPort(bare) == host
    ensures ResolvePeerHost(peer) == if DropBrackets(host) == "" then FALLBACK else DropBrackets(host)
  {
  }

  /** A peer printed with either scheme resolves to its host, brackets dropped. */
  lemma SchemedPeer(scheme: string, host: string, port: string)
    requires scheme == "ipv4" || scheme == "ipv6"
    requires ':' !in port && DropBrackets(host) != ""
    ensures ResolvePeerHost(PrintPeer(scheme, host, port)) == DropBrackets(host)
  {
    SchemeDropped(scheme, host + ":" + port);
    assert scheme + ":" + (host + ":" + port) == PrintPeer(scheme, host, port);
    DropPortOfPrinted(host, port);
    ResolvedBy(PrintPeer(scheme, host, port), host + ":" + port, host);
  }

  /**
   Printing a host as `ipv4:host:port` and resolving it gives the host back
   exactly when the host is not itself wrapped in brackets. Colons in the host
   are harmless: only the last one starts the port.
   */
  lemma IPv4PeerRoundTrip(host: string, port: string)
    requires host != "" && ':' !in port
    ensures ResolvePeerHost(PrintPeer("ipv4", host, port)) == host
            <==> !IsWrapped(host)
  {
    WrappedIff(host);
    SchemedPeer("ipv4", host, port);
  }

  lemma BracketsDropped(host: string)
    requires host != ""
    ensures DropBrackets("[" + host + "]") == host
    ensures DropBrackets("%5B" + host + "%5D") == host
  {
    var literal := "[" + host + "]";
    assert literal[1..|literal| - 1] == host;
    var encoded := "%5B" + host + "%5D";
    assert encoded[0] == '%';
    assert encoded[..3] == "%5B";
    assert encoded[|encoded| - 3..] == "%5D";
    assert encoded[3..|encoded| - 3] == host;
  }

  /**
   Both spellings of a bracketed IPv6 host, literal and percent-encoded, resolve
   to the bare host, whatever characters it holds.
   */
  lemma IPv6PeerRoundTrip(host: string, port: string)
    requires host != "" && ':' !in port
    ensures ResolvePeerHost(PrintPeer("ipv6", "[" + host + "]", port)) == host
    ensures ResolvePeerHost(PrintPeer("ipv6", "%5B" + host + "%5D", port)) == host
  {
    BracketsDropped(host);
    SchemedPeer("ipv6", "[" + host + "]", port);
    SchemedPeer("ipv6", "%5B" + host + "%5D", port);
  }

  /**
   A peer printed without a scheme resolves to its host exactly when it is not
   mistaken for a socket path, is not bracket-wrapped, and does not begin with
   what reads as a scheme: a host called `ipv4` or `ipv6` gives way to its port.
   */
  lemma BarePeerRoundTrip(host: string, port: string)
    requires host != "" && ':' !in port
    ensures ResolvePeerHost(host + ":" + port) == host
            <==> if StartsWith(host + ":" + port, "ipv4:") || StartsWith(host + ":" + port, "ipv6:")
                 then (host == "ipv4" || host == "ipv6") && (port == host || Wraps(port, host))
                 else !StartsWith(host + ":" + port, "unix") && !IsWrapped(host)
  {
    var peer := host + ":" + port;
    if HasScheme(peer) {
      SchemeInBarePeer(host, port);
      if host == "ipv4" || host == "ipv6" {
        DroppedIff(port, host);
      }
    } else if !StartsWith(peer, "unix") {
      DropPortOfPrinted(host, port);
      ResolvedBy(peer, peer, host);
      UnwrappedIff(host);
      WrappedIff(host);
    } else {
      assert peer[0] == host[0];
    }
  }

  /** Dropping brackets gives `host` from itself, if it is not wrapped, or from itself in brackets. */
  lemma DroppedIff(text: string, host: string)
    requires host == "ipv4" || host == "ipv6"
    ensures DropBrackets(text) == host <==> text == host || Wraps(text, host)
  {
    BracketsDropped(host);
    if Bracketed(text) {
      assert text == "[" + text[1..|text| - 1] + "]";
    } else if PercentBracketed(text) {
      assert text == "%5B" + text[3..|text| - 3] + "%5D";
    }
  }

  /** Where the seeming scheme of such a peer ends: at its host's end, or inside the host. */
  lemma SeemingScheme(host: string, port: string)
    requires host != "" && HasScheme(host + ":" + port)
    ensures |host| >= 4 && !StartsWith(host + ":" + port, "unix")
    ensures |host| == 4 ==> (host == "ipv4" || host == "ipv6") && DropScheme(host + ":" + port) == port
    ensures |host| > 4 ==> host[4] == ':' && DropScheme(host + ":" + port) == host[5..] + ":" + port
  {
    var peer := host + ":" + port;
    assert peer[..5] == "ipv4:" || peer[..5] == "ipv6:";
    assert peer[0] == peer[..5][0] && peer[4] == peer[..5][4];
    assert peer[|host|] == ':';
    assert forall i | 0 <= i < 4 :: peer[i] == peer[..5][i] != ':';
    assert host == peer[..|host|];
    if |host| == 4 {
      assert host == peer[..5][..4];
      assert peer[5..] == port;
    } else {
      assert peer[5..] == host[5..] + ":" + port;
    }
  }

  /** Such a peer is read from behind its seeming scheme. */
  lemma SchemeInBarePeer(host: string, port: string)
    requires host != "" && ':' !in port && HasScheme(host + ":" + port)
    ensures ResolvePeerHost(host + ":" + port) == host
            <==> (host == "ipv4" || host == "ipv6") && DropBrackets(port) == host
  {
    SeemingScheme(host, port);
    if |host| == 4 {
      NoPortToDrop(port);
    } else {
      DropPortOfPrinted(host[5..], port);
      assert ':' in host && ':' !in FALLBACK;
      assert |DropBrackets(host[5..])| == |host| - 5 - 2 * BracketWidth(host[5..]);
    }
  }

  /** A piece of a prefix of a suffix of `peer` is a piece of `peer`, in front of the prefix's end. */
  lemma NestedPiece(peer: string, start: nat, kept: nat, skip: nat, mark: char)
    requires start + kept <= |peer| && 2 * skip <= kept
    ensures peer[start..][..kept][skip..kept - skip] == peer[start + skip..start + kept - skip]
    ensures start + kept < |peer| && peer[start + kept] == mark ==> mark in peer[start + kept - skip..]
  {
    assert peer[start..][..kept] == peer[start..start + kept];
    SliceOfSlice(peer, start, start + kept, skip, kept - skip);
    if start + kept < |peer| {
      assert peer[start + kept - skip..][skip] == peer[start + kept];
    }
  }

  /** How many characters `DropBrackets` takes off either end. */
  function BracketWidth(host: string): (skip: nat)
    ensures 2 * skip <= |host| && DropBrackets(host) == host[skip..|host| - skip]
  {
    if Bracketed(host) then 1 else if PercentBracketed(host) then 3 else 0
  }

  /** The port that `DropPort` takes off starts at a colon. */
  lemma PortStart(peer: string)
    ensures DropPort(peer) <= peer
    ensures ':' in peer ==> |DropPort(peer)| < |peer| && peer[|DropPort(peer)|] == ':'
  {
    if ':' in peer {
      var i :| 0 <= i < |peer| && peer[i] == ':';
      CharOccurs(peer, ':', i);
      CharOccurs(peer, ':', |DropPort(peer)|);
    }
  }

  /** Where the host of a peer string stands in it. */
  lemma HostPiece(peer: string) returns (at: nat, end: nat)
    requires ResolvePeerHost(peer) != FALLBACK
    ensures at <= end <= |peer| && peer[at..end] == ResolvePeerHost(peer)
    ensures ':' in DropScheme(peer) ==> ':' in peer[end..]
  {
    var bare := DropScheme(peer);
    var start := |peer| - |bare|;
    var kept := DropPort(bare);
    var skip := BracketWidth(kept);
    PortStart(bare);
    assert bare == peer[start..];
    assert kept == bare[..|kept|];
    NestedPiece(peer, start, |kept|, skip, ':');
    at, end := start + skip, start + |kept| - skip;
  }

  /**
   Whatever the peer string, the result is a non-empty host: a socket path and
   a peer with nothing left fall back, and anything else is a piece of the peer
   that stands in front of its last colon.
   */
  lemma PeerHostIsPartOfPeer(peer: string)
    ensures ResolvePeerHost(peer) != ""
    ensures StartsWith(peer, "unix") ==> ResolvePeerHost(peer) == "127.0.0.1"
    ensures ResolvePeerHost(peer) != "127.0.0.1" ==>
              exists at: nat, end: nat | at <= end <= |peer| ::
                peer[at..end] == ResolvePeerHost(peer) && (':' in DropScheme(peer) ==> ':' in peer[end..])
  {
    if ResolvePeerHost(peer) != FALLBACK {
      var at, end := HostPiece(peer);
      assert peer[at..end] == ResolvePeerHost(peer);
    }
  }

  /**
   The parser is only right for peers that carry a port. Without one, a host is
   resolved exactly when it holds no colon (and is not bracket-wrapped): of an
   IPv6 address the last group is taken for the port.
   */
  lemma PortlessPeerIff(scheme: string, host: string)
    requires scheme == "ipv4" || scheme == "ipv6"
    requires host != ""
    ensures ResolvePeerHost(scheme + ":" + host) == host <==> ':' !in host && !IsWrapped(host)
  {
    WrappedIff(host);
    SchemeDropped(scheme, host);
    if ':' in host {
      ColonCostsTheTail(host);
    } else {
      NoPortToDrop(host);
      UnwrappedIff(host);
    }
  }

  lemma UnwrappedIff(host: string)
    ensures DropBrackets(host) == host <==> !Bracketed(host) && !PercentBracketed(host)
    ensures host != "" ==> DropBrackets(host) != ""
  {
  }

  lemma ColonCostsTheTail(host: string)
    requires ':' in host
    ensures |DropBrackets(DropPort(host))| < |host| && host != FALLBACK
  {
    PortStart(host);
    assert ':' !in FALLBACK;
    assert |DropBrackets(DropPort(host))| == |DropPort(host)| - 2 * BracketWidth(DropPort(host));
  }

  lemma NoPortToDrop(s: string)
    requires ':' !in s
    ensures DropPort(s) == s
  {
    if FindLast(s, ":").Some? {
      CharOccurs(s, ':', FindLast(s, ":").value);
    }
  }

  /** In brackets it is no different: they only come off if no colon hides between them. */
  lemma PortlessBracketedPeerIff(scheme: string, host: string)
    requires scheme == "ipv4" || scheme == "ipv6"
    requires host != ""
    ensures ResolvePeerHost(scheme + ":" + ("[" + host + "]")) == host <==> ':' !in host
  {
    var literal := "[" + host + "]";
    SchemeDropped(scheme, literal);
    BracketsDropped(host);
    if ':' !in host {
      NoPortToDrop(literal);
    } else {
      assert ':' !in FALLBACK;
      ColonKeepsBracket(host);
    }
  }

  /** With a colon between them, what is left in front of it never comes down to what the brackets held. */
  lemma ColonKeepsBracket(host: string)
    requires ':' in host
    ensures DropBrackets(DropPort("[" + host + "]")) != host
  {
    var literal := "[" + host + "]";
    var kept := DropPort(literal);
    PortStart(literal);
    assert literal[|host| + 1] == ']';
    assert ':' in literal;
    assert |kept| <= |host|;
    if |kept| == |host| && kept == host {
      assert ("[" + host)[..|host|] == literal[..|host|] == host;
      forall i | 0 <= i < |host| ensures host[i] == '[' {
        ShiftedBracket(host, i);
      }
    }
  }

  /** A host that reads the same with a bracket in front consists of brackets. */
  lemma {:induction false} ShiftedBracket(host: string, i: nat)
    requires i < |host| && ("[" + host)[..|host|] == host
    ensures host[i] == '['
  {
    assert host[i] == ("[" + host)[..|host|][i] == ("[" + host)[i];
    if i > 0 {
      ShiftedBracket(host, i - 1);
    }
  }

  // ------------------------------------------------------------------
  // URLs
  // ------------------------------------------------------------------

  /** The `host[:port]` part of a URL. */
  function ExtractHost(url: string): string {
    var start := match Find(url, "://", 0) case Some(i) => i + 3 case None => 0;
    match Find(url, "/", start)
    case Some(end) => url[start..end]
    case None => url[start..]
  }

  /** The extracted host never holds a slash. */
  lemma ExtractedHostHasNoSlash(url: string)
    ensures '/' !in ExtractHost(url)
  {
    var host := ExtractHost(url);
    var start := match Find(url, "://", 0) case Some(i) => i + 3 case None => 0;
    assert host == url[start..start + |host|];
    forall k | 0 <= k < |host| ensures host[k] != '/' {
      CharOccurs(url, '/', start + k);
      assert host[k] == url[start + k];
    }
  }

  lemma SchemeEndsAtFirstMark(scheme: string, rest: string)
    requires ':' !in scheme
    ensures Find(scheme + "://" + rest, "://", 0) == Some(|scheme|)
  {
    var url := scheme + "://" + rest;
    assert OccursAt(url, "://", |scheme|);
    forall j: nat | j < |scheme| ensures !OccursAt(url, "://", j) {
      assert url[j] == scheme[j];
      if j + 3 <= |url| {
        assert url[j..j + 3][0] == url[j];
      }
    }
  }

  /**
   Extraction undoes URL building exactly when the host is slash-free and what
   follows it starts a path. A `?` or `#` right after the host does not end it.
   */
  lemma UrlHostRoundTrip(scheme: string, host: string, rest: string)
    requires ':' !in scheme
    ensures ExtractHost(scheme + "://" + host + rest) == host
            <==> '/' !in host && (rest == "" || rest[0] == '/')
  {
    var url := scheme + "://" + host + rest;
    var start := |scheme| + 3;
    assert url == scheme + "://" + (host + rest);
    SchemeEndsAtFirstMark(scheme, host + rest);
    ExtractedHostHasNoSlash(url);
    assert url[start..start + |host|] == host;
    if '/' !in host {
      if rest == "" {
        assert url[start..] == host;
        FindCharNone(url, '/', start);
      } else if rest[0] == '/' {
        FindCharAt(url, '/', start, start + |host|);
      } else {
        assert url[start + |host|] == rest[0];
        CharOccurs(url, '/', start + |host|);
      }
    }
  }

  /** A query or fragment without a path is swallowed into the host. */
  lemma QueryWithoutPathStaysInHost(scheme: string, host: string, query: string)
    requires ':' !in scheme && '/' !in host && '/' !in query
    ensures ExtractHost(scheme + "://" + (host + query)) == host + query
  {
    UrlHostRoundTrip(scheme, host + query, "");
    assert scheme + "://" + (host + query) + "" == scheme + "://" + (host + query);
  }
}

/**
 * The per-host rules shared by the host-listing commands: extracting the TXT
 * answer from `dig` output, deriving a host's url from the configured address,
 * shortening urls for display, and the optional version probe.
 */
module HostLookup {
  import opened Wrappers
  import opened Text

  /** What running `dig` yields: the script could not be run, or it ran and printed `stdout`. */
  datatype DigResult = ScriptFailed | Ran(stdout: string)

  /** The network a host list is drawn from; it selects the DNS zone that is queried. */
  datatype NetworkType = Prod | Dev

  /** The outcome of `GET https://{url}/index.json`. */
  datatype VersionResponse = RequestFailed | ErrorStatus(code: nat) | UndecodableBody | VersionBody(version: string)

  /** The outcome of `list_all_twins`: a failed call, or a response whose payload lists twin DIDs. */
  datatype ListingResult = ListFailed | Listed(payload: Option<seq<string>>)

  /** The literal part of the regular expression `IN TXT "(.*)"`. */
  const TxtMarker: string := "IN TXT \""

  const DomainSuffix: string := ".iotics.space"
  const Scheme: string := "https://"
  const GrpcPort: string := ":10001"

  /** The DNS name whose TXT record holds a host's address. */
  function DigName(network: NetworkType, hostDid: string): string
  {
    match network
    case Dev => hostDid + ".dev" + DomainSuffix
    case Prod => hostDid + DomainSuffix
  }

  /** The length of the first line of `s`, i.e. the text before the first newline. */
  function LineLength(s: string): (n: nat)
    ensures n <= |s| && '\n' !in s[..n]
    ensures n < |s| ==> s[n] == '\n'
  {
    match FirstIndex(s, '\n')
    case None => assert s[..|s|] == s; |s|
    case Some(i) => i
  }

  /**
   * The regular expression `IN TXT "(.*)"` tried at the start of `s`: after
   * the marker, `.` stops at a newline and `*` is greedy, so the capture runs
   * to the last quote of the line.
   */
  function MatchAt(s: string): (r: Option<string>)
    ensures r.Some? ==> StartsWith(s, TxtMarker + r.value + "\"") && '\n' !in r.value
  {
    if !StartsWith(s, TxtMarker) then None
    else
      var rest := s[|TxtMarker|..];
      var line := rest[..LineLength(rest)];
      match LastIndex(line, '"')
      case None => None
      case Some(j) =>
        assert rest[..j] == line[..j] && rest[j] == '"';
        assert s[..|TxtMarker| + j + 1] == s[..|TxtMarker|] + rest[..j] + [rest[j]];
        assert forall x :: x in line[..j] ==> x in line;
        Some(line[..j])
  }

  /**
   * `Regex::captures` for `IN TXT "(.*)"`: the capture of the leftmost
   * position where the expression matches, or nothing.
   */
  function CaptureTxt(out: string): Option<string>
    decreases |out|
  {
    if MatchAt(out).Some? then MatchAt(out)
    else if |out| == 0 then None
    else CaptureTxt(out[1..])
  }

  /**
   * What `CaptureTxt` finds is the match at the leftmost position where the
   * expression matches, and it finds nothing only when no position matches.
   */
  lemma {:induction false} CaptureTxtLeftmost(out: string)
    ensures CaptureTxt(out).None? <==> forall i :: 0 <= i <= |out| ==> MatchAt(out[i..]).None?
    ensures CaptureTxt(out).Some? ==>
      exists i :: 0 <= i <= |out| && MatchAt(out[i..]) == CaptureTxt(out)
                  && forall k :: 0 <= k < i ==> MatchAt(out[k..]).None?
    decreases |out|
  {
    assert out[0..] == out;
    if MatchAt(out).None? {
      if |out| == 0 {
        assert forall i :: 0 <= i <= |out| ==> out[i..] == out;
      } else {
        CaptureTxtLeftmost(out[1..]);
        assert forall i :: 1 <= i <= |out| ==> out[1..][i - 1..] == out[i..];
        if CaptureTxt(out).Some? {
          var i :| 0 <= i <= |out[1..]| && MatchAt(out[1..][i..]) == CaptureTxt(out[1..])
                   && forall k :: 0 <= k < i ==> MatchAt(out[1..][k..]).None?;
          assert MatchAt(out[i + 1..]) == CaptureTxt(out);
          assert forall k :: 0 <= k < i + 1 ==> MatchAt(out[k..]).None? by {
            forall k | 0 <= k < i + 1 ensures MatchAt(out[k..]).None? {
              if k > 0 { assert out[1..][k - 1..] == out[k..]; }
            }
          }
        }
      }
    }
  }

  /** Positions before `i` where nothing matches can be skipped. */
  lemma {:induction false} CaptureSkips(out: string, i: nat)
    requires i <= |out|
    requires forall k :: 0 <= k < i ==> MatchAt(out[k..]).None?
    ensures CaptureTxt(out) == CaptureTxt(out[i..])
    decreases i
  {
    if i > 0 {
      assert out[0..] == out;
      assert forall k :: 0 <= k < i - 1 ==> out[1..][k..] == out[k + 1..];
      CaptureSkips(out[1..], i - 1);
      assert out[1..][i - 1..] == out[i..];
    }
  }

  /** No match can start inside a quote-free text that precedes the marker. */
  lemma NoMatchBeforeMarker(pre: string, tail: string)
    requires '"' !in pre
    ensures forall k :: 0 <= k < |pre| ==> MatchAt((pre + TxtMarker + tail)[k..]).None?
  {
    var out := pre + TxtMarker + tail;
    forall k | 0 <= k < |pre|
      ensures !StartsWith(out[k..], TxtMarker)
    {
      if k + |TxtMarker| <= |out| {
        if k + 7 < |pre| {
          assert out[k..][..|TxtMarker|][7] == pre[k + 7];
        } else {
          assert out[k..][..|TxtMarker|][7] == TxtMarker[k + 7 - |pre|];
        }
      }
    }
  }

  /** At the marker itself the expression captures the quoted value. */
  lemma MatchAtAnswer(v: string, post: string)
    requires '"' !in v && '\n' !in v
    requires post == [] || post[0] == '\n'
    ensures MatchAt(TxtMarker + v + "\"" + post) == Some(v)
  {
    var s := TxtMarker + v + "\"" + post;
    assert s[..|TxtMarker|] == TxtMarker;
    var rest := s[|TxtMarker|..];
    assert rest == v + "\"" + post;
    var n := LineLength(rest);
    assert rest[..|v| + 1] == v + "\"";
    assert forall i :: 0 <= i <= |v| ==> rest[i] != '\n';
    assert n == |v| + 1;
    var line := rest[..n];
    assert line == v + "\"";
    assert LastIndex(line, '"') == Some(|v|);
    assert line[..|v|] == v;
  }

  /**
   * A `dig` answer line `... IN TXT "v"` is read back as `v`, whatever text
   * precedes it, provided that text holds no quote and `v` holds neither a
   * quote nor a newline.
   */
  lemma TxtAnswerCaptured(pre: string, v: string, post: string)
    requires '"' !in pre && '"' !in v && '\n' !in v
    requires post == [] || post[0] == '\n'
    ensures CaptureTxt(pre + TxtMarker + v + "\"" + post) == Some(v)
  {
    var tail := v + "\"" + post;
    var out := pre + TxtMarker + tail;
    assert pre + TxtMarker + v + "\"" + post == out;
    assert out[|pre|..] == TxtMarker + tail;
    assert TxtMarker + v + "\"" + post == TxtMarker + tail;
    MatchAtAnswer(v, post);
    NoMatchBeforeMarker(pre, tail);
    CaptureAtFirstMatch(out, |pre|);
  }

  /** The capture is the match at the first position where one exists. */
  lemma CaptureAtFirstMatch(out: string, i: nat)
    requires i <= |out| && MatchAt(out[i..]).Some?
    requires forall k :: 0 <= k < i ==> MatchAt(out[k..]).None?
    ensures CaptureTxt(out) == MatchAt(out[i..])
  {
    CaptureSkips(out, i);
  }

  /** `get_host_url`: the TXT value found in the `dig` output, or nothing when the script fails or no answer matches. */
  function GetHostUrl(dig: DigResult): (r: Option<string>)
    ensures dig.ScriptFailed? ==> r.None?
    ensures r.Some? ==> '\n' !in r.value
  {
    match dig
    case ScriptFailed => None
    case Ran(out) =>
      CaptureTxtLeftmost(out);
      CaptureTxt(out)
  }

  /** The local host's url: the configured address with `https://` and `:10001` removed. */
  function LocalUrl(address: string): string
  {
    Replace(Replace(address, Scheme, ""), GrpcPort, "")
  }

  /** The address the twin-listing call is made to. */
  function ListingUrl(url: string): string
  {
    Scheme + url + GrpcPort
  }

  /** A url with `.iotics.space` removed, as the host lists display it. */
  function StripDomain(url: string): string
  {
    Replace(url, DomainSuffix, "")
  }

  /**
   * Removing scheme and port from a configured address `https://{h}:10001`
   * gives back `h`, for a host name without `:` or `/`; so `LocalUrl` undoes
   * `ListingUrl`.
   */
  lemma LocalUrlUndoesListingUrl(h: string)
    requires ':' !in h && '/' !in h
    ensures LocalUrl(ListingUrl(h)) == h
  {
    var tail := h + GrpcPort;
    assert ListingUrl(h) == Scheme + tail;
    ReplaceLeading(tail, Scheme, "");
    assert '/' !in tail by {
      assert forall i :: 0 <= i < |GrpcPort| ==> GrpcPort[i] != '/';
      assert forall i :: 0 <= i < |tail| ==> tail[i] != '/';
    }
    assert Scheme[6] == '/';
    MissingCharExcludes(tail, Scheme, 6);
    ReplaceAbsent(tail, Scheme, "");
    assert Replace(ListingUrl(h), Scheme, "") == tail;
    ReplaceFreePrefix(h, GrpcPort, GrpcPort, "");
    ReplaceLeading([], GrpcPort, "");
    assert GrpcPort + [] == GrpcPort;
    assert Replace(GrpcPort, GrpcPort, "") == [];
    assert h + [] == h;
  }

  /** Stripping the domain from `{h}.iotics.space` gives `h`, for a first label `h` without a dot. */
  lemma StripDomainOfSubdomain(h: string)
    requires '.' !in h
    ensures StripDomain(h + DomainSuffix) == h
  {
    ReplaceFreePrefix(h, DomainSuffix, DomainSuffix, "");
    ReplaceLeading([], DomainSuffix, "");
    assert DomainSuffix + [] == DomainSuffix;
  }

  /** The url of the version document of a host. */
  function VersionUrl(url: string): string
  {
    Scheme + url + "/index.json"
  }

  /**
   * `get_host_version`: the version reported by the host when asked for,
   * otherwise the empty string; every failure also yields the empty string.
   */
  function GetHostVersion(withVersion: bool, url: string, fetch: string -> VersionResponse): (v: string)
    ensures !withVersion ==> v == ""
    ensures withVersion && fetch(VersionUrl(url)).VersionBody? ==> v == fetch(VersionUrl(url)).version
    ensures withVersion && !fetch(VersionUrl(url)).VersionBody? ==> v == ""
  {
    if !withVersion then ""
    else match fetch(VersionUrl(url))
      case VersionBody(version) => version
      case _ => ""
  }

  /**
   * The host DID and the url a command works with: for a remote host, its
   * DID and the address found in the DNS zone of the network; for the local
   * host, `?` and the configured address without scheme and port.
   */
  function HostUrl(remoteHostId: Option<string>, network: NetworkType, hostAddress: string, dig: string -> DigResult)
    : (r: (string, Option<string>))
    ensures remoteHostId.None? ==> r == ("?", Some(LocalUrl(hostAddress)))
    ensures remoteHostId.Some? ==> r.0 == remoteHostId.value && (dig(DigName(network, r.0)).ScriptFailed? ==> r.1.None?)
  {
    match remoteHostId
    case Some(did) => (did, GetHostUrl(dig(DigName(network, did))))
    case None => ("?", Some(LocalUrl(hostAddress)))
  }

  /**
   * The local host is listed at exactly its configured address and is
   * reported under its bare host name.
   */
  lemma LocalHostAddressed(h: string)
    requires ':' !in h && '/' !in h && '.' !in h
    ensures var (did, url) := HostUrl(None, Prod, ListingUrl(h), _ => ScriptFailed);
            did == "?" && url == Some(h) && ListingUrl(url.value) == ListingUrl(h) && StripDomain(url.value) == h
  {
    LocalUrlUndoesListingUrl(h);
    MissingCharExcludes(h, DomainSuffix, 0);
    ReplaceAbsent(h, DomainSuffix, "");
  }

  /**
   * A remote host whose TXT record, in the zone of the network, reads `{h}.iotics.space` is listed at
   * that address and reported under `h`.
   */
  lemma RemoteHostFromTxt(did: string, network: NetworkType, pre: string, h: string, post: string, dig: string -> DigResult)
    requires '"' !in pre && '.' !in h && '"' !in h && '\n' !in h
    requires post == [] || post[0] == '\n'
    requires dig(DigName(network, did)) == Ran(pre + TxtMarker + h + DomainSuffix + "\"" + post)
    ensures HostUrl(Some(did), network, "", dig) == (did, Some(h + DomainSuffix))
    ensures StripDomain(h + DomainSuffix) == h
  {
    var v := h + DomainSuffix;
    assert pre + TxtMarker + h + DomainSuffix + "\"" + post == pre + TxtMarker + v + "\"" + post;
    assert forall i :: 0 <= i < |v| ==> v[i] != '"' && v[i] != '\n' by {
      assert forall i :: 0 <= i < |DomainSuffix| ==> DomainSuffix[i] != '"' && DomainSuffix[i] != '\n';
    }
    TxtAnswerCaptured(pre, v, post);
    StripDomainOfSubdomain(h);
  }
}

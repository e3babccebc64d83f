/**
 * The DID-document resolver of the knowledge-graph command: a cache of
 * decoded documents keyed by DID, the extraction of the payload segment of a
 * fetched token, and the conversion of a decoded document into a twin's
 * identity record with its delegations.
 */
module Resolver {
  import opened Wrappers
  import opened Text

  /** `updateTime`, in milliseconds since the epoch as it is serialised. */
  type Timestamp = int

  /** One entry of `delegateControl` or `delegateAuthentication`. */
  datatype Delegation = Delegation(controller: string)

  /** The `doc` object of a decoded DID document. */
  datatype DidDocumentDoc = DidDocumentDoc(
    updateTime: Timestamp,
    ioticsDidType: string,
    delegateControl: Option<seq<Delegation>>,
    delegateAuthentication: Option<seq<Delegation>>)

  /** A decoded DID document: its body and its issuer `did#key-name`. */
  datatype DidDocument = DidDocument(doc: DidDocumentDoc, iss: string)

  /** A delegation edge: the controlling DID and its key name. */
  datatype TwinDelegation = TwinDelegation(did: string, keyName: string)

  /** The identity record of a twin built from its DID document. */
  datatype TwinDidDocument = TwinDidDocument(
    did: string,
    keyName: string,
    updateTime: Timestamp,
    delegations: seq<TwinDelegation>)

  /** Every way resolving a DID can fail; all reach the caller as one error. */
  datatype ResolveError =
    | CacheUnreadable       // the cache file cannot be read or parsed
    | FetchFailed           // the resolver request or its JSON body failed
    | TokenUndecodable      // the payload segment is not valid base64
    | DocumentUndecodable   // the decoded payload is not a DID document
    | CacheCreateFailed     // the cache file cannot be created
    | CacheWriteFailed      // the document cannot be written to the created file
    | MalformedDelegation   // a delegation controller has no `#`
    | MalformedIssuer       // the issuer has no `#`

  /**
   * The content of a cache file: a document stored by a complete write, or
   * content that does not parse (a file cut short by a failed write is one).
   */
  datatype CacheEntry = Stored(doc: DidDocument) | Unreadable

  /**
   * How storing a fetched document ends: the file is written, it cannot be
   * created (no file appears), or it is created and the write fails (a
   * truncated file stays behind).
   */
  datatype WriteOutcome = Written | CreateFailed | WriteFailed

  /** The answer of the resolver service: a failure, or a response carrying a token. */
  datatype FetchResult = FetchError | TokenResponse(token: string)

  /** An absent delegation list reads as an empty one. */
  function OrEmpty(list: Option<seq<Delegation>>): seq<Delegation>
  {
    match list
    case None => []
    case Some(ds) => ds
  }

  /** All delegations of a document: the control ones, then the authentication ones. */
  function Delegations(raw: DidDocument): (ds: seq<Delegation>)
    ensures |ds| == |OrEmpty(raw.doc.delegateControl)| + |OrEmpty(raw.doc.delegateAuthentication)|
    ensures ds[..|OrEmpty(raw.doc.delegateControl)|] == OrEmpty(raw.doc.delegateControl)
  {
    OrEmpty(raw.doc.delegateControl) + OrEmpty(raw.doc.delegateAuthentication)
  }

  /** One controller split at its first `#` into a delegation edge. */
  function SplitEdge(d: Delegation): Option<TwinDelegation>
  {
    match SplitOnce(d.controller, '#')
    case None => None
    case Some((did, keyName)) => Some(TwinDelegation(did, keyName))
  }

  /** Each controller split at its first `#`; nothing when any of them lacks one. */
  function SplitDelegations(ds: seq<Delegation>): Option<seq<TwinDelegation>>
  {
    if |ds| == 0 then Some([])
    else
      match SplitDelegations(ds[..|ds| - 1])
      case None => None
      case Some(init) =>
        match SplitEdge(ds[|ds| - 1])
        case None => None
        case Some(edge) => Some(init + [edge])
  }

  /** Splitting succeeds exactly when every edge splits. */
  lemma {:induction false} SplitDelegationsEachSplits(ds: seq<Delegation>)
    ensures SplitDelegations(ds).Some? <==> forall i :: 0 <= i < |ds| ==> SplitEdge(ds[i]).Some?
  {
    if |ds| > 0 {
      var init := ds[..|ds| - 1];
      SplitDelegationsEachSplits(init);
      assert forall i :: 0 <= i < |init| ==> init[i] == ds[i];
    }
  }

  /** Splitting succeeds exactly when every controller holds a `#`. */
  lemma SplitDelegationsSucceeds(ds: seq<Delegation>)
    ensures SplitDelegations(ds).Some? <==> forall i :: 0 <= i < |ds| ==> '#' in ds[i].controller
  {
    SplitDelegationsEachSplits(ds);
    forall i | 0 <= i < |ds| ensures SplitEdge(ds[i]).Some? <==> '#' in ds[i].controller {
      SplitEdgeSpec(ds[i]);
    }
  }

  /** A successful split gives one edge per delegation, in order. */
  lemma {:induction false} SplitDelegationsEdges(ds: seq<Delegation>)
    requires SplitDelegations(ds).Some?
    ensures var edges := SplitDelegations(ds).value;
            |edges| == |ds| && forall i :: 0 <= i < |ds| ==> SplitEdge(ds[i]) == Some(edges[i])
  {
    if |ds| > 0 {
      var init := ds[..|ds| - 1];
      SplitDelegationsEdges(init);
      assert forall i :: 0 <= i < |init| ==> init[i] == ds[i];
    }
  }

  /** Once a prefix of the delegations fails to split, the whole list does. */
  lemma {:induction false} SplitDelegationsFailsAfter(ds: seq<Delegation>, k: nat)
    requires k <= |ds| && SplitDelegations(ds[..k]).None?
    ensures SplitDelegations(ds).None?
    decreases |ds| - k
  {
    if k < |ds| {
      var next := ds[..k + 1];
      assert next[..k] == ds[..k];
      SplitDelegationsFailsAfter(ds, k + 1);
    } else {
      assert ds[..k] == ds;
    }
  }

  /** An edge is split off exactly when the controller holds a `#`, at the first one. */
  lemma SplitEdgeSpec(d: Delegation)
    ensures SplitEdge(d).Some? <==> '#' in d.controller
    ensures SplitEdge(d).Some? ==> SplitOnce(d.controller, '#') == Some((SplitEdge(d).value.did, SplitEdge(d).value.keyName))
  {
  }

  /**
   * `parse_did_document` after the document is obtained: the delegations are
   * split first, so a malformed controller is reported even when the issuer
   * is malformed too; the issuer is split at its first `#`.
   */
  function TwinDocument(raw: DidDocument): Result<TwinDidDocument, ResolveError>
  {
    match SplitDelegations(Delegations(raw))
    case None => Err(MalformedDelegation)
    case Some(delegations) =>
      match SplitOnce(raw.iss, '#')
      case None => Err(MalformedIssuer)
      case Some((did, keyName)) => Ok(TwinDidDocument(did, keyName, raw.doc.updateTime, delegations))
  }

  /**
   * The identity record is built exactly when the issuer and every
   * controller hold a `#`; a malformed controller wins over a malformed
   * issuer; the record keeps the update time and has one edge per
   * delegation, control ones first.
   */
  lemma TwinDocumentSpec(raw: DidDocument)
    ensures var r := TwinDocument(raw);
            && (r.Ok? <==> '#' in raw.iss && forall i :: 0 <= i < |Delegations(raw)| ==> '#' in Delegations(raw)[i].controller)
            && ((exists i :: 0 <= i < |Delegations(raw)| && '#' !in Delegations(raw)[i].controller) ==> r == Err(MalformedDelegation))
            && (r.Err? ==> r.error in {MalformedDelegation, MalformedIssuer})
            && (r.Ok? ==> SplitOnce(raw.iss, '#') == Some((r.value.did, r.value.keyName)))
            && (r.Ok? ==> r.value.updateTime == raw.doc.updateTime)
            && (r.Ok? ==> |r.value.delegations| == |OrEmpty(raw.doc.delegateControl)| + |OrEmpty(raw.doc.delegateAuthentication)|)
            && (r.Ok? ==> forall i :: 0 <= i < |Delegations(raw)| ==>
                  SplitOnce(Delegations(raw)[i].controller, '#') == Some((r.value.delegations[i].did, r.value.delegations[i].keyName)))
  {
    var ds := Delegations(raw);
    SplitDelegationsSucceeds(ds);
    if SplitDelegations(ds).Some? {
      SplitDelegationsEdges(ds);
      var edges := SplitDelegations(ds).value;
      forall i | 0 <= i < |ds|
        ensures SplitOnce(ds[i].controller, '#') == Some((edges[i].did, edges[i].keyName))
      {
        SplitEdgeSpec(ds[i]);
      }
    }
  }

  /**
   * The loop of `parse_did_document`: delegations are split one at a time
   * and the first malformed controller ends the loop.
   */
  method SplitEach(all: seq<Delegation>) returns (r: Option<seq<TwinDelegation>>)
    ensures r == SplitDelegations(all)
  {
    var delegations: seq<TwinDelegation> := [];
    var i := 0;
    while i < |all|
      invariant 0 <= i <= |all|
      invariant SplitDelegations(all[..i]) == Some(delegations)
    {
      assert all[..i + 1][..i] == all[..i];
      match SplitOnce(all[i].controller, '#') {
        case None =>
          SplitDelegationsFailsAfter(all, i + 1);
          return None;
        case Some((did, keyName)) =>
          delegations := delegations + [TwinDelegation(did, keyName)];
      }
      i := i + 1;
    }
    assert all[..i] == all;
    r := Some(delegations);
  }

  /** `parse_did_document` after the document is obtained: the delegations, then the issuer. */
  method ToTwinDocument(raw: DidDocument) returns (r: Result<TwinDidDocument, ResolveError>)
    ensures r == TwinDocument(raw)
  {
    var delegations := SplitEach(Delegations(raw));
    if delegations.None? {
      return Err(MalformedDelegation);
    }
    match SplitOnce(raw.iss, '#') {
      case None => r := Err(MalformedIssuer);
      case Some((did, keyName)) => r := Ok(TwinDidDocument(did, keyName, raw.doc.updateTime, delegations.value));
    }
  }

  /**
   * The second `.`-separated segment of a token, or the empty string when
   * there is none: `token.split('.').skip(1).take(1)`.
   */
  function PayloadSegment(token: string): (p: string)
    ensures '.' !in p
    ensures '.' !in token ==> p == []
  {
    match SplitOnce(token, '.')
    case None => []
    case Some((_, rest)) =>
      match SplitOnce(rest, '.')
      case None => rest
      case Some((segment, _)) => segment
  }

  /**
   * For a token in the JWS compact serialisation (section 7.1 of RFC 7515),
   * `header.payload.signature`, the payload segment is the middle part.
   */
  lemma CompactTokenPayload(header: string, payload: string, signature: string)
    requires '.' !in header && '.' !in payload
    ensures PayloadSegment(header + "." + payload + "." + signature) == payload
  {
    assert header + "." + payload + "." + signature == header + ['.'] + (payload + ['.'] + signature);
    SplitOnceJoin(header, '.', payload + ['.'] + signature);
    SplitOnceJoin(payload, '.', signature);
  }

  /**
   * The cache-miss path up to the decoded document: the token's payload
   * segment is base64-decoded and the bytes are parsed as a DID document.
   */
  function DecodeFetched(fetch: FetchResult, base64: string -> Option<seq<bv8>>, json: seq<bv8> -> Option<DidDocument>)
    : Result<DidDocument, ResolveError>
  {
    match fetch
    case FetchError => Err(FetchFailed)
    case TokenResponse(token) =>
      match base64(PayloadSegment(token))
      case None => Err(TokenUndecodable)
      case Some(bytes) =>
        match json(bytes)
        case None => Err(DocumentUndecodable)
        case Some(doc) => Ok(doc)
  }

  /** What one cache lookup returns, the cache afterwards, and whether the resolver service was asked. */
  datatype CacheLookup = CacheLookup(result: Result<DidDocument, ResolveError>, cache: map<string, CacheEntry>, fetched: bool)

  /**
   * `get_did_document_cached` on a cache `cache`: a hit returns the stored
   * document without fetching; a miss decodes the fetched token and writes
   * the document under `did`; a write that fails after the file was created
   * leaves an unreadable file under `did`.
   */
  function Lookup(cache: map<string, CacheEntry>, did: string, fetch: FetchResult,
                  base64: string -> Option<seq<bv8>>, json: seq<bv8> -> Option<DidDocument>, write: WriteOutcome)
    : (r: CacheLookup)
    ensures r.fetched <==> did !in cache
    ensures r.cache.Keys == cache.Keys || r.cache.Keys == cache.Keys + {did}
    ensures forall d :: d in cache ==> d in r.cache && r.cache[d] == cache[d]
    ensures did in cache && cache[did].Stored? ==> r.result == Ok(cache[did].doc)
    ensures r.result.Ok? ==> did in r.cache && r.cache[did] == Stored(r.result.value)
    ensures r.result == Err(CacheWriteFailed) ==> r.cache == cache[did := Unreadable]
    ensures r.result == Err(CacheCreateFailed) ==> r.cache == cache
  {
    if did in cache then
      match cache[did]
      case Stored(doc) => CacheLookup(Ok(doc), cache, false)
      case Unreadable => CacheLookup(Err(CacheUnreadable), cache, false)
    else
      match DecodeFetched(fetch, base64, json)
      case Err(e) => CacheLookup(Err(e), cache, true)
      case Ok(doc) =>
        match write
        case Written => CacheLookup(Ok(doc), cache[did := Stored(doc)], true)
        case CreateFailed => CacheLookup(Err(CacheCreateFailed), cache, true)
        case WriteFailed => CacheLookup(Err(CacheWriteFailed), cache[did := Unreadable], true)
  }

  /**
   * Once a lookup has succeeded, every later lookup of the same DID returns
   * the same document from the cache, whatever the service would answer.
   */
  lemma SecondLookupHits(cache: map<string, CacheEntry>, did: string, fetch: FetchResult, fetch2: FetchResult,
                         base64: string -> Option<seq<bv8>>, json: seq<bv8> -> Option<DidDocument>, write: WriteOutcome, write2: WriteOutcome)
    requires Lookup(cache, did, fetch, base64, json, write).result.Ok?
    ensures var first := Lookup(cache, did, fetch, base64, json, write);
            var second := Lookup(first.cache, did, fetch2, base64, json, write2);
            !second.fetched && second.result == first.result && second.cache == first.cache
  {
  }

  /**
   * A write that fails after the file was created poisons the DID: every
   * later lookup finds the truncated file, fails to parse it and never asks
   * the service again.
   */
  lemma WriteFailurePoisons(cache: map<string, CacheEntry>, did: string, fetch: FetchResult, fetch2: FetchResult,
                            base64: string -> Option<seq<bv8>>, json: seq<bv8> -> Option<DidDocument>, write2: WriteOutcome)
    requires did !in cache && DecodeFetched(fetch, base64, json).Ok?
    ensures var first := Lookup(cache, did, fetch, base64, json, WriteFailed);
            var second := Lookup(first.cache, did, fetch2, base64, json, write2);
            first.result == Err(CacheWriteFailed) &&
            !second.fetched && second.result == Err(CacheUnreadable) && second.cache == first.cache
  {
  }

  /** The cache directory and the resolver service behind it. */
  class DocumentResolver {
    /** The files under `resolver/`, keyed by the DID in their name. */
    var cache: map<string, CacheEntry>

    constructor (initial: map<string, CacheEntry>)
      ensures cache == initial
    {
      cache := initial;
    }

    /** `get_did_document_cached`. */
    method GetDidDocumentCached(did: string, fetch: FetchResult, base64: string -> Option<seq<bv8>>,
                                json: seq<bv8> -> Option<DidDocument>, write: WriteOutcome)
      returns (r: Result<DidDocument, ResolveError>, fetched: bool)
      modifies this
      ensures Lookup(old(cache), did, fetch, base64, json, write) == CacheLookup(r, cache, fetched)
    {
      if did in cache {
        fetched := false;
        match cache[did] {
          case Stored(doc) => r := Ok(doc);
          case Unreadable => r := Err(CacheUnreadable);
        }
      } else {
        fetched := true;
        r := DecodeFetched(fetch, base64, json);
        if r.Ok? {
          match write {
            case Written => cache := cache[did := Stored(r.value)];
            case CreateFailed => r := Err(CacheCreateFailed);
            case WriteFailed =>
              cache := cache[did := Unreadable];
              r := Err(CacheWriteFailed);
          }
        }
      }
    }

    /**
     * `parse_did_document`: the document is obtained through the cache and
     * then converted; a failure at either stage is the result.
     */
    method ParseDidDocument(did: string, fetch: FetchResult, base64: string -> Option<seq<bv8>>,
                            json: seq<bv8> -> Option<DidDocument>, write: WriteOutcome)
      returns (r: Result<TwinDidDocument, ResolveError>, fetched: bool)
      modifies this
      ensures var l := Lookup(old(cache), did, fetch, base64, json, write);
              cache == l.cache && fetched == l.fetched &&
              r == (if l.result.Ok? then TwinDocument(l.result.value) else Err(l.result.error))
    {
      var doc;
      doc, fetched := GetDidDocumentCached(did, fetch, base64, json, write);
      if doc.Err? {
        return Err(doc.error), fetched;
      }
      r := ToTwinDocument(doc.value);
    }

    /**
     * Resolving a DID twice: after a successful first resolution the second
     * gives the same record without reaching the service; after a write that
     * failed part-way, the second finds the truncated file and fails, again
     * without reaching the service.
     */
    method ResolveTwice(did: string, fetch: FetchResult, fetch2: FetchResult, base64: string -> Option<seq<bv8>>,
                        json: seq<bv8> -> Option<DidDocument>, write: WriteOutcome, write2: WriteOutcome)
      returns (first: Result<TwinDidDocument, ResolveError>, second: Result<TwinDidDocument, ResolveError>, fetchedAgain: bool)
      modifies this
      ensures first.Ok? ==> second == first && !fetchedAgain
      ensures first == Err(CacheWriteFailed) ==> second == Err(CacheUnreadable) && !fetchedAgain
    {
      var fetched;
      first, fetched := ParseDidDocument(did, fetch, base64, json, write);
      second, fetchedAgain := ParseDidDocument(did, fetch2, base64, json, write2);
      if first.Ok? {
        SecondLookupHits(old(cache), did, fetch, fetch2, base64, json, write, write2);
      }
    }
  }
}

/**
 * The worker started for each discovered host in the knowledge-graph
 * command: it finds the host's url, lists the host's twins and resolves each
 * twin's DID document, then reports to the coordinator.
 */
module KgHostWorker {
  import opened Wrappers
  import opened Text
  import opened Resolver
  import opened HostLookup
  import opened KgCoordinator

  /** The documents of the DIDs that resolve, in listing order; DIDs that fail are skipped. */
  function Resolved(dids: seq<string>, resolve: string -> Result<TwinDidDocument, ResolveError>): (r: seq<TwinDidDocument>)
    ensures |r| <= |dids|
  {
    if |dids| == 0 then []
    else
      var last := resolve(dids[|dids| - 1]);
      Resolved(dids[..|dids| - 1], resolve) + (if last.Ok? then [last.value] else [])
  }

  /** Resolving a concatenation resolves each part. */
  lemma {:induction false} ResolvedAppend(a: seq<string>, b: seq<string>, resolve: string -> Result<TwinDidDocument, ResolveError>)
    ensures Resolved(a + b, resolve) == Resolved(a, resolve) + Resolved(b, resolve)
  {
    if |b| > 0 {
      var b' := b[..|b| - 1];
      assert (a + b)[..|a + b| - 1] == a + b';
      ResolvedAppend(a, b', resolve);
    } else {
      assert a + b == a;
    }
  }

  /** Every document kept comes from resolving one of the listed DIDs. */
  lemma {:induction false} ResolvedFromListed(dids: seq<string>, resolve: string -> Result<TwinDidDocument, ResolveError>)
    ensures forall d :: d in Resolved(dids, resolve) ==> exists i :: 0 <= i < |dids| && resolve(dids[i]) == Ok(d)
  {
    if |dids| > 0 {
      var init := dids[..|dids| - 1];
      ResolvedFromListed(init, resolve);
      forall d | d in Resolved(dids, resolve)
        ensures exists i :: 0 <= i < |dids| && resolve(dids[i]) == Ok(d)
      {
        if d in Resolved(init, resolve) {
          var i :| 0 <= i < |init| && resolve(init[i]) == Ok(d);
          assert dids[i] == init[i];
        } else {
          assert resolve(dids[|dids| - 1]) == Ok(d);
        }
      }
    }
  }

  /** When every DID resolves, every twin is kept, in order. */
  lemma {:induction false} ResolvedAllOk(dids: seq<string>, resolve: string -> Result<TwinDidDocument, ResolveError>)
    requires forall i :: 0 <= i < |dids| ==> resolve(dids[i]).Ok?
    ensures |Resolved(dids, resolve)| == |dids|
    ensures forall i :: 0 <= i < |dids| ==> Resolved(dids, resolve)[i] == resolve(dids[i]).value
  {
    if |dids| > 0 {
      ResolvedAllOk(dids[..|dids| - 1], resolve);
    }
  }

  /** The twins a listing yields: none when the call fails or the response has no payload. */
  function ListedTwins(listing: ListingResult, resolve: string -> Result<TwinDidDocument, ResolveError>): (r: seq<TwinDidDocument>)
    ensures !(listing.Listed? && listing.payload.Some?) ==> r == []
    ensures listing.Listed? && listing.payload.Some? ==> |r| <= |listing.payload.value|
  {
    match listing
    case Listed(Some(dids)) => Resolved(dids, resolve)
    case _ => []
  }

  /**
   * `get_twins`: lists the host's twins at `https://{url}:10001` and resolves
   * each twin's document in turn, keeping those that resolve.
   */
  method GetTwins(url: string, listing: string -> ListingResult, resolve: string -> Result<TwinDidDocument, ResolveError>)
    returns (twins: seq<TwinDidDocument>)
    ensures twins == ListedTwins(listing(ListingUrl(url)), resolve)
  {
    var response := listing(ListingUrl(url));
    if response.ListFailed? || response.payload.None? {
      return [];
    }
    var dids := response.payload.value;
    twins := [];
    var i := 0;
    while i < |dids|
      invariant 0 <= i <= |dids|
      invariant twins == Resolved(dids[..i], resolve)
    {
      var result := resolve(dids[i]);
      assert dids[..i + 1][..i] == dids[..i];
      if result.Ok? {
        twins := twins + [result.value];
      }
      i := i + 1;
    }
    assert dids[..|dids|] == dids;
  }

  /**
   * The worker's whole run: a host without a url gives the empty result;
   * otherwise the twins listed at its url, resolved, are reported under the
   * url with `.iotics.space` removed.
   */
  method Started(remoteHostId: Option<string>, hostAddress: string, dig: string -> DigResult,
                 listing: string -> ListingResult, resolve: string -> Result<TwinDidDocument, ResolveError>)
    returns (outcome: Option<HostResult>)
    ensures HostUrl(remoteHostId, Prod, hostAddress, dig).1.None? ==> outcome.None?
    ensures HostUrl(remoteHostId, Prod, hostAddress, dig).1.Some? ==>
              var (did, url) := HostUrl(remoteHostId, Prod, hostAddress, dig);
              outcome == Some(HostResult(did, StripDomain(url.value), ListedTwins(listing(ListingUrl(url.value)), resolve)))
  {
    var (did, url) := HostUrl(remoteHostId, Prod, hostAddress, dig);
    if url.None? {
      return None;
    }
    var twins := GetTwins(url.value, listing, resolve);
    outcome := Some(HostResult(did, StripDomain(url.value), twins));
  }
}

/**
 * The worker started for each discovered host in the host-listing command:
 * it finds the host's url, optionally asks the host for its version and its
 * twin count, then reports to the coordinator.
 */
module ListHostWorker {
  import opened Wrappers
  import opened HostLookup
  import opened ListCoordinator

  /** The worker's own authentication builder; only the host it targets is modelled. */
  class AuthBuilder {
    var host: string

    constructor (host: string)
      ensures this.host == host
    {
      this.host := host;
    }

    /** `update_host`: retargets the builder, unless the update is refused. */
    method UpdateHost(newHost: string, accepted: bool) returns (ok: bool)
      modifies this
      ensures ok == accepted
      ensures host == if accepted then newHost else old(host)
    {
      ok := accepted;
      if accepted {
        host := newHost;
      }
    }
  }

  /** The count a listing yields: the number of listed twins, zero without a payload, none on failure. */
  function TwinCount(listing: ListingResult): (r: Option<nat>)
    ensures r.None? <==> listing.ListFailed?
    ensures listing.Listed? && listing.payload.Some? ==> r == Some(|listing.payload.value|)
    ensures listing.Listed? && listing.payload.None? ==> r == Some(0)
  {
    match listing
    case ListFailed => None
    case Listed(None) => Some(0)
    case Listed(Some(twins)) => Some(|twins|)
  }

  /**
   * `get_twin_count`: when twins are asked for, the builder is pointed at
   * `https://{url}:10001` and the twins listed there are counted; nothing is
   * counted when they are not asked for, when the builder refuses the new
   * host, or when the listing fails.
   */
  method GetTwinCount(withTwins: bool, url: string, auth: AuthBuilder, accepted: bool, listing: string -> ListingResult)
    returns (count: Option<nat>)
    modifies auth
    ensures !withTwins || !accepted ==> count.None? && auth.host == old(auth.host)
    ensures withTwins && accepted ==> auth.host == ListingUrl(url) && count == TwinCount(listing(ListingUrl(url)))
  {
    if !withTwins {
      return None;
    }
    var ok := auth.UpdateHost(ListingUrl(url), accepted);
    if !ok {
      return None;
    }
    count := TwinCount(listing(auth.host));
  }

  /**
   * The worker's whole run: a host without a url gives the empty result;
   * otherwise its version and twin count are fetched at its url and reported
   * under the url with `.iotics.space` removed.
   */
  method Started(remoteHostId: Option<string>, network: NetworkType, auth: AuthBuilder,
                 withVersion: bool, withTwins: bool, dig: string -> DigResult,
                 fetch: string -> VersionResponse, accepted: bool, listing: string -> ListingResult)
    returns (outcome: Option<HostReport>)
    modifies auth
    ensures var (did, url) := HostUrl(remoteHostId, network, old(auth.host), dig);
            if url.None? then outcome.None? && auth.host == old(auth.host)
            else outcome == Some(HostReport(did, StripDomain(url.value), GetHostVersion(withVersion, url.value, fetch),
                                            if withTwins && accepted then TwinCount(listing(ListingUrl(url.value))) else None))
  {
    var (did, url) := HostUrl(remoteHostId, network, auth.host, dig);
    if url.None? {
      return None;
    }
    var version := GetHostVersion(withVersion, url.value, fetch);
    var count := GetTwinCount(withTwins, url.value, auth, accepted, listing);
    outcome := Some(HostReport(did, StripDomain(url.value), version, count));
  }
}

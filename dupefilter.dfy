/** The duplicate filter the scheduler consults, reduced to its seen-set. */
module DupeFilters {
  import opened Requests

  class DupeFilter {
    var seen: set<Fingerprint>

    constructor (seen: set<Fingerprint>)
      ensures this.seen == seen
    {
      this.seen := seen;
    }

    /** request_seen: reports whether the request was already seen, and remembers it. */
    method RequestSeen(r: Request) returns (wasSeen: bool)
      modifies this
      ensures wasSeen <==> FingerprintOf(r) in old(seen)
      ensures seen == old(seen) + {FingerprintOf(r)}
    {
      var fp := FingerprintOf(r);
      wasSeen := fp in seen;
      if !wasSeen {
        seen := seen + {fp};
      }
    }
  }
}

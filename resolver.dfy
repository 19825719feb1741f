/**
 * `resolve_single`: classify the lookup of one domain into a
 * (domain, ip, error) triple. The host lookup (`socket.gethostbyname`
 * and the exceptions it raises) is an oracle passed in as a function.
 */
module Resolver {
  import opened Wrappers
  import opened Text

  /** What one host lookup can end in: an address or one of three failures. */
  datatype LookupOutcome =
    | Address(ip: string)          // gethostbyname returned
    | GaiError(message: string)    // socket.gaierror, with str(e)
    | TimedOut                     // socket.timeout
    | OtherError(message: string)  // any other exception, with str(e)

  /** The (domain, ip, error) tuple of one resolution. */
  datatype Resolution = Resolution(domain: string, ip: Option<string>, error: Option<string>)

  const EMPTY_DOMAIN: string := "Empty domain"
  const DNS_ERROR_PREFIX: string := "DNS error: "
  const TIMEOUT: string := "Timeout"

  /** Python truthiness of an optional string: present and non-empty. */
  predicate Truthy(o: Option<string>)
  {
    o.Some? && o.value != ""
  }

  /** The triple for a non-empty domain whose lookup ended in `outcome`. */
  function Classify(domain: string, outcome: LookupOutcome): Resolution
  {
    match outcome
    case Address(ip) => Resolution(domain, Some(ip), None)
    case GaiError(message) => Resolution(domain, None, Some(DNS_ERROR_PREFIX + message))
    case TimedOut => Resolution(domain, None, Some(TIMEOUT))
    case OtherError(message) => Resolution(domain, None, Some(message))
  }

  /**
   * `resolve_single(domain)`: the stripped domain comes first; an empty one
   * fails with "Empty domain"; otherwise exactly one of ip and error is set,
   * the error text being fixed by the kind of failure.
   */
  function ResolveSingle(raw: string, lookup: string -> LookupOutcome): (r: Resolution)
    ensures r.domain == Strip(raw)
    ensures r.ip.Some? != r.error.Some?
    ensures Strip(raw) == [] ==> r.error == Some(EMPTY_DOMAIN)
    ensures Strip(raw) != [] ==>
      match lookup(Strip(raw))
      case Address(ip) => r.ip == Some(ip)
      case GaiError(message) => r.error == Some(DNS_ERROR_PREFIX + message)
      case TimedOut => r.error == Some(TIMEOUT)
      case OtherError(message) => r.error == Some(message)
  {
    var domain := Strip(raw);
    if domain == [] then Resolution(domain, None, Some(EMPTY_DOMAIN))
    else Classify(domain, lookup(domain))
  }

  /** An empty domain is answered without consulting the lookup at all. */
  lemma EmptyDomainSkipsLookup(raw: string, lookup1: string -> LookupOutcome, lookup2: string -> LookupOutcome)
    requires AllSpace(raw)
    ensures ResolveSingle(raw, lookup1) == ResolveSingle(raw, lookup2) == Resolution("", None, Some(EMPTY_DOMAIN))
  {
    StripShape(raw);
  }

  /** The lookup is consulted for the stripped domain and for nothing else. */
  lemma LookupOfStrippedDomainOnly(raw: string, lookup1: string -> LookupOutcome, lookup2: string -> LookupOutcome)
    requires lookup1(Strip(raw)) == lookup2(Strip(raw))
    ensures ResolveSingle(raw, lookup1) == ResolveSingle(raw, lookup2)
  {
  }

  /** The ip is set exactly when the lookup of a non-empty domain succeeded. */
  lemma ResolvedIffAddress(raw: string, lookup: string -> LookupOutcome)
    ensures ResolveSingle(raw, lookup).ip.Some? <==> Strip(raw) != [] && lookup(Strip(raw)).Address?
  {
  }

  /**
   * The error text does not identify the failure kind: an unexpected
   * exception whose message is "Timeout" or starts with "DNS error: " reads
   * the same as a timeout or a name-service error.
   */
  lemma ErrorTextAmbiguous(domain: string, message: string)
    ensures Classify(domain, OtherError(TIMEOUT)) == Classify(domain, TimedOut)
    ensures Classify(domain, OtherError(DNS_ERROR_PREFIX + message)) == Classify(domain, GaiError(message))
  {
  }
}

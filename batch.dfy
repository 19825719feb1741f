/**
 * `resolve_from_file`: read the domain list, resolve every domain, and
 * collect the results in the order the lookups complete, keeping a failed
 * one only when errors are to be shown. The worker pool is modelled as a
 * sequential loop that may take the submitted lookups in any order.
 */
module Batch {
  import opened Wrappers
  import opened Text
  import opened Resolver

  /** What opening and reading the input file gave. */
  datatype FileRead =
    | Lines(lines: seq<string>)   // the file's lines, as iterated
    | NotFound                    // FileNotFoundError
    | Unreadable(reason: string)  // any other IOError, with str(e)

  /** How a batch run ends. */
  datatype BatchOutcome =
    | Aborted(status: int, message: string)
    | Finished(results: seq<Resolution>, completionOrder: seq<string>, warning: Option<string>)

  const NO_DOMAINS_WARNING: string := "Warning: No domains found in file"
  const NOT_FOUND_PREFIX: string := "Error: File not found: "
  const READ_ERROR_PREFIX: string := "Error reading file: "

  /** `[line.strip() for line in f if line.strip()]`. */
  function Domains(lines: seq<string>): (ds: seq<string>)
    ensures |ds| <= |lines|
    ensures forall i :: 0 <= i < |ds| ==> ds[i] != [] && IsStripped(ds[i])
  {
    if lines == [] then []
    else
      var d := Strip(lines[0]);
      var head := if d == [] then [] else [d];
      var tail := Domains(lines[1..]);
      assert forall i :: 0 <= i < |head + tail| ==> (head + tail)[i] == if i < |head| then d else tail[i - |head|];
      head + tail
  }

  /** The filter `show_errors or result[1] is not None`. */
  predicate Kept(r: Resolution, showErrors: bool)
  {
    showErrors || r.ip.Some?
  }

  /** The filtered results of resolving `ds` one after another, in that order. */
  function Collected(ds: seq<string>, lookup: string -> LookupOutcome, showErrors: bool): (rs: seq<Resolution>)
    ensures |rs| <= |ds|
    ensures showErrors ==> |rs| == |ds|
    ensures forall i :: 0 <= i < |rs| ==> Kept(rs[i], showErrors)
  {
    if ds == [] then [] else Step(ds[0], lookup, showErrors) + Collected(ds[1..], lookup, showErrors)
  }

  /** What resolving one domain adds to the results. */
  function Step(d: string, lookup: string -> LookupOutcome, showErrors: bool): (rs: seq<Resolution>)
    ensures |rs| <= 1
    ensures showErrors ==> |rs| == 1
    ensures forall i :: 0 <= i < |rs| ==> Kept(rs[i], showErrors)
    ensures forall i :: 0 <= i < |rs| ==> rs[i] == ResolveSingle(d, lookup)
    ensures Kept(ResolveSingle(d, lookup), showErrors) ==> |rs| == 1
  {
    var r := ResolveSingle(d, lookup);
    if Kept(r, showErrors) then [r] else []
  }

  /** The domain list of a file is read line by line, in file order. */
  lemma {:induction false} DomainsAppend(a: seq<string>, b: seq<string>)
    ensures Domains(a + b) == Domains(a) + Domains(b)
  {
    if a == [] {
      assert a + b == b;
    } else {
      assert (a + b)[1..] == a[1..] + b;
      DomainsAppend(a[1..], b);
    }
  }

  /** A single line contributes its stripped form, unless that is empty. */
  lemma DomainsSingle(line: string)
    ensures Domains([line]) == if Strip(line) == [] then [] else [Strip(line)]
  {
    assert [line][1..] == [];
  }

  /** A string is a domain of the list iff it is the non-empty stripped form of one of its lines. */
  lemma {:induction false} DomainsMembership(lines: seq<string>, d: string)
    ensures d in Domains(lines) <==> d != [] && exists i :: 0 <= i < |lines| && Strip(lines[i]) == d
  {
    if lines != [] {
      DomainsMembership(lines[1..], d);
      if i :| 0 <= i < |lines| && Strip(lines[i]) == d {
        if i > 0 {
          assert lines[1..][i - 1] == lines[i];
        }
      }
      if i :| 0 <= i < |lines[1..]| && Strip(lines[1..][i]) == d {
        assert lines[i + 1] == lines[1..][i];
      }
    }
  }

  /** Reading back a domain list gives the same list. */
  lemma {:induction false} DomainsOfDomains(lines: seq<string>)
    ensures Domains(Domains(lines)) == Domains(lines)
  {
    if lines != [] {
      var d := Strip(lines[0]);
      var head := if d == [] then [] else [d];
      DomainsOfDomains(lines[1..]);
      DomainsAppend(head, Domains(lines[1..]));
      if d != [] {
        StripIdempotent(lines[0]);
        assert head[1..] == [];
      }
    }
  }

  /**
   * In the batch path the lookup is consulted with the domain itself:
   * a listed domain is already stripped and never "Empty domain".
   */
  lemma BatchDomainsReachLookup(lines: seq<string>, lookup: string -> LookupOutcome, i: int)
    requires 0 <= i < |Domains(lines)|
    ensures ResolveSingle(Domains(lines)[i], lookup) == Classify(Domains(lines)[i], lookup(Domains(lines)[i]))
  {
    StripStripped(Domains(lines)[i]);
  }

  /** Resolving two lists one after the other collects the two result lists in turn. */
  lemma {:induction false} CollectedAppend(a: seq<string>, b: seq<string>, lookup: string -> LookupOutcome, showErrors: bool)
    ensures Collected(a + b, lookup, showErrors) == Collected(a, lookup, showErrors) + Collected(b, lookup, showErrors)
  {
    if a == [] {
      assert a + b == b;
    } else {
      assert (a + b)[0] == a[0] && (a + b)[1..] == a[1..] + b;
      CollectedAppend(a[1..], b, lookup, showErrors);
      var h := Step(a[0], lookup, showErrors);
      assert Collected(a + b, lookup, showErrors) == h + Collected(a[1..] + b, lookup, showErrors);
      assert h + (Collected(a[1..], lookup, showErrors) + Collected(b, lookup, showErrors))
          == (h + Collected(a[1..], lookup, showErrors)) + Collected(b, lookup, showErrors);
    }
  }

  /** Taking out the lookup at position k leaves the results of the others. */
  lemma CollectedRemove(ds: seq<string>, k: int, lookup: string -> LookupOutcome, showErrors: bool)
    requires 0 <= k < |ds|
    ensures multiset(Collected(ds, lookup, showErrors))
         == multiset(Collected(ds[..k] + ds[k + 1..], lookup, showErrors)) + multiset(Collected([ds[k]], lookup, showErrors))
  {
    assert ds == ds[..k] + [ds[k]] + ds[k + 1..];
    CollectedAppend(ds[..k] + [ds[k]], ds[k + 1..], lookup, showErrors);
    CollectedAppend(ds[..k], [ds[k]], lookup, showErrors);
    CollectedAppend(ds[..k], ds[k + 1..], lookup, showErrors);
  }

  /**
   * Order independence: domain lists that are permutations of each other
   * give results that are permutations of each other.
   */
  lemma {:induction false} CollectedPermutation(a: seq<string>, b: seq<string>, lookup: string -> LookupOutcome, showErrors: bool)
    requires multiset(a) == multiset(b)
    ensures multiset(Collected(a, lookup, showErrors)) == multiset(Collected(b, lookup, showErrors))
  {
    if a != [] {
      assert a[0] in multiset(b);
      var k :| 0 <= k < |b| && b[k] == a[0];
      var rest := b[..k] + b[k + 1..];
      MultisetRemove(b, k);
      MultisetRemove(a, 0);
      assert a[..0] + a[1..] == a[1..];
      assert multiset(a[1..]) == multiset(a) - multiset{a[0]};
      assert multiset(rest) == multiset(b) - multiset{a[0]};
      CollectedPermutation(a[1..], rest, lookup, showErrors);
      CollectedRemove(b, k, lookup, showErrors);
      CollectedRemove(a, 0, lookup, showErrors);
    }
  }

  /** A result is collected iff it is the kept resolution of one of the domains. */
  lemma {:induction false} CollectedMembership(ds: seq<string>, lookup: string -> LookupOutcome, showErrors: bool, r: Resolution)
    ensures r in Collected(ds, lookup, showErrors)
        <==> Kept(r, showErrors) && exists i :: 0 <= i < |ds| && ResolveSingle(ds[i], lookup) == r
  {
    if ds != [] {
      CollectedMembership(ds[1..], lookup, showErrors, r);
      assert Collected(ds, lookup, showErrors) == Step(ds[0], lookup, showErrors) + Collected(ds[1..], lookup, showErrors);
      if i :| 0 <= i < |ds| && ResolveSingle(ds[i], lookup) == r {
        if i > 0 {
          assert ds[1..][i - 1] == ds[i];
        }
      }
      if i :| 0 <= i < |ds[1..]| && ResolveSingle(ds[1..][i], lookup) == r {
        assert ds[i + 1] == ds[1..][i];
      }
    }
  }

  /** The bookkeeping of one completed lookup: it moves from pending to done. */
  lemma CompleteOne(order: seq<string>, pending: seq<string>, k: int, lookup: string -> LookupOutcome, showErrors: bool)
    requires 0 <= k < |pending|
    ensures Collected(order + [pending[k]], lookup, showErrors)
         == Collected(order, lookup, showErrors) + Step(pending[k], lookup, showErrors)
    ensures multiset(order + [pending[k]]) + multiset(pending[..k] + pending[k + 1..]) == multiset(order) + multiset(pending)
  {
    CollectedAppend(order, [pending[k]], lookup, showErrors);
    CollectedSingle(pending[k], lookup, showErrors);
    MultisetRemove(pending, k);
  }

  lemma CollectedSingle(d: string, lookup: string -> LookupOutcome, showErrors: bool)
    ensures Collected([d], lookup, showErrors) == Step(d, lookup, showErrors)
  {
    assert [d][1..] == [];
  }

  lemma MultisetRemove<T>(s: seq<T>, k: int)
    requires 0 <= k < |s|
    ensures multiset(s) == multiset(s[..k] + s[k + 1..]) + multiset{s[k]}
  {
    assert s == s[..k] + [s[k]] + s[k + 1..];
  }

  /**
   * The worker pool: every domain is submitted, and the results are taken
   * as the lookups complete, in whatever order they complete. Each domain is
   * looked up exactly once and the results are the filtered resolutions in
   * completion order.
   */
  method ResolveAll(domains: seq<string>, lookup: string -> LookupOutcome, showErrors: bool)
    returns (results: seq<Resolution>, order: seq<string>)
    ensures multiset(order) == multiset(domains)
    ensures results == Collected(order, lookup, showErrors)
    ensures multiset(results) == multiset(Collected(domains, lookup, showErrors))
  {
    results := [];
    var pending := domains;
    order := [];
    while pending != []
      invariant multiset(order) + multiset(pending) == multiset(domains)
      invariant results == Collected(order, lookup, showErrors)
      decreases |pending|
    {
      // as_completed may hand back any outstanding lookup next
      var k :| 0 <= k < |pending|;
      var d := pending[k];
      CompleteOne(order, pending, k, lookup, showErrors);
      pending := pending[..k] + pending[k + 1..];
      order := order + [d];
      ghost var before := results;
      var r := ResolveSingle(d, lookup);
      if showErrors || r.ip.Some? {
        results := results + [r];
      }
      assert results == before + Step(d, lookup, showErrors);
    }
    assert multiset(order) == multiset(domains);
    CollectedPermutation(order, domains, lookup, showErrors);
  }

  /**
   * `resolve_from_file`: a missing or unreadable file aborts with status 1
   * before any lookup; an empty domain list gives no results and a warning;
   * otherwise the pool resolves the file's domain list.
   */
  method ResolveFromFile(path: string, input: FileRead, lookup: string -> LookupOutcome, showErrors: bool)
    returns (outcome: BatchOutcome)
    ensures input.NotFound? ==> outcome == Aborted(1, NOT_FOUND_PREFIX + path)
    ensures input.Unreadable? ==> outcome == Aborted(1, READ_ERROR_PREFIX + input.reason)
    ensures input.Lines? ==> outcome.Finished?
    ensures input.Lines? ==> multiset(outcome.completionOrder) == multiset(Domains(input.lines))
    ensures input.Lines? ==> outcome.results == Collected(outcome.completionOrder, lookup, showErrors)
    ensures input.Lines? ==>
      multiset(outcome.results) == multiset(Collected(Domains(input.lines), lookup, showErrors))
    ensures input.Lines? ==>
      (outcome.warning.Some? <==> Domains(input.lines) == []) &&
      (outcome.warning.Some? ==>
         outcome.warning == Some(NO_DOMAINS_WARNING) && outcome.completionOrder == [] && outcome.results == [])
    ensures input.Lines? && showErrors ==> |outcome.results| == |Domains(input.lines)|
    ensures input.Lines? && !showErrors ==> forall r :: r in outcome.results ==> r.ip.Some?
  {
    match input
    case NotFound =>
      return Aborted(1, NOT_FOUND_PREFIX + path);
    case Unreadable(reason) =>
      return Aborted(1, READ_ERROR_PREFIX + reason);
    case Lines(lines) =>
      var domains := Domains(lines);
      if domains == [] {
        return Finished([], [], Some(NO_DOMAINS_WARNING));
      }
      var results, order := ResolveAll(domains, lookup, showErrors);
      assert |order| == |multiset(order)| == |multiset(domains)| == |domains|;
      return Finished(results, order, None);
  }
}

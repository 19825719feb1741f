/**
 * The "Resolved X/Y domains" summary of `main`: X counts the results whose
 * ip is truthy, Y is the number of results.
 */
module Summary {
  import opened Wrappers
  import opened Resolver
  import opened Batch

  /** `sum(1 for _, ip, _ in results if ip)`. */
  function SuccessCount(results: seq<Resolution>): (n: nat)
    ensures n <= |results|
  {
    if results == [] then 0
    else (if Truthy(results[0].ip) then 1 else 0) + SuccessCount(results[1..])
  }

  /** Every result counts as resolved iff the count reaches the total. */
  lemma {:induction false} SuccessCountFull(results: seq<Resolution>)
    ensures SuccessCount(results) == |results| <==> forall i :: 0 <= i < |results| ==> Truthy(results[i].ip)
  {
    if results != [] {
      SuccessCountFull(results[1..]);
      assert forall i :: 1 <= i < |results| ==> results[i] == results[1..][i - 1];
    }
  }

  lemma {:induction false} SuccessCountAppend(a: seq<Resolution>, b: seq<Resolution>)
    ensures SuccessCount(a + b) == SuccessCount(a) + SuccessCount(b)
  {
    if a == [] {
      assert a + b == b;
    } else {
      assert (a + b)[0] == a[0] && (a + b)[1..] == a[1..] + b;
      SuccessCountAppend(a[1..], b);
    }
  }

  /** The count does not depend on the order the results came in. */
  lemma {:induction false} SuccessCountPermutation(a: seq<Resolution>, b: seq<Resolution>)
    requires multiset(a) == multiset(b)
    ensures SuccessCount(a) == SuccessCount(b)
  {
    if a != [] {
      assert a[0] in multiset(b);
      var k :| 0 <= k < |b| && b[k] == a[0];
      var rest := b[..k] + b[k + 1..];
      MultisetRemove(b, k);
      MultisetRemove(a, 0);
      assert a[..0] + a[1..] == a[1..];
      assert multiset(a[1..]) == multiset(a) - multiset{a[0]};
      assert multiset(rest) == multiset(b) - multiset{a[0]};
      SuccessCountPermutation(a[1..], rest);
      SuccessCountRemove(b, k);
    }
  }

  lemma SuccessCountRemove(s: seq<Resolution>, k: int)
    requires 0 <= k < |s|
    ensures SuccessCount(s) == SuccessCount(s[..k] + s[k + 1..]) + (if Truthy(s[k].ip) then 1 else 0)
  {
    var pre, x, post := s[..k], s[k], s[k + 1..];
    assert s == pre + ([x] + post);
    SuccessCountAppend(pre, [x] + post);
    SuccessCountAppend(pre, post);
    assert ([x] + post)[0] == x && ([x] + post)[1..] == post;
    assert SuccessCount([x] + post) == (if Truthy(x.ip) then 1 else 0) + SuccessCount(post);
  }

  /** Dropping failed resolutions never changes the success count. */
  lemma {:induction false} SuccessCountIgnoresFilter(ds: seq<string>, lookup: string -> LookupOutcome)
    ensures SuccessCount(Collected(ds, lookup, true)) == SuccessCount(Collected(ds, lookup, false))
  {
    if ds != [] {
      SuccessCountIgnoresFilter(ds[1..], lookup);
      SuccessCountAppend(Step(ds[0], lookup, true), Collected(ds[1..], lookup, true));
      SuccessCountAppend(Step(ds[0], lookup, false), Collected(ds[1..], lookup, false));
    }
  }

  /**
   * For a finished batch the summary is the same whatever the completion
   * order and whether or not errors are shown; with errors shown the total
   * is the number of domains in the file.
   */
  lemma SummaryOfBatch(lines: seq<string>, lookup: string -> LookupOutcome, showErrors: bool, order: seq<string>)
    requires multiset(order) == multiset(Domains(lines))
    ensures SuccessCount(Collected(order, lookup, showErrors)) == SuccessCount(Collected(Domains(lines), lookup, false))
    ensures showErrors ==> |Collected(order, lookup, showErrors)| == |Domains(lines)|
  {
    CollectedPermutation(order, Domains(lines), lookup, showErrors);
    SuccessCountPermutation(Collected(order, lookup, showErrors), Collected(Domains(lines), lookup, showErrors));
    SuccessCountIgnoresFilter(Domains(lines), lookup);
    assert |order| == |multiset(order)| == |multiset(Domains(lines))| == |Domains(lines)|;
  }
}

/**
 * Python's `str.strip()` with no argument: remove every leading and
 * trailing whitespace character, where whitespace is what `str.isspace`
 * accepts.
 */
module Text {

  /** The characters for which Python's `str.isspace` holds. */
  predicate IsSpace(c: char)
  {
    var n := c as int;
    (0x09 <= n <= 0x0D) || (0x1C <= n <= 0x20) || n == 0x85 || n == 0xA0 || n == 0x1680
    || (0x2000 <= n <= 0x200A) || n == 0x2028 || n == 0x2029 || n == 0x202F
    || n == 0x205F || n == 0x3000
  }

  predicate AllSpace(s: string)
  {
    forall i :: 0 <= i < |s| ==> IsSpace(s[i])
  }

  /** No leading and no trailing whitespace: what `strip` returns. */
  predicate IsStripped(s: string)
  {
    s == [] || (!IsSpace(s[0]) && !IsSpace(s[|s| - 1]))
  }

  /** The first position at or after `from` that does not hold whitespace (or |s|). */
  function Start(s: string, from: nat): (k: nat)
    requires from <= |s|
    ensures from <= k <= |s|
    ensures forall i :: from <= i < k ==> IsSpace(s[i])
    ensures k < |s| ==> !IsSpace(s[k])
    decreases |s| - from
  {
    if from == |s| || !IsSpace(s[from]) then from else Start(s, from + 1)
  }

  /** The end of `s[low..upTo]` once the whitespace at its end is cut off. */
  function End(s: string, low: nat, upTo: nat): (k: nat)
    requires low <= upTo <= |s|
    ensures low <= k <= upTo
    ensures forall i :: k <= i < upTo ==> IsSpace(s[i])
    ensures k > low ==> !IsSpace(s[k - 1])
    decreases upTo
  {
    if upTo == low || !IsSpace(s[upTo - 1]) then upTo else End(s, low, upTo - 1)
  }

  /**
   * `s.strip()`: the part of `s` left between its longest whitespace
   * prefix and its longest whitespace suffix.
   */
  function Strip(s: string): (r: string)
    ensures IsStripped(r)
  {
    var low := Start(s, 0);
    s[low..End(s, low, |s|)]
  }

  /**
   * What `strip` removes: the result is the slice `s[low..high]`, with only
   * whitespace before `low` and only whitespace from `high` on, where `low`
   * is the first non-whitespace position; the result is empty iff `s` is
   * all whitespace.
   */
  lemma StripShape(s: string)
    ensures var low, high := Start(s, 0), End(s, Start(s, 0), |s|);
      && Strip(s) == s[low..high]
      && (forall i :: 0 <= i < low ==> IsSpace(s[i]))
      && (low < |s| ==> !IsSpace(s[low]))
      && (forall i :: high <= i < |s| ==> IsSpace(s[i]))
    ensures Strip(s) == [] <==> AllSpace(s)
  {
  }

  /**
   * `strip` returns the unique stripped core: a non-empty stripped slice
   * with only whitespace around it is exactly what `strip` gives back.
   */
  lemma StripUnique(s: string, i: nat, j: nat)
    requires i < j <= |s|
    requires forall k :: 0 <= k < i ==> IsSpace(s[k])
    requires forall k :: j <= k < |s| ==> IsSpace(s[k])
    requires !IsSpace(s[i]) && !IsSpace(s[j - 1])
    ensures Strip(s) == s[i..j]
  {
    var low := Start(s, 0);
    assert low == i;
    var high := End(s, low, |s|);
    assert high == j;
  }

  /** Stripping a string that has no outer whitespace changes nothing. */
  lemma StripStripped(s: string)
    requires IsStripped(s)
    ensures Strip(s) == s
  {
    if s != [] {
      StripUnique(s, 0, |s|);
      assert s[0..|s|] == s;
    }
  }

  /** `strip` is idempotent. */
  lemma StripIdempotent(s: string)
    ensures Strip(Strip(s)) == Strip(s)
  {
    StripStripped(Strip(s));
  }
}

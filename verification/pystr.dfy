/** The Python `str` operations the page relies on: `strip`, `split(sep)[0]` and
    `capitalize`. Characters are Unicode scalar values, but whitespace and case are
    modelled over ASCII only. */
module PyStr {

  /** The ASCII characters for which `str.isspace()` holds: space, the controls
      tab to carriage return, and the separators U+1C to U+1F. */
  predicate IsSpace(c: char) {
    c == ' ' || ('\t' <= c <= '\r') || ('\U{1C}' <= c <= '\U{1F}')
  }

  predicate AllSpace(s: string) {
    forall i :: 0 <= i < |s| ==> IsSpace(s[i])
  }

  /** `s` neither begins nor ends with whitespace, so `strip` leaves it alone. */
  predicate Stripped(s: string) {
    s == [] || (!IsSpace(s[0]) && !IsSpace(s[|s| - 1]))
  }

  /** The index of the first character at or after `k` that is not whitespace,
      or `|s|` when there is none. */
  function LeadFrom(s: string, k: nat): (n: nat)
    requires k <= |s|
    ensures k <= n <= |s|
    ensures forall i :: k <= i < n ==> IsSpace(s[i])
    ensures n < |s| ==> !IsSpace(s[n])
    decreases |s| - k
  {
    if k < |s| && IsSpace(s[k]) then LeadFrom(s, k + 1) else k
  }

  /** The index just past the last character before `k` that is not
      whitespace, or 0 when there is none. */
  function EndBefore(s: string, k: nat): (n: nat)
    requires k <= |s|
    ensures n <= k
    ensures forall i :: n <= i < k ==> IsSpace(s[i])
    ensures n > 0 ==> !IsSpace(s[n - 1])
  {
    if k > 0 && IsSpace(s[k - 1]) then EndBefore(s, k - 1) else k
  }

  /** Where `lstrip` cuts: the number of whitespace characters `s` starts with. */
  function Lead(s: string): nat {
    LeadFrom(s, 0)
  }

  /** Where `rstrip` cuts: the length of `s` without its trailing whitespace. */
  function End(s: string): nat {
    EndBefore(s, |s|)
  }

  /** The two facts about `Lead` determine it. */
  lemma LeadUnique(s: string, m: nat)
    requires m <= |s|
    requires forall i :: 0 <= i < m ==> IsSpace(s[i])
    requires m < |s| ==> !IsSpace(s[m])
    ensures m == Lead(s)
  {
  }

  /** The two facts about `End` determine it. */
  lemma EndUnique(s: string, m: nat)
    requires m <= |s|
    requires forall i :: m <= i < |s| ==> IsSpace(s[i])
    requires m > 0 ==> !IsSpace(s[m - 1])
    ensures m == End(s)
  {
  }

  /** `str.strip()`: the slice of `s` left once the whitespace at both ends is
      cut off. It is empty exactly when `s` is all whitespace, and otherwise
      runs from the first to the last character that is not whitespace. */
  function Strip(s: string): (r: string)
    ensures Stripped(r)
    ensures r == [] <==> AllSpace(s)
    ensures r != [] ==> Lead(s) < End(s) && r == s[Lead(s)..End(s)]
  {
    var i := Lead(s);
    if i == |s| then []
    else
      s[i..End(s)]
  }

  /** A string that is already stripped is its own `strip`. */
  lemma StripStripped(s: string)
    requires Stripped(s)
    ensures Strip(s) == s
  {
    if s != [] {
      LeadUnique(s, 0);
      EndUnique(s, |s|);
    }
  }

  /** `strip` is idempotent. */
  lemma StripIdempotent(s: string)
    ensures Strip(Strip(s)) == Strip(s)
  {
    StripStripped(Strip(s));
  }

  lemma AllSpaceConcat(p: string, s: string, q: string)
    requires AllSpace(p) && AllSpace(s) && AllSpace(q)
    ensures AllSpace(p + s + q)
  {
    var t := p + s + q;
    forall i | 0 <= i < |t|
      ensures IsSpace(t[i])
    {
      if i < |p| { assert t[i] == p[i]; }
      else if i < |p| + |s| { assert t[i] == s[i - |p|]; }
      else { assert t[i] == q[i - |p| - |s|]; }
    }
  }

  /** Leading whitespace shifts where a string with text starts. */
  lemma LeadPadding(p: string, s: string, q: string)
    requires AllSpace(p) && !AllSpace(s)
    ensures Lead(p + s + q) == |p| + Lead(s)
  {
    var t := p + s + q;
    var l := Lead(s);
    assert l < |s|;
    assert t[|p| + l] == s[l];
    forall i | 0 <= i < |p| + l
      ensures IsSpace(t[i])
    {
      if i < |p| { assert t[i] == p[i]; } else { assert t[i] == s[i - |p|]; }
    }
    LeadUnique(t, |p| + l);
  }

  /** Trailing whitespace does not move where a string with text ends,
      counted from the end of the leading padding. */
  lemma EndPadding(p: string, s: string, q: string)
    requires AllSpace(q) && !AllSpace(s)
    ensures End(p + s + q) == |p| + End(s)
  {
    var t := p + s + q;
    var n := End(s);
    assert n > 0;
    assert t[|p| + n - 1] == s[n - 1];
    forall i | |p| + n <= i < |t|
      ensures IsSpace(t[i])
    {
      if i < |p| + |s| { assert t[i] == s[i - |p|]; } else { assert t[i] == q[i - |p| - |s|]; }
    }
    EndUnique(t, |p| + n);
  }

  lemma SliceOfMiddle(p: string, s: string, q: string, i: nat, j: nat)
    requires i <= j <= |s|
    ensures (p + s + q)[|p| + i..|p| + j] == s[i..j]
  {
  }

  lemma StripPaddingText(p: string, s: string, q: string)
    requires AllSpace(p) && AllSpace(q) && !AllSpace(s)
    ensures Strip(p + s + q) == Strip(s)
  {
    var t := p + s + q;
    LeadPadding(p, s, q);
    EndPadding(p, s, q);
    assert Strip(s) != [];
    assert !IsSpace(t[Lead(t)]);
    SliceOfMiddle(p, s, q, Lead(s), End(s));
  }

  /** Surrounding a string with whitespace does not change its `strip`. */
  lemma StripPadding(p: string, s: string, q: string)
    requires AllSpace(p) && AllSpace(q)
    ensures Strip(p + s + q) == Strip(s)
  {
    if AllSpace(s) {
      AllSpaceConcat(p, s, q);
    } else {
      StripPaddingText(p, s, q);
    }
  }

  /** `s.split(sep)[0]`: the text of `s` before the first `sep`, or all of `s`
      when `sep` does not occur. */
  function BeforeFirst(s: string, sep: char): (r: string)
    ensures |r| <= |s| && r == s[..|r|]
    ensures sep !in r
    ensures |r| < |s| ==> s[|r|] == sep
  {
    if |s| == 0 || s[0] == sep then [] else [s[0]] + BeforeFirst(s[1..], sep)
  }

  predicate IsLower(c: char) { 'a' <= c <= 'z' }

  predicate IsUpper(c: char) { 'A' <= c <= 'Z' }

  function ToUpper(c: char): char {
    if IsLower(c) then (c as int - 32) as char else c
  }

  function ToLower(c: char): char {
    if IsUpper(c) then (c as int + 32) as char else c
  }

  /** `str.lower()` over the ASCII letters. */
  function Lower(s: string): (r: string)
    ensures |r| == |s|
  {
    seq(|s|, i requires 0 <= i < |s| => ToLower(s[i]))
  }

  /** A string with no upper-case letter is its own `lower`. */
  lemma LowerUnchanged(s: string)
    requires forall i :: 0 <= i < |s| ==> !IsUpper(s[i])
    ensures Lower(s) == s
  {
  }

  /** `str.capitalize()` over the ASCII letters: the first letter upper case, the
      rest lower case. The result spells the same word ignoring case, and no
      letter after the first is upper case. */
  function Capitalize(s: string): (r: string)
    ensures |r| == |s|
    ensures Lower(r) == Lower(s)
    ensures r != [] ==> !IsLower(r[0])
    ensures forall i :: 1 <= i < |r| ==> !IsUpper(r[i])
  {
    if s == [] then [] else [ToUpper(s[0])] + Lower(s[1..])
  }

  /** Capitalizing twice is capitalizing once. */
  lemma CapitalizeIdempotent(s: string)
    ensures Capitalize(Capitalize(s)) == Capitalize(s)
  {
  }
}

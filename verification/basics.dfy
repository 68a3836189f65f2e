/** Small shared vocabulary: an optional value and the whitespace trimming
    that the RFID handler applies to a card uid. */
module Basics {

  /** Python's `None` or a value. */
  datatype Option<+T> = None | Some(value: T)

  /** The characters Python's `str.isspace()` accepts, i.e. those that
      `str.strip()` with no argument removes from both ends. */
  predicate IsSpace(c: char) {
    || ('\t' <= c <= '\r')
    || ('\U{1c}' <= c <= '\U{1f}')
    || c == ' '
    || c == '\U{85}'
    || c == '\U{a0}'
    || c == '\U{1680}'
    || ('\U{2000}' <= c <= '\U{200a}')
    || c == '\U{2028}'
    || c == '\U{2029}'
    || c == '\U{202f}'
    || c == '\U{205f}'
    || c == '\U{3000}'
  }

  /** Every character of `s` is whitespace (this includes the empty string). */
  predicate IsBlank(s: string) {
    forall i :: 0 <= i < |s| ==> IsSpace(s[i])
  }

  /** How many whitespace characters `s` starts with. */
  function LeadingSpaces(s: string): (n: nat)
    ensures n <= |s|
    ensures forall i :: 0 <= i < n ==> IsSpace(s[i])
    ensures n < |s| ==> !IsSpace(s[n])
  {
    if s == [] || !IsSpace(s[0]) then 0
    else
      var n := LeadingSpaces(s[1..]);
      assert forall i :: 1 <= i < n + 1 ==> s[i] == s[1..][i - 1];
      n + 1
  }

  /** How many whitespace characters `s` ends with. */
  function TrailingSpaces(s: string): (n: nat)
    ensures n <= |s|
    ensures forall i :: |s| - n <= i < |s| ==> IsSpace(s[i])
    ensures n < |s| ==> !IsSpace(s[|s| - n - 1])
  {
    if s == [] || !IsSpace(s[|s| - 1]) then 0
    else TrailingSpaces(s[..|s| - 1]) + 1
  }

  /** Python's `s.strip()`: `s` without its leading and trailing whitespace.
      The result is empty exactly for blank text and otherwise starts and
      ends with a character that is not whitespace; `StripRemovesOnlySpaces`
      shows it is what remains of `s` once blank ends are cut off. */
  function Strip(s: string): (r: string)
    ensures |r| <= |s|
    ensures r == [] <==> IsBlank(s)
    ensures r != [] ==> !IsSpace(r[0]) && !IsSpace(r[|r| - 1])
  {
    var a := LeadingSpaces(s);
    if a == |s| then []
    else
      // s[a] is the first non-whitespace character, so the whitespace
      // suffix cannot reach back to it.
      assert !IsSpace(s[a]);
      assert TrailingSpaces(s) < |s| - a;
      var b := |s| - TrailingSpaces(s);
      assert s[a..b][0] == s[a] && s[a..b][b - a - 1] == s[b - 1];
      s[a..b]
  }

  /** Stripping cuts a blank prefix and a blank suffix off `s` and keeps
      everything between them. */
  lemma StripRemovesOnlySpaces(s: string) returns (k: nat)
    ensures k + |Strip(s)| <= |s| && s[k..k + |Strip(s)|] == Strip(s)
    ensures IsBlank(s[..k]) && IsBlank(s[k + |Strip(s)|..])
  {
    var a := LeadingSpaces(s);
    if a == |s| {
      k := 0;
      assert s[..0] == [];
      assert s[0..] == s;
    } else {
      k := a;
      var b := |s| - TrailingSpaces(s);
      assert s[..k] == s[..a];
      assert forall i :: 0 <= i < |s[b..]| ==> s[b..][i] == s[b + i];
    }
  }

  /** Text that does not start or end with whitespace is left as it is. */
  lemma StripUnchanged(s: string)
    requires s == [] || (!IsSpace(s[0]) && !IsSpace(s[|s| - 1]))
    ensures Strip(s) == s
  {
    if s != [] {
      assert LeadingSpaces(s) == 0;
      assert TrailingSpaces(s) == 0;
      assert s[0..|s|] == s;
    }
  }

  /** Stripping twice is stripping once. */
  lemma StripIdempotent(s: string)
    ensures Strip(Strip(s)) == Strip(s)
  {
    StripUnchanged(Strip(s));
  }
}

/**
 * Normalisation of the withdraw id an operator types for a payout lookup
 * (`handle_withdraw_id`, main.py): the text is stripped of surrounding
 * whitespace and given the `IND-` prefix unless it already has it.
 */
module WithdrawIds {

  const Prefix: string := "IND-"

  /** The characters Python's `str.isspace` accepts, which `str.strip()` removes. */
  predicate IsSpace(c: char)
  {
    || ('\t' <= c <= '\r')               // tab, line feed, vertical tab, form feed, carriage return
    || ('\U{1C}' <= c <= '\U{1F}')        // file, group, record and unit separators
    || c == ' ' || c == '\U{85}' || c == '\U{A0}' || c == '\U{1680}'
    || ('\U{2000}' <= c <= '\U{200A}')
    || c == '\U{2028}' || c == '\U{2029}' || c == '\U{202F}' || c == '\U{205F}' || c == '\U{3000}'
  }

  /** Neither end of `s` is whitespace. */
  predicate IsStripped(s: string)
  {
    s == [] || (!IsSpace(s[0]) && !IsSpace(s[|s| - 1]))
  }

  /** Index of the first character of `s` that is not whitespace (or `|s|`). */
  function StartOf(s: string): (i: nat)
    ensures i <= |s|
    ensures forall k :: 0 <= k < i ==> IsSpace(s[k])
    ensures i < |s| ==> !IsSpace(s[i])
  {
    if s == [] || !IsSpace(s[0]) then 0 else 1 + StartOf(s[1..])
  }

  /** End (exclusive) of `s` once the whitespace after position `lo` is cut off its tail. */
  function EndOf(s: string, lo: nat): (j: nat)
    requires lo <= |s|
    ensures lo <= j <= |s|
    ensures forall k :: j <= k < |s| ==> IsSpace(s[k])
    ensures lo < j ==> !IsSpace(s[j - 1])
  {
    if |s| == lo || !IsSpace(s[|s| - 1]) then |s| else EndOf(s[..|s| - 1], lo)
  }

  /** `str.strip()`: remove whitespace from both ends. */
  function Strip(s: string): (r: string)
    ensures IsStripped(r)
    ensures exists i, j ::
              && 0 <= i <= j <= |s| && r == s[i..j]
              && (forall k :: 0 <= k < i ==> IsSpace(s[k]))
              && (forall k :: j <= k < |s| ==> IsSpace(s[k]))
  {
    var i := StartOf(s);
    var j := EndOf(s, i);
    assert i < j ==> s[i..j][0] == s[i];
    s[i..j]
  }

  /** A string with no whitespace at either end is left as it is. */
  lemma StripOfStripped(s: string)
    requires IsStripped(s)
    ensures Strip(s) == s
  {
    assert StartOf(s) == 0;
    assert s[0..|s|] == s;
  }

  /** The id the payout lookup is made with. */
  function WithdrawId(raw: string): (id: string)
  {
    var s := Strip(raw);
    if Prefix <= s then s else Prefix + s
  }

  /** The lookup id always carries the prefix and ends with the stripped input. */
  lemma WithdrawIdShape(raw: string)
    ensures Prefix <= WithdrawId(raw)
    ensures var s := Strip(raw); var id := WithdrawId(raw);
      |s| <= |id| && id[|id| - |s|..] == s && (id == s || id == Prefix + s)
  {
  }

  /** Input that is already prefixed once stripped is passed through unchanged. */
  lemma WithdrawIdKeepsPrefixed(raw: string)
    requires Prefix <= Strip(raw)
    ensures WithdrawId(raw) == Strip(raw)
  {
  }

  /** Normalising a normalised id changes nothing. */
  lemma WithdrawIdIdempotent(raw: string)
    ensures WithdrawId(WithdrawId(raw)) == WithdrawId(raw)
  {
    var s := Strip(raw);
    var id := WithdrawId(raw);
    assert IsStripped(id) by {
      if id != s {
        assert id == Prefix + s;
        assert id[0] == 'I';
        if s == [] { assert id[|id| - 1] == '-'; } else { assert id[|id| - 1] == s[|s| - 1]; }
      }
    }
    StripOfStripped(id);
  }
}

/**
 The one string operation the handlers perform: JavaScript's
 `String.prototype.replace` with a string pattern and an empty replacement,
 which deletes the FIRST occurrence of the pattern wherever it is.
 */
module JsString {
  import opened Common

  /** `pat` occurs in `s` starting at index `i`. */
  predicate OccursAt(s: string, pat: string, i: nat) {
    i + |pat| <= |s| && s[i..i + |pat|] == pat
  }

  /** `String.prototype.indexOf(pat, from)`: the first occurrence at or after `from`. */
  function IndexOf(s: string, pat: string, from: nat): (r: Option<nat>)
    ensures r.Some? ==> from <= r.value && OccursAt(s, pat, r.value)
    ensures r.Some? ==> forall j :: from <= j < r.value ==> !OccursAt(s, pat, j)
    ensures r.None? ==> forall j :: from <= j ==> !OccursAt(s, pat, j)
    decreases |s| - from
  {
    if from + |pat| > |s| then None
    else if s[from..from + |pat|] == pat then Some(from)
    else IndexOf(s, pat, from + 1)
  }

  /** `s.replace(pat, "")`: the text before the first occurrence joined to the text after it;
      `s` itself when `pat` does not occur. */
  function RemoveFirst(s: string, pat: string): (r: string)
    ensures (forall j :: 0 <= j ==> !OccursAt(s, pat, j)) ==> r == s
    ensures forall i: nat | OccursAt(s, pat, i) && (forall j :: 0 <= j < i ==> !OccursAt(s, pat, j)) ::
      r == s[..i] + s[i + |pat|..]
    ensures |r| == |s| || |r| == |s| - |pat|
  {
    match IndexOf(s, pat, 0)
    case None => s
    case Some(i) => s[..i] + s[i + |pat|..]
  }

  /** A header of the documented form `"Bearer " + t` yields exactly `t`. */
  lemma {:induction false} RemovesLeadingPattern(pat: string, t: string)
    ensures RemoveFirst(pat + t, pat) == t
  {
    var s := pat + t;
    assert s[0..|pat|] == pat;
    assert OccursAt(s, pat, 0);
    assert s[|pat|..] == t;
  }

  /** The pattern is removed wherever it first occurs, not only as a prefix:
      `"Basic Bearer xyz"` becomes `"Basic xyz"`. */
  lemma RemovesInnerOccurrence()
    ensures RemoveFirst("Basic Bearer xyz", "Bearer ") == "Basic xyz"
  {
    var s := "Basic Bearer xyz";
    assert OccursAt(s, "Bearer ", 6);
    forall j | 0 <= j < 6
      ensures !OccursAt(s, "Bearer ", j)
    {
      assert s[j + 6] != ' ';
    }
  }

  /** Only the first occurrence goes: `"Bearer Bearer "` becomes `"Bearer "`. */
  lemma RemovesOnlyFirstOccurrence()
    ensures RemoveFirst("Bearer Bearer ", "Bearer ") == "Bearer "
  {
    RemovesLeadingPattern("Bearer ", "Bearer ");
  }

  /** Every occurrence of `"Bearer "` ends in a space. */
  lemma {:induction false} OccurrenceEndsInSpace(s: string, j: nat)
    requires OccursAt(s, "Bearer ", j)
    ensures s[j + 6] == ' '
  {
    assert s[j..j + 7][6] == ' ';
  }

  /** A bare token with no space in it (no "Bearer " scheme at all) passes through unchanged. */
  lemma {:induction false} BareTokenKept(s: string)
    requires forall k :: 0 <= k < |s| ==> s[k] != ' '
    ensures RemoveFirst(s, "Bearer ") == s
  {
    forall j: nat | OccursAt(s, "Bearer ", j)
      ensures s[j + 6] == ' '
    {
      OccurrenceEndsInSpace(s, j);
    }
  }
}

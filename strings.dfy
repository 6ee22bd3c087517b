/** Substring search on Python `str` values, shared by the spider and the parsers. */
module Strings {
  import opened Wrappers

  /** `sub` occurs in `text` starting at index `i`. */
  ghost predicate OccursAt(text: string, sub: string, i: int)
  {
    0 <= i && i + |sub| <= |text| && text[i..i + |sub|] == sub
  }

  /** Python's `sub in text`. */
  predicate Contains(text: string, sub: string)
    decreases |text|
  {
    |sub| <= |text| && (text[..|sub|] == sub || Contains(text[1..], sub))
  }

  /** `sub in text` holds exactly when `sub` occurs at some index of `text`. */
  lemma {:induction false} ContainsIff(text: string, sub: string)
    ensures Contains(text, sub) <==> exists i :: OccursAt(text, sub, i)
    decreases |text|
  {
    if |sub| <= |text| && text[..|sub|] != sub && |text| > 0 {
      ContainsIff(text[1..], sub);
      if Contains(text[1..], sub) {
        var i :| OccursAt(text[1..], sub, i);
        assert text[i + 1..i + 1 + |sub|] == text[1..][i..i + |sub|];
        assert OccursAt(text, sub, i + 1);
      } else {
        forall i | 0 < i && OccursAt(text, sub, i) ensures OccursAt(text[1..], sub, i - 1) {
          assert text[1..][i - 1..i - 1 + |sub|] == text[i..i + |sub|];
        }
      }
    } else if |sub| <= |text| && text[..|sub|] == sub {
      assert OccursAt(text, sub, 0);
    }
  }

  /** Index of the first occurrence of `sub` in `text` at or after `from` (Python's `text.find(sub, from)`). */
  function IndexOf(text: string, sub: string, from: nat): (r: Option<nat>)
    ensures r.Some? ==> from <= r.value && OccursAt(text, sub, r.value)
    ensures r.Some? ==> forall j :: from <= j < r.value ==> !OccursAt(text, sub, j)
    ensures r.None? ==> forall j :: from <= j ==> !OccursAt(text, sub, j)
    decreases |text| - from
  {
    if from + |sub| > |text| then None
    else if text[from..from + |sub|] == sub then Some(from)
    else IndexOf(text, sub, from + 1)
  }

  /** Index of the first line break at or after `k`, or the end of `text`. In a Python
      regular expression `.` matches every character but '\n', so this is where `.*` stops. */
  function LineEnd(text: string, k: nat): (e: nat)
    requires k <= |text|
    ensures k <= e <= |text|
    ensures e < |text| ==> text[e] == '\n'
    ensures forall j :: k <= j < e ==> text[j] != '\n'
    decreases |text| - k
  {
    if k == |text| || text[k] == '\n' then k else LineEnd(text, k + 1)
  }
}

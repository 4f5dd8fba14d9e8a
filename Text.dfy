/**
 * The string operations the pages filter and sort with. `includes` is defined here;
 * `toLowerCase` and `localeCompare` depend on the runtime's Unicode tables and the
 * user's locale, so they enter the model as parameters: a `lower: string -> string`
 * for `toLowerCase`, and a `collate: (string, string) -> bool` for
 * `a.localeCompare(b) <= 0`, required only to be a total preorder wherever a sort by
 * it is claimed to be ordered.
 */
module Text {
  /** sub occurs in s starting at offset i. */
  predicate OccursAt(s: string, sub: string, i: int)
  {
    0 <= i <= |s| - |sub| && s[i..i + |sub|] == sub
  }

  /** `s.includes(sub)`: sub occurs in s at some offset (the empty string occurs everywhere). */
  ghost predicate Contains(s: string, sub: string)
  {
    exists i :: OccursAt(s, sub, i)
  }

  /** A search that runs left to right, as `includes` does. */
  function FindFrom(s: string, sub: string, from: nat): (r: bool)
    requires from <= |s| + 1
    ensures r <==> exists i :: from <= i && OccursAt(s, sub, i)
    decreases |s| + 1 - from
  {
    if from + |sub| > |s| then false
    else if s[from..from + |sub|] == sub then (assert OccursAt(s, sub, from); true)
    else
      var r := FindFrom(s, sub, from + 1);
      assert forall i :: from <= i && OccursAt(s, sub, i) ==> from + 1 <= i;
      r
  }

  function Includes(s: string, sub: string): (r: bool)
    ensures r <==> Contains(s, sub)
  {
    FindFrom(s, sub, 0)
  }

  /** `p.name.toLowerCase().includes(term.toLowerCase()) || (p.sku || '').toLowerCase().includes(...)` */
  function MatchesSearch(name: string, sku: string, term: string, lower: string -> string): (r: bool)
    ensures r <==> Contains(lower(name), lower(term)) || Contains(lower(sku), lower(term))
  {
    Includes(lower(name), lower(term)) || Includes(lower(sku), lower(term))
  }

  /** An empty search term matches everything, whatever the case mapping, so long as it keeps "" empty. */
  lemma EmptyTermMatches(name: string, sku: string, lower: string -> string)
    requires lower("") == ""
    ensures MatchesSearch(name, sku, "", lower)
  {
    assert OccursAt(lower(name), lower(""), 0);
  }
}

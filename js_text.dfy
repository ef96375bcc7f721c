/**
 * The JavaScript string operations the games rely on, on `seq<char>`:
 * `toLowerCase`/`toUpperCase` (ASCII letters only), `startsWith`,
 * `indexOf` and `includes`.
 */
module JsText {
  import opened Wrappers

  /** `toLowerCase()` on ASCII letters; other characters are kept. */
  function LowerAscii(s: string): (r: string)
    ensures |r| == |s|
    ensures forall i :: 0 <= i < |s| ==> r[i] == LowerChar(s[i])
  {
    if s == [] then [] else [LowerChar(s[0])] + LowerAscii(s[1..])
  }

  function LowerChar(c: char): char {
    if 'A' <= c <= 'Z' then (c as int + 32) as char else c
  }

  function UpperChar(c: char): char {
    if 'a' <= c <= 'z' then (c as int - 32) as char else c
  }

  /** Lower-casing twice is lower-casing once. */
  lemma LowerAsciiIdempotent(s: string)
    ensures LowerAscii(LowerAscii(s)) == LowerAscii(s)
  {
    var once := LowerAscii(s);
    assert forall i :: 0 <= i < |s| ==> LowerChar(once[i]) == once[i];
  }

  /** `s` holds `sub` starting at position `j`. */
  predicate OccursAt(s: string, sub: string, j: int) {
    0 <= j && j + |sub| <= |s| && s[j..j + |sub|] == sub
  }

  /** `s.startsWith(prefix)`. */
  predicate StartsWith(s: string, prefix: string) {
    OccursAt(s, prefix, 0)
  }

  /** `s.indexOf(sub, from)`: the first position at or after `from` where `sub` occurs. */
  function IndexOf(s: string, sub: string, from: nat): (r: Option<nat>)
    ensures r.Some? ==> from <= r.value && OccursAt(s, sub, r.value)
    ensures forall j :: from <= j && (r.None? || j < r.value) ==> !OccursAt(s, sub, j)
    decreases |s| - from
  {
    if from + |sub| > |s| then None
    else if s[from..from + |sub|] == sub then Some(from)
    else IndexOf(s, sub, from + 1)
  }

  /** `s.includes(sub)`. */
  predicate Includes(s: string, sub: string) {
    IndexOf(s, sub, 0).Some?
  }

  /** `includes` holds exactly when `sub` occurs somewhere in `s`. */
  lemma IncludesOccurs(s: string, sub: string)
    ensures Includes(s, sub) <==> exists j :: OccursAt(s, sub, j)
  {
    if Includes(s, sub) {
      assert OccursAt(s, sub, IndexOf(s, sub, 0).value);
    }
  }
}

/** Small shared vocabulary: an optional value (JavaScript's `null`/`undefined`
    versus a present value) and the two string tests the client uses. */
module Common {

  datatype Option<+T> = None | Some(value: T) {
    function GetOr(default: T): T {
      match this
      case Some(v) => v
      case None => default
    }
  }

  /** `s.startsWith(prefix)` */
  predicate StartsWith(s: string, prefix: string) {
    |prefix| <= |s| && s[..|prefix|] == prefix
  }

  /** `sub` is found in `s` starting at position `i`. */
  predicate OccursAt(s: string, sub: string, i: int) {
    0 <= i <= |s| - |sub| && s[i..i + |sub|] == sub
  }

  /** `s.includes(sub)`: `sub` occurs at some position of `s`. */
  function Contains(s: string, sub: string): (found: bool)
    ensures found <==> exists i :: OccursAt(s, sub, i)
    decreases |s|
  {
    if |s| == 0 then
      assert OccursAt(s, sub, 0) <==> StartsWith(s, sub);
      StartsWith(s, sub)
    else
      OccursShift(s, sub);
      StartsWith(s, sub) || Contains(s[1..], sub)
  }

  /** Occurrences in `s[1..]` are the occurrences in `s` one position later. */
  lemma OccursShift(s: string, sub: string)
    requires |s| > 0
    ensures OccursAt(s, sub, 0) <==> StartsWith(s, sub)
    ensures (exists j :: OccursAt(s[1..], sub, j)) <==> (exists i :: 1 <= i && OccursAt(s, sub, i))
  {
    assert |sub| <= |s| ==> s[0..|sub|] == s[..|sub|];
    if exists i :: 1 <= i && OccursAt(s, sub, i) {
      var i :| 1 <= i && OccursAt(s, sub, i);
      assert s[1..][i - 1..i - 1 + |sub|] == s[i..i + |sub|];
      assert OccursAt(s[1..], sub, i - 1);
    }
    if exists j :: OccursAt(s[1..], sub, j) {
      var j :| OccursAt(s[1..], sub, j);
      assert s[1..][j..j + |sub|] == s[j + 1..j + 1 + |sub|];
      assert OccursAt(s, sub, j + 1);
    }
  }
}

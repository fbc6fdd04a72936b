/** String helpers behind the keyword search: `toLowerCase` restricted to
    ASCII and `String.prototype.includes`. */
module Text {

  predicate IsUpper(c: char) {
    'A' <= c <= 'Z'
  }

  /** ASCII lowercasing of one character: an upper-case letter becomes its
      lower-case partner, everything outside 'A'..'Z' is kept. */
  function LowerChar(c: char): (r: char)
    ensures !IsUpper(r)
    ensures IsUpper(c) ==> 'a' <= r <= 'z' && r as int - c as int == 'a' as int - 'A' as int
    ensures !IsUpper(c) ==> r == c
  {
    if IsUpper(c) then (c as int + 32) as char else c
  }

  /** `s.toLowerCase()`, approximated by ASCII lowercasing character by character. */
  function Lower(s: string): (r: string)
    ensures |r| == |s|
  {
    if s == [] then [] else [LowerChar(s[0])] + Lower(s[1..])
  }

  /** Lowercasing keeps the length, maps each character on its own, and
      leaves no upper-case ASCII letter. */
  lemma {:induction false} LowerPointwise(s: string)
    ensures |Lower(s)| == |s|
    ensures forall i :: 0 <= i < |s| ==> Lower(s)[i] == LowerChar(s[i])
    ensures forall i :: 0 <= i < |s| ==> !IsUpper(Lower(s)[i])
  {
    if s != [] {
      LowerPointwise(s[1..]);
    }
  }

  /** `t` is the lowercasing of `s` when it agrees with it character by character. */
  lemma {:induction false} LowerOf(s: string, t: string)
    requires |s| == |t| && forall i :: 0 <= i < |s| ==> LowerChar(s[i]) == t[i]
    ensures Lower(s) == t
  {
    LowerPointwise(s);
  }

  /** Lowercasing twice is lowercasing once. */
  lemma {:induction false} LowerIdempotent(s: string)
    ensures Lower(Lower(s)) == Lower(s)
  {
    var l := Lower(s);
    LowerPointwise(s);
    LowerPointwise(l);
    assert forall i :: 0 <= i < |l| ==> LowerChar(l[i]) == l[i];
  }

  /** `sub` occurs in `s` starting at position `i`. */
  predicate OccursAt(s: string, sub: string, i: int) {
    0 <= i && i + |sub| <= |s| && s[i..i + |sub|] == sub
  }

  /** `s.includes(sub)`: some window of `s` equals `sub`. The empty string
      is included in every string, and so is every prefix and every suffix. */
  predicate Contains(s: string, sub: string): (b: bool)
    ensures sub == [] ==> b
    ensures |sub| <= |s| && s[..|sub|] == sub ==> b
    ensures |sub| <= |s| && s[|s| - |sub|..] == sub ==> b
    decreases |s|
  {
    |sub| <= |s| && (s[..|sub|] == sub || (|s| > 0 && Contains(s[1..], sub)))
  }

  /** `Contains` holds exactly when there is a position where `sub` occurs. */
  lemma {:induction false} ContainsIff(s: string, sub: string)
    ensures Contains(s, sub) <==> exists i :: OccursAt(s, sub, i)
    decreases |s|
  {
    if Contains(s, sub) {
      if s[..|sub|] == sub {
        assert OccursAt(s, sub, 0);
      } else {
        ContainsIff(s[1..], sub);
        var i :| OccursAt(s[1..], sub, i);
        assert s[1..][i..i + |sub|] == s[i + 1..i + 1 + |sub|];
        assert OccursAt(s, sub, i + 1);
      }
    } else if i :| OccursAt(s, sub, i) && i > 0 {
      assert s[1..][i - 1..i - 1 + |sub|] == s[i..i + |sub|];
      assert OccursAt(s[1..], sub, i - 1);
      ContainsIff(s[1..], sub);
      assert false;
    }
  }
}

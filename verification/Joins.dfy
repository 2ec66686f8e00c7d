/** Keys put together with a colon. */
module Joins {

  /** What stands before the first colon, and what after it, is determined. */
  lemma {:induction false} FirstColon(a: string, x: string, b: string, y: string)
    requires forall i :: 0 <= i < |a| ==> a[i] != ':'
    requires forall i :: 0 <= i < |b| ==> b[i] != ':'
    requires a + [':'] + x == b + [':'] + y
    ensures a == b && x == y
    decreases |a|
  {
    var s, t := a + [':'] + x, b + [':'] + y;
    assert s[0] == t[0] && s[1..] == t[1..];
    if a == [] || b == [] {
      assert a == [] ==> s[1..] == x;
      assert b == [] ==> t[1..] == y;
    } else {
      assert s[1..] == a[1..] + [':'] + x && t[1..] == b[1..] + [':'] + y;
      FirstColon(a[1..], x, b[1..], y);
    }
  }
}

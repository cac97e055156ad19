/** Identifiers of users, agents and sessions, and the key of one conversation's memory. */
module Ids {

  /** `validate_id`: the pattern's `$` also accepts one final line break. */
  predicate ValidId(a: string) {
    && a != "." && a != ".."
    && (IdText(a) || (a != "" && a[|a| - 1] == '\n' && IdText(a[..|a| - 1])))
  }

  predicate IdText(s: string) {
    1 <= |s| <= 64 && forall i :: 0 <= i < |s| ==> IdChar(s[i])
  }

  predicate IdChar(c: char) {
    'A' <= c <= 'Z' || 'a' <= c <= 'z' || '0' <= c <= '9' || c == '.' || c == '_' || c == '-'
  }

  /** An id is one to 64 letters, digits, hyphens, full stops and underscores, and perhaps a line break. */
  lemma ValidIdIff(a: string)
    ensures ValidId(a)
            <==> && a !in {".", ".."}
                 && exists s :: (a == s || a == s + ['\n']) && 0 < |s| < 65 && OfCodes(s)
  {
    if ValidId(a) {
      var s := if IdText(a) then a else a[..|a| - 1];
      assert a == s || a == s + ['\n'];
      assert OfCodes(s);
    }
    if s :| (a == s || a == s + ['\n']) && 0 < |s| < 65 && OfCodes(s) {
      assert forall i :: 0 <= i < |s| ==> s[i] in s;
      assert a != s ==> a[..|a| - 1] == s;
    }
  }

  /** All characters have one of these ASCII codes. */
  ghost predicate OfCodes(s: string) {
    forall c :: c in s ==>
      var n := c as int;
      n in {45, 46, 95} || 48 <= n < 58 || 65 <= n < 91 || 97 <= n < 123
  }

  /** `thread_key` for ids that are valid. */
  function ThreadKey(user: string, session: string, agent: string): string {
    user + "::" + agent + "::" + session
  }

  /** Conversations share a memory only if they have user, session and agent in common. */
  lemma ThreadKeysApart(u: string, s: string, a: string, v: string, t: string, b: string)
    requires ValidId(u) && ValidId(s) && ValidId(a) && ValidId(v) && ValidId(t) && ValidId(b)
    ensures ThreadKey(u, s, a) == ThreadKey(v, t, b) <==> u == v && s == t && a == b
  {
    if ThreadKey(u, s, a) == ThreadKey(v, t, b) {
      assert ThreadKey(u, s, a) == u + "::" + (a + "::" + s) && ThreadKey(v, t, b) == v + "::" + (b + "::" + t);
      FirstPart(u, a + "::" + s, v, b + "::" + t);
      FirstPart(a, s, b, t);
    }
  }

  lemma FirstPart(x: string, p: string, y: string, q: string)
    requires ValidId(x) && ValidId(y) && x + "::" + p == y + "::" + q
    ensures x == y && p == q
  {
    NoColon(x);
    NoColon(y);
    var whole := x + "::" + p;
    assert whole[|x|] == ':' && whole[|y|] == ':';
    assert forall i :: 0 <= i < |x| ==> whole[i] == x[i];
    assert forall i :: 0 <= i < |y| ==> whole[i] == y[i];
    assert |x| == |y|;
    assert x == whole[..|x|] && p == whole[|x| + 2..] && q == whole[|y| + 2..];
  }

  lemma NoColon(a: string)
    requires ValidId(a)
    ensures forall i :: 0 <= i < |a| ==> a[i] != ':'
  {
    if !IdText(a) {
      assert forall i :: 0 <= i < |a| - 1 ==> a[..|a| - 1][i] == a[i];
    }
  }
}

/** JavaScript's `String.prototype.replace` with a string pattern, which
    replaces the FIRST occurrence only, and the `"localhost"` to `"127.0.0.1"`
    rewrite the node applies to every websocket address it builds. */
module Strings {

  /** `pat` occurs in `s` starting at index `i`. */
  predicate OccursAt(s: string, pat: string, i: nat)
  {
    i + |pat| <= |s| && s[i..i + |pat|] == pat
  }

  /** `s.replace(pat, rep)` for a non-empty string pattern. */
  function ReplaceFirst(s: string, pat: string, rep: string): (r: string)
    requires pat != []
    ensures r == s || |r| == |s| - |pat| + |rep|
    decreases |s|
  {
    if |s| < |pat| then s
    else if s[..|pat|] == pat then rep + s[|pat|..]
    else [s[0]] + ReplaceFirst(s[1..], pat, rep)
  }

  /** Without an occurrence of the pattern the string is returned unchanged. */
  lemma {:induction false} ReplaceFirstNoMatch(s: string, pat: string, rep: string)
    requires pat != []
    requires forall i: nat :: !OccursAt(s, pat, i)
    ensures ReplaceFirst(s, pat, rep) == s
    decreases |s|
  {
    if |s| >= |pat| {
      assert !OccursAt(s, pat, 0);
      forall i: nat ensures !OccursAt(s[1..], pat, i) {
        ShiftedOccurrence(s, pat, i);
      }
      ReplaceFirstNoMatch(s[1..], pat, rep);
    }
  }

  /** Only the first occurrence is replaced: the text before it and after it is kept. */
  lemma {:induction false} ReplaceFirstAt(s: string, pat: string, rep: string, i: nat)
    requires pat != []
    requires OccursAt(s, pat, i)
    requires forall j: nat :: j < i ==> !OccursAt(s, pat, j)
    ensures ReplaceFirst(s, pat, rep) == s[..i] + rep + s[i + |pat|..]
    decreases i
  {
    if i == 0 {
      assert s[..|pat|] == pat;
    } else {
      var t := s[1..];
      assert !OccursAt(s, pat, 0);
      assert s[..|pat|] != pat;
      assert ReplaceFirst(s, pat, rep) == [s[0]] + ReplaceFirst(t, pat, rep);
      assert OccursAt(t, pat, i - 1) by {
        assert t[i - 1..i - 1 + |pat|] == s[i..i + |pat|];
      }
      forall j: nat | j < i - 1 ensures !OccursAt(t, pat, j) {
        ShiftedOccurrence(s, pat, j);
      }
      ReplaceFirstAt(t, pat, rep, i - 1);
      assert t[..i - 1] == s[1..i];
      assert s[..i] == [s[0]] + s[1..i];
      assert s[i + |pat|..] == t[i - 1 + |pat|..];
      assert [s[0]] + (t[..i - 1] + rep + t[i - 1 + |pat|..]) == s[..i] + rep + s[i + |pat|..];
    }
  }

  /** An occurrence in the tail is an occurrence one position later in the string. */
  lemma ShiftedOccurrence(s: string, pat: string, j: nat)
    requires s != []
    ensures OccursAt(s[1..], pat, j) <==> OccursAt(s, pat, j + 1)
  {
    if j + |pat| <= |s| - 1 {
      assert s[1..][j..j + |pat|] == s[j + 1..j + 1 + |pat|];
    }
  }

  /** A prefix that does not contain the pattern's first character cannot hold
      (the start of) the first occurrence, so the replacement commutes with it. */
  lemma {:induction false} ReplaceFirstSkipsPrefix(p: string, s: string, pat: string, rep: string)
    requires pat != []
    requires pat[0] !in p
    ensures ReplaceFirst(p + s, pat, rep) == p + ReplaceFirst(s, pat, rep)
    decreases |p|
  {
    if p != [] {
      assert (p + s)[0] == p[0];
      assert (p + s)[1..] == p[1..] + s;
      if |p + s| >= |pat| {
        assert (p + s)[..|pat|][0] != pat[0];
      }
      ReplaceFirstSkipsPrefix(p[1..], s, pat, rep);
      assert p == [p[0]] + p[1..];
    } else {
      assert p + s == s;
    }
  }

  const Localhost: string := "localhost"
  const Loopback: string := "127.0.0.1"
  const WsScheme: string := "ws://"

  /** `.replace("localhost", "127.0.0.1")`. */
  function Normalise(s: string): (r: string)
    ensures |r| == |s|
  {
    ReplaceFirst(s, Localhost, Loopback)
  }

  /** The address `send_MESSAGE` derives from a recipient written `host:port`:
      the scheme is prepended, then localhost is rewritten. */
  function RecipientAddress(recipient: string): (r: string)
    ensures |r| == |WsScheme| + |recipient| && r[..|WsScheme|] == WsScheme
  {
    ReplaceFirstSkipsPrefix(WsScheme, recipient, Localhost, Loopback);
    Normalise(WsScheme + recipient)
  }

  /** Prefixing the scheme and rewriting localhost commute, so the self-send
      guard of the HTTP route (which rewrites first and prefixes after) and
      `send_MESSAGE` (which prefixes first) compute the same address. */
  lemma SchemeCommutesWithNormalise(recipient: string)
    ensures RecipientAddress(recipient) == WsScheme + Normalise(recipient)
  {
    assert Localhost[0] !in WsScheme;
    ReplaceFirstSkipsPrefix(WsScheme, recipient, Localhost, Loopback);
  }

  /** An address without "localhost" is left as it is. */
  lemma NormaliseWithoutLocalhost(s: string)
    requires forall i: nat :: !OccursAt(s, Localhost, i)
    ensures Normalise(s) == s
  {
    ReplaceFirstNoMatch(s, Localhost, Loopback);
  }
}

/** `extract_ADDRESS_and_PORT` of src/p2p-network/utils.js: strip the protocol
    from a websocket URL and split the remaining `host:port` on ':'. */
module Utils {

  /** JavaScript's `s.split(sep)` for a one-character separator: the maximal
      separator-free pieces of `s`, in order; the empty string gives `[""]`. */
  function Split(s: string, sep: char): (r: seq<string>)
    ensures |r| >= 1
    ensures forall i :: 0 <= i < |r| ==> sep !in r[i]
    decreases |s|
  {
    if s == [] then [[]]
    else
      var rest := Split(s[1..], sep);
      if s[0] == sep then [[]] + rest
      else [[s[0]] + rest[0]] + rest[1..]
  }

  /** JavaScript's `parts.join(sep)` for a non-empty array. */
  function Join(parts: seq<string>, sep: char): string
    requires |parts| >= 1
    decreases |parts|
  {
    if |parts| == 1 then parts[0] else parts[0] + [sep] + Join(parts[1..], sep)
  }

  /** There is one more piece than there are separators, and every piece is
      made of characters of the string. */
  lemma {:induction false} SplitCount(s: string, sep: char)
    ensures |Split(s, sep)| == multiset(s)[sep] + 1
    ensures forall i, c :: 0 <= i < |Split(s, sep)| && c in Split(s, sep)[i] ==> c in s
    decreases |s|
  {
    if s != [] {
      SplitCount(s[1..], sep);
      assert s == [s[0]] + s[1..];
      assert multiset(s) == multiset{s[0]} + multiset(s[1..]);
    }
  }

  /** Joining the pieces with the separator gives the string back. */
  lemma {:induction false} SplitJoin(s: string, sep: char)
    ensures Join(Split(s, sep), sep) == s
    decreases |s|
  {
    if s != [] {
      var rest := Split(s[1..], sep);
      SplitJoin(s[1..], sep);
      if s[0] == sep {
        assert ([[]] + rest)[1..] == rest;
      } else {
        var r := [[s[0]] + rest[0]] + rest[1..];
        if |rest| > 1 {
          assert r[1..] == rest[1..];
        }
      }
    }
  }

  /** Splitting a separator-free prefix followed by more text glues the prefix
      onto the first piece of the rest. */
  lemma {:induction false} SplitPrefix(a: string, b: string, sep: char)
    requires sep !in a
    ensures Split(a + b, sep) == [a + Split(b, sep)[0]] + Split(b, sep)[1..]
    decreases |a|
  {
    if a == [] {
      assert a + b == b;
      var S := Split(b, sep);
      assert a + S[0] == S[0];
      assert S == [S[0]] + S[1..];
    } else {
      var t := a + b;
      var S := Split(b, sep);
      assert t[0] == a[0] && t[0] != sep;
      assert t[1..] == a[1..] + b;
      SplitPrefix(a[1..], b, sep);
      var R := Split(t[1..], sep);
      assert R == [a[1..] + S[0]] + S[1..];
      assert Split(t, sep) == [[t[0]] + R[0]] + R[1..];
      assert R[1..] == S[1..];
      assert [t[0]] + R[0] == a + S[0];
    }
  }

  /** A separator-free string is one piece. */
  lemma {:induction false} SplitWhole(a: string, sep: char)
    requires sep !in a
    ensures Split(a, sep) == [a]
  {
    SplitPrefix(a, [], sep);
    assert a + [] == a;
  }

  /** A separator-free prefix followed by the separator is the first piece. */
  lemma {:induction false} SplitAtSeparator(a: string, b: string, sep: char)
    requires sep !in a
    ensures Split(a + [sep] + b, sep) == [a] + Split(b, sep)
  {
    var t := [sep] + b;
    assert a + [sep] + b == a + t;
    assert t[0] == sep && t[1..] == b;
    assert Split(t, sep) == [[]] + Split(b, sep);
    SplitPrefix(a, t, sep);
    assert a + [] == a;
  }

  /** The first piece is the longest separator-free prefix, and when it is not
      the whole string the remaining pieces are those of the text after the
      separator that ends it. */
  lemma {:induction false} SplitHead(s: string, sep: char)
    ensures var h := Split(s, sep)[0];
      |h| <= |s| && s[..|h|] == h &&
      (|h| == |s| || (s[|h|] == sep && Split(s, sep)[1..] == Split(s[|h| + 1..], sep)))
    decreases |s|
  {
    if s != [] {
      SplitHead(s[1..], sep);
      if s[0] == sep {
        assert s[1..] == s[0 + 1..];
      } else {
        var t := s[1..];
        var h' := Split(t, sep)[0];
        assert s[..|h'| + 1] == [s[0]] + t[..|h'|];
        if |h'| < |t| {
          assert s[|h'| + 1 + 1..] == t[|h'| + 1..];
        }
      }
    }
  }

  /** Whether the URL contains "//" (`URL.indexOf("//") > -1`). */
  predicate HasDoubleSlash(url: string)
  {
    exists i :: 0 <= i < |url| - 1 && url[i] == '/' && url[i + 1] == '/'
  }

  /** A URL containing "//" has at least two slashes, hence three pieces. */
  lemma {:induction false} DoubleSlashPieces(url: string)
    requires HasDoubleSlash(url)
    ensures |Split(url, '/')| >= 3
  {
    var i :| 0 <= i < |url| - 1 && url[i] == '/' && url[i + 1] == '/';
    assert url == url[..i] + url[i..i + 2] + url[i + 2..];
    assert url[i..i + 2] == ['/', '/'];
    assert multiset(url) == multiset(url[..i]) + multiset(url[i..i + 2]) + multiset(url[i + 2..]);
    SplitCount(url, '/');
  }

  /** The piece of the URL holding `host:port`: the third '/'-piece when the
      URL has a protocol ("//"), the first otherwise. */
  function AddressPiece(url: string): (piece: string)
    ensures '/' !in piece
  {
    var pieces := Split(url, '/');
    if HasDoubleSlash(url) then
      DoubleSlashPieces(url);
      pieces[2]
    else
      pieces[0]
  }

  /** `extract_ADDRESS_and_PORT(URL)`: the address piece split on ':'. */
  function ExtractAddressAndPort(url: string): (r: seq<string>)
    ensures |r| >= 1
    ensures forall i :: 0 <= i < |r| ==> '/' !in r[i] && ':' !in r[i]
    ensures Join(r, ':') == AddressPiece(url)
  {
    var piece := AddressPiece(url);
    SplitJoin(piece, ':');
    SplitCount(piece, ':');
    Split(piece, ':')
  }

  /** Without a protocol, the result is the text before the first '/'. */
  lemma {:induction false} ExtractWithoutProtocol(url: string)
    requires !HasDoubleSlash(url)
    ensures var a := AddressPiece(url);
      |a| <= |url| && url[..|a|] == a && (|a| == |url| || url[|a|] == '/')
  {
    SplitHead(url, '/');
  }

  /** With a protocol, the result is the text between the second and the
      third '/': `url == x + "/" + y + "/" + a + rest` with `x`, `y`, `a`
      free of '/' and `rest` empty or starting with '/'. */
  lemma {:induction false} ExtractWithProtocol(url: string)
    requires HasDoubleSlash(url)
    ensures exists x, y, rest :: Surrounds(url, x, y, AddressPiece(url), rest)
  {
    DoubleSlashPieces(url);
    var x, y, rest := ThirdPiece(url);
    assert Surrounds(url, x, y, AddressPiece(url), rest);
  }

  /** `url` is `x/y/a` followed by `rest`, where `x` and `y` hold no '/' and
      `rest` is empty or starts a further piece. */
  predicate Surrounds(url: string, x: string, y: string, a: string, rest: string)
  {
    '/' !in x && '/' !in y && (rest == [] || rest[0] == '/') &&
    url == x + "/" + y + "/" + a + rest
  }

  /** The text around the third '/'-piece of a string that has one. */
  lemma {:induction false} ThirdPiece(s: string) returns (x: string, y: string, rest: string)
    requires |Split(s, '/')| >= 3
    ensures '/' !in x && '/' !in y && (rest == [] || rest[0] == '/')
    ensures s == x + "/" + y + "/" + Split(s, '/')[2] + rest
  {
    var u1, u2;
    x, u1 := SplitOff(s, '/');
    y, u2 := SplitOff(u1, '/');
    var a := Split(u2, '/')[0];
    SplitHead(u2, '/');
    rest := u2[|a|..];
    assert u2 == a + rest;
    assert s == x + "/" + (y + "/" + (a + rest));
  }

  /** When a string has at least two pieces, its first piece and the text
      after the first separator. */
  lemma {:induction false} SplitOff(s: string, sep: char) returns (h: string, t: string)
    requires |Split(s, sep)| >= 2
    ensures h == Split(s, sep)[0] && sep !in h
    ensures s == h + [sep] + t
    ensures Split(t, sep) == Split(s, sep)[1..]
  {
    h := Split(s, sep)[0];
    SplitHead(s, sep);
    SplitCount(s, sep);
    assert sep in s;
    t := s[|h| + 1..];
    assert s == s[..|h|] + [s[|h|]] + t;
  }

  /** The '/'-pieces of a websocket URL `ws://` followed by a slash-free text. */
  lemma {:induction false} WsUrlPieces(hostPort: string)
    requires '/' !in hostPort
    ensures HasDoubleSlash(WsPrefix + hostPort)
    ensures Split(WsPrefix + hostPort, '/') == ["ws:", "", hostPort]
  {
    var url := WsPrefix + hostPort;
    assert url[3] == '/' && url[4] == '/';
    SplitWhole(hostPort, '/');
    SplitAtSeparator("", hostPort, '/');
    assert "" + ['/'] + hostPort == ['/'] + hostPort;
    SplitAtSeparator("ws:", ['/'] + hostPort, '/');
    assert "ws:" + ['/'] + (['/'] + hostPort) == url;
  }

  const WsPrefix: string := "ws://"

  /** The node's own URL, `ws://ADDRESS:PORT`, with an address and port free
      of '/' and ':', is split into exactly `[ADDRESS, PORT]`. */
  lemma {:induction false} ExtractOfNodeUrl(address: string, port: string)
    requires '/' !in address && ':' !in address
    requires '/' !in port && ':' !in port
    ensures ExtractAddressAndPort(WsPrefix + address + ":" + port) == [address, port]
  {
    var hostPort := address + ":" + port;
    assert WsPrefix + address + ":" + port == WsPrefix + hostPort;
    WsUrlPieces(hostPort);
    assert AddressPiece(WsPrefix + hostPort) == hostPort;
    SplitWhole(port, ':');
    SplitAtSeparator(address, port, ':');
  }
}

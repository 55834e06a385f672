/** Host patterns: port stripping and matching by byte offsets, on ASCII strings. */
module Hosts {
  import opened Text

  function CountChar(s: string, c: char): nat {
    if s == [] then 0 else (if s[0] == c then 1 else 0) + CountChar(s[1..], c)
  }

  /** The part before the first occurrence, if there is one. */
  function Before(s: string, c: char): string {
    if s == [] || s[0] == c then [] else [s[0]] + Before(s[1..], c)
  }

  /** The part before the last occurrence, or everything. */
  function BeforeLast(s: string, c: char): string {
    if c !in s then s else if s[|s| - 1] == c then s[..|s| - 1] else BeforeLast(s[..|s| - 1], c)
  }

  function StripHostPort(host: string): string {
    if host != [] && host[0] == '[' then Before(host[1..], ']')
    else if CountChar(host, ':') > 1 then host
    else BeforeLast(host, ':')
  }

  /** A host with a port, in brackets or free of colons, loses exactly the port. */
  lemma {:induction false} PortIsStripped(host: string, port: string)
    requires ':' !in host && ':' !in port && (host == [] || host[0] != '[')
    ensures StripHostPort(host + ":" + port) == host
    ensures StripHostPort(host) == host
  {
    CountInAddress(host, port);
    CountNone(host);
    LastColon(host, port);
  }

  lemma BracketsAreStripped(address: string, rest: string)
    requires ']' !in address
    ensures StripHostPort("[" + address + "]" + rest) == address
  {
    assert ("[" + address + "]" + rest)[1..] == address + "]" + rest;
    BeforeBracket(address, rest);
  }

  lemma {:induction false} BeforeBracket(address: string, rest: string)
    requires ']' !in address
    ensures Before(address + "]" + rest, ']') == address
  {
    if address == [] {
    } else {
      assert address[0] in address;
      assert (address + "]" + rest)[1..] == address[1..] + "]" + rest;
      BeforeBracket(address[1..], rest);
    }
  }

  lemma {:induction false} CountNone(s: string)
    requires ':' !in s
    ensures CountChar(s, ':') == 0
  {
    if s == [] {
    } else {
      assert s[0] in s;
      CountNone(s[1..]);
    }
  }

  lemma {:induction false} CountInAddress(host: string, port: string)
    requires ':' !in host && ':' !in port
    ensures CountChar(host + ":" + port, ':') == 1
  {
    if host == [] {
      assert (host + ":" + port)[1..] == port;
      CountNone(port);
    } else {
      assert host[0] in host;
      assert (host + ":" + port)[1..] == host[1..] + ":" + port;
      CountInAddress(host[1..], port);
    }
  }

  lemma {:induction false} LastColon(host: string, port: string)
    requires ':' !in port
    ensures BeforeLast(host + ":" + port, ':') == host
  {
    var s := host + ":" + port;
    assert s[|host|] == ':';
    if port == [] {
      assert s[..|s| - 1] == host;
    } else {
      assert port[|port| - 1] in port;
      assert s[..|s| - 1] == host + ":" + port[..|port| - 1];
      LastColon(host, port[..|port| - 1]);
    }
  }

  predicate HostMatches(host: string, pattern: string) {
    var h := StripHostPort(host);
    || Lower(h) == Lower(pattern)
    || (&& |h| > |pattern|
        && Lower(h[|h| - |pattern|..]) == Lower(pattern)
        && h[|h| - |pattern| - 1] == '.')
  }

  // ---------------------------------------------------------------- labels

  function Labels(name: string): seq<string> { Split(name, '.') }

  ghost predicate IsSuffix(a: seq<string>, b: seq<string>) {
    |a| <= |b| && b[|b| - |a|..] == a
  }

  /** Case folding keeps the dots where they are. */
  lemma LowerParts(h: string, n: nat)
    requires n < |h|
    ensures Lower(h) == Lower(h[..n]) + [LowerChar(h[n])] + Lower(h[n + 1..])
    ensures LowerChar(h[n]) == '.' <==> h[n] == '.'
  {
  }

  /** Labels that end in others' labels, and are more, are spelled "something, a dot, the others". */
  lemma SuffixIsSpelled(name: string, pattern: string)
    requires IsSuffix(Labels(pattern), Labels(name)) && Labels(pattern) != Labels(name)
    ensures |name| > |pattern| && name[|name| - |pattern|..] == pattern && name[|name| - |pattern| - 1] == '.'
  {
    var labels, tail := Labels(name), Labels(pattern);
    var k := |labels| - |tail|;
    JoinSplit(name, '.');
    JoinSplit(pattern, '.');
    JoinParts(labels, k);
    assert name == Join(labels[..k], '.') + "." + pattern;
  }

  lemma {:induction false} JoinParts(labels: seq<string>, k: nat)
    requires 0 < k < |labels|
    ensures Join(labels, '.') == Join(labels[..k], '.') + "." + Join(labels[k..], '.')
  {
    if k == 1 {
    } else {
      assert labels[1..][..k - 1] == labels[..k][1..];
      assert labels[1..][k - 1..] == labels[k..];
      JoinParts(labels[1..], k - 1);
    }
  }

  /** Matching by offsets is matching by labels: the pattern's are the last of the host's, case aside. */
  lemma MatchIsLabelSuffix(host: string, pattern: string)
    ensures HostMatches(host, pattern)
       <==> IsSuffix(Labels(Lower(pattern)), Labels(Lower(StripHostPort(host))))
  {
    var h := StripHostPort(host);
    var name, tail := Lower(h), Lower(pattern);
    if |h| > |pattern| {
      LowerParts(h, |h| - |pattern| - 1);
      assert h[|h| - |pattern| - 1 + 1..] == h[|h| - |pattern|..];
    }
    if HostMatches(host, pattern) && name != tail {
      var n := |h| - |pattern| - 1;
      assert name == Lower(h[..n]) + ['.'] + tail;
      SplitAt(Lower(h[..n]), '.', tail);
    }
    if IsSuffix(Labels(tail), Labels(name)) {
      if Labels(tail) == Labels(name) {
        JoinSplit(name, '.');
        JoinSplit(tail, '.');
      } else {
        SuffixIsSpelled(name, tail);
        assert Lower(h[|h| - |pattern|..]) == tail;
      }
    }
  }

  lemma {:induction false} CountTwo(s: string, i: nat, j: nat)
    requires i < j < |s| && s[i] == ':' && s[j] == ':'
    ensures CountChar(s, ':') > 1
  {
    if i > 0 {
      CountTwo(s[1..], i - 1, j - 1);
    } else {
      CountOne(s[1..], j - 1);
    }
  }

  lemma {:induction false} CountOne(s: string, j: nat)
    requires j < |s| && s[j] == ':'
    ensures CountChar(s, ':') > 0
  {
    if j > 0 { CountOne(s[1..], j - 1); }
  }

  /** An address with two colons or more, without brackets, is left as it is. */
  lemma BareAddressIsKept(host: string, i: nat, j: nat)
    requires i < j < |host| && host[i] == ':' && host[j] == ':' && host[0] != '['
    ensures StripHostPort(host) == host
  {
    CountTwo(host, i, j);
  }

  /** A bracket that is never closed is dropped. */
  lemma {:induction false} UnclosedBracket(rest: string)
    requires ']' !in rest
    ensures StripHostPort("[" + rest) == rest
  {
    assert ("[" + rest)[1..] == rest;
    NothingBefore(rest);
  }

  lemma {:induction false} NothingBefore(s: string)
    requires ']' !in s
    ensures Before(s, ']') == s
  {
    if s != [] {
      assert s[0] in s;
      NothingBefore(s[1..]);
      assert s == [s[0]] + s[1..];
    }
  }
}

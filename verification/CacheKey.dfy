/** The bytes a cache key is the hash of; the hash itself is taken to be injective. */
module CacheKeys {
  import opened Common
  import opened Text
  import opened Headers

  const NUL := '\0'

  function Field(name: string, value: string): string { name + ":" + value }

  function Fields(vary: seq<(string, string)>): seq<string> {
    seq(|vary|, i requires 0 <= i < |vary| => Field(vary[i].0, vary[i].1))
  }

  /** Method, URI and varying headers, with NUL between them. */
  function Preimage(verb: string, uri: string, vary: seq<(string, string)>): string {
    Join([verb, uri] + Fields(vary), NUL)
  }

  /** The hasher is fed piece by piece. */
  method HashInput(verb: string, uri: string, vary: seq<(string, string)>) returns (input: string)
    ensures input == Preimage(verb, uri, vary)
  {
    input := verb + [NUL] + uri;
    JoinTwo(verb, uri);
    assert [verb, uri] + Fields(vary[..0]) == [verb, uri];
    for n := 0 to |vary|
      invariant input == Preimage(verb, uri, vary[..n])
    {
      var (name, value) := vary[n];
      JoinSnoc([verb, uri] + Fields(vary[..n]), NUL, Field(name, value));
      assert [verb, uri] + Fields(vary[..n + 1])
          == [verb, uri] + Fields(vary[..n]) + [Field(name, value)];
      input := input + [NUL] + name + ":" + value;
    }
    assert vary[..|vary|] == vary;
  }

  lemma JoinTwo(a: string, b: string)
    ensures Join([a, b], NUL) == a + [NUL] + b
  {
    assert [a, b][1..] == [b];
    assert Join([b], NUL) == b;
  }

  lemma {:induction false} JoinSnoc(parts: seq<string>, sep: char, part: string)
    requires parts != []
    ensures Join(parts + [part], sep) == Join(parts, sep) + [sep] + part
  {
    if |parts| == 1 {
      assert (parts + [part])[1..] == [part];
    } else {
      assert (parts + [part])[1..] == parts[1..] + [part];
      JoinSnoc(parts[1..], sep, part);
    }
  }

  // ---------------------------------------------------------------- decoding

  /** The name before the first colon and the value after it. */
  function SplitField(field: string): (string, string) {
    var parts := Split(field, ':');
    if |parts| == 1 then (field, "") else (parts[0], Join(parts[1..], ':'))
  }

  function Decode(input: string): Option<(string, string, seq<(string, string)>)> {
    var parts := Split(input, NUL);
    if |parts| < 2 then None
    else Some((parts[0], parts[1], seq(|parts| - 2, i requires 0 <= i < |parts| - 2 => SplitField(parts[i + 2]))))
  }

  ghost predicate Decodable(verb: string, uri: string, vary: seq<(string, string)>) {
    && NUL !in verb && NUL !in uri
    && forall i :: 0 <= i < |vary| ==> NUL !in vary[i].0 && NUL !in vary[i].1 && ':' !in vary[i].0
  }

  lemma FieldRoundTrip(name: string, value: string)
    requires ':' !in name
    ensures SplitField(Field(name, value)) == (name, value)
  {
    assert Field(name, value) == name + [':'] + value;
    SplitAt(name, ':', value);
    SplitNone(name, ':');
    JoinSplit(value, ':');
    var parts := Split(Field(name, value), ':');
    assert parts[1..] == Split(value, ':');
  }

  /** Any number of header fields, the method and the URI are all recovered. */
  lemma KeyRoundTrip(verb: string, uri: string, vary: seq<(string, string)>)
    requires Decodable(verb, uri, vary)
    ensures Decode(Preimage(verb, uri, vary)) == Some((verb, uri, vary))
  {
    var parts := [verb, uri] + Fields(vary);
    forall p | p in parts
      ensures NUL !in p
    {
      var i :| 0 <= i < |parts| && parts[i] == p;
      if i >= 2 {
        assert p == Field(vary[i - 2].0, vary[i - 2].1);
      }
    }
    SplitJoin(parts, NUL);
    forall i | 0 <= i < |vary|
      ensures SplitField(parts[i + 2]) == vary[i]
    {
      FieldRoundTrip(vary[i].0, vary[i].1);
    }
    assert Decode(Preimage(verb, uri, vary)).value.2 == vary;
  }

  // ---------------------------------------------------------------- the key of a request

  /** The lines of Accept-Encoding, an unreadable one counting as empty. */
  method VaryHeaders(headers: HeaderMap) returns (vary: seq<(string, string)>)
    ensures vary == Varying(headers)
  {
    vary := [];
    var lines := GetAll(headers, "accept-encoding");
    for n := 0 to |lines|
      invariant |vary| == n
      invariant forall i :: 0 <= i < n ==> vary[i] == Varying(headers)[i]
    {
      vary := vary + [("accept-encoding", if Readable(lines[n]) then lines[n] else "")];
    }
  }

  function Varying(headers: HeaderMap): seq<(string, string)> {
    var lines := GetAll(headers, "accept-encoding");
    seq(|lines|, i requires 0 <= i < |lines| =>
      ("accept-encoding", if Readable(lines[i]) then lines[i] else ""))
  }

  /** What the hasher is fed for a request. */
  method CreateCacheKey(verb: string, uri: string, headers: HeaderMap) returns (input: string)
    ensures input == Preimage(verb, uri, Varying(headers))
    ensures NUL !in verb && NUL !in uri ==> Decode(input) == Some((verb, uri, Varying(headers)))
  {
    var vary := VaryHeaders(headers);
    input := HashInput(verb, uri, vary);
    VaryingIsDecodable(headers);
    if NUL !in verb && NUL !in uri { KeyRoundTrip(verb, uri, vary); }
  }

  /**
   Two requests share a key exactly if method, URI and the readable content of
   their Accept-Encoding lines agree. Methods and URIs contain no NUL.
   */
  lemma KeysAgreeExactly(verb: string, uri: string, headers: HeaderMap,
                         verb': string, uri': string, headers': HeaderMap)
    requires NUL !in verb && NUL !in uri && NUL !in verb' && NUL !in uri'
    ensures Preimage(verb, uri, Varying(headers)) == Preimage(verb', uri', Varying(headers'))
       <==> verb == verb' && uri == uri' && Varying(headers) == Varying(headers')
  {
    VaryingIsDecodable(headers);
    VaryingIsDecodable(headers');
    KeyRoundTrip(verb, uri, Varying(headers));
    KeyRoundTrip(verb', uri', Varying(headers'));
  }

  lemma VaryingIsDecodable(headers: HeaderMap)
    ensures Decodable("", "", Varying(headers))
  {
    assert ':' !in "accept-encoding" && NUL !in "accept-encoding";
  }

  /** Without the condition on NUL, a header could pass for a piece of the URI. */
  lemma NulConfusesKeys(verb: string, uri: string, name: string, value: string)
    ensures Preimage(verb, uri, [(name, value)]) == Preimage(verb, uri + [NUL] + Field(name, value), [])
  {
    var field := Field(name, value);
    var joined := uri + [NUL] + field;
    assert [verb, uri] + Fields([(name, value)]) == [verb, uri] + [field];
    JoinSnoc([verb, uri], NUL, field);
    JoinTwo(verb, uri);
    assert [verb, joined] + Fields([]) == [verb, joined];
    JoinTwo(verb, joined);
    assert verb + [NUL] + joined == verb + [NUL] + uri + [NUL] + field;
  }

  /** The bytes: method, NUL, URI; and for each field NUL, name, colon and value. */
  lemma PreimageSpelled(verb: string, uri: string, vary: seq<(string, string)>, name: string, value: string)
    ensures Preimage(verb, uri, []) == verb + ['\0'] + uri
    ensures Preimage(verb, uri, vary + [(name, value)]) == Preimage(verb, uri, vary) + ['\0'] + name + ":" + value
  {
    JoinTwo(verb, uri);
    assert [verb, uri] + Fields([]) == [verb, uri];
    JoinSnoc([verb, uri] + Fields(vary), NUL, Field(name, value));
    assert Fields(vary + [(name, value)]) == Fields(vary) + [Field(name, value)];
    assert [verb, uri] + Fields(vary + [(name, value)]) == [verb, uri] + Fields(vary) + [Field(name, value)];
  }

  /** What the program sees of a line. */
  function Seen(line: string): string { if Readable(line) then line else "" }

  /**
   The key depends on the method, the URI and the Accept-Encoding lines one by one,
   of which unreadable ones all look empty, and on nothing else in the request.
   */
  lemma KeysAgreeOnEncodings(verb: string, uri: string, headers: HeaderMap,
                             verb': string, uri': string, headers': HeaderMap)
    requires NUL !in verb && NUL !in uri && NUL !in verb' && NUL !in uri'
    ensures
      var lines, lines' := GetAll(headers, "accept-encoding"), GetAll(headers', "accept-encoding");
      Preimage(verb, uri, Varying(headers)) == Preimage(verb', uri', Varying(headers'))
      <==> && verb == verb' && uri == uri' && |lines| == |lines'|
           && forall i :: 0 <= i < |lines| ==> Seen(lines[i]) == Seen(lines'[i])
  {
    hide Preimage;
    KeysAgreeExactly(verb, uri, headers, verb', uri', headers');
    var lines, lines' := GetAll(headers, "accept-encoding"), GetAll(headers', "accept-encoding");
    if Varying(headers) == Varying(headers') {
      forall i | 0 <= i < |lines|
        ensures Seen(lines[i]) == Seen(lines'[i])
      {
        assert Varying(headers)[i] == Varying(headers')[i];
      }
    }
  }
}

/**
 Whether a response may be stored and for how long: sections 3, 5.2.2 and 5.3 of
 RFC 7234. Times are nanoseconds; parsing of HTTP dates is a parameter.
 */
module Freshness {
  import opened Common
  import opened Text
  import opened Headers

  const NOT_STORED: seq<string> := ["no-store", "no-cache", "private"]
  const NOT_STORED_PRAGMA: seq<string> := ["no-cache"]
  const SENSITIVE: seq<string> := ["*", "authorization", "cookie"]

  ghost predicate Cacheable(status: nat, headers: HeaderMap) {
    && 200 <= status < 300
    && !Mentions(Tokens(GetAll(headers, "cache-control")), NOT_STORED)
    && !Mentions(Tokens(GetAll(headers, "pragma")), NOT_STORED_PRAGMA)
    && !Mentions(Tokens(GetAll(headers, "vary")), SENSITIVE)
  }

  method ShouldCacheResponse(status: nat, headers: HeaderMap) returns (cacheable: bool)
    ensures cacheable <==> Cacheable(status, headers)
  {
    if !(200 <= status < 300) { return false; }
    var refused := ListMentions(GetAll(headers, "cache-control"), NOT_STORED);
    if refused { return false; }
    refused := ListMentions(GetAll(headers, "pragma"), NOT_STORED_PRAGMA);
    if refused { return false; }
    refused := ListMentions(GetAll(headers, "vary"), SENSITIVE);
    return !refused;
  }

  // ---------------------------------------------------------------- lifetime

  const S_MAXAGE := "s-maxage="
  const MAX_AGE := "max-age="

  /** The valid number a directive of this name carries. */
  function Seconds(directive: string, name: string): Option<nat> {
    var d := Lower(directive);
    if name <= d then ParseU64(d[|name|..]) else None
  }

  function LastSome(values: seq<Option<nat>>): Option<nat> {
    if values == [] then None
    else if Last(values).Some? then Last(values)
    else LastSome(values[..|values| - 1])
  }

  /** What "last" means: nothing after it, and nothing at all if there is none. */
  lemma {:induction false} LastSomeIsLast(values: seq<Option<nat>>)
    ensures LastSome(values).None? <==> forall i :: 0 <= i < |values| ==> values[i].None?
    ensures LastSome(values).Some? ==>
              exists i :: 0 <= i < |values| && values[i] == LastSome(values)
                          && forall j :: i < j < |values| ==> values[j].None?
  {
    if values == [] {
    } else if Last(values).Some? {
      assert values[|values| - 1] == LastSome(values);
    } else {
      var rest := values[..|values| - 1];
      LastSomeIsLast(rest);
      assert values == rest + [None];
    }
  }

  function AllSeconds(directives: seq<string>, name: string): seq<Option<nat>> {
    seq(|directives|, i requires 0 <= i < |directives| => Seconds(directives[i], name))
  }

  /** The number of the last directive of this name that carries a valid one. */
  function LastSeconds(directives: seq<string>, name: string): Option<nat> {
    LastSome(AllSeconds(directives, name))
  }

  lemma LastSecondsSnoc(directives: seq<string>, d: string, name: string)
    ensures LastSeconds(directives + [d], name)
         == if Seconds(d, name).Some? then Seconds(d, name) else LastSeconds(directives, name)
  {
    var all := AllSeconds(directives + [d], name);
    assert all == AllSeconds(directives, name) + [Seconds(d, name)];
    assert all[..|directives|] == AllSeconds(directives, name);
  }

  lemma OneNameOnly(directive: string)
    requires S_MAXAGE <= Lower(directive)
    ensures Seconds(directive, MAX_AGE).None?
  {
    assert S_MAXAGE[0] == 's' && MAX_AGE[0] == 'm';
  }

  function ExpiresIn(headers: HeaderMap, now: nat, parseDate: string -> Option<nat>): Option<nat> {
    var values := GetAll(headers, "expires");
    if values == [] then None
    else if Readable(values[0]) && parseDate(values[0]).Some? && parseDate(values[0]).value >= now then
      Some((parseDate(values[0]).value - now) / NANOS)
    else Some(0)
  }

  /** The last valid s-maxage, else the last valid max-age, else Expires. */
  function TimeToLive(headers: HeaderMap, now: nat, parseDate: string -> Option<nat>): Option<nat> {
    var directives := Tokens(GetAll(headers, "cache-control"));
    if LastSeconds(directives, S_MAXAGE).Some? then LastSeconds(directives, S_MAXAGE)
    else if LastSeconds(directives, MAX_AGE).Some? then LastSeconds(directives, MAX_AGE)
    else ExpiresIn(headers, now, parseDate)
  }

  method ScanLine(line: string, ghost before: seq<string>, sMaxAge: Option<nat>, maxAge: Option<nat>)
    returns (sMaxAge': Option<nat>, maxAge': Option<nat>)
    requires sMaxAge == LastSeconds(before, S_MAXAGE) && maxAge == LastSeconds(before, MAX_AGE)
    ensures sMaxAge' == LastSeconds(before + LineTokens(line), S_MAXAGE)
    ensures maxAge' == LastSeconds(before + LineTokens(line), MAX_AGE)
  {
    hide LastSeconds, Split, Trim;
    sMaxAge', maxAge' := sMaxAge, maxAge;
    assert before + [] == before;
    if !Readable(line) { return; }
    var items := Split(line, ',');
    ghost var tokens := LineTokens(line);
    for k := 0 to |items|
      invariant sMaxAge' == LastSeconds(before + tokens[..k], S_MAXAGE)
      invariant maxAge' == LastSeconds(before + tokens[..k], MAX_AGE)
    {
      var directive := Lower(Trim(items[k]));
      assert before + tokens[..k + 1] == before + tokens[..k] + [tokens[k]];
      LastSecondsSnoc(before + tokens[..k], tokens[k], S_MAXAGE);
      LastSecondsSnoc(before + tokens[..k], tokens[k], MAX_AGE);
      if S_MAXAGE <= directive {
        OneNameOnly(tokens[k]);
        var seconds := ParseU64(directive[|S_MAXAGE|..]);
        if seconds.Some? { sMaxAge' := seconds; }
      } else if MAX_AGE <= directive {
        var seconds := ParseU64(directive[|MAX_AGE|..]);
        if seconds.Some? { maxAge' := seconds; }
      }
    }
    assert tokens[..|items|] == tokens;
  }

  method ParseCacheControlHeaders(headers: HeaderMap, now: nat, parseDate: string -> Option<nat>)
    returns (ttl: Option<nat>)
    ensures ttl == TimeToLive(headers, now, parseDate)
  {
    var lines := GetAll(headers, "cache-control");
    var sMaxAge: Option<nat>, maxAge: Option<nat> := None, None;
    for n := 0 to |lines|
      invariant sMaxAge == LastSeconds(Tokens(lines[..n]), S_MAXAGE)
      invariant maxAge == LastSeconds(Tokens(lines[..n]), MAX_AGE)
    {
      LinesStep(lines, n);
      sMaxAge, maxAge := ScanLine(lines[n], Tokens(lines[..n]), sMaxAge, maxAge);
    }
    assert lines[..|lines|] == lines;
    if sMaxAge.Some? { return sMaxAge; }
    if maxAge.Some? { return maxAge; }
    var expires := GetAll(headers, "expires");
    if expires != [] {
      if Readable(expires[0]) {
        var time := parseDate(expires[0]);
        if time.Some? {
          return if time.value >= now then Some((time.value - now) / NANOS) else Some(0);
        }
      }
      return Some(0);
    }
    return None;
  }

  // ---------------------------------------------------------------- line layout does not matter

  const LISTS: seq<string> := ["cache-control", "pragma", "vary"]

  /** Verdict and lifetime depend on the list headers through their items only. */
  lemma SameItemsSameAnswer(
    a: HeaderMap, b: HeaderMap, status: nat, now: nat, parseDate: string -> Option<nat>)
    requires forall name :: name in LISTS ==> Tokens(GetAll(a, name)) == Tokens(GetAll(b, name))
    requires GetAll(a, "expires") == GetAll(b, "expires")
    ensures Cacheable(status, a) <==> Cacheable(status, b)
    ensures TimeToLive(a, now, parseDate) == TimeToLive(b, now, parseDate)
  {
    hide Tokens, LastSeconds, Mentions, GetAll;
    assert LISTS[0] in LISTS && LISTS[1] in LISTS && LISTS[2] in LISTS;
  }

  /** Combining readable lines of any of the three list headers changes neither verdict nor lifetime. */
  lemma CombiningLinesChangesNothing(
    headers: HeaderMap, name: string, edits: seq<Edit>, status: nat, now: nat, parseDate: string -> Option<nat>)
    requires name in LISTS
    requires CanEditAll(GetAll(headers, name), edits) && LegibleAll(GetAll(headers, name), edits)
    requires forall e :: e in edits ==> e.Combine?
    ensures
      var combined := headers[name := EditedAll(GetAll(headers, name), edits)];
      && (Cacheable(status, combined) <==> Cacheable(status, headers))
      && TimeToLive(combined, now, parseDate) == TimeToLive(headers, now, parseDate)
  {
    hide Tokens, EditedAll, CanEditAll, Cacheable, TimeToLive;
    EditsKeepTokens(GetAll(headers, name), edits);
    assert name != "expires" by {
      assert |"cache-control"| != |"expires"| && |"pragma"| != |"expires"| && |"vary"| != |"expires"|;
    }
    SameItemsSameAnswer(headers, headers[name := EditedAll(GetAll(headers, name), edits)], status, now, parseDate);
  }

  /** Further directives, on lines of their own or combined, never make a response cacheable. */
  lemma AddingDirectivesNeverPermits(headers: HeaderMap, name: string, edits: seq<Edit>, status: nat)
    requires CanEditAll(GetAll(headers, name), edits) && LegibleAll(GetAll(headers, name), edits)
    requires Cacheable(status, headers[name := EditedAll(GetAll(headers, name), edits)])
    ensures Cacheable(status, headers)
  {
    hide Tokens, EditedAll, CanEditAll, Mentions;
    var before := GetAll(headers, name);
    var after := EditedAll(before, edits);
    EditsKeepTokens(before, edits);
    assert Tokens(after) == Tokens(before) + Tokens(after)[|Tokens(before)|..];
    MentionsAppend(Tokens(before), Tokens(after)[|Tokens(before)|..], NOT_STORED);
    MentionsAppend(Tokens(before), Tokens(after)[|Tokens(before)|..], NOT_STORED_PRAGMA);
    MentionsAppend(Tokens(before), Tokens(after)[|Tokens(before)|..], SENSITIVE);
  }

  // ---------------------------------------------------------------- which directive decides

  /** A directive in any case that spells a number below 2^64 carries that number. */
  lemma DirectiveCarries(directive: string, name: string, n: nat)
    requires Lower(directive) == name + Decimal(n) && n < U64_LIMIT
    ensures Seconds(directive, name) == Some(n)
  {
    assert Lower(directive)[|name|..] == Decimal(n);
    ParsesDecimal(n);
  }

  /** Item `i` carries a number under this name, and no later one does. */
  ghost predicate LastToCarry(items: seq<string>, name: string, i: nat, n: nat) {
    && i < |items| && Seconds(items[i], name) == Some(n)
    && forall j :: i < j < |items| ==> Seconds(items[j], name).None?
  }

  ghost predicate NoneCarries(items: seq<string>, name: string) {
    forall j :: 0 <= j < |items| ==> Seconds(items[j], name).None?
  }

  lemma LastToCarryDecides(items: seq<string>, name: string, i: nat, n: nat)
    requires LastToCarry(items, name, i, n)
    ensures LastSeconds(items, name) == Some(n)
  {
    var all := AllSeconds(items, name);
    LastSomeIsLast(all);
    assert all[i] == Some(n);
    var k :| 0 <= k < |all| && all[k] == LastSome(all) && forall j :: k < j < |all| ==> all[j].None?;
    assert k == i;
  }

  lemma NoneCarriesNone(items: seq<string>, name: string)
    requires NoneCarries(items, name)
    ensures LastSeconds(items, name) == None
  {
    LastSomeIsLast(AllSeconds(items, name));
  }

  /** The last valid s-maxage is the lifetime, whatever max-age and Expires say. */
  lemma SharedMaxAgeDecides(headers: HeaderMap, now: nat, parseDate: string -> Option<nat>, i: nat, n: nat)
    requires LastToCarry(Tokens(GetAll(headers, "cache-control")), "s-maxage=", i, n)
    ensures TimeToLive(headers, now, parseDate) == Some(n)
  {
    LastToCarryDecides(Tokens(GetAll(headers, "cache-control")), "s-maxage=", i, n);
  }

  /** Without one, the last valid max-age is, whatever Expires says. */
  lemma MaxAgeDecides(headers: HeaderMap, now: nat, parseDate: string -> Option<nat>, i: nat, n: nat)
    requires NoneCarries(Tokens(GetAll(headers, "cache-control")), "s-maxage=")
    requires LastToCarry(Tokens(GetAll(headers, "cache-control")), "max-age=", i, n)
    ensures TimeToLive(headers, now, parseDate) == Some(n)
  {
    NoneCarriesNone(Tokens(GetAll(headers, "cache-control")), "s-maxage=");
    LastToCarryDecides(Tokens(GetAll(headers, "cache-control")), "max-age=", i, n);
  }

  /**
   Without either, the first Expires line is: the whole seconds left until its date;
   zero if the date is past or cannot be read; nothing if there is no such line.
   */
  lemma ExpiresDecides(headers: HeaderMap, now: nat, parseDate: string -> Option<nat>)
    requires NoneCarries(Tokens(GetAll(headers, "cache-control")), "s-maxage=")
    requires NoneCarries(Tokens(GetAll(headers, "cache-control")), "max-age=")
    ensures
      var ttl, lines := TimeToLive(headers, now, parseDate), GetAll(headers, "expires");
      && (lines == [] ==> ttl == None)
      && (lines != [] && (!Readable(lines[0]) || parseDate(lines[0]).None?) ==> ttl == Some(0))
      && (lines != [] && Readable(lines[0]) && parseDate(lines[0]).Some? ==>
            var date := parseDate(lines[0]).value;
            && ttl.Some?
            && (date < now ==> ttl.value == 0)
            && (date >= now ==> now + ttl.value * 1_000_000_000 <= date < now + (ttl.value + 1) * 1_000_000_000))
  {
    NoneCarriesNone(Tokens(GetAll(headers, "cache-control")), "s-maxage=");
    NoneCarriesNone(Tokens(GetAll(headers, "cache-control")), "max-age=");
  }

  /** The items of "a, b" are a and b. */
  lemma TwoItems(a: string, b: string)
    requires Plain(a) && Plain(b)
    ensures Tokens([a + "," + " " + b]) == [a, b]
  {
    OneToken(a);
    OneToken(b);
    CombinedLineTokens(a, " ", b);
    assert Tokens([a + "," + " " + b]) == LineTokens(a + "," + " " + b) by {
      assert [a + "," + " " + b][1..] == [];
    }
    assert [a] + [b] == [a, b];
  }

  /** Readable, without comma, and not padded. */
  predicate Plain(value: string) {
    Readable(value) && ',' !in value && value != [] && !Blank(value[0]) && !Blank(value[|value| - 1])
  }

  lemma PlainWithNumber(name: string, n: nat)
    requires Plain(name) && Lower(name) == name
    ensures Plain(name + Decimal(n)) && Lower(name + Decimal(n)) == name + Decimal(n)
  {
    hide Decimal;
    DecimalReadsBack(n);
    var d := Decimal(n);
    assert Lower(d) == d;
    assert Lower(name + d) == Lower(name) + Lower(d);
  }

  lemma SpelledDirective(name: string, n: nat)
    requires name == "s-maxage=" || name == "max-age="
    ensures Plain(name + Decimal(n)) && Lower(name + Decimal(n)) == name + Decimal(n)
  {
    assert Plain(name) && Lower(name) == name;
    hide Plain, Lower;
    PlainWithNumber(name, n);
  }

  /** On one line, in this order: the shared lifetime counts. */
  lemma SharedBeatsPrivate(shared: nat, own: nat, now: nat, parseDate: string -> Option<nat>)
    requires shared < U64_LIMIT
    ensures
      var line := "max-age=" + Decimal(own) + "," + " " + ("s-maxage=" + Decimal(shared));
      TimeToLive(map["cache-control" := [line]], now, parseDate) == Some(shared)
  {
    var a, b := "max-age=" + Decimal(own), "s-maxage=" + Decimal(shared);
    SpelledDirective("max-age=", own);
    SpelledDirective("s-maxage=", shared);
    TwoItems(a, b);
    DirectiveCarries(b, "s-maxage=", shared);
    SharedMaxAgeDecides(map["cache-control" := [a + "," + " " + b]], now, parseDate, 1, shared);
  }

  // ---------------------------------------------------------------- which responses may be stored

  /** Successful, and no readable list item forbids it, in any case. */
  lemma CacheableExactly(status: nat, headers: HeaderMap)
    ensures Cacheable(status, headers) <==>
              && 200 <= status <= 299
              && (forall t :: t in Tokens(GetAll(headers, "cache-control")) ==>
                    Lower(t) != "no-store" && Lower(t) != "no-cache" && Lower(t) != "private")
              && (forall t :: t in Tokens(GetAll(headers, "pragma")) ==> Lower(t) != "no-cache")
              && (forall t :: t in Tokens(GetAll(headers, "vary")) ==>
                    Lower(t) != "*" && Lower(t) != "authorization" && Lower(t) != "cookie")
  {
    hide Tokens, Lower;
    MentionsExactly(Tokens(GetAll(headers, "cache-control")), NOT_STORED);
    MentionsExactly(Tokens(GetAll(headers, "pragma")), NOT_STORED_PRAGMA);
    MentionsExactly(Tokens(GetAll(headers, "vary")), SENSITIVE);
    ForbiddenWords();
  }

  lemma ForbiddenWords()
    ensures forall w :: w in NOT_STORED <==> w == "no-store" || w == "no-cache" || w == "private"
    ensures forall w :: w in NOT_STORED_PRAGMA <==> w == "no-cache"
    ensures forall w :: w in SENSITIVE <==> w == "*" || w == "authorization" || w == "cookie"
  {
  }

  lemma MentionsExactly(tokens: seq<string>, words: seq<string>)
    ensures Mentions(tokens, words) <==> exists t :: t in tokens && Lower(t) in words
  {
    if Mentions(tokens, words) {
      var i :| 0 <= i < |tokens| && Lower(tokens[i]) in words;
      assert tokens[i] in tokens;
    }
  }
}

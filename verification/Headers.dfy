/**
 Header maps and the comma-separated lists they carry, hop-by-hop filtering
 (section 6.1 of RFC 7230) and loop detection (section 5.7.1 of RFC 7230).
 Names are in lower case, as the HTTP library stores them.
 */
module Headers {
  import opened Common
  import opened Text

  type HeaderMap = map<string, seq<string>>

  function GetAll(headers: HeaderMap, name: string): seq<string> {
    if name in headers then headers[name] else []
  }

  function Append(headers: HeaderMap, name: string, value: string): HeaderMap {
    headers[name := GetAll(headers, name) + [value]]
  }

  /** The values the program can look into: visible ASCII, spaces and tabs. */
  predicate Readable(value: string) {
    forall i :: 0 <= i < |value| ==> value[i] == '\t' || ' ' <= value[i] <= '~'
  }

  function TrimAll(tokens: seq<string>): (r: seq<string>)
    ensures |r| == |tokens| && forall i :: 0 <= i < |r| ==> r[i] == Trim(tokens[i])
  {
    seq(|tokens|, i requires 0 <= i < |tokens| => Trim(tokens[i]))
  }

  /** What stands between the commas of a line, readable or not. */
  function Items(value: string): seq<string> { TrimAll(Split(value, ',')) }

  /** The list items of one header line; an unreadable line contributes nothing. */
  function LineTokens(value: string): seq<string> {
    if Readable(value) then Items(value) else []
  }

  /** The list items of all lines of a header, in order. */
  function Tokens(values: seq<string>): seq<string> {
    if values == [] then [] else LineTokens(values[0]) + Tokens(values[1..])
  }

  lemma {:induction false} TokensAppend(a: seq<string>, b: seq<string>)
    ensures Tokens(a + b) == Tokens(a) + Tokens(b)
  {
    if a == [] {
      assert a + b == b;
    } else {
      assert (a + b)[1..] == a[1..] + b;
      TokensAppend(a[1..], b);
    }
  }

  // ---------------------------------------------------------------- recombined header lines

  /** What an intermediary may do to the lines of a list header (section 3.2.2 of RFC 7230). */
  datatype Edit = Add(value: string) | Combine(i: nat, pad: string)

  predicate CanEdit(values: seq<string>, edit: Edit) {
    match edit
    case Add(_) => true
    case Combine(i, pad) => i + 1 < |values| && AllBlank(pad)
  }

  /** The lines that are combined, if any, can be looked into. */
  predicate Legible(values: seq<string>, edit: Edit)
    requires CanEdit(values, edit)
  {
    edit.Combine? ==> Readable(values[edit.i]) && Readable(values[edit.i + 1])
  }

  function Edited(values: seq<string>, edit: Edit): seq<string>
    requires CanEdit(values, edit)
  {
    match edit
    case Add(value) => values + [value]
    case Combine(i, pad) => values[..i] + [values[i] + "," + pad + values[i + 1]] + values[i + 2..]
  }

  ghost predicate CanEditAll(values: seq<string>, edits: seq<Edit>)
    decreases |edits|
  {
    edits == [] || (CanEdit(values, edits[0]) && CanEditAll(Edited(values, edits[0]), edits[1..]))
  }

  ghost function EditedAll(values: seq<string>, edits: seq<Edit>): seq<string>
    requires CanEditAll(values, edits)
    decreases |edits|
  {
    if edits == [] then values else EditedAll(Edited(values, edits[0]), edits[1..])
  }

  ghost predicate LegibleAll(values: seq<string>, edits: seq<Edit>)
    requires CanEditAll(values, edits)
    decreases |edits|
  {
    edits == [] || (Legible(values, edits[0]) && LegibleAll(Edited(values, edits[0]), edits[1..]))
  }

  /** Combining lines puts their items one after the other, readable or not. */
  lemma CombinedItems(x: string, pad: string, y: string)
    requires AllBlank(pad)
    ensures Items(x + "," + pad + y) == Items(x) + Items(y)
  {
    var line := x + "," + pad + y;
    assert line == x + [','] + (pad + y);
    assert Split(line, ',') == Split(x, ',') + Split(pad + y, ',') by { SplitAt(x, ',', pad + y); }
    PaddedTokens(pad, y);
    TrimAllAppend(Split(x, ','), Split(pad + y, ','));
  }

  lemma CombinedLineTokens(x: string, pad: string, y: string)
    requires Readable(x) && Readable(y) && AllBlank(pad)
    ensures LineTokens(x + "," + pad + y) == LineTokens(x) + LineTokens(y)
  {
    CombinedItems(x, pad, y);
    CombinedIsReadable(x, pad, y);
  }

  lemma TrimAllAppend(a: seq<string>, b: seq<string>)
    ensures TrimAll(a + b) == TrimAll(a) + TrimAll(b)
  {
  }

  lemma CombinedIsReadable(x: string, pad: string, y: string)
    requires AllBlank(pad)
    ensures Readable(x + "," + pad + y) <==> Readable(x) && Readable(y)
  {
    var line := x + "," + pad + y;
    if Readable(line) {
      forall k | 0 <= k < |x|
        ensures x[k] == '\t' || ' ' <= x[k] <= '~'
      {
        assert line[k] == x[k];
      }
      forall k | 0 <= k < |y|
        ensures y[k] == '\t' || ' ' <= y[k] <= '~'
      {
        assert line[|x| + 1 + |pad| + k] == y[k];
      }
    }
  }

  lemma {:induction false} PaddedTokens(pad: string, y: string)
    requires AllBlank(pad)
    ensures TrimAll(Split(pad + y, ',')) == TrimAll(Split(y, ','))
  {
    if pad == [] {
      assert pad + y == y;
    } else {
      var rest := Split(pad[1..] + y, ',');
      assert (pad + y)[1..] == pad[1..] + y;
      PaddedTokens(pad[1..], y);
      TrimPadded([pad[0]], rest[0]);
      var parts := Split(pad + y, ',');
      assert parts == [[pad[0]] + rest[0]] + rest[1..];
      assert TrimAll(parts) == TrimAll(rest);
    }
  }

  /** Combining lines leaves the list as it was; adding a line appends to it. */
  lemma EditedTokens(values: seq<string>, edit: Edit)
    requires CanEdit(values, edit) && Legible(values, edit)
    ensures Tokens(Edited(values, edit))
         == Tokens(values) + (if edit.Add? then LineTokens(edit.value) else [])
  {
    match edit
    case Add(value) =>
      TokensAppend(values, [value]);
      assert Tokens([value]) == LineTokens(value) + Tokens([value][1..]);
    case Combine(i, pad) =>
      var x, y := values[i], values[i + 1];
      var line := x + "," + pad + y;
      CombinedLineTokens(x, pad, y);
      assert values == values[..i] + ([x, y] + values[i + 2..]);
      assert Edited(values, edit) == values[..i] + ([line] + values[i + 2..]);
      TokensAppend(values[..i], [x, y] + values[i + 2..]);
      TokensAppend(values[..i], [line] + values[i + 2..]);
      TokensAppend([x, y], values[i + 2..]);
      TokensAppend([line], values[i + 2..]);
      assert [x, y][1..] == [y] && [y][1..] == [] && [line][1..] == [];
      assert Tokens([x, y]) == LineTokens(x) + Tokens([y]);
      assert Tokens([y]) == LineTokens(y);
  }

  /** After any number of edits every item is still there. */
  lemma {:induction false} EditsKeepTokens(values: seq<string>, edits: seq<Edit>)
    requires CanEditAll(values, edits) && LegibleAll(values, edits)
    ensures Tokens(values) <= Tokens(EditedAll(values, edits))
    ensures (forall e :: e in edits ==> e.Combine?) ==> Tokens(EditedAll(values, edits)) == Tokens(values)
    decreases |edits|
  {
    if edits == [] {
    } else {
      var next := Edited(values, edits[0]);
      assert Tokens(values) <= Tokens(next) by { EditedTokens(values, edits[0]); }
      assert edits[0].Combine? ==> Tokens(next) == Tokens(values) by { EditedTokens(values, edits[0]); }
      assert edits[0] in edits;
      EditsKeepTokens(next, edits[1..]);
    }
  }

  // ---------------------------------------------------------------- scanning a list

  /** Some item is one of the words, which are in lower case, whatever its own case. */
  ghost predicate Mentions(tokens: seq<string>, words: seq<string>) {
    exists i :: 0 <= i < |tokens| && Lower(tokens[i]) in words
  }

  lemma MentionsAppend(a: seq<string>, b: seq<string>, words: seq<string>)
    ensures Mentions(a + b, words) <==> Mentions(a, words) || Mentions(b, words)
  {
    if Mentions(a, words) {
      var i :| 0 <= i < |a| && Lower(a[i]) in words;
      assert (a + b)[i] == a[i];
    }
    if Mentions(b, words) {
      var i :| 0 <= i < |b| && Lower(b[i]) in words;
      assert (a + b)[|a| + i] == b[i];
    }
  }

  method LineMentions(value: string, words: seq<string>) returns (found: bool)
    ensures found <==> Mentions(LineTokens(value), words)
  {
    hide Split, Trim, Lower;
    if !Readable(value) { return false; }
    var items := Split(value, ',');
    for k := 0 to |items|
      invariant forall j :: 0 <= j < k ==> Lower(LineTokens(value)[j]) !in words
    {
      if Lower(Trim(items[k])) in words {
        assert Lower(LineTokens(value)[k]) in words;
        return true;
      }
    }
    return false;
  }

  /** Scans every line of a list header and stops at the first match. */
  method ListMentions(lines: seq<string>, words: seq<string>) returns (found: bool)
    ensures found <==> Mentions(Tokens(lines), words)
  {
    hide LineTokens;
    for n := 0 to |lines|
      invariant !Mentions(Tokens(lines[..n]), words)
    {
      LinesStep(lines, n);
      MentionsAppend(Tokens(lines[..n]), LineTokens(lines[n]), words);
      var here := LineMentions(lines[n], words);
      if here {
        assert lines == lines[..n + 1] + lines[n + 1..];
        TokensAppend(lines[..n + 1], lines[n + 1..]);
        MentionsAppend(Tokens(lines[..n + 1]), Tokens(lines[n + 1..]), words);
        return true;
      }
    }
    assert lines[..|lines|] == lines;
    return false;
  }

  /** The items of the first n + 1 lines are those of the first n and of the next. */
  lemma LinesStep(lines: seq<string>, n: nat)
    requires n < |lines|
    ensures Tokens(lines[..n + 1]) == Tokens(lines[..n]) + LineTokens(lines[n])
  {
    assert lines[..n + 1] == lines[..n] + [lines[n]];
    EditedTokens(lines[..n], Add(lines[n]));
  }

  // ---------------------------------------------------------------- loop detection

  const PSEUDONYM := "1.1 squiddish"

  ghost predicate NamesUs(values: seq<string>) {
    Mentions(Tokens(values), [PSEUDONYM])
  }

  method HasViaLoop(headers: HeaderMap) returns (found: bool)
    ensures found <==> NamesUs(GetAll(headers, "via"))
  {
    found := ListMentions(GetAll(headers, "via"), [PSEUDONYM]);
  }

  // ---------------------------------------------------------------- hop-by-hop headers

  const HOP_BY_HOP: seq<string> :=
    ["connection", "keep-alive", "proxy-authenticate", "proxy-authorization",
     "te", "trailers", "transfer-encoding", "upgrade"]

  /** The names a readable Connection line lists. */
  ghost predicate ListedByConnection(headers: HeaderMap, name: string) {
    exists t :: t in Tokens(GetAll(headers, "connection")) && Lower(t) == name
  }

  /** `kept` is `headers` without exactly the hop-by-hop names, values untouched. */
  ghost predicate Filters(headers: HeaderMap, kept: HeaderMap) {
    && (forall name :: name in kept <==>
          name in headers && name !in HOP_BY_HOP && !ListedByConnection(headers, name))
    && (forall name :: name in kept ==> kept[name] == headers[name])
  }

  function LowerAll(tokens: seq<string>): (names: seq<string>)
    ensures |names| == |tokens| && forall k :: 0 <= k < |names| ==> names[k] == Lower(tokens[k])
  {
    seq(|tokens|, k requires 0 <= k < |tokens| => Lower(tokens[k]))
  }

  lemma LowerAllAppend(a: seq<string>, b: seq<string>)
    ensures LowerAll(a + b) == LowerAll(a) + LowerAll(b)
  {
  }

  /** The one header set that does. */
  ghost function Filtered(headers: HeaderMap): (kept: HeaderMap)
    ensures Filters(headers, kept)
    ensures forall other :: Filters(headers, other) ==> other == kept
  {
    map name | name in headers && name !in HOP_BY_HOP && !ListedByConnection(headers, name) :: headers[name]
  }

  /** The lower-case names on the Connection lines, in order. */
  method ConnectionNames(lines: seq<string>) returns (names: seq<string>)
    ensures names == LowerAll(Tokens(lines))
  {
    hide LineTokens, Lower;
    names := [];
    for n := 0 to |lines|
      invariant names == LowerAll(Tokens(lines[..n]))
    {
      LinesStep(lines, n);
      var items := LineTokens(lines[n]);
      LowerAllAppend(Tokens(lines[..n]), items);
      names := names + LowerAll(items);
    }
    assert lines[..|lines|] == lines;
  }

  method RemoveAll(headers: HeaderMap, names: seq<string>) returns (kept: HeaderMap)
    ensures forall name :: name in kept <==> name in headers && name !in names
    ensures forall name :: name in kept ==> kept[name] == headers[name]
  {
    kept := headers;
    for k := 0 to |names|
      invariant forall name :: name in kept <==> name in headers && name !in names[..k]
      invariant forall name :: name in kept ==> kept[name] == headers[name]
    {
      kept := kept - {names[k]};
      assert names[..k + 1] == names[..k] + [names[k]];
    }
    assert names[..|names|] == names;
  }

  method FilterHeaders(headers: HeaderMap) returns (kept: HeaderMap)
    ensures Filters(headers, kept)
  {
    var extra := ConnectionNames(GetAll(headers, "connection"));
    forall name
      ensures name in extra <==> ListedByConnection(headers, name)
    {
      ListedExactly(headers, extra, name);
    }
    kept := RemoveAll(headers, extra);
    kept := RemoveAll(kept, HOP_BY_HOP);
  }

  lemma ListedExactly(headers: HeaderMap, extra: seq<string>, name: string)
    requires |extra| == |Tokens(GetAll(headers, "connection"))|
    requires forall k :: 0 <= k < |extra| ==> extra[k] == Lower(Tokens(GetAll(headers, "connection"))[k])
    ensures name in extra <==> ListedByConnection(headers, name)
  {
    var tokens := Tokens(GetAll(headers, "connection"));
    if name in extra {
      var k :| 0 <= k < |extra| && extra[k] == name;
      assert tokens[k] in tokens;
    }
    if ListedByConnection(headers, name) {
      var t :| t in tokens && Lower(t) == name;
      var k :| 0 <= k < |tokens| && tokens[k] == t;
      assert extra[k] in extra;
    }
  }

  /** Filtering is determined by its result, and filtering again changes nothing. */
  lemma FilteringIsIdempotent(headers: HeaderMap, kept: HeaderMap, again: HeaderMap)
    requires Filters(headers, kept) && Filters(kept, again)
    ensures again == kept
  {
    assert "connection" in HOP_BY_HOP by { assert HOP_BY_HOP[0] == "connection"; }
    assert GetAll(kept, "connection") == [];
  }

  // ---------------------------------------------------------------- a request that comes back

  lemma OneToken(value: string)
    requires Readable(value) && ',' !in value
    requires value != [] && !Blank(value[0]) && !Blank(value[|value| - 1])
    ensures LineTokens(value) == [value]
  {
    SplitNone(value, ',');
    TrimNone(value);
  }

  lemma PlainWord(value: string)
    requires forall i :: 0 <= i < |value| ==>
               ('a' <= value[i] <= 'z' || '0' <= value[i] <= '9' || value[i] == ' ' || value[i] == '.')
    ensures Readable(value) && ',' !in value && Lower(value) == value
  {
  }

  lemma PseudonymIsOneToken(value: string)
    requires value == PSEUDONYM
    ensures LineTokens(value) == [value] && Lower(value) == value
  {
    PlainWord(value);
    OneToken(value);
  }

  /**
   Whatever headers came in, the forwarded request names this proxy, and it still
   does after any intermediaries added Via lines or combined readable ones.
   */
  lemma ForwardedRequestIsRecognised(incoming: HeaderMap, kept: HeaderMap, edits: seq<Edit>)
    requires Filters(incoming, kept)
    requires CanEditAll(ViaSent(kept), edits) && LegibleAll(ViaSent(kept), edits)
    ensures NamesUs(EditedAll(ViaSent(kept), edits))
  {
    var sent := ViaSent(kept);
    EditedTokens(GetAll(kept, "via"), Add(PSEUDONYM));
    PseudonymIsOneToken(PSEUDONYM);
    EditsKeepTokens(sent, edits);
    var at := |Tokens(GetAll(kept, "via"))|;
    assert Tokens(sent)[at] == PSEUDONYM;
    assert Lower(Tokens(EditedAll(sent, edits))[at]) in [PSEUDONYM];
  }

  /** Where a line is after an edit. */
  function Moved(at: nat, edit: Edit): nat {
    if edit.Combine? && at > edit.i then at - 1 else at
  }

  function MovedAll(at: nat, edits: seq<Edit>): nat
    decreases |edits|
  {
    if edits == [] then at else MovedAll(Moved(at, edits[0]), edits[1..])
  }

  /** An item stays on its line, wherever that line ends up and whatever is combined with it. */
  lemma {:induction false} ItemStays(values: seq<string>, edits: seq<Edit>, at: nat, item: string)
    requires CanEditAll(values, edits) && at < |values| && item in Items(values[at])
    ensures MovedAll(at, edits) < |EditedAll(values, edits)|
    ensures item in Items(EditedAll(values, edits)[MovedAll(at, edits)])
    decreases |edits|
  {
    if edits != [] {
      var e := edits[0];
      if e.Combine? { CombinedItems(values[e.i], e.pad, values[e.i + 1]); }
      ItemStays(Edited(values, e), edits[1..], Moved(at, e), item);
    }
  }

  /** The Via lines of the request that is sent on. */
  function ViaSent(kept: HeaderMap): seq<string> { GetAll(Append(kept, "via", PSEUDONYM), "via") }

  /**
   Without any condition on what the intermediaries combine: on its return the
   request is recognised exactly if the line that our entry ended up on can be read
   as a whole, or some other line names this proxy.
   */
  lemma RecognisedExactly(kept: HeaderMap, edits: seq<Edit>)
    requires CanEditAll(ViaSent(kept), edits)
    ensures
      var back, at := EditedAll(ViaSent(kept), edits), MovedAll(|ViaSent(kept)| - 1, edits);
      at < |back| && (NamesUs(back) <==> Readable(back[at]) || NamesUs(back[..at] + back[at + 1..]))
  {
    hide CanEditAll, EditedAll, MovedAll, PSEUDONYM, Items, NamesUs, Readable;
    var sent := ViaSent(kept);
    EntryIsItem(PSEUDONYM);
    assert Last(sent) == PSEUDONYM;
    ItemStays(sent, edits, |sent| - 1, PSEUDONYM);
    OneLineDecides(EditedAll(sent, edits), MovedAll(|sent| - 1, edits));
  }

  lemma EntryIsItem(entry: string)
    requires entry == PSEUDONYM
    ensures entry in Items(entry) && Readable(entry)
  {
    PseudonymIsOneToken(entry);
    hide PSEUDONYM, Items, Readable;
    assert LineTokens(entry)[0] == entry;
  }

  lemma OneLineDecides(lines: seq<string>, at: nat)
    requires at < |lines| && PSEUDONYM in Items(lines[at])
    ensures NamesUs(lines) <==> Readable(lines[at]) || NamesUs(lines[..at] + lines[at + 1..])
  {
    var before, line, after := lines[..at], lines[at], lines[at + 1..];
    assert lines == before + ([line] + after);
    TokensAppend(before, [line] + after);
    TokensAppend([line], after);
    TokensAppend(before, after);
    assert Tokens([line]) == LineTokens(line) by { assert [line][1..] == []; }
    MentionsAppend(Tokens(before), LineTokens(line) + Tokens(after), [PSEUDONYM]);
    MentionsAppend(LineTokens(line), Tokens(after), [PSEUDONYM]);
    MentionsAppend(Tokens(before), Tokens(after), [PSEUDONYM]);
    if Readable(line) {
      var k :| 0 <= k < |Items(line)| && Items(line)[k] == PSEUDONYM;
      PseudonymIsOneToken(PSEUDONYM);
      assert Lower(LineTokens(line)[k]) in [PSEUDONYM];
    }
  }

  lemma BetweenNeighbours(a: string, entry: string, b: string)
    requires entry in Items(entry)
    ensures entry in Items(a + "," + entry + "," + b)
    ensures Readable(a + "," + entry + "," + b) <==> Readable(a) && Readable(entry) && Readable(b)
  {
    hide Items, Readable;
    var tail := entry + "," + b;
    assert tail == entry + "," + [] + b;
    CombinedItems(entry, [], b);
    CombinedIsReadable(entry, [], b);
    assert a + "," + entry + "," + b == a + "," + [] + tail;
    CombinedItems(a, [], tail);
    CombinedIsReadable(a, [], tail);
  }

  /** On one line, our entry is found exactly if everything around it can be read. */
  lemma NeighboursDecide(a: string, b: string)
    ensures NamesUs([a + "," + PSEUDONYM + "," + b]) <==> Readable(a) && Readable(b)
  {
    hide Items, Readable, PSEUDONYM;
    var line := a + "," + PSEUDONYM + "," + b;
    EntryIsItem(PSEUDONYM);
    BetweenNeighbours(a, PSEUDONYM, b);
    OneLineDecides([line], 0);
    assert [line][..0] + [line][1..] == [];
  }

  /** In particular an unreadable part after it hides it. */
  lemma UnreadableNeighbourHidesUs(other: string)
    requires !Readable(other)
    ensures !NamesUs([PSEUDONYM + "," + other])
  {
    var line := PSEUDONYM + "," + other;
    assert line == PSEUDONYM + "," + [] + other;
    CombinedIsReadable(PSEUDONYM, [], other);
    assert Tokens([line]) == LineTokens(line) + Tokens([line][1..]);
  }

  // ---------------------------------------------------------------- what is filtered

  /** Exactly these names go, and those that a readable Connection line lists in any case. */
  lemma FilteredExactly(headers: HeaderMap, name: string)
    ensures name in Filtered(headers) <==>
              && name in headers
              && name != "connection" && name != "keep-alive" && name != "proxy-authenticate"
              && name != "proxy-authorization" && name != "te" && name != "trailers"
              && name != "transfer-encoding" && name != "upgrade"
              && forall t :: t in Tokens(GetAll(headers, "connection")) ==> Lower(t) != name
    ensures name in Filtered(headers) ==> Filtered(headers)[name] == headers[name]
  {
    hide Tokens, Lower;
  }

  /** The entry that is added, literally, behind all lines that came in and were kept. */
  lemma ViaSpelled(kept: HeaderMap)
    ensures ViaSent(kept) == GetAll(kept, "via") + ["1.1 squiddish"]
    ensures forall name :: name != "via" ==> GetAll(Append(kept, "via", PSEUDONYM), name) == GetAll(kept, name)
  {
  }

  /** Only visible characters of ASCII, spaces and tabs can be read. */
  lemma ReadableExactly(value: string)
    ensures Readable(value) <==> forall c :: c in value ==> c == '\t' || 32 <= c as int <= 126
  {
    if Readable(value) {
      forall c | c in value
        ensures c == '\t' || 32 <= c as int <= 126
      {
        var i :| 0 <= i < |value| && value[i] == c;
      }
    } else {
      var i :| 0 <= i < |value| && !(value[i] == '\t' || ' ' <= value[i] <= '~');
      assert value[i] in value;
    }
  }
}

/** Escaping for error pages: five replacements one after the other. */
module HtmlEscape {

  /** Every occurrence of one character replaced. */
  function Replace(s: string, c: char, entity: string): string {
    if s == [] then [] else (if s[0] == c then entity else [s[0]]) + Replace(s[1..], c, entity)
  }

  function Escape(s: string): string {
    Replace(Replace(Replace(Replace(Replace(s, '&', "&amp;"), '<', "&lt;"), '>', "&gt;"), '"', "&quot;"), '\'', "&#x27;")
  }

  /** What each character stands for in a page. */
  function Entity(c: char): string {
    if c == '&' then "&amp;"
    else if c == '<' then "&lt;"
    else if c == '>' then "&gt;"
    else if c == '"' then "&quot;"
    else if c == '\'' then "&#x27;"
    else [c]
  }

  function Substitute(s: string): string {
    if s == [] then [] else Entity(s[0]) + Substitute(s[1..])
  }

  lemma {:induction false} ReplaceAppend(a: string, b: string, c: char, entity: string)
    ensures Replace(a + b, c, entity) == Replace(a, c, entity) + Replace(b, c, entity)
  {
    if a == [] {
      assert a + b == b;
    } else {
      assert (a + b)[1..] == a[1..] + b;
      ReplaceAppend(a[1..], b, c, entity);
    }
  }

  lemma {:induction false} ReplaceAbsent(s: string, c: char, entity: string)
    requires c !in s
    ensures Replace(s, c, entity) == s
  {
    if s == [] {
    } else {
      assert s[0] in s;
      ReplaceAbsent(s[1..], c, entity);
    }
  }

  lemma EscapeAppend(a: string, b: string)
    ensures Escape(a + b) == Escape(a) + Escape(b)
  {
    var a1, b1 := Replace(a, '&', "&amp;"), Replace(b, '&', "&amp;");
    var a2, b2 := Replace(a1, '<', "&lt;"), Replace(b1, '<', "&lt;");
    var a3, b3 := Replace(a2, '>', "&gt;"), Replace(b2, '>', "&gt;");
    var a4, b4 := Replace(a3, '"', "&quot;"), Replace(b3, '"', "&quot;");
    ReplaceAppend(a, b, '&', "&amp;");
    ReplaceAppend(a1, b1, '<', "&lt;");
    ReplaceAppend(a2, b2, '>', "&gt;");
    ReplaceAppend(a3, b3, '"', "&quot;");
    ReplaceAppend(a4, b4, '\'', "&#x27;");
  }

  lemma ReplaceOne(c: char, d: char, entity: string)
    ensures Replace([c], d, entity) == if c == d then entity else [c]
  {
    assert [c][1..] == [];
    assert Replace([], d, entity) == [];
    assert entity + [] == entity;
  }

  lemma ReplaceEntity(s: string, c: char, entity: string)
    requires s in ["&amp;", "&lt;", "&gt;", "&quot;", "&#x27;"] && c in ['<', '>', '"', '\'']
    ensures Replace(s, c, entity) == s
  {
    ReplaceAbsent(s, c, entity);
  }

  lemma EscapeOne(c: char)
    ensures Escape([c]) == Entity(c)
  {
    ReplaceOne(c, '&', "&amp;");
    ReplaceOne(c, '<', "&lt;");
    ReplaceOne(c, '>', "&gt;");
    ReplaceOne(c, '"', "&quot;");
    ReplaceOne(c, '\'', "&#x27;");
    if c == '&' {
      ReplaceEntity("&amp;", '<', "&lt;");
      ReplaceEntity("&amp;", '>', "&gt;");
      ReplaceEntity("&amp;", '"', "&quot;");
      ReplaceEntity("&amp;", '\'', "&#x27;");
    } else if c == '<' {
      ReplaceEntity("&lt;", '>', "&gt;");
      ReplaceEntity("&lt;", '"', "&quot;");
      ReplaceEntity("&lt;", '\'', "&#x27;");
    } else if c == '>' {
      ReplaceEntity("&gt;", '"', "&quot;");
      ReplaceEntity("&gt;", '\'', "&#x27;");
    } else if c == '"' {
      ReplaceEntity("&quot;", '\'', "&#x27;");
    }
  }

  /** Five passes in a row do what one pass over the characters does. */
  lemma {:induction false} EscapeIsSubstitution(s: string)
    ensures Escape(s) == Substitute(s)
  {
    if s == [] {
    } else {
      assert s == [s[0]] + s[1..];
      EscapeAppend([s[0]], s[1..]);
      EscapeOne(s[0]);
      EscapeIsSubstitution(s[1..]);
    }
  }

  /** Reads a page back. */
  function Unescape(s: string): string {
    if s == [] then []
    else if "&amp;" <= s then ['&'] + Unescape(s[5..])
    else if "&lt;" <= s then ['<'] + Unescape(s[4..])
    else if "&gt;" <= s then ['>'] + Unescape(s[4..])
    else if "&quot;" <= s then ['"'] + Unescape(s[6..])
    else if "&#x27;" <= s then ['\''] + Unescape(s[6..])
    else [s[0]] + Unescape(s[1..])
  }

  lemma ReadsEntity(c: char, rest: string)
    ensures Unescape(Entity(c) + rest) == [c] + Unescape(rest)
  {
    var e := Entity(c);
    var s := e + rest;
    assert s[|e|..] == rest;
    assert e <= s && (|e| > 1 ==> s[1] == e[1]);
    if c == '&' {
      assert e == "&amp;";
    } else if c == '<' {
      assert e == "&lt;" && !("&amp;" <= s);
    } else if c == '>' {
      assert e == "&gt;" && !("&amp;" <= s) && !("&lt;" <= s);
    } else if c == '"' {
      assert e == "&quot;" && !("&amp;" <= s) && !("&lt;" <= s) && !("&gt;" <= s);
    } else if c == '\'' {
      assert e == "&#x27;" && !("&amp;" <= s) && !("&lt;" <= s) && !("&gt;" <= s) && !("&quot;" <= s);
    } else {
      assert s[0] == c != '&';
    }
  }

  /** Escaping loses nothing, and leaves no markup character behind. */
  lemma {:induction false} EscapeIsInvertible(s: string)
    ensures Unescape(Escape(s)) == s
  {
    EscapeIsSubstitution(s);
    if s == [] {
    } else {
      ReadsEntity(s[0], Substitute(s[1..]));
      EscapeIsSubstitution(s[1..]);
      EscapeIsInvertible(s[1..]);
    }
  }

  lemma {:induction false} NoMarkupLeft(s: string)
    ensures forall c :: c in ['<', '>', '"', '\''] ==> c !in Escape(s)
  {
    EscapeIsSubstitution(s);
    if s == [] {
    } else {
      EscapeIsSubstitution(s[1..]);
      NoMarkupLeft(s[1..]);
      forall c | c in ['<', '>', '"', '\'']
        ensures c !in Escape(s)
      {
        assert c !in Entity(s[0]);
      }
    }
  }

  /** The five characters and what they become; every other stays. */
  lemma EscapeSpelled(c: char)
    ensures Escape("&") == "&amp;" && Escape("<") == "&lt;" && Escape(">") == "&gt;"
    ensures Escape("\"") == "&quot;" && Escape("'") == "&#x27;"
    ensures c !in "&<>\"'" ==> Escape([c]) == [c]
  {
    hide Escape;
    EscapeOne('&');
    EscapeOne('<');
    EscapeOne('>');
    EscapeOne('"');
    EscapeOne('\'');
    EscapeOne(c);
  }
}

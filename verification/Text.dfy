/** The string operations of the header helpers, on the characters of one byte each that headers carry. */
module Text {
  import opened Common

  /** The pieces between separators; at least one, possibly empty. */
  function Split(s: string, sep: char): (parts: seq<string>)
    ensures parts != []
  {
    if s == [] then [""]
    else
      Grown(s[0], Split(s[1..], sep), sep)
  }

  /** The pieces of a text once a character is put in front of it. */
  function Grown(c: char, parts: seq<string>, sep: char): (grown: seq<string>)
    requires parts != []
    ensures grown != []
  {
    if c == sep then [""] + parts else [[c] + parts[0]] + parts[1..]
  }

  function Join(parts: seq<string>, sep: char): string
    requires parts != []
  {
    if |parts| == 1 then parts[0] else parts[0] + [sep] + Join(parts[1..], sep)
  }

  lemma SplitStep(c: char, rest: string, sep: char)
    ensures Split([c] + rest, sep) == Grown(c, Split(rest, sep), sep)
  {
    assert ([c] + rest)[1..] == rest;
  }

  lemma GrownAppend(c: char, first: seq<string>, second: seq<string>, sep: char)
    requires first != []
    ensures Grown(c, first + second, sep) == Grown(c, first, sep) + second
  {
    assert (first + second)[1..] == first[1..] + second;
  }

  lemma {:induction false} SplitAt(a: string, sep: char, b: string)
    ensures Split(a + [sep] + b, sep) == Split(a, sep) + Split(b, sep)
  {
    if a == [] {
      assert a + [sep] + b == [sep] + b;
      assert Split(a, sep) == [""];
      SplitStep(sep, b, sep);
    } else {
      hide Split, Grown;
      var rest, later := a[1..], a[1..] + [sep] + b;
      assert a + [sep] + b == [a[0]] + later && a == [a[0]] + rest;
      SplitAt(rest, sep, b);
      SplitStep(a[0], later, sep);
      SplitStep(a[0], rest, sep);
      GrownAppend(a[0], Split(rest, sep), Split(b, sep), sep);
    }
  }

  lemma {:induction false} SplitNone(s: string, sep: char)
    requires sep !in s
    ensures Split(s, sep) == [s]
  {
    if s == [] {
    } else {
      assert s[0] in s;
      SplitNone(s[1..], sep);
      assert s == [s[0]] + s[1..];
    }
  }

  /** Splitting is undone by joining, and leaves no separator behind. */
  lemma {:induction false} JoinSplit(s: string, sep: char)
    ensures Join(Split(s, sep), sep) == s
    ensures forall p :: p in Split(s, sep) ==> sep !in p
  {
    if s == [] {
    } else {
      var rest := Split(s[1..], sep);
      JoinSplit(s[1..], sep);
      if s[0] == sep {
        assert ([""] + rest)[1..] == rest;
      } else {
        var parts := [[s[0]] + rest[0]] + rest[1..];
        if |rest| == 1 {
        } else {
          assert parts[1..] == rest[1..];
          assert Join(parts, sep) == [s[0]] + Join(rest, sep);
        }
        forall p | p in parts
          ensures sep !in p
        {
          assert rest[0] in rest;
          if p != parts[0] { assert p in rest; }
        }
      }
    }
  }

  /** Joining pieces free of the separator is undone by splitting. */
  lemma {:induction false} SplitJoin(parts: seq<string>, sep: char)
    requires parts != []
    requires forall p :: p in parts ==> sep !in p
    ensures Split(Join(parts, sep), sep) == parts
  {
    SplitNone(parts[0], sep);
    if |parts| == 1 {
    } else {
      SplitJoin(parts[1..], sep);
      SplitAt(parts[0], sep, Join(parts[1..], sep));
    }
  }

  predicate Blank(c: char) { c == ' ' || c == '\t' }

  predicate AllBlank(s: string) { forall i :: 0 <= i < |s| ==> Blank(s[i]) }

  function TrimStart(s: string): string {
    if s != [] && Blank(s[0]) then TrimStart(s[1..]) else s
  }

  function TrimEnd(s: string): string {
    if s != [] && Blank(s[|s| - 1]) then TrimEnd(s[..|s| - 1]) else s
  }

  function Trim(s: string): string { TrimEnd(TrimStart(s)) }

  lemma {:induction false} TrimPadded(pad: string, s: string)
    requires AllBlank(pad)
    ensures Trim(pad + s) == Trim(s)
  {
    if pad == [] {
      assert pad + s == s;
    } else {
      assert (pad + s)[1..] == pad[1..] + s;
      TrimPadded(pad[1..], s);
    }
  }

  lemma TrimNone(s: string)
    requires s != [] && !Blank(s[0]) && !Blank(s[|s| - 1])
    ensures Trim(s) == s
  {
  }

  function LowerChar(c: char): char {
    if 'A' <= c <= 'Z' then c - 'A' + 'a' else c
  }

  function Lower(s: string): string {
    seq(|s|, i requires 0 <= i < |s| => LowerChar(s[i]))
  }

  predicate AllDigits(s: string) { forall i :: 0 <= i < |s| ==> '0' <= s[i] <= '9' }

  function DigitsValue(s: string): nat
    requires AllDigits(s)
  {
    if s == [] then 0
    else DigitsValue(s[..|s| - 1]) * 10 + (s[|s| - 1] as int - '0' as int)
  }

  const U64_LIMIT: nat := 0x1_0000_0000_0000_0000

  /** Rust's parsing of an unsigned 64-bit number: an optional plus sign, then digits, no overflow. */
  function ParseU64(s: string): (n: Option<nat>)
    ensures n.Some? ==> n.value < U64_LIMIT
  {
    var digits := if s != [] && s[0] == '+' then s[1..] else s;
    if digits != [] && AllDigits(digits) && DigitsValue(digits) < U64_LIMIT
    then Some(DigitsValue(digits)) else None
  }

  // ---------------------------------------------------------------- spelling of numbers and letters

  function Digit(d: nat): char
    requires d < 10
  {
    '0' + d as char
  }

  /** The usual spelling of a number. */
  function Decimal(n: nat): string {
    if n < 10 then [Digit(n)] else Decimal(n / 10) + [Digit(n % 10)]
  }

  lemma {:induction false} DecimalReadsBack(n: nat)
    ensures Decimal(n) != [] && AllDigits(Decimal(n)) && DigitsValue(Decimal(n)) == n
  {
    if n < 10 {
      assert Decimal(n)[..0] == [];
    } else {
      var s := Decimal(n);
      DecimalReadsBack(n / 10);
      assert s[..|s| - 1] == Decimal(n / 10);
    }
  }

  /** A number is read as itself, with or without a plus sign, if it is below 2^64, and else not at all. */
  lemma ParsesDecimal(n: nat)
    ensures
      var value := if n < 18_446_744_073_709_551_616 then Some(n) else None;
      ParseU64(Decimal(n)) == value && ParseU64("+" + Decimal(n)) == value
  {
    DecimalReadsBack(n);
    assert Decimal(n)[0] != '+';
    assert ("+" + Decimal(n))[1..] == Decimal(n);
  }

  /** Nothing is read as a number but digits, after at most one plus sign. */
  lemma ParsesNothingElse(s: string)
    requires ParseU64(s).Some?
    ensures s != [] && (s[0] == '+' ==> |s| > 1)
    ensures '0' <= s[0] <= '9' || s[0] == '+'
    ensures forall i :: 1 <= i < |s| ==> '0' <= s[i] <= '9'
  {
    if s[0] == '+' {
      forall i | 1 <= i < |s|
        ensures '0' <= s[i] <= '9'
      {
        assert s[1..][i - 1] == s[i];
      }
    }
  }

  /** The same character, or the same letter in the other case; only A to Z have another case. */
  predicate SameLetter(c: char, d: char) {
    || c == d
    || ('A' <= c <= 'Z' && d as int == c as int + 32)
    || ('A' <= d <= 'Z' && c as int == d as int + 32)
  }

  /** Case folding makes texts equal exactly if they differ in the case of letters at most. */
  lemma LowerIgnoresCase(a: string, b: string)
    ensures Lower(a) == Lower(b) <==> |a| == |b| && forall i :: 0 <= i < |a| ==> SameLetter(a[i], b[i])
  {
    if Lower(a) == Lower(b) {
      forall i | 0 <= i < |a|
        ensures SameLetter(a[i], b[i])
      {
        assert Lower(a)[i] == Lower(b)[i];
      }
    }
  }

  /** Spaces and tabs around a text go, and nothing else. */
  lemma TrimBoth(before: string, s: string, after: string)
    requires forall i :: 0 <= i < |before| ==> before[i] == ' ' || before[i] == '\t'
    requires forall i :: 0 <= i < |after| ==> after[i] == ' ' || after[i] == '\t'
    requires s != [] && s[0] !in " \t" && s[|s| - 1] !in " \t"
    ensures Trim(before + s + after) == s
  {
    assert before + s + after == before + (s + after);
    TrimPadded(before, s + after);
    EndTrimmed(s, after);
  }

  lemma {:induction false} EndTrimmed(s: string, after: string)
    requires s != [] && !Blank(s[|s| - 1]) && AllBlank(after)
    ensures TrimEnd(s + after) == s
  {
    if after == [] {
      assert s + after == s;
    } else {
      var n := |after| - 1;
      assert (s + after)[..|s| + n] == s + after[..n];
      EndTrimmed(s, after[..n]);
    }
  }
}

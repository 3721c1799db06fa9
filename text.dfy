/**
 * The pieces of Go's `fmt` and `strings` packages whose behaviour the metric
 * layer depends on: the space-delimited tokens that `fmt.Sscanf` reads with
 * `%s` and `%d`, the decimal text that `fmt.Sprintf("%d")` writes,
 * `strings.Join`, `strings.Split` and `strings.TrimPrefix`.
 */
module Text {

  /** The characters `fmt`'s scanner treats as white space. */
  predicate IsSpace(c: char) {
    ('\t' <= c <= '\r') || c == ' ' || c == '\U{0085}' || c == '\U{00A0}' || c == '\U{1680}'
    || ('\U{2000}' <= c <= '\U{200A}') || c == '\U{2028}' || c == '\U{2029}'
    || c == '\U{202F}' || c == '\U{205F}' || c == '\U{3000}'
  }

  predicate IsDigit(c: char) {
    '0' <= c <= '9'
  }

  predicate NoSpace(s: string) {
    forall i :: 0 <= i < |s| ==> !IsSpace(s[i])
  }

  predicate AllDigits(s: string) {
    forall i :: 0 <= i < |s| ==> IsDigit(s[i])
  }

  /** A token as `%s` reads it: non-empty and free of white space. */
  predicate IsWord(s: string) {
    s != [] && NoSpace(s)
  }

  // ---------------------------------------------------------------------------
  // Decimal numbers

  /** The value of a run of decimal digits (leading zeros allowed). */
  function DigitsValue(s: string): nat
    requires AllDigits(s)
    decreases |s|
  {
    if s == [] then 0 else DigitsValue(s[..|s| - 1]) * 10 + (s[|s| - 1] as int - '0' as int)
  }

  function DigitChar(d: nat): (c: char)
    requires d < 10
    ensures IsDigit(c) && c as int - '0' as int == d
  {
    ('0' as int + d) as char
  }

  /** `fmt.Sprintf("%d", n)` for a non-negative `n`. */
  function Decimal(n: nat): (s: string)
    ensures s != [] && AllDigits(s)
    ensures NoSpace(s)
  {
    if n < 10 then [DigitChar(n)] else Decimal(n / 10) + [DigitChar(n % 10)]
  }

  /** Reading back what `%d` wrote gives the number. */
  lemma {:induction false} DecimalRoundTrip(n: nat)
    ensures DigitsValue(Decimal(n)) == n
  {
    var s := Decimal(n);
    if n >= 10 {
      DecimalRoundTrip(n / 10);
      assert s[..|s| - 1] == Decimal(n / 10);
    }
  }

  /** The longest prefix of `s` made of digits: what `%d` consumes. */
  function LeadingDigits(s: string): (d: string)
    ensures |d| <= |s| && d == s[..|d|]
    ensures AllDigits(d)
    ensures |d| == |s| || !IsDigit(s[|d|])
  {
    if s != [] && IsDigit(s[0]) then [s[0]] + LeadingDigits(s[1..]) else []
  }

  lemma {:induction false} LeadingDigitsOf(d: string, rest: string)
    requires AllDigits(d)
    requires rest == [] || !IsDigit(rest[0])
    ensures LeadingDigits(d + rest) == d
  {
    if d != [] {
      assert (d + rest)[1..] == d[1..] + rest;
      LeadingDigitsOf(d[1..], rest);
    } else {
      assert d + rest == rest;
    }
  }

  // ---------------------------------------------------------------------------
  // Space-delimited tokens

  /** Drops the leading white space, as every scanning verb but `%c` does. */
  function SkipSpaces(s: string): (t: string)
    ensures |t| <= |s| && t == s[|s| - |t|..]
    ensures t == [] || !IsSpace(t[0])
  {
    if s != [] && IsSpace(s[0]) then SkipSpaces(s[1..]) else s
  }

  /** The longest space-free prefix: what `%s` consumes. */
  function Token(s: string): (w: string)
    ensures |w| <= |s| && w == s[..|w|]
    ensures NoSpace(w)
    ensures s != [] && !IsSpace(s[0]) ==> w != []
  {
    if s != [] && !IsSpace(s[0]) then [s[0]] + Token(s[1..]) else []
  }

  /** The successive tokens of `s`, as a run of `%s` verbs reads them. */
  function Fields(s: string): seq<string>
    decreases |s|
  {
    var t := SkipSpaces(s);
    if t == [] then [] else
      var w := Token(t);
      [w] + Fields(t[|w|..])
  }

  /** Every field is a word. */
  lemma {:induction false} FieldsAreWords(s: string)
    ensures forall i :: 0 <= i < |Fields(s)| ==> IsWord(Fields(s)[i])
    decreases |s|
  {
    var t := SkipSpaces(s);
    if t != [] {
      var w := Token(t);
      var rest := Fields(t[|w|..]);
      FieldsAreWords(t[|w|..]);
      assert Fields(s) == [w] + rest;
      forall i | 0 <= i < |Fields(s)|
        ensures IsWord(Fields(s)[i])
      {
        if i > 0 {
          assert Fields(s)[i] == rest[i - 1];
        }
      }
    }
  }

  lemma {:induction false} TokenOf(w: string, rest: string)
    requires NoSpace(w)
    requires rest == [] || IsSpace(rest[0])
    ensures Token(w + rest) == w
  {
    if w != [] {
      assert (w + rest)[1..] == w[1..] + rest;
      TokenOf(w[1..], rest);
    } else {
      assert w + rest == rest;
    }
  }

  lemma {:induction false} FieldsOfWord(w: string)
    requires IsWord(w)
    ensures Fields(w) == [w]
  {
    assert w + [] == w;
    TokenOf(w, []);
    assert w[|w|..] == [];
  }

  /** A word followed by a space is the first field; tokenizing goes on after the space. */
  lemma {:induction false} FieldsCons(w: string, rest: string)
    requires IsWord(w)
    ensures Fields(w + " " + rest) == [w] + Fields(rest)
  {
    var s := w + " " + rest;
    assert SkipSpaces(s) == s;
    assert s == w + (" " + rest);
    TokenOf(w, " " + rest);
    assert s[|w|..] == " " + rest;
    assert SkipSpaces(" " + rest) == SkipSpaces(rest) by {
      assert (" " + rest)[1..] == rest;
    }
  }

  /** Joining words with single spaces and tokenizing again gives the words back. */
  lemma {:induction false} FieldsOfJoin(ws: seq<string>)
    requires forall i :: 0 <= i < |ws| ==> IsWord(ws[i])
    ensures Fields(Join(ws, " ")) == ws
  {
    if |ws| == 1 {
      FieldsOfWord(ws[0]);
    } else if |ws| > 1 {
      var tail := ws[1..];
      FieldsOfJoin(tail);
      FieldsOfJoinStep(ws, Join(tail, " "));
    }
  }

  lemma {:induction false} FieldsOfJoinStep(ws: seq<string>, joinedTail: string)
    requires |ws| > 1 && IsWord(ws[0])
    requires joinedTail == Join(ws[1..], " ") && Fields(joinedTail) == ws[1..]
    ensures Fields(Join(ws, " ")) == ws
  {
    assert Join(ws, " ") == ws[0] + " " + joinedTail;
    FieldsCons(ws[0], joinedTail);
    HeadTail(ws);
  }

  lemma HeadTail<T>(xs: seq<T>)
    requires xs != []
    ensures [xs[0]] + xs[1..] == xs
  {
  }

  // ---------------------------------------------------------------------------
  // strings.Join, strings.Split, strings.TrimPrefix

  /** `strings.Join(xs, sep)`. */
  function Join(xs: seq<string>, sep: string): (s: string)
    ensures xs == [] ==> s == ""
  {
    if xs == [] then ""
    else if |xs| == 1 then xs[0]
    else xs[0] + sep + Join(xs[1..], sep)
  }

  /** `strings.Split(s, string(sep))`: the pieces between occurrences of `sep`. */
  function Split(s: string, sep: char): (parts: seq<string>)
    ensures |parts| >= 1
  {
    if s == [] then [""]
    else
      var rest := Split(s[1..], sep);
      if s[0] == sep then [""] + rest else [[s[0]] + rest[0]] + rest[1..]
  }

  lemma {:induction false} SplitNoSep(x: string, sep: char)
    requires sep !in x
    ensures Split(x, sep) == [x]
  {
    if x != [] {
      SplitNoSep(x[1..], sep);
      assert [x[0]] + x[1..] == x;
    }
  }

  lemma {:induction false} SplitPiece(x: string, sep: char, rest: string)
    requires sep !in x
    ensures Split(x + [sep] + rest, sep) == [x] + Split(rest, sep)
  {
    if x == [] {
      assert x + [sep] + rest == [sep] + rest;
      assert ([sep] + rest)[1..] == rest;
    } else {
      assert (x + [sep] + rest)[1..] == x[1..] + [sep] + rest;
      SplitPiece(x[1..], sep, rest);
      assert [x[0]] + x[1..] == x;
    }
  }

  /** Splitting a joined list on a separator that none of its items contains gives the list back. */
  lemma {:induction false} SplitJoin(xs: seq<string>, sep: char)
    requires xs != []
    requires forall i :: 0 <= i < |xs| ==> sep !in xs[i]
    ensures Split(Join(xs, [sep]), sep) == xs
  {
    if |xs| == 1 {
      SplitNoSep(xs[0], sep);
    } else {
      SplitPiece(xs[0], sep, Join(xs[1..], [sep]));
      SplitJoin(xs[1..], sep);
    }
  }

  /** No piece of a split holds the separator. */
  lemma {:induction false} SplitPiecesLackSep(s: string, sep: char)
    ensures forall i :: 0 <= i < |Split(s, sep)| ==> sep !in Split(s, sep)[i]
  {
    if s != [] {
      SplitPiecesLackSep(s[1..], sep);
      var rest := Split(s[1..], sep);
      if s[0] != sep {
        assert sep !in [s[0]] + rest[0];
      }
    }
  }

  /** `strings.TrimPrefix(s, prefix)`: removes one leading `prefix`, if present. */
  function TrimPrefix(s: string, prefix: string): (r: string)
    ensures |s| >= |prefix| && s[..|prefix|] == prefix ==> prefix + r == s
    ensures !(|s| >= |prefix| && s[..|prefix|] == prefix) ==> r == s
  {
    if |s| >= |prefix| && s[..|prefix|] == prefix then s[|prefix|..] else s
  }
}

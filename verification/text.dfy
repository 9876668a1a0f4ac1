/** The JavaScript string operations the application relies on, over `string`
    (a sequence of Unicode scalar values): `trim`, `includes`, `split` and `join`
    with a one-character separator, and the decimal rendering of a count inside a
    template literal. */
module Text {

  // ---------------------------------------------------------------------------
  // Whitespace and trim
  // ---------------------------------------------------------------------------

  /** The characters `String.prototype.trim` removes: the ECMAScript WhiteSpace
      characters (tab, vertical tab, form feed, space, no-break space, the byte
      order mark and the space separators) and the LineTerminator characters. */
  predicate IsWhitespace(c: char) {
    || c == '\U{0009}' || c == '\U{000A}' || c == '\U{000B}' || c == '\U{000C}'
    || c == '\U{000D}' || c == ' ' || c == '\U{00A0}' || c == '\U{1680}'
    || ('\U{2000}' <= c <= '\U{200A}')
    || c == '\U{2028}' || c == '\U{2029}' || c == '\U{202F}' || c == '\U{205F}'
    || c == '\U{3000}' || c == '\U{FEFF}'
  }

  predicate AllWhitespace(s: string) {
    forall i :: 0 <= i < |s| ==> IsWhitespace(s[i])
  }

  /** Neither end of `s` is whitespace; the empty string qualifies. */
  predicate NoOuterWhitespace(s: string) {
    |s| == 0 || (!IsWhitespace(s[0]) && !IsWhitespace(s[|s| - 1]))
  }

  lemma BlankPrefixGrows(s: string, n: nat)
    requires 0 < n <= |s| && IsWhitespace(s[0]) && AllWhitespace(s[1..][..n - 1])
    ensures AllWhitespace(s[..n])
  {
  }

  lemma BlankSuffixGrows(s: string, n: nat)
    requires n < |s| && IsWhitespace(s[|s| - 1]) && AllWhitespace(s[..|s| - 1][n..])
    ensures AllWhitespace(s[n..])
  {
  }

  /** `s` with its leading whitespace removed. */
  function TrimStart(s: string): (r: string)
    ensures |r| <= |s| && r == s[|s| - |r|..]
    ensures AllWhitespace(s[..|s| - |r|])
    ensures |r| == 0 || !IsWhitespace(r[0])
    decreases |s|
  {
    if |s| > 0 && IsWhitespace(s[0]) then
      var r := TrimStart(s[1..]);
      BlankPrefixGrows(s, |s| - |r|);
      r
    else
      s
  }

  /** `s` with its trailing whitespace removed. */
  function TrimEnd(s: string): (r: string)
    ensures |r| <= |s| && r == s[..|r|]
    ensures AllWhitespace(s[|r|..])
    ensures |r| == 0 || !IsWhitespace(r[|r| - 1])
    decreases |s|
  {
    if |s| > 0 && IsWhitespace(s[|s| - 1]) then
      var r := TrimEnd(s[..|s| - 1]);
      BlankSuffixGrows(s, |r|);
      r
    else
      s
  }

  /** `r` sits at position `i` of `s` with only whitespace before and after it. */
  predicate IsTrimmedInfix(r: string, s: string, i: nat) {
    i + |r| <= |s| && r == s[i..i + |r|] && AllWhitespace(s[..i]) && AllWhitespace(s[i + |r|..])
  }

  /** `String.prototype.trim`: the longest infix of `s` that neither starts nor
      ends with whitespace, once only whitespace has been cut from either end. */
  function Trim(s: string): (r: string)
    ensures NoOuterWhitespace(r)
    ensures |r| <= |s|
    ensures exists i: nat :: IsTrimmedInfix(r, s, i)
  {
    var r := TrimEnd(TrimStart(s));
    TrimIsInfix(s);
    r
  }

  lemma TrimIsInfix(s: string)
    ensures IsTrimmedInfix(TrimEnd(TrimStart(s)), s, |s| - |TrimStart(s)|)
  {
    InfixOfTwoCuts(s, TrimStart(s), TrimEnd(TrimStart(s)));
  }

  /** Cutting whitespace off the front of `s`, then off the back of the rest,
      leaves an infix with only whitespace around it. */
  lemma InfixOfTwoCuts(s: string, t: string, r: string)
    requires |t| <= |s| && t == s[|s| - |t|..] && AllWhitespace(s[..|s| - |t|])
    requires |r| <= |t| && r == t[..|r|] && AllWhitespace(t[|r|..])
    ensures IsTrimmedInfix(r, s, |s| - |t|)
  {
  }

  /** Trimming leaves a string with no outer whitespace as it is. */
  lemma TrimKeepsTrimmed(s: string)
    requires NoOuterWhitespace(s)
    ensures Trim(s) == s
  {
  }

  /** Trimming is idempotent. */
  lemma TrimIdempotent(s: string)
    ensures Trim(Trim(s)) == Trim(s)
  {
  }

  /** A string trims to the empty string exactly when it is blank. */
  lemma TrimEmptyIffBlank(s: string)
    ensures Trim(s) == "" <==> AllWhitespace(s)
  {
  }

  // ---------------------------------------------------------------------------
  // includes
  // ---------------------------------------------------------------------------

  /** `needle` occurs in `s` starting at index `i`. */
  predicate OccursAt(s: string, needle: string, i: int) {
    0 <= i && i + |needle| <= |s| && s[i..i + |needle|] == needle
  }

  /** `String.prototype.includes`: a left-to-right scan for `needle`. */
  function Contains(s: string, needle: string): (b: bool)
    ensures b <==> exists i :: OccursAt(s, needle, i)
    decreases |s|
  {
    if |s| < |needle| then
      false
    else if s[..|needle|] == needle then
      assert OccursAt(s, needle, 0);
      true
    else
      var b := Contains(s[1..], needle);
      ShiftOccurrence(s, needle);
      b
  }

  /** An occurrence in `s` past index 0 is an occurrence in `s[1..]`, and back. */
  lemma ShiftOccurrence(s: string, needle: string)
    requires |s| > 0
    ensures forall i :: OccursAt(s[1..], needle, i) ==> OccursAt(s, needle, i + 1)
    ensures forall i :: i > 0 && OccursAt(s, needle, i) ==> OccursAt(s[1..], needle, i - 1)
  {
  }

  /** Text that contains a needle still contains it after anything is put around it. */
  lemma ContainsInContext(a: string, s: string, b: string, needle: string)
    requires Contains(s, needle)
    ensures Contains(a + s + b, needle)
  {
    var i :| OccursAt(s, needle, i);
    assert (a + s + b)[|a| + i..|a| + i + |needle|] == s[i..i + |needle|];
    assert OccursAt(a + s + b, needle, |a| + i);
  }

  // ---------------------------------------------------------------------------
  // split and join on a one-character separator
  // ---------------------------------------------------------------------------

  /** `Array.prototype.join(sep)`: the empty list gives "", one element gives
      itself, and later elements are each preceded by the separator. */
  function Join(parts: seq<string>, sep: char): string
    decreases |parts|
  {
    if |parts| == 0 then ""
    else if |parts| == 1 then parts[0]
    else parts[0] + [sep] + Join(parts[1..], sep)
  }

  /** `String.prototype.split(sep)` for a one-character separator: the maximal
      separator-free pieces, in order, so there is always at least one piece and
      joining them back gives `s`. */
  function Split(s: string, sep: char): (parts: seq<string>)
    ensures |parts| >= 1
    ensures forall i :: 0 <= i < |parts| ==> sep !in parts[i]
    ensures Join(parts, sep) == s
    decreases |s|
  {
    if |s| == 0 then
      [""]
    else
      var rest := Split(s[1..], sep);
      if s[0] == sep then
        assert ([""] + rest)[1..] == rest;
        [""] + rest
      else
        var parts := [[s[0]] + rest[0]] + rest[1..];
        assert parts[1..] == rest[1..];
        assert s == [s[0]] + s[1..];
        parts
  }

  /** Text without the separator is one piece. */
  lemma SplitWithoutSeparator(s: string, sep: char)
    requires sep !in s
    ensures Split(s, sep) == [s]
  {
  }

  /** Text with the separator splits into two or more pieces, the first of them
      strictly shorter than the text. */
  lemma SplitWithSeparator(s: string, sep: char)
    requires sep in s
    ensures |Split(s, sep)| >= 2
    ensures |Split(s, sep)[0]| < |s|
  {
  }

  /** Text splits into more than one piece exactly when it holds the separator. */
  lemma SplitCount(s: string, sep: char)
    ensures |Split(s, sep)| >= 2 <==> sep in s
  {
  }

  /** One step of the split: a leading separator starts a new empty piece, any
      other character joins the first piece. */
  lemma SplitCons(c: char, t: string, sep: char)
    ensures var rest := Split(t, sep);
            Split([c] + t, sep) == if c == sep then [""] + rest else [[c] + rest[0]] + rest[1..]
  {
  }

  lemma ConcatAssociates<T>(x: seq<T>, a: seq<T>, b: seq<T>)
    ensures x + (a + b) == (x + a) + b
  {
  }

  /** Splitting around a separator splits the two sides independently. */
  lemma {:induction false} SplitAppend(a: string, b: string, sep: char)
    ensures Split(a + [sep] + b, sep) == Split(a, sep) + Split(b, sep)
    decreases |a|
  {
    if |a| == 0 {
      assert a + [sep] + b == [sep] + b;
      SplitCons(sep, b, sep);
    } else {
      assert a == [a[0]] + a[1..];
      assert a + [sep] + b == [a[0]] + (a[1..] + [sep] + b);
      SplitAppend(a[1..], b, sep);
      SplitAppendStep(a[0], a[1..], b, sep);
    }
  }

  /** The inductive step of `SplitAppend`: one more character in front. */
  lemma SplitAppendStep(c: char, t: string, b: string, sep: char)
    requires Split(t + [sep] + b, sep) == Split(t, sep) + Split(b, sep)
    ensures Split([c] + (t + [sep] + b), sep) == Split([c] + t, sep) + Split(b, sep)
  {
    SplitCons(c, t + [sep] + b, sep);
    SplitCons(c, t, sep);
    if c != sep {
      ExtendFirstPiece(c, Split(t, sep), Split(b, sep));
    } else {
      ConcatAssociates([""], Split(t, sep), Split(b, sep));
    }
  }

  /** Growing the first piece of a list commutes with appending more pieces. */
  lemma ExtendFirstPiece(c: char, front: seq<string>, back: seq<string>)
    requires |front| >= 1
    ensures var whole := front + back;
            [[c] + whole[0]] + whole[1..] == ([[c] + front[0]] + front[1..]) + back
  {
  }

  /** A separator-free piece between two separators is one piece of the split. */
  lemma SplitAround(a: string, mid: string, b: string, sep: char)
    requires sep !in mid
    ensures Split(a + [sep] + (mid + [sep] + b), sep) == Split(a, sep) + [mid] + Split(b, sep)
  {
    SplitAppend(a, mid + [sep] + b, sep);
    SplitAppend(mid, b, sep);
    SplitWithoutSeparator(mid, sep);
  }

  /** Joining and then splitting a list of separator-free pieces gives the list back. */
  lemma {:induction false} SplitJoin(parts: seq<string>, sep: char)
    requires |parts| >= 1
    requires forall i :: 0 <= i < |parts| ==> sep !in parts[i]
    ensures Split(Join(parts, sep), sep) == parts
    decreases |parts|
  {
    SplitWithoutSeparator(parts[0], sep);
    if |parts| >= 2 {
      SplitJoin(parts[1..], sep);
      SplitAppend(parts[0], Join(parts[1..], sep), sep);
      assert parts == [parts[0]] + parts[1..];
    }
  }

  // ---------------------------------------------------------------------------
  // Suffixes
  // ---------------------------------------------------------------------------

  predicate IsSuffix(t: string, s: string) {
    |t| <= |s| && s[|s| - |t|..] == t
  }

  lemma SuffixTransitive(a: string, b: string, c: string)
    requires IsSuffix(a, b) && IsSuffix(b, c)
    ensures IsSuffix(a, c)
  {
  }

  /** Joining any tail of a list gives a suffix of joining the whole list. */
  lemma {:induction false} JoinTailIsSuffix(parts: seq<string>, sep: char, k: nat)
    requires k <= |parts|
    ensures IsSuffix(Join(parts[k..], sep), Join(parts, sep))
    decreases k
  {
    if k == 0 {
      assert parts[k..] == parts;
    } else if |parts| == 1 {
      assert parts[k..] == [];
    } else {
      JoinTailIsSuffix(parts[1..], sep, k - 1);
      assert parts[1..][k - 1..] == parts[k..];
      var whole := Join(parts, sep);
      var tail := Join(parts[1..], sep);
      assert whole == (parts[0] + [sep]) + tail;
      assert IsSuffix(tail, whole);
      SuffixTransitive(Join(parts[k..], sep), tail, whole);
    }
  }

  // ---------------------------------------------------------------------------
  // Decimal rendering
  // ---------------------------------------------------------------------------

  predicate IsDigit(c: char) {
    '0' <= c <= '9'
  }

  /** The number a string of decimal digits denotes. */
  function DigitsValue(s: string): nat
    requires forall i :: 0 <= i < |s| ==> IsDigit(s[i])
    decreases |s|
  {
    if |s| == 0 then 0
    else
      assert IsDigit(s[|s| - 1]);
      10 * DigitsValue(s[..|s| - 1]) + (s[|s| - 1] as int - '0' as int)
  }

  /** How a template literal renders a non-negative integer: its shortest decimal
      form, which reads back as the same number. */
  function NatToString(n: nat): (r: string)
    ensures |r| >= 1
    ensures forall i :: 0 <= i < |r| ==> IsDigit(r[i])
    ensures r[0] == '0' ==> r == "0"
    ensures DigitsValue(r) == n
    decreases n
  {
    var last := [('0' as int + n % 10) as char];
    if n < 10 then
      last
    else
      var front := NatToString(n / 10);
      var r := front + last;
      assert r[..|r| - 1] == front;
      r
  }
}

/** The JavaScript string operations the application uses on file names and paths:
    `split`, `join`, `pop` of the split pieces, `toLowerCase` and number-to-text. */
module Text {

  /** `s.split(c)` for a one-character separator: the maximal pieces between
      separators, always at least one (`"".split("-")` is `[""]`). */
  function Split(s: string, c: char): (r: seq<string>)
    ensures |r| >= 1
    ensures forall i :: 0 <= i < |r| ==> c !in r[i]
  {
    if s == [] then [""]
    else if s[0] == c then [""] + Split(s[1..], c)
    else
      var rest := Split(s[1..], c);
      [[s[0]] + rest[0]] + rest[1..]
  }

  /** `parts.join(c)`. */
  function Join(parts: seq<string>, c: char): string {
    if |parts| == 0 then ""
    else if |parts| == 1 then parts[0]
    else parts[0] + [c] + Join(parts[1..], c)
  }

  /** Joining the pieces of a split gives back the text. */
  lemma {:induction false} JoinSplit(s: string, c: char)
    ensures Join(Split(s, c), c) == s
  {
    if s != [] {
      JoinSplit(s[1..], c);
      var rest := Split(s[1..], c);
      if s[0] == c {
        assert Split(s, c)[1..] == rest;
      } else if |rest| > 1 {
        assert Split(s, c)[1..] == rest[1..];
      }
    }
  }

  /** The first piece is the text up to the first separator: a prefix of `s`
      followed by `c`, or all of `s`. */
  lemma {:induction false} SplitFirstPiece(s: string, c: char)
    ensures Split(s, c)[0] <= s
    ensures |Split(s, c)[0]| < |s| ==> s[|Split(s, c)[0]|] == c
  {
    if s != [] && s[0] != c {
      SplitFirstPiece(s[1..], c);
    }
  }

  /** A text without the separator splits into itself alone. */
  lemma {:induction false} SplitWithoutSeparator(s: string, c: char)
    requires c !in s
    ensures Split(s, c) == [s]
  {
    if s != [] {
      assert s[0] != c && c !in s[1..];
      SplitWithoutSeparator(s[1..], c);
      assert [s[0]] + s[1..] == s;
    }
  }

  /** Splitting at one separator occurrence splits both sides independently. */
  lemma {:induction false} SplitAround(a: string, b: string, c: char)
    ensures Split(a + [c] + b, c) == Split(a, c) + Split(b, c)
  {
    if a == [] {
      assert a + [c] + b == [c] + b;
    } else {
      var s := a + [c] + b;
      assert s[0] == a[0] && s[1..] == a[1..] + [c] + b;
      SplitAround(a[1..], b, c);
      var rest := Split(s[1..], c);
      assert rest == Split(a[1..], c) + Split(b, c);
      if a[0] != c {
        var front := Split(a[1..], c);
        assert Split(s, c) == [[a[0]] + rest[0]] + rest[1..];
        assert rest[0] == front[0] && rest[1..] == front[1..] + Split(b, c);
        assert Split(a, c) == [[a[0]] + front[0]] + front[1..];
      }
    }
  }

  /** `s.split(c).pop()`: the last piece. */
  function LastPiece(s: string, c: char): string {
    var parts := Split(s, c);
    parts[|parts| - 1]
  }

  /** `s.split(c).slice(1).join(c)`: everything after the first separator, or
      the empty text when there is none. */
  function AfterFirst(s: string, c: char): string {
    Join(Split(s, c)[1..], c)
  }

  /** The last piece is the text after the last separator. */
  lemma LastPieceAfterLast(a: string, b: string, c: char)
    requires c !in b
    ensures LastPiece(a + [c] + b, c) == b
  {
    SplitAround(a, b, c);
    SplitWithoutSeparator(b, c);
  }

  /** Dropping through the first separator leaves exactly what follows it,
      later separators included. */
  lemma AfterFirstSeparator(a: string, b: string, c: char)
    requires c !in a
    ensures AfterFirst(a + [c] + b, c) == b
  {
    SplitAround(a, b, c);
    SplitWithoutSeparator(a, c);
    assert Split(a + [c] + b, c)[1..] == Split(b, c);
    JoinSplit(b, c);
  }

  /** With no separator at all there is nothing after the first one. */
  lemma AfterFirstWithoutSeparator(s: string, c: char)
    requires c !in s
    ensures AfterFirst(s, c) == ""
  {
    SplitWithoutSeparator(s, c);
  }

  /** One character of `toLowerCase()`, on the ASCII letters. */
  function LowerChar(c: char): char {
    if 'A' <= c <= 'Z' then (c as int + 32) as char else c
  }

  /** `toLowerCase()`, character by character. */
  function ToLower(s: string): (r: string)
    ensures |r| == |s|
    ensures forall i :: 0 <= i < |s| ==> r[i] == LowerChar(s[i])
  {
    if s == [] then [] else [LowerChar(s[0])] + ToLower(s[1..])
  }

  /** Lower-casing twice is lower-casing once. */
  lemma ToLowerIdempotent(s: string)
    ensures ToLower(ToLower(s)) == ToLower(s)
  {
    var once := ToLower(s);
    assert forall i :: 0 <= i < |s| ==> LowerChar(once[i]) == once[i];
  }

  /** Lower-casing commutes with taking a suffix. */
  lemma ToLowerSuffix(s: string, k: nat)
    requires k <= |s|
    ensures ToLower(s)[k..] == ToLower(s[k..])
  {
  }

  /** `String(n)` for a non-negative integer: its decimal digits. */
  function Decimal(n: nat): (r: string)
    ensures |r| >= 1
    ensures forall i :: 0 <= i < |r| ==> '0' <= r[i] <= '9'
  {
    var d := ['0' + (n % 10) as char];
    if n < 10 then d else Decimal(n / 10) + d
  }
}

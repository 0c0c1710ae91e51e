/**
 * The two pieces of string handling the scheduler relies on: splitting a
 * script line on single spaces (`String.prototype.split(" ")`) and writing
 * a frame number in decimal (the implicit conversion in `"frame" + n`).
 */
module Text {

  /** The separator of a script line. */
  const Space: char := ' '

  /**
   * The pieces of `s` between single spaces, left to right. Like
   * `split(" ")`: an empty string gives one empty piece and two adjacent
   * spaces give an empty piece between them.
   */
  function Split(s: string): (parts: seq<string>)
    ensures |parts| >= 1
  {
    if |s| == 0 then [""]
    else
      var rest := Split(s[1..]);
      if s[0] == Space then [""] + rest
      else [[s[0]] + rest[0]] + rest[1..]
  }

  /** The pieces joined back together with one space between neighbours. */
  function Join(parts: seq<string>): (s: string)
    requires |parts| >= 1
    decreases |parts|
  {
    if |parts| == 1 then parts[0] else parts[0] + [Space] + Join(parts[1..])
  }

  /** No piece produced by Split contains the separator. */
  lemma {:induction false} SplitPiecesHaveNoSpace(s: string)
    ensures forall i :: 0 <= i < |Split(s)| ==> Space !in Split(s)[i]
  {
    if |s| > 0 {
      SplitPiecesHaveNoSpace(s[1..]);
      var rest := Split(s[1..]);
      if s[0] != Space {
        assert Space !in rest[0];
        assert Split(s)[0] == [s[0]] + rest[0];
        forall i | 0 <= i < |Split(s)| ensures Space !in Split(s)[i] {
          if i > 0 {
            assert Split(s)[i] == rest[i];
          }
        }
      }
    }
  }

  /** Splitting loses nothing: joining the pieces gives back the line. */
  lemma {:induction false} JoinSplit(s: string)
    ensures Join(Split(s)) == s
  {
    if |s| > 0 {
      JoinSplit(s[1..]);
      var rest := Split(s[1..]);
      if s[0] == Space {
        assert Split(s) == [""] + rest;
        assert Split(s)[1..] == rest;
        assert s == [s[0]] + s[1..];
      } else {
        var parts := Split(s);
        assert parts == [[s[0]] + rest[0]] + rest[1..];
        if |rest| == 1 {
          assert s == [s[0]] + rest[0];
        } else {
          assert parts[1..] == rest[1..];
          assert Join(rest) == rest[0] + [Space] + Join(rest[1..]);
          assert s == [s[0]] + s[1..];
        }
      }
    }
  }

  /** A space-free word followed by anything is read as the head of the first piece. */
  lemma {:induction false} SplitAfterWord(w: string, tail: string)
    requires Space !in w
    ensures Split(w + tail) == [w + Split(tail)[0]] + Split(tail)[1..]
    decreases |w|
  {
    if |w| > 0 {
      assert w == [w[0]] + w[1..];
      assert (w + tail)[1..] == w[1..] + tail;
      SplitAfterWord(w[1..], tail);
      var rest := Split(w[1..] + tail);
      assert (w + tail)[0] == w[0] && w[0] != Space;
      assert Split(w + tail) == [[w[0]] + rest[0]] + rest[1..];
      assert rest[0] == w[1..] + Split(tail)[0];
      assert rest[1..] == Split(tail)[1..];
      assert [w[0]] + (w[1..] + Split(tail)[0]) == w + Split(tail)[0];
    } else {
      assert w + tail == tail;
      assert w + Split(tail)[0] == Split(tail)[0];
      assert Split(tail) == [Split(tail)[0]] + Split(tail)[1..];
    }
  }

  /** Space-free words joined by single spaces split back into the same words. */
  lemma {:induction false} SplitJoin(parts: seq<string>)
    requires |parts| >= 1
    requires forall i :: 0 <= i < |parts| ==> Space !in parts[i]
    ensures Split(Join(parts)) == parts
    decreases |parts|
  {
    if |parts| == 1 {
      SplitAfterWord(parts[0], "");
      assert parts[0] + "" == parts[0];
    } else {
      var tail := [Space] + Join(parts[1..]);
      SplitJoin(parts[1..]);
      assert tail[1..] == Join(parts[1..]);
      assert Split(tail) == [""] + parts[1..];
      assert parts[0] + tail == Join(parts);
      SplitAfterWord(parts[0], tail);
      assert parts[0] + "" == parts[0];
    }
  }

  /** The character of a decimal digit. */
  function DigitChar(d: nat): (c: char)
    requires d < 10
    ensures '0' <= c <= '9'
  {
    ('0' as int + d) as char
  }

  predicate IsDigits(s: string)
  {
    forall i :: 0 <= i < |s| ==> '0' <= s[i] <= '9'
  }

  /**
   * The decimal numeral of `n`, as JavaScript writes a non-negative
   * integer: at least one digit and no leading zero.
   */
  function NatToString(n: nat): (s: string)
    ensures |s| >= 1 && IsDigits(s)
    ensures s[0] == '0' ==> n == 0 && s == "0"
  {
    if n < 10 then [DigitChar(n)] else NatToString(n / 10) + [DigitChar(n % 10)]
  }

  /** The number a string of decimal digits denotes. */
  function DecimalValue(s: string): nat
    requires IsDigits(s)
  {
    if s == [] then 0
    else DecimalValue(s[..|s| - 1]) * 10 + (s[|s| - 1] as int - '0' as int)
  }

  /** Reading back a numeral gives the number it was written from. */
  lemma {:induction false} DecimalRoundTrip(n: nat)
    ensures DecimalValue(NatToString(n)) == n
  {
    if n >= 10 {
      DecimalRoundTrip(n / 10);
      var s := NatToString(n);
      assert s[..|s| - 1] == NatToString(n / 10);
    }
  }

  /** Different frame numbers are written differently. */
  lemma NatToStringInjective(a: nat, b: nat)
    ensures NatToString(a) == NatToString(b) <==> a == b
  {
    DecimalRoundTrip(a);
    DecimalRoundTrip(b);
  }
}

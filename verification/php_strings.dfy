/**
 * The PHP string functions the migration relies on: `explode`, `trim`,
 * `strpos( ... ) !== false`, and the conversion MySQL applies when a string
 * is stored into an integer column.
 */
module PhpStrings {

  /** The characters `trim()` strips by default: " \t\n\r\0\x0B". */
  predicate IsTrimmed(c: char)
  {
    c == ' ' || c == '\t' || c == '\n' || c == '\r' || c == '\0' || c == '\U{B}'
  }

  /** Number of occurrences of `c` in `s`. */
  function Occurrences(c: char, s: string): nat
  {
    if s == [] then 0 else (if s[0] == c then 1 else 0) + Occurrences(c, s[1..])
  }

  /**
   * `explode( sep, s )`: the pieces between separators, empty pieces
   * included; one more piece than there are separators, none containing one.
   */
  function Explode(sep: char, s: string): (pieces: seq<string>)
    ensures |pieces| == Occurrences(sep, s) + 1
    ensures forall i :: 0 <= i < |pieces| ==> sep !in pieces[i]
  {
    if s == [] then [""]
    else
      var rest := Explode(sep, s[1..]);
      if s[0] == sep then [""] + rest else [[s[0]] + rest[0]] + rest[1..]
  }

  /** `implode( sep, pieces )` of a non-empty list. */
  function Implode(sep: char, pieces: seq<string>): string
    requires pieces != []
  {
    if |pieces| == 1 then pieces[0] else pieces[0] + [sep] + Implode(sep, pieces[1..])
  }

  /** Exploding loses nothing: gluing the pieces back gives the input. */
  lemma {:induction false} ImplodeExplode(sep: char, s: string)
    ensures Implode(sep, Explode(sep, s)) == s
  {
    if s != [] {
      var rest := Explode(sep, s[1..]);
      ImplodeExplode(sep, s[1..]);
      if s[0] == sep {
        assert Explode(sep, s) == [""] + rest;
        assert ([""] + rest)[1..] == rest;
      } else {
        var pieces := [[s[0]] + rest[0]] + rest[1..];
        assert Explode(sep, s) == pieces;
        if |rest| == 1 {
          assert Implode(sep, pieces) == [s[0]] + rest[0];
        } else {
          assert pieces[1..] == rest[1..];
          assert Implode(sep, rest) == rest[0] + [sep] + Implode(sep, rest[1..]);
        }
      }
    }
  }

  /** A string without the separator is one piece. */
  lemma {:induction false} ExplodeWhole(sep: char, s: string)
    requires sep !in s
    ensures Explode(sep, s) == [s]
  {
    if s != [] {
      ExplodeWhole(sep, s[1..]);
      assert [s[0]] + s[1..] == s;
    }
  }

  /** The first separator ends the first piece. */
  lemma {:induction false} ExplodeFirstPiece(sep: char, a: string, b: string)
    requires sep !in a
    ensures Explode(sep, a + [sep] + b) == [a] + Explode(sep, b)
  {
    var s := a + [sep] + b;
    if a == [] {
      assert s == [sep] + b;
      assert s[1..] == b;
    } else {
      assert s[1..] == a[1..] + [sep] + b;
      ExplodeFirstPiece(sep, a[1..], b);
      assert [s[0]] + a[1..] == a;
    }
  }

  /** `ltrim( s )` */
  function TrimStart(s: string): (r: string)
    ensures |r| <= |s| && r == s[|s| - |r|..]
    ensures r != [] ==> !IsTrimmed(r[0])
    ensures forall i :: 0 <= i < |s| - |r| ==> IsTrimmed(s[i])
  {
    if s != [] && IsTrimmed(s[0]) then TrimStart(s[1..]) else s
  }

  /** `rtrim( s )` */
  function TrimEnd(s: string): (r: string)
    ensures |r| <= |s| && r == s[..|r|]
    ensures r != [] ==> !IsTrimmed(r[|r| - 1])
    ensures forall i :: |r| <= i < |s| ==> IsTrimmed(s[i])
  {
    if s != [] && IsTrimmed(s[|s| - 1]) then TrimEnd(s[..|s| - 1]) else s
  }

  /** `trim( s )`: what is left after stripping trim characters from both ends. */
  function Trim(s: string): (r: string)
    ensures |r| <= |s|
    ensures r != [] ==> !IsTrimmed(r[0]) && !IsTrimmed(r[|r| - 1])
  {
    if s == [] then s
    else if IsTrimmed(s[0]) then Trim(s[1..])
    else if IsTrimmed(s[|s| - 1]) then Trim(s[..|s| - 1])
    else s
  }

  /** Where the trimmed string sits in `s`: between two runs of trim characters. */
  lemma {:induction false} TrimBounds(s: string) returns (i: int, j: int)
    ensures 0 <= i <= j <= |s| && Trim(s) == s[i..j]
    ensures forall k :: 0 <= k < i ==> IsTrimmed(s[k])
    ensures forall k :: j <= k < |s| ==> IsTrimmed(s[k])
  {
    if s == [] {
      i, j := 0, 0;
    } else if IsTrimmed(s[0]) {
      var t := s[1..];
      var i', j' := TrimBounds(t);
      i, j := i' + 1, j' + 1;
      assert t[i'..j'] == s[i..j];
      forall k | 0 < k < i ensures IsTrimmed(s[k]) {
        assert s[k] == t[k - 1];
      }
      forall k | j <= k < |s| ensures IsTrimmed(s[k]) {
        assert s[k] == t[k - 1];
      }
    } else if IsTrimmed(s[|s| - 1]) {
      var t := s[..|s| - 1];
      i, j := TrimBounds(t);
      assert t[i..j] == s[i..j];
      assert i == 0 by {
        assert t[0] == s[0];
      }
      forall k | j <= k < |t| ensures IsTrimmed(s[k]) {
        assert s[k] == t[k];
      }
    } else {
      i, j := 0, |s|;
    }
  }

  /** The trimmed string is the infix of `s` between two runs of trim characters. */
  lemma TrimInfix(s: string)
    ensures exists i, j ::
              && 0 <= i <= j <= |s| && Trim(s) == s[i..j]
              && (forall k :: 0 <= k < i ==> IsTrimmed(s[k]))
              && (forall k :: j <= k < |s| ==> IsTrimmed(s[k]))
  {
    var i, j := TrimBounds(s);
  }

  /** `sub` starts at position `i` of `s`. */
  predicate OccursAt(s: string, sub: string, i: int)
  {
    0 <= i && i + |sub| <= |s| && s[i..i + |sub|] == sub
  }

  /** `strpos( s, sub ) !== false` for a non-empty needle. */
  function Contains(s: string, sub: string): (r: bool)
    ensures r <==> exists i :: OccursAt(s, sub, i)
  {
    if |s| < |sub| then false
    else if s[..|sub|] == sub then
      assert OccursAt(s, sub, 0);
      true
    else
      var r := Contains(s[1..], sub);
      if r then
        var i :| OccursAt(s[1..], sub, i);
        assert s[1..][i..i + |sub|] == s[i + 1..i + 1 + |sub|];
        assert OccursAt(s, sub, i + 1);
        true
      else
        assert forall i :: OccursAt(s, sub, i) && i > 0 ==> OccursAt(s[1..], sub, i - 1) by {
          forall i | OccursAt(s, sub, i) && i > 0
            ensures OccursAt(s[1..], sub, i - 1)
          {
            assert s[1..][i - 1..i - 1 + |sub|] == s[i..i + |sub|];
          }
        }
        assert !OccursAt(s, sub, 0);
        false
  }

  predicate IsDigit(c: char) { '0' <= c <= '9' }

  /** The decimal number spelled by a run of digits (0 for the empty run). */
  function DecimalValue(digits: string): (n: nat)
    requires forall i :: 0 <= i < |digits| ==> IsDigit(digits[i])
  {
    if digits == [] then 0
    else
      var last := digits[|digits| - 1];
      assert IsDigit(last);
      10 * DecimalValue(digits[..|digits| - 1]) + (last as int - '0' as int)
  }

  /** The longest prefix of `s` made of digits. */
  function LeadingDigits(s: string): (d: string)
    ensures |d| <= |s| && d == s[..|d|]
    ensures forall i :: 0 <= i < |d| ==> IsDigit(d[i])
    ensures |d| < |s| ==> !IsDigit(s[|d|])
  {
    if s != [] && IsDigit(s[0]) then [s[0]] + LeadingDigits(s[1..]) else []
  }

  /** A string made of digits only. */
  predicate AllDigits(s: string)
  {
    forall i :: 0 <= i < |s| ==> IsDigit(s[i])
  }

  /**
   * The decimal spelling of `n`, as an integer is written into a text
   * column: non-empty, digits only, and reading it back gives `n`.
   */
  function DecimalString(n: nat): (s: string)
    ensures s != [] && AllDigits(s)
    ensures DecimalValue(s) == n
  {
    var last := ['0' + (n % 10) as char];
    if n < 10 then last
    else
      var s := DecimalString(n / 10) + last;
      assert s[..|s| - 1] == DecimalString(n / 10);
      s
  }

  /**
   * The integer MySQL stores when a string is written into an unsigned
   * integer column: leading whitespace is skipped, then the leading digits
   * are read; a string with no leading digits becomes 0.
   */
  function StoredInteger(s: string): (n: nat)
  {
    DecimalValue(LeadingDigits(TrimStart(s)))
  }

  lemma {:induction false} LeadingDigitsOfDigits(s: string)
    requires AllDigits(s)
    ensures LeadingDigits(s) == s
  {
    if s != [] {
      LeadingDigitsOfDigits(s[1..]);
      assert [s[0]] + s[1..] == s;
    }
  }

  /** A decimal spelling is stored as the number it spells. */
  lemma StoredDecimal(n: nat)
    ensures StoredInteger(DecimalString(n)) == n
  {
    var s := DecimalString(n);
    assert !IsTrimmed(s[0]);
    assert TrimStart(s) == s;
    LeadingDigitsOfDigits(s);
  }

  /** A decimal spelling holds no separator character. */
  lemma DecimalHasNo(c: char, n: nat)
    requires !IsDigit(c)
    ensures c !in DecimalString(n)
  {
  }
}

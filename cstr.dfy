/**
 * The C library calls runCommand relies on: a NUL-terminated buffer read as a
 * string, strtok(.., " "), strcmp against a literal, and atoi on decimal digits
 * with the board's 16-bit int. Serial bytes are modelled as chars, one per byte.
 */
module CStr {
  import opened Util
  import opened Decimal

  /** The string a char buffer holds: everything before its first NUL. */
  function CString(buf: seq<char>): (s: string)
    ensures '\0' !in s
    ensures |s| <= |buf| && buf[..|s|] == s
    ensures |s| < |buf| ==> buf[|s|] == '\0'
  {
    buf[..IndexOf(buf, '\0')]
  }

  /** A NUL at position i cuts the string there at the latest. */
  lemma {:induction false} CStringCut(buf: seq<char>, i: nat)
    requires i < |buf| && buf[i] == '\0'
    ensures CString(buf) == CString(buf[..i])
  {
    var n := IndexOf(buf, '\0');
    if n < i {
      assert buf[..i][n] == '\0';
      assert IndexOf(buf[..i], '\0') <= n;
    } else {
      assert buf[..i] == buf[..n][..i];
    }
  }

  /** A string without NUL reads back whole. */
  lemma {:induction false} CStringWhole(s: string, tail: seq<char>)
    requires '\0' !in s
    ensures CString(s + ['\0'] + tail) == s
  {
    IndexOfAfter(s, '\0', tail);
    assert (s + ['\0'] + tail)[..|s|] == s;
  }

  /** The results of strtok(s, " ") and the strtok(NULL, " ") calls after it, up to the first NULL. */
  function Tokens(s: string): (toks: seq<string>)
    ensures forall i | 0 <= i < |toks| :: |toks[i]| > 0 && ' ' !in toks[i]
    decreases |s|
  {
    if s == [] then []
    else if s[0] == ' ' then Tokens(s[1..])
    else
      var n := IndexOf(s, ' ');
      [s[..n]] + Tokens(s[n..])
  }

  /** Words joined by single spaces. */
  function Unwords(words: seq<string>): string
    decreases |words|
  {
    if words == [] then []
    else if |words| == 1 then words[0]
    else words[0] + " " + Unwords(words[1..])
  }

  /** A leading space is skipped. */
  lemma {:induction false} TokensSkipSpace(s: string)
    ensures Tokens(" " + s) == Tokens(s)
  {
    assert (" " + s)[1..] == s;
  }

  /** A word followed by a space or the end of the text is the first token. */
  lemma {:induction false} TokensFirst(w: string, rest: string)
    requires |w| > 0 && ' ' !in w
    ensures Tokens(w + " " + rest) == [w] + Tokens(" " + rest)
    ensures Tokens(w) == [w]
  {
    var s := w + " " + rest;
    IndexOfAfter(w, ' ', rest);
    assert s[0] == w[0];
    assert s[..|w|] == w && s[|w|..] == " " + rest;
    assert w[..IndexOf(w, ' ')] == w && w[|w|..] == [];
  }

  /** strtok on words joined by single spaces gives the words back. */
  lemma {:induction false} TokensUnwords(words: seq<string>)
    requires forall i | 0 <= i < |words| :: |words[i]| > 0 && ' ' !in words[i]
    ensures Tokens(Unwords(words)) == words
    decreases |words|
  {
    if |words| == 1 {
      TokensFirst(words[0], []);
    } else if |words| > 1 {
      var rest := Unwords(words[1..]);
      TokensFirst(words[0], rest);
      TokensSkipSpace(rest);
      TokensUnwords(words[1..]);
      assert [words[0]] + words[1..] == words;
    }
  }

  /** The int atoi returns on a digit string, on a board whose int is 16 bits wide. */
  predicate AtoiDefined(t: string)
  {
    |t| > 0 && AllDigits(t) && DigitsValue(t) <= 0x7FFF
  }

  function Atoi(t: string): (n: nat)
    requires AtoiDefined(t)
    ensures n <= 0x7FFF
  {
    DigitsValue(t)
  }

  /** A number written with NatToString reads back with atoi. */
  lemma {:induction false} AtoiOfNat(n: nat)
    requires n <= 0x7FFF
    ensures AtoiDefined(NatToString(n)) && Atoi(NatToString(n)) == n
  {
    NatToStringValue(n);
  }

  /** Conversion of an int to uint8_t: the value modulo 256. */
  function ToUint8(n: int): (b: nat)
    ensures b < 0x100 && (0 <= n < 0x100 ==> b == n)
  {
    n % 0x100
  }

  /** Conversion of an int to uint16_t: the value modulo 65536. */
  function ToUint16(n: int): (w: nat)
    ensures w < 0x1_0000 && (0 <= n < 0x1_0000 ==> w == n)
  {
    n % 0x1_0000
  }
}

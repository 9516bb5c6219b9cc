/**
 * The Python string operations the host's message handling relies on:
 * str.split(sep), re.findall(r"<(.*?)>", s), str.replace(pat, ""), `pat in s` and int(s).
 */
module PyStr {
  import opened Util
  import opened Decimal

  // ---------------------------------------------------------------- str.split

  /** s.split(sep) for a one-character separator: empty pieces are kept, so there is always one more piece than separators. */
  function Split(s: string, sep: char): (parts: seq<string>)
    ensures |parts| >= 1
    decreases |s|
  {
    var i := IndexOf(s, sep);
    if i == |s| then [s] else [s[..i]] + Split(s[i + 1..], sep)
  }

  /** sep.join(parts) */
  function Join(parts: seq<string>, sep: char): string
    decreases |parts|
  {
    if parts == [] then []
    else if |parts| == 1 then parts[0]
    else parts[0] + [sep] + Join(parts[1..], sep)
  }

  /** Text without the separator is one piece. */
  lemma {:induction false} SplitNoSep(s: string, sep: char)
    requires sep !in s
    ensures Split(s, sep) == [s]
  {
  }

  /** A separator-free prefix followed by a separator is the first piece. */
  lemma {:induction false} SplitAt(a: string, rest: string, sep: char)
    requires sep !in a
    ensures Split(a + [sep] + rest, sep) == [a] + Split(rest, sep)
  {
    var s := a + [sep] + rest;
    IndexOfAfter(a, sep, rest);
    assert s[..|a|] == a && s[|a| + 1..] == rest;
  }

  /** No piece holds the separator, and the first piece is a prefix of the text ending at its end or at a separator. */
  lemma {:induction false} SplitPieces(s: string, sep: char)
    ensures var parts := Split(s, sep);
            (forall k | 0 <= k < |parts| :: sep !in parts[k])
            && |parts[0]| <= |s| && parts[0] == s[..|parts[0]|]
            && (|parts[0]| < |s| ==> s[|parts[0]|] == sep)
    decreases |s|
  {
    var i := IndexOf(s, sep);
    if i < |s| {
      var tail := Split(s[i + 1..], sep);
      SplitPieces(s[i + 1..], sep);
      var parts := Split(s, sep);
      assert parts == [s[..i]] + tail;
      forall k | 0 <= k < |parts|
        ensures sep !in parts[k]
      {
        if k > 0 {
          assert parts[k] == tail[k - 1];
        }
      }
    }
  }

  /** Joining the pieces gives the text back. */
  lemma {:induction false} JoinSplit(s: string, sep: char)
    ensures Join(Split(s, sep), sep) == s
    decreases |s|
  {
    var i := IndexOf(s, sep);
    if i < |s| {
      var tail := Split(s[i + 1..], sep);
      JoinSplit(s[i + 1..], sep);
      var parts := [s[..i]] + tail;
      assert parts[1..] == tail;
      assert s == s[..i] + [sep] + s[i + 1..];
    }
  }

  /** Pieces that hold no separator come back unchanged from a join and a split. */
  lemma {:induction false} SplitJoin(parts: seq<string>, sep: char)
    requires |parts| >= 1
    requires forall k | 0 <= k < |parts| :: sep !in parts[k]
    ensures Split(Join(parts, sep), sep) == parts
    decreases |parts|
  {
    if |parts| > 1 {
      SplitJoin(parts[1..], sep);
      SplitAt(parts[0], Join(parts[1..], sep), sep);
      assert [parts[0]] + parts[1..] == parts;
    }
  }

  // ------------------------------------------------------ re.findall(r"<(.*?)>")

  /** Where the lazy `.*?>` stops in t: the first '>', provided no line break comes first ('.' does not match '\n'). */
  function CloseAt(t: string): (r: Option<nat>)
    ensures r.Some? ==> r.value < |t| && t[r.value] == '>'
    ensures r.Some? ==> '>' !in t[..r.value] && '\n' !in t[..r.value]
    decreases |t|
  {
    if t == [] then None
    else if t[0] == '>' then Some(0)
    else if t[0] == '\n' then None
    else
      match CloseAt(t[1..])
      case None => None
      case Some(k) => (assert t[..k + 1] == [t[0]] + t[1..][..k]; Some(k + 1))
  }

  /** re.findall(r"<(.*?)>", s): the contents of each group, left to right, scanning on after each match. */
  function Groups(s: string): (gs: seq<string>)
    ensures forall i | 0 <= i < |gs| :: '>' !in gs[i] && '\n' !in gs[i]
    decreases |s|
  {
    if s == [] then []
    else if s[0] == '<' then
      match CloseAt(s[1..])
      case Some(k) => (assert s[1..k + 1] == s[1..][..k]; [s[1..k + 1]] + Groups(s[k + 2..]))
      case None => Groups(s[1..])
    else Groups(s[1..])
  }

  lemma {:induction false} CloseAtGroup(g: string, rest: string)
    requires '>' !in g && '\n' !in g
    ensures CloseAt(g + ">" + rest) == Some(|g|)
    decreases |g|
  {
    if g != [] {
      assert (g + ">" + rest)[1..] == g[1..] + ">" + rest;
      CloseAtGroup(g[1..], rest);
    }
  }

  /** Text before the first '<' is not part of any group. */
  lemma {:induction false} GroupsSkipText(a: string, b: string)
    requires '<' !in a
    ensures Groups(a + b) == Groups(b)
    decreases |a|
  {
    if a == [] {
      assert a + b == b;
    } else {
      assert (a + b)[0] == a[0] && (a + b)[1..] == a[1..] + b;
      assert a[0] in a && a[0] != '<';
      assert '<' !in a[1..];
      GroupsSkipText(a[1..], b);
      assert Groups(a + b) == Groups((a + b)[1..]);
    }
  }

  /** A complete group is matched whole, and matching resumes right after its '>'. */
  lemma {:induction false} GroupsTake(g: string, rest: string)
    requires '>' !in g && '\n' !in g
    ensures Groups("<" + g + ">" + rest) == [g] + Groups(rest)
  {
    var s := "<" + g + ">" + rest;
    assert s[1..] == g + ">" + rest;
    CloseAtGroup(g, rest);
    assert s[1..|g| + 1] == g;
    assert s[|g| + 2..] == rest;
  }

  /** A '<' whose group is never closed on its line is skipped, and matching resumes right after it. */
  lemma {:induction false} GroupsUnclosed(t: string)
    requires CloseAt(t) == None
    ensures Groups("<" + t) == Groups(t)
  {
    var s := "<" + t;
    assert s[0] == '<' && s[1..] == t;
  }

  /** A piece holds no character that the text does not. */
  lemma {:induction false} SplitChars(s: string, sep: char, c: char)
    ensures c !in s ==> forall k | 0 <= k < |Split(s, sep)| :: c !in Split(s, sep)[k]
    decreases |s|
  {
    var i := IndexOf(s, sep);
    if i < |s| && c !in s {
      SplitChars(s[i + 1..], sep, c);
      var parts := Split(s, sep);
      assert parts == [s[..i]] + Split(s[i + 1..], sep);
      forall k | 0 <= k < |parts|
        ensures c !in parts[k]
      {
        if k > 0 {
          assert parts[k] == Split(s[i + 1..], sep)[k - 1];
        }
      }
    }
  }

  /** The entries of a message: each group split on commas, group by group. */
  function SplitEach(gs: seq<string>): (es: seq<string>)
    ensures |es| >= |gs|
    ensures forall i | 0 <= i < |es| :: ',' !in es[i]
    ensures (forall j | 0 <= j < |gs| :: '>' !in gs[j] && '\n' !in gs[j]) ==>
              forall i | 0 <= i < |es| :: '>' !in es[i] && '\n' !in es[i]
    decreases |gs|
  {
    if gs == [] then []
    else
      SplitPieces(gs[0], ',');
      SplitChars(gs[0], ',', '>');
      SplitChars(gs[0], ',', '\n');
      Split(gs[0], ',') + SplitEach(gs[1..])
  }

  /**
   * The entries re.findall(r"<(.*?)>") and the comma split give: no entry holds a
   * comma, a '>' or a line break, and every group gives at least one entry.
   */
  function Entries(s: string): (es: seq<string>)
    ensures |es| >= |Groups(s)|
    ensures forall i | 0 <= i < |es| :: ',' !in es[i] && '>' !in es[i] && '\n' !in es[i]
  {
    SplitEach(Groups(s))
  }

  /** Entries come out in wire order: free text first is skipped, then a group's pieces, then the rest of the message. */
  lemma {:induction false} EntriesStep(a: string, g: string, rest: string)
    requires '<' !in a && '>' !in g && '\n' !in g
    ensures Entries(a + "<" + g + ">" + rest) == Split(g, ',') + Entries(rest)
  {
    assert a + "<" + g + ">" + rest == a + ("<" + g + ">" + rest);
    GroupsSkipText(a, "<" + g + ">" + rest);
    GroupsTake(g, rest);
    assert ([g] + Groups(rest))[1..] == Groups(rest);
  }

  /** A message without '<' has no entries. */
  lemma {:induction false} EntriesNone(s: string)
    requires '<' !in s
    ensures Entries(s) == []
  {
    GroupsSkipText(s, []);
    assert s + [] == s;
  }

  // ------------------------------------------------------------- `in` and str.replace

  /** Python's `pat in s` for strings. */
  predicate Contains(s: string, pat: string)
  {
    exists i | 0 <= i <= |s| - |pat| :: OccursAt(s, pat, i)
  }

  predicate OccursAt(s: string, pat: string, i: int)
  {
    0 <= i <= |s| - |pat| && s[i..i + |pat|] == pat
  }

  /** s.replace(pat, ""): occurrences removed left to right, without overlaps. */
  function RemoveAll(s: string, pat: string): (r: string)
    requires |pat| > 0
    ensures |r| <= |s|
    decreases |s|
  {
    if |s| < |pat| then s
    else if s[..|pat|] == pat then RemoveAll(s[|pat|..], pat)
    else [s[0]] + RemoveAll(s[1..], pat)
  }

  /** Removing a pattern that does not occur changes nothing. */
  lemma {:induction false} RemoveAllAbsent(s: string, pat: string)
    requires |pat| > 0 && !Contains(s, pat)
    ensures RemoveAll(s, pat) == s
    decreases |s|
  {
    if |s| >= |pat| {
      assert !OccursAt(s, pat, 0);
      assert s[..|pat|] != pat;
      if Contains(s[1..], pat) {
        var i :| 0 <= i <= |s[1..]| - |pat| && OccursAt(s[1..], pat, i);
        assert s[i + 1..i + 1 + |pat|] == s[1..][i..i + |pat|];
        assert OccursAt(s, pat, i + 1);
      }
      RemoveAllAbsent(s[1..], pat);
      assert [s[0]] + s[1..] == s;
    }
  }

  /** Text holding no copy of the pattern's first character passes through untouched. */
  lemma {:induction false} RemoveAllSkips(a: string, b: string, pat: string)
    requires |pat| > 0 && pat[0] !in a
    ensures RemoveAll(a + b, pat) == a + RemoveAll(b, pat)
    decreases |a|
  {
    if a == [] {
      assert a + b == b;
    } else {
      var c, a' := a[0], a[1..];
      assert pat[0] !in a';
      calc {
        RemoveAll(a + b, pat);
        { assert a + b == [c] + (a' + b); }
        RemoveAll([c] + (a' + b), pat);
        { RemoveAllKeeps(c, a' + b, pat); }
        [c] + RemoveAll(a' + b, pat);
        { RemoveAllSkips(a', b, pat); }
        [c] + (a' + RemoveAll(b, pat));
        { assert [c] + a' == a; }
        a + RemoveAll(b, pat);
      }
    }
  }

  /** A character that cannot start the pattern is kept. */
  lemma {:induction false} RemoveAllKeeps(c: char, t: string, pat: string)
    requires |pat| > 0 && c != pat[0]
    ensures RemoveAll([c] + t, pat) == [c] + RemoveAll(t, pat)
  {
    var s := [c] + t;
    assert s[1..] == t;
    if |s| >= |pat| {
      assert s[..|pat|][0] == c;
    }
  }

  /** An occurrence at the front is removed. */
  lemma {:induction false} RemoveAllFront(pat: string, b: string)
    requires |pat| > 0
    ensures RemoveAll(pat + b, pat) == RemoveAll(b, pat)
  {
    assert (pat + b)[..|pat|] == pat;
    assert (pat + b)[|pat|..] == b;
  }

  // ------------------------------------------------------------------------ int()

  /** ASCII characters that str.isspace() accepts, which int() strips. */
  predicate IsPySpace(c: char)
  {
    c == ' ' || c == '\t' || c == '\n' || c == '\r' || c == '\U{000B}' || c == '\U{000C}'
    || ('\U{001C}' <= c <= '\U{001F}')
  }

  function StripLeft(s: string): (r: string)
    ensures |r| <= |s|
    decreases |s|
  {
    if s != [] && IsPySpace(s[0]) then StripLeft(s[1..]) else s
  }

  function StripRight(s: string): (r: string)
    ensures |r| <= |s|
    decreases |s|
  {
    if s != [] && IsPySpace(s[|s| - 1]) then StripRight(s[..|s| - 1]) else s
  }

  /** Stripping on the left leaves a suffix that starts with no whitespace. */
  lemma {:induction false} StripLeftSuffix(s: string)
    ensures var r := StripLeft(s);
            r == s[|s| - |r|..] && (r == [] || !IsPySpace(r[0]))
    decreases |s|
  {
    if s != [] && IsPySpace(s[0]) {
      StripLeftSuffix(s[1..]);
    }
  }

  /** Stripping on the right leaves a prefix that ends with no whitespace. */
  lemma {:induction false} StripRightPrefix(s: string)
    ensures var r := StripRight(s);
            r == s[..|r|] && (r == [] || !IsPySpace(r[|r| - 1]))
    decreases |s|
  {
    if s != [] && IsPySpace(s[|s| - 1]) {
      StripRightPrefix(s[..|s| - 1]);
    }
  }

  /** Digits, with single underscores allowed between two digits (int("1_000") == 1000). */
  predicate IsDigitGroups(t: string)
  {
    |t| > 0 && IsDigit(t[0]) && IsDigit(t[|t| - 1])
    && forall i | 0 <= i < |t| :: IsDigit(t[i]) || (t[i] == '_' && i + 1 < |t| && IsDigit(t[i + 1]))
  }

  function DropUnderscores(t: string): (r: string)
    requires forall i | 0 <= i < |t| :: IsDigit(t[i]) || t[i] == '_'
    ensures AllDigits(r)
    decreases |t|
  {
    if t == [] then [] else (if t[0] == '_' then [] else [t[0]]) + DropUnderscores(t[1..])
  }

  /**
   * int(s) for base 10: None stands for ValueError. A text without a digit is
   * refused, and only a text with a minus sign gives a negative number.
   */
  function PyInt(s: string): (r: Option<int>)
    ensures r.Some? ==> exists i | 0 <= i < |s| :: IsDigit(s[i])
    ensures r.Some? && r.value < 0 ==> '-' in s
  {
    var u := StripLeft(s);
    var t := StripRight(u);
    StripLeftSuffix(s);
    StripRightPrefix(u);
    assert |t| > 0 ==> t[0] == s[|s| - |u|] && t[|t| - 1] == s[|s| - |u| + |t| - 1];
    if |t| > 0 && (t[0] == '+' || t[0] == '-') then
      if IsDigitGroups(t[1..]) then
        var v: int := DigitsValue(DropUnderscores(t[1..]));
        Some(if t[0] == '-' then -v else v)
      else None
    else if IsDigitGroups(t) then Some(DigitsValue(DropUnderscores(t)))
    else None
  }

  lemma {:induction false} DropUnderscoresOfDigits(t: string)
    requires AllDigits(t)
    ensures DropUnderscores(t) == t
    decreases |t|
  {
    if t != [] {
      DropUnderscoresOfDigits(t[1..]);
      assert [t[0]] + t[1..] == t;
    }
  }

  /** int() of a plain digit string is its value. */
  lemma {:induction false} PyIntOfDigits(t: string)
    requires |t| > 0 && AllDigits(t)
    ensures PyInt(t) == Some(DigitsValue(t))
  {
    assert !IsPySpace(t[0]) && !IsPySpace(t[|t| - 1]);
    assert StripLeft(t) == t;
    assert StripRight(t) == t;
    assert IsDigitGroups(t);
    DropUnderscoresOfDigits(t);
  }

  /** int() reads back what str() of a natural number writes. */
  lemma {:induction false} PyIntOfNat(n: nat)
    ensures PyInt(NatToString(n)) == Some(n)
  {
    PyIntOfDigits(NatToString(n));
    NatToStringValue(n);
  }

  /** int() of a minus sign and digits is the negated value. */
  lemma {:induction false} PyIntOfNegative(d: string)
    requires |d| > 0 && AllDigits(d)
    ensures PyInt("-" + d) == Some(-(DigitsValue(d) as int))
  {
    var s := "-" + d;
    assert s[0] == '-' && s[1..] == d && s[|s| - 1] == d[|d| - 1];
    assert !IsPySpace(s[0]) && !IsPySpace(s[|s| - 1]);
    assert StripLeft(s) == s;
    assert StripRight(s) == s;
    assert IsDigitGroups(d);
    DropUnderscoresOfDigits(d);
  }
}

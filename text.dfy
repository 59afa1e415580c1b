/** The string operations of Python that the parser and the serializer use:
    `str.split(' ')`, `str.strip`, `int()` on a decimal token, `str()` of an
    int, and the lines a text file yields when iterated. */
module Text {
  import opened Notes

  // ---------------------------------------------------------------------
  // str.split(' ')

  /** `s.split(' ')`: the pieces between single spaces, empty pieces kept. */
  function Split(s: string): (parts: seq<string>)
    ensures |parts| >= 1
  {
    if s == [] then [""]
    else
      var rest := Split(s[1..]);
      if s[0] == ' ' then [""] + rest
      else [[s[0]] + rest[0]] + rest[1..]
  }

  /** What one more leading character does to the pieces of the rest. */
  function Prepend(c: char, parts: seq<string>): seq<string>
    requires parts != []
  {
    if c == ' ' then [""] + parts else [[c] + parts[0]] + parts[1..]
  }

  lemma SplitStep(s: string)
    requires s != []
    ensures Split(s) == Prepend(s[0], Split(s[1..]))
  {
  }

  lemma PrependAppend(c: char, x: seq<string>, y: seq<string>)
    requires x != []
    ensures Prepend(c, x + y) == Prepend(c, x) + y
  {
    if c != ' ' {
      assert (x + y)[0] == x[0] && (x + y)[1..] == x[1..] + y;
    }
  }

  /** Splitting at a space splits the two sides separately. */
  lemma {:induction false} SplitAtSpace(a: string, b: string)
    ensures Split(a + " " + b) == Split(a) + Split(b)
  {
    var s := a + " " + b;
    if a == [] {
      assert s == [' '] + b && s[1..] == b;
    } else {
      assert s[0] == a[0] && s[1..] == a[1..] + " " + b;
      SplitAtSpace(a[1..], b);
      SplitStep(s);
      SplitStep(a);
      PrependAppend(a[0], Split(a[1..]), Split(b));
    }
  }

  /** A piece without a space is not split. */
  lemma {:induction false} SplitNoSpace(t: string)
    requires ' ' !in t
    ensures Split(t) == [t]
  {
    if t != [] {
      assert t[0] in t;
      assert forall c :: c in t[1..] ==> c in t;
      SplitNoSpace(t[1..]);
      assert [t[0]] + t[1..] == t;
    }
  }

  /** A prefix without a space joins the first piece. */
  lemma {:induction false} SplitPrefix(p: string, x: string)
    requires ' ' !in p
    ensures Split(p + x) == [p + Split(x)[0]] + Split(x)[1..]
  {
    if p != [] {
      assert p[0] in p;
      assert forall c :: c in p[1..] ==> c in p;
      assert (p + x)[0] == p[0] && (p + x)[1..] == p[1..] + x;
      SplitPrefix(p[1..], x);
      var rest := Split(p[1..] + x);
      assert p[0] != ' ';
      assert Split(p + x) == [[p[0]] + rest[0]] + rest[1..];
      assert rest[0] == p[1..] + Split(x)[0] && rest[1..] == Split(x)[1..];
      assert [p[0]] + rest[0] == p + Split(x)[0];
    } else {
      assert p + x == x && p + Split(x)[0] == Split(x)[0];
      assert [Split(x)[0]] + Split(x)[1..] == Split(x);
    }
  }

  // ---------------------------------------------------------------------
  // str.strip

  /** The characters Python's `str.isspace` accepts in an ASCII string. */
  predicate IsSpace(c: char) {
    c == ' ' || c == '\t' || c == '\n' || c == '\r' || c == 11 as char || c == 12 as char
  }

  predicate IsLineEnd(c: char) {
    c == '\r' || c == '\n'
  }

  /** The two character sets cut from the ends of a token: CR and LF, for
      `strip('\r\n')` (line 74), and ASCII whitespace, which `int()` skips
      around its argument (line 79). */
  datatype CharClass = Spaces | LineEnds

  predicate InClass(chars: CharClass, c: char) {
    match chars
    case Spaces => IsSpace(c)
    case LineEnds => IsLineEnd(c)
  }

  /** `s` with the leading characters in `chars` cut off. */
  function TrimLeft(s: string, chars: CharClass): string {
    if s != [] && InClass(chars, s[0]) then TrimLeft(s[1..], chars) else s
  }

  /** `s` with the trailing characters in `chars` cut off. */
  function TrimRight(s: string, chars: CharClass): string {
    if s != [] && InClass(chars, s[|s| - 1]) then TrimRight(s[..|s| - 1], chars) else s
  }

  /** `s.strip(chars)`: the characters in `chars` cut from both ends. */
  function Strip(s: string, chars: CharClass): string {
    TrimRight(TrimLeft(s, chars), chars)
  }

  /** `TrimLeft` leaves a suffix of `s` that does not start with a character
      in `chars`, and everything it cut is in `chars`. */
  lemma {:induction false} TrimLeftSuffix(s: string, chars: CharClass)
    ensures var r := TrimLeft(s, chars);
            |r| <= |s| && r == s[|s| - |r|..] &&
            (forall k :: 0 <= k < |s| - |r| ==> InClass(chars, s[k])) &&
            (r != [] ==> !InClass(chars, r[0]))
  {
    if s != [] && InClass(chars, s[0]) {
      var r := TrimLeft(s, chars);
      TrimLeftSuffix(s[1..], chars);
      assert r == s[1..][|s| - 1 - |r|..];
      assert r == s[|s| - |r|..];
      forall k | 0 <= k < |s| - |r| ensures InClass(chars, s[k]) {
        if k > 0 { assert s[k] == s[1..][k - 1]; }
      }
    }
  }

  /** `TrimRight` leaves a prefix of `s` that does not end with a character
      in `chars`, and everything it cut is in `chars`. */
  lemma {:induction false} TrimRightPrefix(s: string, chars: CharClass)
    ensures var r := TrimRight(s, chars);
            |r| <= |s| && r == s[..|r|] &&
            (forall k :: |r| <= k < |s| ==> InClass(chars, s[k])) &&
            (r != [] ==> !InClass(chars, r[|r| - 1]))
  {
    if s != [] && InClass(chars, s[|s| - 1]) {
      var r := TrimRight(s, chars);
      TrimRightPrefix(s[..|s| - 1], chars);
      assert r == s[..|s| - 1][..|r|];
      assert r == s[..|r|];
      forall k | |r| <= k < |s| ensures InClass(chars, s[k]) {
        if k < |s| - 1 { assert s[k] == s[..|s| - 1][k]; }
      }
    }
  }

  /** What `Strip` leaves is a slice of `s`, everything outside it is in
      `chars`, and it neither starts nor ends with a character in `chars`. */
  lemma StripSlice(s: string, chars: CharClass)
    ensures var r, i := Strip(s, chars), |s| - |TrimLeft(s, chars)|;
            0 <= i && i + |r| <= |s| && r == s[i..i + |r|] &&
            (forall k :: 0 <= k < i ==> InClass(chars, s[k])) &&
            (forall k :: i + |r| <= k < |s| ==> InClass(chars, s[k])) &&
            (r != [] ==> !InClass(chars, r[0]) && !InClass(chars, r[|r| - 1]))
  {
    var l := TrimLeft(s, chars);
    var r := TrimRight(l, chars);
    var i := |s| - |l|;
    TrimLeftSuffix(s, chars);
    TrimRightPrefix(l, chars);
    SliceOfSuffix(s, i, r);
    if r != [] {
      assert r[0] == l[0];
    }
    forall k | i + |r| <= k < |s| ensures InClass(chars, s[k]) {
      assert s[k] == l[k - i];
    }
  }

  /** A prefix of the suffix of `s` from `i` is the slice of `s` from `i`. */
  lemma SliceOfSuffix(s: string, i: nat, r: string)
    requires i <= |s| && |r| <= |s| - i && r == s[i..][..|r|]
    ensures r == s[i..i + |r|]
  {
  }

  /** Nothing is cut from a string whose two ends are kept. */
  lemma StripKeeps(s: string, chars: CharClass)
    requires s != [] && !InClass(chars, s[0]) && !InClass(chars, s[|s| - 1])
    ensures Strip(s, chars) == s
  {
    assert TrimLeft(s, chars) == s;
    assert TrimRight(s, chars) == s;
  }

  /** `.strip('\r\n')` takes the CR LF off a token the serializer wrote. */
  lemma StripLineEnd(t: string)
    requires t != [] && !IsLineEnd(t[0]) && !IsLineEnd(t[|t| - 1])
    ensures Strip(t + "\r\n", LineEnds) == t
  {
    var u := t + "\r\n";
    assert TrimLeft(u, LineEnds) == u;
    assert u[..|u| - 1] == t + "\r";
    assert (t + "\r")[..|t|] == t;
    calc {
      TrimRight(u, LineEnds);
      TrimRight(t + "\r", LineEnds);
      TrimRight(t, LineEnds);
      t;
    }
  }

  // ---------------------------------------------------------------------
  // int() and str()

  predicate IsDigit(c: char) {
    '0' <= c <= '9'
  }

  predicate IsDigits(s: string) {
    s != [] && forall i :: 0 <= i < |s| ==> IsDigit(s[i])
  }

  /** The number a run of decimal digits denotes, leading zeros allowed. */
  function DigitsValue(s: string): nat
    requires forall i :: 0 <= i < |s| ==> IsDigit(s[i])
  {
    if s == [] then 0
    else
      assert IsDigit(s[|s| - 1]);
      DigitsValue(s[..|s| - 1]) * 10 + (s[|s| - 1] as int - '0' as int)
  }

  /** The characters `int()` can accept: whitespace, digits and a sign. */
  predicate IsIntChar(c: char) {
    IsSpace(c) || IsDigit(c) || c == '-' || c == '+'
  }

  /** `int(token)`: surrounding whitespace, an optional sign and at least one
      decimal digit; None for a token outside this grammar. Every token that
      int() rejects is None, a token holding any other character (such as
      the rest marker `x`) among them. A few spellings int() accepts, such
      as whitespace between the sign and the digits, are None as well. */
  function ParseInt(token: string): (r: Option<int>)
  {
    var t := Strip(token, Spaces);
    if t != [] && (t[0] == '-' || t[0] == '+') then
      if IsDigits(t[1..]) then
        Some(if t[0] == '-' then -(DigitsValue(t[1..]) as int) else DigitsValue(t[1..]))
      else None
    else if IsDigits(t) then Some(DigitsValue(t))
    else None
  }

  /** A token int() accepts holds only whitespace, digits and signs. */
  lemma ParseIntChars(token: string)
    ensures ParseInt(token).Some? ==> forall i :: 0 <= i < |token| ==> IsIntChar(token[i])
  {
    var t := Strip(token, Spaces);
    StripSlice(token, Spaces);
    if ParseInt(token).Some? {
      forall j | 0 <= j < |t| ensures IsIntChar(t[j]) {
        if j > 0 && (t[0] == '-' || t[0] == '+') { assert t[j] == t[1..][j - 1]; }
      }
      var i := |token| - |TrimLeft(token, Spaces)|;
      forall k | 0 <= k < |token| ensures IsIntChar(token[k]) {
        if i <= k < i + |t| { assert token[k] == t[k - i]; }
      }
    }
  }

  function DigitChar(d: nat): char
    requires d < 10
  {
    ('0' as int + d) as char
  }

  /** `str(n)` for n >= 0: decimal digits, no leading zero. */
  function NatToString(n: nat): string {
    if n < 10 then [DigitChar(n)]
    else NatToString(n / 10) + [DigitChar(n % 10)]
  }

  /** `str(v)`: a minus sign before the digits of a negative number. */
  function IntToString(v: int): string {
    if v < 0 then "-" + NatToString(-v) else NatToString(v)
  }

  /** The digits `str` writes read back as the same number. */
  lemma {:induction false} NatToStringDigits(n: nat)
    ensures IsDigits(NatToString(n))
    ensures DigitsValue(NatToString(n)) == n
  {
    var s := NatToString(n);
    if n >= 10 {
      NatToStringDigits(n / 10);
      assert s[..|s| - 1] == NatToString(n / 10);
    }
  }

  /** `int(str(v)) == v` for every int. */
  lemma IntRoundTrip(v: int)
    ensures ParseInt(IntToString(v)) == Some(v)
  {
    var s := IntToString(v);
    NatToStringDigits(if v < 0 then -v else v);
    assert !IsSpace(s[0]) && !IsSpace(s[|s| - 1]);
    StripKeeps(s, Spaces);
    if v < 0 {
      assert s[1..] == NatToString(-v);
    }
  }

  // ---------------------------------------------------------------------
  // Iterating over a text file

  /** The lines `for line in f` yields: each ends after its '\n', and a last
      piece without one is a line too. */
  function Lines(text: string): (ls: seq<string>)
    ensures ls == [] <==> text == []
  {
    if text == [] then []
    else
      var rest := Lines(text[1..]);
      if text[0] == '\n' || rest == [] then [[text[0]]] + rest
      else [[text[0]] + rest[0]] + rest[1..]
  }

  /** A string holding '\n' as its last character and nowhere else. */
  predicate IsLine(l: string) {
    l != [] && l[|l| - 1] == '\n' && forall i :: 0 <= i < |l| - 1 ==> l[i] != '\n'
  }

  /** A whole line in front of a text is the first line read from it. */
  lemma {:induction false} LineThen(l: string, rest: string)
    requires IsLine(l)
    ensures Lines(l + rest) == [l] + Lines(rest)
  {
    var c, tail := l[0], l[1..];
    assert l == [c] + tail && l + rest == [c] + (tail + rest);
    if |l| == 1 {
      assert tail + rest == rest;
      LinesAfterBreak(rest);
    } else {
      assert IsLine(tail);
      LineThen(tail, rest);
      LinesJoin(c, tail + rest);
    }
  }

  /** A line break ends the first line. */
  lemma LinesAfterBreak(t: string)
    ensures Lines(['\n'] + t) == [['\n']] + Lines(t)
  {
    assert (['\n'] + t)[1..] == t;
  }

  /** Any other character joins the first line of the text after it. */
  lemma LinesJoin(c: char, t: string)
    requires c != '\n' && t != []
    ensures Lines([c] + t) == [[c] + Lines(t)[0]] + Lines(t)[1..]
  {
    assert ([c] + t)[1..] == t;
  }

  /** Strings written one after the other. */
  function Concat(ls: seq<string>): string {
    if ls == [] then "" else ls[0] + Concat(ls[1..])
  }

  /** Writing one more string appends it. */
  lemma {:induction false} ConcatSnoc(ls: seq<string>, x: string)
    ensures Concat(ls + [x]) == Concat(ls) + x
  {
    if ls == [] {
      assert [x][1..] == [];
    } else {
      assert (ls + [x])[1..] == ls[1..] + [x];
      ConcatSnoc(ls[1..], x);
    }
  }

  /** Writing whole lines one after another and reading them back gives
      those lines. */
  lemma {:induction false} LinesConcat(ls: seq<string>)
    requires forall i :: 0 <= i < |ls| ==> IsLine(ls[i])
    ensures Lines(Concat(ls)) == ls
  {
    if ls != [] {
      LinesConcat(ls[1..]);
      LineThen(ls[0], Concat(ls[1..]));
      assert [ls[0]] + ls[1..] == ls;
    }
  }
}

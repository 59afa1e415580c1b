/** Reading and writing the .mbseq text (microbrute.py lines 67-84 and 156-164).
    Each line is `<slot>:<token> <token> ...` ended by CR LF; a token is a
    decimal pitch or the rest marker `x`. */
module SequenceFile {
  import opened Notes
  import opened Text

  // ---------------------------------------------------------------------
  // Parsing one line

  /** `s[2:]`: drops the slot number and the colon; shorter strings become empty. */
  function DropSlotMarker(s: string): (r: string)
    ensures |s| >= 2 ==> s[..2] + r == s
    ensures |s| < 2 ==> r == []
  {
    if |s| >= 2 then s[2..] else ""
  }

  /** `value_list` once read_sequences has edited it: the line split at
      single spaces, the `N:` cut from the first piece, then CR and LF
      stripped from the last piece (the same piece when there is only one). */
  function Tokens(line: string): (ts: seq<string>)
    ensures |ts| == |Split(line)|
  {
    var parts := Split(line);
    var edited := parts[0 := DropSlotMarker(parts[0])];
    edited[|edited| - 1 := Strip(edited[|edited| - 1], LineEnds)]
  }

  /** A token is `int(token)`, or the rest marker when int() raises
      ValueError. */
  function ParseToken(token: string): (n: Note)
  {
    match ParseInt(token)
    case Some(v) => Value(v)
    case None => Rest
  }

  /** A pitch comes only from whitespace, digits and a sign, so any token
      that holds the rest marker `x` reads as a rest. */
  lemma RestMarker(token: string)
    ensures ParseToken(token).Value? ==> forall i :: 0 <= i < |token| ==> IsIntChar(token[i])
    ensures 'x' in token ==> ParseToken(token) == Rest
  {
    ParseIntChars(token);
    if 'x' in token {
      var i :| 0 <= i < |token| && token[i] == 'x';
      assert !IsIntChar(token[i]);
    }
  }

  /** One line of the file as a sequence of notes. */
  function ParseLine(line: string): (notes: seq<Note>)
    ensures notes != []
  {
    ParseAll(Tokens(line))
  }

  /** The inner loop's result: one entry per token, in order. */
  function ParseAll(ts: seq<string>): (notes: seq<Note>)
    ensures |notes| == |ts|
  {
    seq(|ts|, i requires 0 <= i < |ts| => ParseToken(ts[i]))
  }

  /** The bank a file's lines parse to, in file order. */
  function ParsedBank(lines: seq<string>): (bank: seq<seq<Note>>)
    ensures |bank| == |lines|
    ensures forall i :: 0 <= i < |bank| ==> bank[i] != []
  {
    seq(|lines|, i requires 0 <= i < |lines| => ParseLine(lines[i]))
  }

  /** read_sequences: every line of the text, one sequence per line. */
  method ReadSequences(text: string) returns (bank: seq<seq<Note>>)
    ensures bank == ParsedBank(Lines(text))
  {
    var lines := Lines(text);
    bank := [];
    for n := 0 to |lines|
      invariant |bank| == n
      invariant forall i :: 0 <= i < n ==> bank[i] == ParseLine(lines[i])
    {
      var temp := ReadLine(lines[n]);
      bank := bank + [temp];
    }
  }

  /** One pass of read_sequences' outer loop: the line's tokens, parsed. */
  method ReadLine(line: string) returns (temp: seq<Note>)
    ensures temp == ParseLine(line)
  {
    var valueList := EditPieces(line);
    temp := ParseTokens(valueList);
  }

  /** `value_list` as read_sequences edits it in place: split, then the
      slot marker cut from the first piece and CR LF from the last. */
  method EditPieces(line: string) returns (valueList: seq<string>)
    ensures valueList == Tokens(line)
  {
    valueList := Split(line);
    valueList := valueList[0 := DropSlotMarker(valueList[0])];
    valueList := valueList[|valueList| - 1 := Strip(valueList[|valueList| - 1], LineEnds)];
  }

  /** The inner loop of read_sequences: one entry per token, in order. */
  method ParseTokens(valueList: seq<string>) returns (temp: seq<Note>)
    ensures temp == ParseAll(valueList)
  {
    temp := [];
    for j := 0 to |valueList|
      invariant |temp| == j
      invariant forall i :: 0 <= i < j ==> temp[i] == ParseToken(valueList[i])
    {
      temp := temp + [ParseToken(valueList[j])];
    }
    assert temp == ParseAll(valueList);
  }

  // ---------------------------------------------------------------------
  // Writing

  /** `str(entry)`: the decimal pitch, or `x` for a rest. Either way a
      non-empty run of digits, '-' and 'x', and `x` only for a rest. */
  function Render(n: Note): (t: string)
    ensures t != [] && forall i :: 0 <= i < |t| ==> IsTokenChar(t[i])
    ensures t == "x" <==> n.Rest?
  {
    match n
    case Value(v) =>
      NatToStringDigits(if v < 0 then -v else v);
      var t := IntToString(v);
      assert t[|t| - 1] != 'x';
      t
    case Rest => "x"
  }

  /** The entries before the last, each followed by one space. */
  function Spaced(ns: seq<Note>): string {
    if ns == [] then "" else Spaced(ns[..|ns| - 1]) + Render(ns[|ns| - 1]) + " "
  }

  /** The line write_sequences emits for slot `num`: `str(num) + ':'`, the
      entries joined by single spaces, CR LF. */
  function FormatLine(num: nat, notes: seq<Note>): (line: string)
    requires notes != []
    ensures IsLine(line)
  {
    var init, last := notes[..|notes| - 1], notes[|notes| - 1];
    NatToStringDigits(num);
    SpacedNoNewline(init);
    var body := NatToString(num) + ":" + Spaced(init) + Render(last) + "\r";
    assert forall i :: 0 <= i < |body| ==> body[i] != '\n';
    NatToString(num) + ":" + Spaced(notes[..|notes| - 1]) + Render(notes[|notes| - 1]) + "\r\n"
  }

  /** The lines of a bank, slot numbers counted from 1. */
  function BankLines(bank: seq<seq<Note>>): (ls: seq<string>)
    requires forall i :: 0 <= i < |bank| ==> bank[i] != []
    ensures |ls| == |bank|
  {
    seq(|bank|, i requires 0 <= i < |bank| => FormatLine(i + 1, bank[i]))
  }

  /** The whole text write_sequences writes. */
  function Formatted(bank: seq<seq<Note>>): string
    requires forall i :: 0 <= i < |bank| ==> bank[i] != []
  {
    Concat(BankLines(bank))
  }

  /** write_sequences: the text piece by piece, as the loops write it. The
      source indexes `seq[-1]`, so every slot must hold an entry. */
  method WriteSequences(bank: seq<seq<Note>>) returns (text: string)
    requires forall i :: 0 <= i < |bank| ==> bank[i] != []
    ensures text == Formatted(bank)
  {
    ghost var lines := BankLines(bank);
    text := "";
    for n := 0 to |bank|
      invariant text == Concat(lines[..n])
    {
      text := WriteLine(text, n + 1, bank[n]);
      ConcatStep(lines, n);
    }
    assert lines[..|bank|] == lines;
  }

  /** One pass of write_sequences' outer loop: slot `num` appended to `text`. */
  method WriteLine(text: string, num: nat, notes: seq<Note>) returns (out: string)
    requires notes != []
    ensures out == text + FormatLine(num, notes)
  {
    var head := text + (NatToString(num) + ":");
    out := head;
    for j := 0 to |notes| - 1
      invariant out == head + Spaced(notes[..j])
    {
      SpacedAppend(head, notes, j);
      out := out + (Render(notes[j]) + " ");
    }
    FormatLineAppend(text, num, notes);
    out := out + (Render(notes[|notes| - 1]) + "\r\n");
  }

  /** The writer's inner loop, one entry further. */
  lemma SpacedAppend(head: string, notes: seq<Note>, j: nat)
    requires j < |notes|
    ensures head + Spaced(notes[..j]) + (Render(notes[j]) + " ") == head + Spaced(notes[..j + 1])
  {
    assert notes[..j + 1][..j] == notes[..j];
  }

  /** The pieces the writer emits for one slot make up its line. */
  lemma FormatLineAppend(text: string, num: nat, notes: seq<Note>)
    requires notes != []
    ensures text + (NatToString(num) + ":") + Spaced(notes[..|notes| - 1]) + (Render(notes[|notes| - 1]) + "\r\n")
            == text + FormatLine(num, notes)
  {
  }

  lemma ConcatStep(ls: seq<string>, n: nat)
    requires n < |ls|
    ensures Concat(ls[..n + 1]) == Concat(ls[..n]) + ls[n]
  {
    assert ls[..n + 1] == ls[..n] + [ls[n]];
    ConcatSnoc(ls[..n], ls[n]);
  }

  // ---------------------------------------------------------------------
  // The round trip

  predicate IsTokenChar(c: char) {
    IsDigit(c) || c == '-' || c == 'x'
  }

  /** int() of what str() wrote gives the entry back. */
  lemma ParseRender(n: Note)
    ensures ParseToken(Render(n)) == n
  {
    match n
    case Value(v) => IntRoundTrip(v);
    case Rest =>
      assert !IsSpace('x');
      StripKeeps("x", Spaces);
  }

  function Rendered(ns: seq<Note>): (ts: seq<string>) {
    seq(|ns|, i requires 0 <= i < |ns| => Render(ns[i]))
  }

  /** Splitting the spaced entries and a last piece gives each entry's token. */
  lemma {:induction false} SplitSpaced(ns: seq<Note>, t: string)
    requires ' ' !in t
    ensures Split(Spaced(ns) + t) == Rendered(ns) + [t]
  {
    if ns == [] {
      assert Spaced(ns) + t == t;
      SplitNoSpace(t);
    } else {
      var init, l := ns[..|ns| - 1], ns[|ns| - 1];
      var r := Render(l);
      assert ' ' !in r;
      SplitSpaced(init, r);
      assert Spaced(ns) + t == (Spaced(init) + r) + " " + t;
      SplitAtSpace(Spaced(init) + r, t);
      SplitNoSpace(t);
      assert Rendered(ns) == Rendered(init) + [r];
    }
  }

  /** The pieces a written line splits into, before read_sequences edits
      the first and the last. */
  function WrittenPieces(notes: seq<Note>): (ps: seq<string>)
    requires notes != []
    ensures |ps| == |notes|
  {
    Rendered(notes[..|notes| - 1]) + [Render(notes[|notes| - 1]) + "\r\n"]
  }

  /** Splitting a written line at its spaces: the slot marker sticks to the
      first entry, CR LF to the last. */
  lemma SplitWritten(num: nat, notes: seq<Note>)
    requires num <= 9 && notes != []
    ensures var ps := WrittenPieces(notes);
            Split(FormatLine(num, notes)) == [NatToString(num) + ":" + ps[0]] + ps[1..]
  {
    var init, last := notes[..|notes| - 1], notes[|notes| - 1];
    var p := NatToString(num) + ":";
    assert ' ' !in p;
    var r := Render(last);
    var t := r + "\r\n";
    assert ' ' !in t;
    assert FormatLine(num, notes) == p + (Spaced(init) + t);
    SplitSpaced(init, t);
    SplitPrefix(p, Spaced(init) + t);
  }

  /** The tokens of a written line are the entries' tokens. */
  lemma TokensOfLine(num: nat, notes: seq<Note>)
    requires 1 <= num <= 9 && notes != []
    ensures Tokens(FormatLine(num, notes)) == Rendered(notes)
  {
    var ps := WrittenPieces(notes);
    SplitWritten(num, notes);
    DropMarker(NatToString(num) + ":", ps);
    StripLastLineEnd(notes);
  }

  /** `value_list[0][2:]` takes the two-character marker off the first piece. */
  lemma DropMarker(p: string, ps: seq<string>)
    requires |p| == 2 && ps != []
    ensures var parts := [p + ps[0]] + ps[1..];
            parts[0 := DropSlotMarker(parts[0])] == ps
  {
    assert (p + ps[0])[2..] == ps[0];
  }

  /** `.strip('\r\n')` takes CR LF off the last piece of a written line. */
  lemma StripLastLineEnd(notes: seq<Note>)
    requires notes != []
    ensures var ps := WrittenPieces(notes);
            ps[|ps| - 1 := Strip(ps[|ps| - 1], LineEnds)] == Rendered(notes)
  {
    var r := Render(notes[|notes| - 1]);
    assert !IsLineEnd(r[0]) && !IsLineEnd(r[|r| - 1]);
    StripLineEnd(r);
    assert Rendered(notes) == Rendered(notes[..|notes| - 1]) + [r];
  }

  /** Parsing the line written for slot 1 to 9 gives back its notes. */
  lemma LineRoundTrip(num: nat, notes: seq<Note>)
    requires 1 <= num <= 9 && notes != []
    ensures ParseLine(FormatLine(num, notes)) == notes
  {
    TokensOfLine(num, notes);
    var parsed := ParseLine(FormatLine(num, notes));
    forall i | 0 <= i < |notes| ensures parsed[i] == notes[i] {
      ParseRender(notes[i]);
    }
  }

  lemma {:induction false} SpacedNoNewline(ns: seq<Note>)
    ensures forall i :: 0 <= i < |Spaced(ns)| ==> Spaced(ns)[i] != '\n'
  {
    if ns != [] {
      SpacedNoNewline(ns[..|ns| - 1]);
    }
  }

  /** Reading back the text written for a bank of at most nine slots, each
      holding an entry, gives the bank back. */
  lemma BankRoundTrip(bank: seq<seq<Note>>)
    requires |bank| <= 9
    requires forall i :: 0 <= i < |bank| ==> bank[i] != []
    ensures ParsedBank(Lines(Formatted(bank))) == bank
  {
    var ls := BankLines(bank);
    BankLinesAreLines(bank);
    LinesConcat(ls);
    assert Lines(Formatted(bank)) == ls;
    BankLinesParse(bank);
    ParsedLines(ls, bank);
  }

  lemma BankLinesParse(bank: seq<seq<Note>>)
    requires |bank| <= 9
    requires forall i :: 0 <= i < |bank| ==> bank[i] != []
    ensures forall i :: 0 <= i < |bank| ==> ParseLine(BankLines(bank)[i]) == bank[i]
  {
    var ls := BankLines(bank);
    forall i | 0 <= i < |bank| ensures ParseLine(ls[i]) == bank[i] {
      assert ls[i] == FormatLine(i + 1, bank[i]);
      LineRoundTrip(i + 1, bank[i]);
    }
  }

  lemma ParsedLines(ls: seq<string>, bank: seq<seq<Note>>)
    requires |ls| == |bank|
    requires forall i :: 0 <= i < |ls| ==> ParseLine(ls[i]) == bank[i]
    ensures ParsedBank(ls) == bank
  {
  }

  lemma BankLinesAreLines(bank: seq<seq<Note>>)
    requires forall i :: 0 <= i < |bank| ==> bank[i] != []
    ensures forall i :: 0 <= i < |bank| ==> IsLine(BankLines(bank)[i])
  {
    forall i | 0 <= i < |bank| ensures IsLine(BankLines(bank)[i]) {
      assert BankLines(bank)[i] == FormatLine(i + 1, bank[i]);
    }
  }
}

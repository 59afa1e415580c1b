/** Transpose and equalize on one sequence (microbrute.py lines 117-154). */
module Pitch {
  import opened Notes

  /** The pitches of `s` in order, rests dropped: what find_highest and
      find_lowest keep of their sorted copy once it is cut at the first `x`. */
  function Values(s: seq<Note>): (vs: seq<int>)
    ensures forall v :: v in vs <==> Value(v) in s
  {
    if s == [] then []
    else
      assert s == [s[0]] + s[1..];
      (if s[0].Value? then [s[0].pitch] else []) + Values(s[1..])
  }

  function MaxOf(vs: seq<int>): (m: int)
    requires vs != []
    ensures m in vs && forall v :: v in vs ==> v <= m
  {
    if |vs| == 1 then vs[0]
    else
      assert vs == [vs[0]] + vs[1..];
      var rest := MaxOf(vs[1..]);
      if vs[0] > rest then vs[0] else rest
  }

  function MinOf(vs: seq<int>): (m: int)
    requires vs != []
    ensures m in vs && forall v :: v in vs ==> m <= v
  {
    if |vs| == 1 then vs[0]
    else
      assert vs == [vs[0]] + vs[1..];
      var rest := MinOf(vs[1..]);
      if vs[0] < rest then vs[0] else rest
  }

  /** find_highest: the largest pitch of a sequence that holds one. */
  function Highest(s: seq<Note>): (h: int)
    requires Values(s) != []
    ensures Value(h) in s && forall v :: Value(v) in s ==> v <= h
  {
    MaxOf(Values(s))
  }

  /** find_lowest: the smallest pitch of a sequence that holds one. */
  function Lowest(s: seq<Note>): (l: int)
    requires Values(s) != []
    ensures Value(l) in s && forall v :: Value(v) in s ==> l <= v
  {
    MinOf(Values(s))
  }

  /** find_first: the first pitch in sequence order, None for all rests. */
  function First(s: seq<Note>): (r: Option<int>)
    ensures r.None? <==> forall i :: 0 <= i < |s| ==> s[i] == Rest
    ensures r.Some? ==> Value(r.value) in s
  {
    if s == [] then None
    else if s[0].Value? then Some(s[0].pitch)
    else First(s[1..])
  }

  function ShiftNote(n: Note, k: int): Note {
    match n
    case Value(p) => Value(p + k)
    case Rest => Rest
  }

  /** Every pitch moved by `k`; rests stay where they are. */
  function Shift(s: seq<Note>, k: int): seq<Note> {
    seq(|s|, i requires 0 <= i < |s| => ShiftNote(s[i], k))
  }

  /** transpose: the range guard, then the shift. Upward (k > 0) the highest
      pitch may rise to 125 at most; otherwise, including k == 0, the lowest
      pitch may fall to 1 at most (`abs(semitones)` is -k there). A sequence
      without a pitch has no highest or lowest: the source's IndexError. */
  function Transposed(s: seq<Note>, k: int): (r: Outcome<seq<Note>>)
    ensures r == Fail(TooHigh) ==> k > 0
    ensures r == Fail(TooLow) ==> k <= 0
    ensures r.Ok? ==> |r.value| == |s|
  {
    if Values(s) == [] then Fail(NoNote)
    else if k > 0 && MaxPitch - Highest(s) < k then Fail(TooHigh)
    else if k <= 0 && Lowest(s) - MinPitch < -k then Fail(TooLow)
    else Ok(Shift(s, k))
  }

  /** equalize: shift so that the first pitch lands on `reference`. An
      all-rest sequence makes `reference - None` raise a TypeError. */
  function Equalized(s: seq<Note>, reference: int): (r: Outcome<seq<Note>>)
    ensures r.Ok? ==> |r.value| == |s|
  {
    match First(s)
    case None => Fail(NoNote)
    case Some(f) => Transposed(s, reference - f)
  }

  /** The loop of transpose: the guard, then `temp_list` built by appending. */
  method Transpose(notes: seq<Note>, semitones: int) returns (r: Outcome<seq<Note>>)
    ensures r == Transposed(notes, semitones)
  {
    if Values(notes) == [] {
      return Fail(NoNote);
    }
    if semitones > 0 {
      if MaxPitch - Highest(notes) < semitones {
        return Fail(TooHigh);
      }
    } else if Lowest(notes) - MinPitch < -semitones {
      return Fail(TooLow);
    }
    var temp: seq<Note> := [];
    for i := 0 to |notes|
      invariant |temp| == i
      invariant forall j :: 0 <= j < i ==> temp[j] == ShiftNote(notes[j], semitones)
    {
      match notes[i]
      case Value(p) => temp := temp + [Value(p + semitones)];
      case Rest => temp := temp + [Rest];
    }
    assert temp == Shift(notes, semitones);
    r := Ok(temp);
  }

  /** equalize, calling the transpose loop. */
  method Equalize(notes: seq<Note>, reference: int) returns (r: Outcome<seq<Note>>)
    ensures r == Equalized(notes, reference)
  {
    match First(notes)
    case None => r := Fail(NoNote);
    case Some(f) => r := Transpose(notes, reference - f);
  }

  /** Both transforms fail with NoNote exactly on a sequence of rests only:
      that is when find_highest and find_lowest index an empty list and
      find_first returns None. */
  lemma NoNoteIffAllRests(s: seq<Note>, k: int, reference: int)
    ensures Transposed(s, k) == Fail(NoNote) <==> forall i :: 0 <= i < |s| ==> s[i] == Rest
    ensures Equalized(s, reference) == Fail(NoNote) <==> forall i :: 0 <= i < |s| ==> s[i] == Rest
  {
    if Values(s) != [] {
      var v := Values(s)[0];
      assert Value(v) in s;
    }
  }

  // ---------------------------------------------------------------------
  // Shifting and the extremal pitches

  lemma ShiftMember(s: seq<Note>, k: int, v: int)
    ensures Value(v) in Shift(s, k) <==> Value(v - k) in s
  {
    var t := Shift(s, k);
    if Value(v) in t {
      var i :| 0 <= i < |t| && t[i] == Value(v);
      assert s[i] == Value(v - k);
    }
    if Value(v - k) in s {
      var i :| 0 <= i < |s| && s[i] == Value(v - k);
      assert t[i] == Value(v);
    }
  }

  lemma ShiftExtremes(s: seq<Note>, k: int)
    requires Values(s) != []
    ensures Values(Shift(s, k)) != []
    ensures Highest(Shift(s, k)) == Highest(s) + k
    ensures Lowest(Shift(s, k)) == Lowest(s) + k
  {
    var t := Shift(s, k);
    var h, l := Highest(s), Lowest(s);
    ShiftMember(s, k, h + k);
    ShiftMember(s, k, l + k);
    assert Value(h + k) in t && Value(l + k) in t;
    assert h + k in Values(t);
    var h', l' := Highest(t), Lowest(t);
    ShiftMember(s, k, h');
    ShiftMember(s, k, l');
    assert h' - k <= h && h + k <= h';
    assert l <= l' - k && l' <= l + k;
  }

  lemma {:induction false} ShiftFirst(s: seq<Note>, k: int)
    ensures First(Shift(s, k)) == match First(s) case None => None case Some(f) => Some(f + k)
  {
    if s != [] {
      var t := Shift(s, k);
      assert t[0] == ShiftNote(s[0], k);
      if s[0].Rest? {
        ShiftFirst(s[1..], k);
        assert t[1..] == Shift(s[1..], k);
      }
    }
  }

  lemma ShiftInverse(s: seq<Note>, k: int)
    ensures Shift(Shift(s, k), -k) == s
  {
    var t := Shift(Shift(s, k), -k);
    assert |t| == |s|;
    forall i | 0 <= i < |s| ensures t[i] == s[i] {
      match s[i]
      case Value(p) =>
      case Rest =>
    }
  }

  // ---------------------------------------------------------------------
  // transpose

  /** transpose keeps the length, keeps each rest in its place and raises
      every pitch by exactly `k`. */
  lemma TransposeShape(s: seq<Note>, k: int, t: seq<Note>)
    requires Transposed(s, k) == Ok(t)
    ensures |t| == |s|
    ensures forall i :: 0 <= i < |s| ==> (s[i].Rest? <==> t[i].Rest?)
    ensures forall i :: 0 <= i < |s| && s[i].Value? ==> t[i] == Value(s[i].pitch + k)
  {
  }

  /** Upward guard: a shift up succeeds exactly when every pitch stays at or
      below 125, and fails with TooHigh otherwise. */
  lemma TransposeUpGuard(s: seq<Note>, k: int)
    requires k > 0 && Values(s) != []
    ensures Transposed(s, k).Ok? <==> forall v :: Value(v) in s ==> v + k <= MaxPitch
    ensures !Transposed(s, k).Ok? ==> Transposed(s, k) == Fail(TooHigh)
  {
  }

  /** Downward guard (k <= 0): success exactly when every pitch stays at or
      above 1, TooLow otherwise. */
  lemma TransposeDownGuard(s: seq<Note>, k: int)
    requires k <= 0 && Values(s) != []
    ensures Transposed(s, k).Ok? <==> forall v :: Value(v) in s ==> v + k >= MinPitch
    ensures !Transposed(s, k).Ok? ==> Transposed(s, k) == Fail(TooLow)
  {
  }

  /** What the guard buys: after an upward shift no pitch exceeds 125, after
      a downward one no pitch is below 1. */
  lemma TransposeInRange(s: seq<Note>, k: int, t: seq<Note>)
    requires Transposed(s, k) == Ok(t)
    ensures k > 0 ==> forall v :: Value(v) in t ==> v <= MaxPitch
    ensures k <= 0 ==> forall v :: Value(v) in t ==> v >= MinPitch
  {
    forall v | Value(v) in t
      ensures k > 0 ==> v <= MaxPitch
      ensures k <= 0 ==> v >= MinPitch
    {
      ShiftMember(s, k, v);
    }
  }

  /** Transposing back by -k undoes a successful transpose by k whenever the
      reverse guard lets it through, and it does exactly when the pitches of
      `s` satisfy the reverse direction's bound. */
  lemma TransposeInverse(s: seq<Note>, k: int, t: seq<Note>)
    requires Transposed(s, k) == Ok(t)
    ensures Transposed(t, -k).Ok? ==> Transposed(t, -k) == Ok(s)
    ensures Transposed(t, -k).Ok? <==>
              (k > 0 ==> Lowest(s) >= MinPitch) && (k < 0 ==> Highest(s) <= MaxPitch)
  {
    assert Values(s) != [] && t == Shift(s, k);
    ShiftExtremes(s, k);
    ShiftInverse(s, k);
    var back := Shift(t, -k);
    assert back == s;
    if k > 0 {
      assert Transposed(t, -k) == if Lowest(s) < MinPitch then Fail(TooLow) else Ok(back);
    } else if k < 0 {
      assert Transposed(t, -k) == if Highest(s) > MaxPitch then Fail(TooHigh) else Ok(back);
    } else {
      assert Lowest(t) == Lowest(s) >= MinPitch;
    }
  }

  /** A transpose by 0 changes nothing, but its guard still rejects a
      sequence that holds a pitch below 1. */
  lemma TransposeByZero(s: seq<Note>)
    requires Values(s) != []
    ensures Transposed(s, 0) == if Lowest(s) >= MinPitch then Ok(s) else Fail(TooLow)
  {
    var t := Shift(s, 0);
    forall i | 0 <= i < |s| ensures t[i] == s[i] {
      match s[i]
      case Value(p) =>
      case Rest =>
    }
    assert t == s;
  }

  // ---------------------------------------------------------------------
  // find_first and equalize

  /** find_first returns the pitch of the earliest non-rest step. */
  lemma {:induction false} FirstIsEarliest(s: seq<Note>)
    requires First(s).Some?
    ensures exists i :: 0 <= i < |s| && s[i] == Value(First(s).value) &&
                        forall j :: 0 <= j < i ==> s[j] == Rest
  {
    if !s[0].Value? {
      FirstIsEarliest(s[1..]);
      var i :| 0 <= i < |s[1..]| && s[1..][i] == Value(First(s[1..]).value) &&
                forall j :: 0 <= j < i ==> s[1..][j] == Rest;
      assert s[i + 1] == Value(First(s).value);
      forall j | 0 <= j < i + 1 ensures s[j] == Rest {
        if j > 0 { assert s[j] == s[1..][j - 1]; }
      }
    }
  }

  /** After a successful equalize the first pitch is the reference. */
  lemma EqualizeAnchors(s: seq<Note>, reference: int, t: seq<Note>)
    requires Equalized(s, reference) == Ok(t)
    ensures First(t) == Some(reference)
  {
    var f := First(s).value;
    assert Transposed(s, reference - f) == Ok(t);
    assert t == Shift(s, reference - f);
    ShiftFirst(s, reference - f);
  }

  /** Equalizing an equalized sequence again with the same reference gives
      it back unchanged when no pitch lies below 1; otherwise the zero shift
      trips the downward guard. */
  lemma EqualizeIdempotent(s: seq<Note>, reference: int, t: seq<Note>)
    requires Equalized(s, reference) == Ok(t)
    ensures (forall v :: Value(v) in t ==> v >= MinPitch) ==> Equalized(t, reference) == Ok(t)
    ensures (exists v :: Value(v) in t && v < MinPitch) ==> Equalized(t, reference) == Fail(TooLow)
  {
    EqualizeAnchors(s, reference, t);
    TransposeByZero(t);
  }
}

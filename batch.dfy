/** The batch transforms over the eight slots of a file (microbrute.py lines 88-115).
    A slot number `num` runs from 1 to 8 and names `bank[num - 1]`. */
module Batch {
  import opened Notes
  import opened Pitch

  /** multi_transpose: every selected slot is transposed, the others are
      copied. The first selected slot whose transpose fails aborts the
      whole batch with that slot's error: all or nothing. */
  method MultiTranspose(bank: seq<seq<Note>>, semitones: int, indices: seq<int>)
      returns (r: Outcome<seq<seq<Note>>>)
    requires |bank| == SlotCount
    ensures r.Ok? <==>
              forall j :: 0 <= j < SlotCount && j + 1 in indices ==> Transposed(bank[j], semitones).Ok?
    ensures r.Ok? ==> |r.value| == SlotCount
    ensures r.Ok? ==> forall j :: 0 <= j < SlotCount && j + 1 in indices ==>
                        Transposed(bank[j], semitones) == Ok(r.value[j])
    ensures r.Ok? ==> forall j :: 0 <= j < SlotCount && j + 1 !in indices ==> r.value[j] == bank[j]
    ensures r.Fail? ==> exists j :: 0 <= j < SlotCount && j + 1 in indices &&
                          Transposed(bank[j], semitones) == Fail(r.error) &&
                          forall i :: 0 <= i < j && i + 1 in indices ==> Transposed(bank[i], semitones).Ok?
  {
    var slots := new seq<Note>[SlotCount];
    for num := 1 to SlotCount + 1
      invariant forall j :: 0 <= j < num - 1 && j + 1 in indices ==>
                  Transposed(bank[j], semitones) == Ok(slots[j])
      invariant forall j :: 0 <= j < num - 1 && j + 1 !in indices ==> slots[j] == bank[j]
    {
      if num in indices {
        var t := Transpose(bank[num - 1], semitones);
        if t.Fail? {
          assert Transposed(bank[num - 1], semitones) == Fail(t.error);
          return Fail(t.error);
        }
        ghost var before := slots[..];
        slots[num - 1] := t.value;
        assert slots[..] == before[num - 1 := t.value];
      } else {
        ghost var before := slots[..];
        slots[num - 1] := bank[num - 1];
        assert slots[..] == before[num - 1 := bank[num - 1]];
      }
    }
    r := Ok(slots[..]);
  }

  /** multi_equalize: every selected slot is equalized. A range error
      (TooHigh, TooLow) is caught and leaves that slot as it was, while the
      rest of the batch goes on; only a selected slot without any pitch
      aborts the batch, as its error is not the one the source catches. */
  method MultiEqualize(bank: seq<seq<Note>>, reference: int, indices: seq<int>)
      returns (r: Outcome<seq<seq<Note>>>)
    requires |bank| == SlotCount
    ensures r.Ok? <==>
              forall j :: 0 <= j < SlotCount && j + 1 in indices ==> Equalized(bank[j], reference) != Fail(NoNote)
    ensures r.Fail? ==> r.error == NoNote
    ensures r.Ok? ==> |r.value| == SlotCount
    ensures r.Ok? ==> forall j :: 0 <= j < SlotCount && j + 1 in indices && Equalized(bank[j], reference).Ok? ==>
                        Equalized(bank[j], reference) == Ok(r.value[j])
    ensures r.Ok? ==> forall j :: 0 <= j < SlotCount && j + 1 in indices && Equalized(bank[j], reference).Fail? ==>
                        r.value[j] == bank[j]
    ensures r.Ok? ==> forall j :: 0 <= j < SlotCount && j + 1 !in indices ==> r.value[j] == bank[j]
  {
    var slots := new seq<Note>[SlotCount];
    for num := 1 to SlotCount + 1
      invariant forall j :: 0 <= j < num - 1 ==> Caught(bank[j], reference, j + 1 in indices)
      invariant forall j :: 0 <= j < num - 1 ==> slots[j] == Kept(bank[j], reference, j + 1 in indices)
    {
      var kept := EqualizeSlot(bank[num - 1], reference, num in indices);
      if kept.Fail? {
        return Fail(NoNote);
      }
      ghost var before := slots[..];
      slots[num - 1] := kept.value;
      assert slots[..] == before[num - 1 := kept.value];
    }
    r := Ok(slots[..]);
  }

  /** The body of multi_equalize's loop for one slot: a selected slot is
      equalized, a range error is caught and the slot kept, a missing pitch
      escapes; an unselected slot is copied. */
  method EqualizeSlot(s: seq<Note>, reference: int, selected: bool) returns (r: Outcome<seq<Note>>)
    ensures r.Fail? <==> !Caught(s, reference, selected)
    ensures r.Fail? ==> r.error == NoNote
    ensures r.Ok? ==> r.value == Kept(s, reference, selected)
  {
    if selected {
      var e := Equalize(s, reference);
      if e.Ok? {
        r := e;
      } else if e.error != NoNote {
        // the ValueError of a range check: reported, the slot kept
        r := Ok(s);
      } else {
        r := e;
      }
    } else {
      r := Ok(s);
    }
  }

  /** A slot does not abort multi_equalize: it is not selected, or its
      equalize succeeds or raises the ValueError the source catches. */
  predicate Caught(s: seq<Note>, reference: int, selected: bool) {
    selected ==> Equalized(s, reference) != Fail(NoNote)
  }

  /** A slot after multi_equalize: its equalized form when selected and
      successful, the slot itself otherwise. */
  function Kept(s: seq<Note>, reference: int, selected: bool): seq<Note> {
    if selected && Equalized(s, reference).Ok? then Equalized(s, reference).value else s
  }
}

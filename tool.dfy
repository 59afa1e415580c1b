/** One run of the tool after argument parsing (microbrute.py lines 17, 31-64):
    read the file's text, check `-i` and `-r`, run the batch, write the text. */
module Tool {
  import opened Notes
  import opened Pitch
  import opened Batch
  import opened Text
  import opened SequenceFile
  import opened Parameters

  /** Why a run writes nothing. */
  datatype RunError =
    | InvalidIndexList     // "Invalid sequence choice ..."
    | InvalidReference     // "Reference must be smaller than 125" / "bigger than 1"
    | Aborted(error: Error) // an exception out of the batch

  datatype Run = Written(text: string) | Refused(why: RunError)

  /** The slots a run selects: the `-i` list, or all eight when it is absent or empty. */
  function SelectedSlots(index: Option<seq<int>>): seq<int> {
    if index.Some? && index.value != [] then index.value else AllSlots
  }

  /** The `-i` check passes: no list, an empty one, or a valid one. */
  predicate IndexAccepted(index: Option<seq<int>>) {
    index.None? || index.value == [] || ValidIndexList(index.value)
  }

  /** The batch returns instead of raising: in transpose mode every selected
      slot passes the range guard; in equalize mode no selected slot is
      without a pitch (range errors are caught there). */
  predicate Succeeds(bank: seq<seq<Note>>, transposeOnly: bool, note: int, slots: seq<int>)
    requires |bank| == SlotCount
  {
    forall j :: 0 <= j < SlotCount && j + 1 in slots ==>
      if transposeOnly then Transposed(bank[j], note).Ok? else Equalized(bank[j], note) != Fail(NoNote)
  }

  /** In transpose mode the batch raises the error of the first selected
      slot whose transpose fails; every selected slot before it transposes. */
  predicate FirstTransposeError(bank: seq<seq<Note>>, note: int, slots: seq<int>, e: Error)
    requires |bank| == SlotCount
  {
    exists j :: 0 <= j < SlotCount && j + 1 in slots && Transposed(bank[j], note) == Fail(e) &&
      forall i :: 0 <= i < j && i + 1 in slots ==> Transposed(bank[i], note).Ok?
  }

  /** What the batch made of each slot: an unselected slot is unchanged; a
      selected slot is transposed, or equalized when that succeeds and
      unchanged when equalize raised a range error. */
  predicate Updated(before: seq<seq<Note>>, after: seq<seq<Note>>, transposeOnly: bool, note: int, slots: seq<int>)
    requires |before| == SlotCount
  {
    |after| == SlotCount &&
    forall j :: 0 <= j < SlotCount ==>
      if j + 1 !in slots then after[j] == before[j]
      else if transposeOnly then Transposed(before[j], note) == Ok(after[j])
      else if Equalized(before[j], note).Ok? then Equalized(before[j], note) == Ok(after[j])
      else after[j] == before[j]
  }

  /** The batch never empties a slot. */
  lemma UpdatedNonEmpty(before: seq<seq<Note>>, after: seq<seq<Note>>, transposeOnly: bool, note: int, slots: seq<int>)
    requires |before| == SlotCount && forall j :: 0 <= j < SlotCount ==> before[j] != []
    requires Updated(before, after, transposeOnly, note, slots)
    ensures forall j :: 0 <= j < |after| ==> after[j] != []
  {
    forall j | 0 <= j < |after| ensures after[j] != [] {
      if j + 1 in slots && transposeOnly {
        assert Transposed(before[j], note) == Ok(after[j]);
      } else if j + 1 in slots && Equalized(before[j], note).Ok? {
        assert Equalized(before[j], note) == Ok(after[j]);
      }
    }
  }

  /** Lines 59-63 without the write: multi_transpose under `-t`,
      multi_equalize otherwise. */
  method Apply(bank: seq<seq<Note>>, transposeOnly: bool, note: int, slots: seq<int>)
      returns (result: Outcome<seq<seq<Note>>>)
    requires |bank| == SlotCount
    ensures result.Ok? <==> Succeeds(bank, transposeOnly, note, slots)
    ensures result.Fail? && !transposeOnly ==> result.error == NoNote
    ensures result.Fail? && transposeOnly ==> FirstTransposeError(bank, note, slots, result.error)
    ensures result.Ok? ==> Updated(bank, result.value, transposeOnly, note, slots)
  {
    if transposeOnly {
      result := MultiTranspose(bank, note, slots);
    } else {
      result := MultiEqualize(bank, note, slots);
    }
  }

  /** main from line 17 on: parse the text, decide the slots and the
      reference, then transpose (`-t`) or equalize, and format the result.
      The run writes exactly when both checks pass and the batch returns. */
  method Manipulate(source: string, transposeOnly: bool, index: Option<seq<int>>, reference: Option<int>)
      returns (r: Run)
    requires |Lines(source)| == SlotCount
    ensures r == Refused(InvalidIndexList) <==> !IndexAccepted(index)
    ensures r == Refused(InvalidReference) <==>
              IndexAccepted(index) && !ChooseReference(transposeOnly, reference).Reference?
    ensures r.Written? <==>
              IndexAccepted(index) && ChooseReference(transposeOnly, reference).Reference? &&
              Succeeds(ParsedBank(Lines(source)), transposeOnly,
                       ChooseReference(transposeOnly, reference).note, SelectedSlots(index))
    ensures r.Refused? && r.why.Aborted? && !transposeOnly ==> r.why.error == NoNote
    ensures r.Refused? && r.why.Aborted? && transposeOnly ==>
              FirstTransposeError(ParsedBank(Lines(source)), ChooseReference(transposeOnly, reference).note,
                                  SelectedSlots(index), r.why.error)
    ensures r.Written? ==> r.text == Formatted(ParsedBank(Lines(r.text)))
    ensures r.Written? ==>
              Updated(ParsedBank(Lines(source)), ParsedBank(Lines(r.text)), transposeOnly,
                      ChooseReference(transposeOnly, reference).note, SelectedSlots(index))
  {
    var data := ReadSequences(source);
    var selection := SelectIndices(index);
    if selection.BadIndexList? {
      return Refused(InvalidIndexList);
    }
    assert selection.slots == SelectedSlots(index);
    var choice := ChooseReference(transposeOnly, reference);
    if !choice.Reference? {
      return Refused(InvalidReference);
    }
    var result := Apply(data, transposeOnly, choice.note, selection.slots);
    if result.Fail? {
      return Refused(Aborted(result.error));
    }
    var out := result.value;
    UpdatedNonEmpty(data, out, transposeOnly, choice.note, selection.slots);
    var text := WriteSequences(out);
    BankRoundTrip(out);
    assert ParsedBank(Lines(text)) == out;
    r := Written(text);
  }
}

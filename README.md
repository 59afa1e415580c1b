# MicroBrute sequence editor, modelled in Dafny

`microbrute.py` edits the `.mbseq` files that the MicroBrute Connection
software writes for the MicroBrute synthesizer's step sequencer. A file has
eight lines, one per pattern slot, of the form `N:<token> <token> ...` and ends
each line with CR LF. A token is a MIDI pitch or the rest marker `x`. The tool
reads the file and then works on a chosen set of slots (`-i`, all eight by
default). It either transposes each chosen slot by a number of semitones
(`-t -r k`), or equalizes it so that the slot's first pitch lands on a
reference note (`-r`, default 60). Then it writes the file back.

This project models that pipeline:

- `notes.dfy` (`Notes`): the `Note` type (`Value(pitch)` or `Rest`), the
  transform errors and the pitch bounds 1 and 125.
- `pitch.dfy` (`Pitch`): `find_first`, `find_highest`, `find_lowest`,
  `transpose` and `equalize`. `Transposed` and `Equalized` are the reference
  functions. `Transpose` is the appending loop of the source. The lemmas cover
  the range guard, the shape of the result, invertibility and idempotence.
- `batch.dfy` (`Batch`): `multi_transpose` and `multi_equalize` as loops that
  fill a fresh eight-slot array by index.
- `text.dfy` (`Text`): the Python string operations that the parser and the
  writer rely on. These are `str.split(' ')`, `str.strip`, `int()`, `str()`
  and the lines produced by iterating over a text file.
- `sequence_file.dfy` (`SequenceFile`): `read_sequences` and
  `write_sequences`, with the parse/format round trip for one line and for a
  whole file.
- `parameters.dfy` (`Parameters`): the `-i` and `-r` decisions of `main`.
- `tool.dfy` (`Tool`): `main` from reading the text to writing it.

Behaviour that the model keeps on purpose:

- A transpose by 0 semitones takes the downward branch of the guard. So it
  fails with `TooLow` when some pitch is below 1.
- A sequence with no pitch has no highest, lowest or first pitch. Python then
  raises `IndexError` (transpose) or `TypeError` (equalize). The model calls
  this `NoNote`. `multi_equalize` catches only `ValueError`, so `NoNote`
  aborts both batch operations.
- `-r 0` is falsy, so it means 60, the same as an absent `-r`. In transpose
  mode an absent `-r` therefore transposes by 60 semitones.
- `-i` given with no numbers is falsy, so it selects every slot, the same as
  an absent `-i`.
- A line's slot marker is removed by cutting two characters (`s[2:]`), not by
  reading it. The parse/format round trip therefore holds for slots 1 to 9.

## Model

| member | source | states |
|---|---|---|
| `Pitch.Values` | microbrute.py:143-146 | the pitches that remain once the sorted copy is cut at the first `x`: `v` is listed exactly when `Value(v)` occurs in the sequence |
| `Pitch.Highest` | microbrute.py:142-147 | find_highest returns a pitch of the sequence, and no pitch of the sequence exceeds it |
| `Pitch.Lowest` | microbrute.py:149-154 | find_lowest returns a pitch of the sequence, and no pitch of the sequence is below it |
| `Pitch.First` | microbrute.py:136-140 | find_first returns None exactly when every entry is a rest, and otherwise returns a pitch that occurs in the sequence |
| `Pitch.FirstIsEarliest` | microbrute.py:137-139 | the pitch find_first returns stands at a position that only rests precede |
| `Pitch.Transposed` | microbrute.py:120-134 | transpose fails with TooHigh only for an upward shift (k > 0) and with TooLow only for a shift k <= 0, and a successful transpose has as many steps as its input |
| `Pitch.Equalized` | microbrute.py:117-118 | a successful equalize has as many steps as its input |
| `Pitch.NoNoteIffAllRests` | microbrute.py:117-154 | transpose and equalize both fail with NoNote exactly when every step of the sequence is a rest |
| `Pitch.Transpose` | microbrute.py:120-134 | the guard followed by the appending loop computes exactly `Transposed`: NoNote for a sequence without a pitch, TooHigh or TooLow from the guard, otherwise the shifted copy |
| `Pitch.TransposeShape` | microbrute.py:128-134 | a successful transpose keeps the length and keeps every rest at its position, and raises every pitch by exactly the shift |
| `Pitch.TransposeUpGuard` | microbrute.py:121-123 | for a shift k > 0, transpose succeeds exactly when every pitch plus k is at most 125, and otherwise fails with TooHigh |
| `Pitch.TransposeDownGuard` | microbrute.py:124-126 | for a shift k <= 0, transpose succeeds exactly when every pitch plus k is at least 1, and otherwise fails with TooLow |
| `Pitch.TransposeInRange` | microbrute.py:120-134 | after a successful upward shift no pitch exceeds 125; after a successful downward or zero shift no pitch is below 1 |
| `Pitch.TransposeInverse` | microbrute.py:120-134 | transposing a result back by -k gives the original sequence whenever that succeeds; it succeeds exactly when the original's lowest pitch is at least 1 (k > 0) or its highest is at most 125 (k < 0) |
| `Pitch.TransposeByZero` | microbrute.py:124-134 | a transpose by 0 returns the sequence unchanged when its lowest pitch is at least 1, and fails with TooLow otherwise |
| `Pitch.Equalize` | microbrute.py:117-118 | equalize computes exactly `Equalized`: NoNote for an all-rest sequence, otherwise the transpose by reference minus the first pitch |
| `Pitch.EqualizeAnchors` | microbrute.py:117-118 | after a successful equalize, the first pitch of the result is the reference |
| `Pitch.EqualizeIdempotent` | microbrute.py:117-126 | equalizing a result again with the same reference returns it unchanged when no pitch is below 1, and fails with TooLow otherwise |
| `Batch.MultiTranspose` | microbrute.py:88-98 | the batch succeeds exactly when every selected slot transposes. On success it returns 8 slots: each selected slot is its transpose and each other slot is unchanged. On failure the error is that of the first selected slot that fails |
| `Batch.MultiEqualize` | microbrute.py:100-115 | the batch fails only with NoNote, and only when a selected slot has no pitch. Otherwise it returns 8 slots: each selected slot is its equalized form, or is unchanged when equalize raised a range error, and each other slot is unchanged |
| `Batch.EqualizeSlot` | microbrute.py:105-113 | one pass of multi_equalize's loop: an unselected slot is copied; a selected slot becomes its equalized form, is kept when equalize raises a range error, and aborts with NoNote only when it has no pitch |
| `Text.Split` | microbrute.py:72 | `split(' ')` always yields at least one piece |
| `Text.SplitAtSpace` | microbrute.py:72 | splitting text joined at a space gives the pieces of each side, concatenated |
| `Text.StripSlice` | microbrute.py:74 | `strip` leaves a contiguous slice of the text; every character cut before or after it is in the stripped set, and the slice neither starts nor ends with one |
| `Text.ParseIntChars` | microbrute.py:79 | a token that `int()` accepts holds only whitespace, digits and signs |
| `Text.IntRoundTrip` | microbrute.py:79 | `int(str(v)) == v` for every integer v |
| `Text.Lines` | microbrute.py:71 | a file's lines are empty exactly when its text is empty |
| `Text.LinesConcat` | microbrute.py:71 | text written as whole lines, one after another, reads back as those lines |
| `SequenceFile.DropSlotMarker` | microbrute.py:73 | `s[2:]` is what follows the first two characters, and is empty for a piece shorter than two |
| `SequenceFile.RestMarker` | microbrute.py:78-81 | a token parses to a pitch only when it holds nothing but whitespace, digits and signs, so any token holding `x` reads as a rest |
| `SequenceFile.Tokens` | microbrute.py:72-74 | editing the first and last pieces in place keeps one token per piece of the split |
| `SequenceFile.ParseLine` | microbrute.py:72-82 | every line, even an empty one, parses to at least one entry |
| `SequenceFile.EditPieces` | microbrute.py:72-74 | the in-place edits of `value_list` yield exactly the line's `Tokens` |
| `SequenceFile.ParseTokens` | microbrute.py:76-82 | the inner loop appends `int(val)`, or `x` where int() fails, for each token in order: exactly `ParseAll` of the tokens |
| `SequenceFile.ReadLine` | microbrute.py:71-83 | one pass of the outer loop yields exactly `ParseLine` of the line |
| `SequenceFile.ParsedBank` | microbrute.py:67-84 | a file parses to one non-empty sequence per line |
| `SequenceFile.ReadSequences` | microbrute.py:67-84 | the loops over lines and tokens compute `ParsedBank` of the file's lines |
| `SequenceFile.Render` | microbrute.py:162-164 | `str(entry)` is a non-empty run of digits, `-` and `x`, and it is `x` exactly for a rest |
| `SequenceFile.FormatLine` | microbrute.py:160-164 | the text written for one slot is a single line: it ends with its only `'\n'` |
| `SequenceFile.WriteLine` | microbrute.py:159-164 | one pass of the writer appends exactly `FormatLine` of the slot to the text already written |
| `SequenceFile.WriteSequences` | microbrute.py:156-164 | the writer's loops produce exactly the concatenated lines of the bank, slot numbers counted from 1 |
| `SequenceFile.ParseRender` | microbrute.py:78-81 | parsing the token `str()` wrote for an entry gives that entry back, a rest included |
| `SequenceFile.LineRoundTrip` | microbrute.py:160-164 | parsing the line written for slot 1 to 9 gives back the notes of that slot |
| `SequenceFile.BankRoundTrip` | microbrute.py:156-164 | reading back the text written for a bank of at most 9 non-empty slots gives back the bank |
| `Parameters.RemoveFirst` | microbrute.py:34-37 | `list.remove` with ValueError ignored takes one occurrence of the value out, if there is one |
| `Parameters.RemoveSlots` | microbrute.py:32-37 | after `remove(k)` for k from 1 to 8, each slot number occurs once less, if it occurred at all, and every other value keeps its count |
| `Parameters.SelectIndices` | microbrute.py:31-43 | an absent or empty `-i` selects slots 1 to 8; any other list is accepted, unchanged, exactly when every element is in 1..8 and none repeats, and is refused otherwise |
| `Parameters.ValidIffCounts` | microbrute.py:32-38 | a list holds each of 1..8 at most once and nothing else exactly when no value occurs in it more often than `range(1, 9)` supplies it |
| `Parameters.ChooseReference` | microbrute.py:45-57 | transpose mode never refuses. An accepted equalize reference lies in 1..125. The value given is used unless it is absent or 0, which give 60. Refusal is TooHigh exactly above 125 and TooLow exactly below 0 |
| `Tool.Apply` | microbrute.py:59-63 | the batch returns exactly when every selected slot transposes (`-t`) or no selected slot is without a pitch (equalize); a transpose abort carries the error of the first selected slot that fails, and equalize aborts only with NoNote; on return each unselected slot is unchanged and each selected slot is transposed, or equalized or kept as `multi_equalize` decides |
| `Tool.Manipulate` | microbrute.py:17-64 | an invalid `-i` list, then an invalid `-r`, refuses the run. Otherwise the run writes exactly when the batch returns. A transpose abort carries the error of the first selected slot that fails, and equalize mode aborts only with NoNote. A written text is the formatted form of the 8 slots it reads back as: each unselected slot is unchanged, and each selected slot is transposed, or equalized or kept as `multi_equalize` decides |

## Left out

- Argument parsing with `argparse` (lines 4-11): the model takes the parsed values as parameters.
- Checking the file extension and deriving the output name (lines 13-15 and 19-29). This is command-line naming policy.
- Opening, reading and writing files (lines 70, 157-164): the model works on the text of the file. `file_equalize` (lines 166-167) only chains reading, `multi_equalize` and writing, so it has no member of its own.
- The `print` diagnostics and `raise IOError` exits (lines 14-15, 26-27, 39-40, 49-53, 61, 64, 109-110). A refusal is the value `Refused(...)`. The message that `multi_equalize` prints for a slot it leaves unchanged is not modelled.
- Iterating over a file is modelled as splitting after each `'\n'`, as Python 2 does in text mode on POSIX. Newline translation on other platforms is not modelled.
- Text.Strip takes one of two fixed character sets, not an arbitrary argument string: CR and LF, for `strip('\r\n')` (line 74), or ASCII whitespace, for what `int()` skips around a token (line 79).
- Text.ParseInt models `int()` on the ASCII tokens a file holds: surrounding whitespace, an optional sign and decimal digits. Python 2's other accepted spellings, such as whitespace between the sign and the digits (`int('-\t5')` is -5), read as a rest in the model. The writer never produces them.
- Python 2's mixed int/str sort in `find_highest` and `find_lowest` is replaced by the maximum and minimum over the pitches. Identity comparisons with `'x'` are replaced by the `Rest` constructor.
- Batch.MultiTranspose and Batch.MultiEqualize require exactly eight slots. With any other number the source either indexes past its eight-element list or writes empty slots that `write_sequences` then cannot index.
- SequenceFile.WriteSequences requires every slot to hold an entry, because the source indexes `seq[-1]`. Parsing never yields an empty slot.
- Tool.Manipulate requires a text of exactly eight lines, for the same reason.

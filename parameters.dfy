/** The parameter decisions of `main` (microbrute.py lines 31-57), taken
    over values argparse has already produced. */
module Parameters {
  import opened Notes

  /** The slots a run works on, or the rejection of the `-i` list. */
  datatype Selection = Chosen(slots: seq<int>) | BadIndexList

  /** What `-r` becomes: the reference note (or transpose amount), or the
      reason it is refused. */
  datatype ReferenceChoice = Reference(note: int) | ReferenceTooHigh | ReferenceTooLow

  /** `range(1, 9)`: every slot, in order. */
  const AllSlots: seq<int> := [1, 2, 3, 4, 5, 6, 7, 8]

  /** The reference note used when `-r` is absent (or 0). */
  const DefaultReference: int := 60

  /** Each element names a slot 1 to 8, and no slot is named twice. */
  predicate ValidIndexList(xs: seq<int>) {
    (forall i :: 0 <= i < |xs| ==> 1 <= xs[i] <= SlotCount) &&
    (forall i, j :: 0 <= i < j < |xs| ==> xs[i] != xs[j])
  }

  /** `list.remove(x)` with its ValueError ignored: the first `x` goes, if any. */
  function RemoveFirst(s: seq<int>, x: int): (r: seq<int>)
    ensures multiset(r) == multiset(s) - multiset{x}
  {
    if s == [] then []
    else if s[0] == x then
      assert s == [s[0]] + s[1..];
      s[1..]
    else
      assert s == [s[0]] + s[1..];
      [s[0]] + RemoveFirst(s[1..], x)
  }

  /** How often a valid list may name `x`: once for a slot, never otherwise. */
  function Allowed(x: int): nat {
    if 1 <= x <= SlotCount then 1 else 0
  }

  /** The `-i` check: a copy of the list loses one 1, one 2, ... one 8; a
      list with anything left over is refused. An absent list, and an empty
      one (`-i` with no numbers, which is just as falsy), select every slot. */
  method SelectIndices(index: Option<seq<int>>) returns (r: Selection)
    ensures index.None? || index == Some([]) ==> r == Chosen(AllSlots)
    ensures index.Some? && index.value != [] ==>
              r == if ValidIndexList(index.value) then Chosen(index.value) else BadIndexList
  {
    if index.Some? && index.value != [] {
      var xs := index.value;
      var temp := RemoveSlots(xs);
      ValidIffCounts(xs);
      if temp != [] {
        var y := temp[0];
        assert multiset(temp)[y] > 0;
        assert multiset(xs)[y] > Allowed(y);
        r := BadIndexList;
      } else {
        assert forall x :: multiset(xs)[x] <= Allowed(x) by {
          forall x ensures multiset(xs)[x] <= Allowed(x) {
            assert multiset(temp)[x] == 0;
          }
        }
        r := Chosen(xs);
      }
    } else {
      r := Chosen(AllSlots);
    }
  }

  /** The copy of the `-i` list once `remove(k)` has run for k from 1 to 8:
      one occurrence of each slot number is gone, everything else is left. */
  method RemoveSlots(xs: seq<int>) returns (temp: seq<int>)
    ensures forall x :: multiset(temp)[x] ==
              if Allowed(x) == 1 && multiset(xs)[x] > 0 then multiset(xs)[x] - 1 else multiset(xs)[x]
  {
    temp := xs;
    for k := 1 to SlotCount + 1
      invariant forall x :: multiset(temp)[x] ==
                  if 1 <= x < k && multiset(xs)[x] > 0 then multiset(xs)[x] - 1 else multiset(xs)[x]
    {
      temp := RemoveFirst(temp, k);
    }
  }

  /** A list names slots 1 to 8 at most once each exactly when it holds no
      value more often than `Allowed` says. */
  lemma ValidIffCounts(xs: seq<int>)
    ensures ValidIndexList(xs) <==> forall x :: multiset(xs)[x] <= Allowed(x)
  {
    if ValidIndexList(xs) {
      ValidCounts(xs);
    }
    if forall x :: multiset(xs)[x] <= Allowed(x) {
      CountsValid(xs);
    }
  }

  lemma {:induction false} ValidCounts(xs: seq<int>)
    requires ValidIndexList(xs)
    ensures forall x :: multiset(xs)[x] <= Allowed(x)
  {
    if xs != [] {
      var h, t := xs[0], xs[1..];
      assert xs == [h] + t;
      assert ValidIndexList(t) by {
        forall i, j | 0 <= i < j < |t| ensures t[i] != t[j] {
          assert t[i] == xs[i + 1] && t[j] == xs[j + 1];
        }
      }
      ValidCounts(t);
      assert multiset(t)[h] == 0;
    }
  }

  lemma CountsValid(xs: seq<int>)
    requires forall x :: multiset(xs)[x] <= Allowed(x)
    ensures ValidIndexList(xs)
  {
    forall i | 0 <= i < |xs| ensures 1 <= xs[i] <= SlotCount {
      assert xs[i] in multiset(xs);
    }
    forall i, j | 0 <= i < j < |xs| ensures xs[i] != xs[j] {
      Repeated(xs, i, j);
    }
  }

  /** A value at two positions occurs at least twice. */
  lemma Repeated(xs: seq<int>, i: nat, j: nat)
    requires i < j < |xs|
    ensures xs[i] == xs[j] ==> multiset(xs)[xs[i]] >= 2
  {
    assert xs == xs[..j] + xs[j..];
    assert xs[..j][i] == xs[i] && xs[j..][0] == xs[j];
    assert xs[i] in multiset(xs[..j]) && xs[j] in multiset(xs[j..]);
  }

  /** The `-r` decision. `args.reference` is falsy when absent and when 0,
      so both give the default 60. In transpose mode the given value is the
      amount and is not range-checked here; otherwise it must lie in 1..125. */
  function ChooseReference(transposeOnly: bool, reference: Option<int>): (r: ReferenceChoice)
    ensures transposeOnly ==> r.Reference?
    ensures r.Reference? && !transposeOnly ==> MinPitch <= r.note <= MaxPitch
    ensures r.Reference? ==> r.note == if reference.Some? && reference.value != 0 then reference.value
                                       else DefaultReference
    ensures r == ReferenceTooHigh <==> !transposeOnly && reference.Some? && reference.value > MaxPitch
    ensures r == ReferenceTooLow <==> !transposeOnly && reference.Some? && reference.value < 0
  {
    var given := reference.Some? && reference.value != 0;
    if transposeOnly && given then Reference(reference.value)
    else if given then
      if reference.value > MaxPitch then ReferenceTooHigh
      else if reference.value < MinPitch then ReferenceTooLow
      else Reference(reference.value)
    else Reference(DefaultReference)
  }
}

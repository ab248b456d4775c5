/** A ring of slots over one flat buffer of equal cells: where a payload's bytes lie. */
module SlotBuffer {
  import opened Common

  datatype Slot = Slot(sequence: nat, len: nat, present: bool)

  lemma CellFits(i: nat, capacity: nat, width: nat)
    requires i < capacity
    ensures 0 <= i * width && i * width + width <= capacity * width
  {
    assert capacity * width == i * width + width + (capacity - i - 1) * width;
  }

  lemma CellsApart(i: nat, j: nat, width: nat)
    requires i != j
    ensures i * width + width <= j * width || j * width + width <= i * width
  {
    if i < j {
      CellFits(i, j, width);
    } else {
      CellFits(j, i, width);
    }
  }

  ghost predicate Stored(bytes: seq<byte>, at: nat, payload: seq<byte>) {
    at + |payload| <= |bytes| && bytes[at .. at + |payload|] == payload
  }

  lemma KeepsStored(bytes: seq<byte>, bytes': seq<byte>, at: nat, len: nat, other: nat, payload: seq<byte>)
    requires |bytes'| == |bytes| && forall k :: 0 <= k < |bytes| && !(at <= k < at + len) ==> bytes'[k] == bytes[k]
    requires Stored(bytes, other, payload) && (other + |payload| <= at || at + len <= other)
    ensures Stored(bytes', other, payload)
  {
  }

  method CopyBytes(bytes: array<byte>, at: nat, payload: seq<byte>)
    requires at + |payload| <= bytes.Length
    modifies bytes
    ensures Stored(bytes[..], at, payload)
    ensures forall j :: 0 <= j < bytes.Length && !(at <= j < at + |payload|) ==> bytes[..][j] == old(bytes[..])[j]
  {
    for k := 0 to |payload|
      invariant bytes[at .. at + k] == payload[..k]
      invariant forall j :: 0 <= j < bytes.Length && !(at <= j < at + |payload|) ==> bytes[j] == old(bytes[j])
    {
      bytes[at + k] := payload[k];
    }
  }
}

/**
 * `tr_list_to_mask`: a list of indices turned into a fixed-length boolean
 * mask, as `arr = np.zeros(length, bool); arr[thelist] = True` does.
 */
module Masks {
  import opened Containers

  /**
   * The mask of the given length with the listed positions set.  As numpy
   * does, a negative index counts from the end; an index outside
   * `[-length, length)` raises IndexError and a negative length raises
   * ValueError, both given as None.  The indices are set one after the
   * other, which is what numpy's fancy-index assignment amounts to here.
   */
  function ListToMask(indices: seq<int>, length: int): (r: Option<seq<bool>>)
    ensures r.Some? <==> length >= 0 && forall k :: 0 <= k < |indices| ==> -length <= indices[k] < length
    ensures r.Some? ==> |r.value| == length
    ensures r.Some? ==> forall i {:trigger r.value[i]} :: 0 <= i < length ==> (r.value[i] <==> (i in indices || i - length in indices))
    decreases |indices|
  {
    if length < 0 then None
    else if indices == [] then Some(seq(length, _ => false))
    else
      var n := |indices| - 1;
      var k := indices[n];
      assert indices == indices[..n] + [k];
      match ListToMask(indices[..n], length)
      case None => None
      case Some(mask) =>
        if -length <= k < length then
          var updated := mask[if k < 0 then k + length else k := true];
          assert forall i :: 0 <= i < length ==> (updated[i] <==> (i in indices || i - length in indices)) by {
            forall i | 0 <= i < length ensures updated[i] <==> (i in indices || i - length in indices) {
              assert (i in indices) == (i in indices[..n] || i == k);
              assert (i - length in indices) == (i - length in indices[..n] || i - length == k);
            }
          }
          Some(updated)
        else
          None
  }

  lemma IndicesInRange(indices: seq<int>, others: seq<int>, length: int)
    requires forall x :: x in indices ==> x in others
    requires forall k :: 0 <= k < |others| ==> -length <= others[k] < length
    ensures forall k :: 0 <= k < |indices| ==> -length <= indices[k] < length
  {
    forall k | 0 <= k < |indices| ensures -length <= indices[k] < length {
      assert indices[k] in indices;
      var j :| 0 <= j < |others| && others[j] == indices[k];
    }
  }

  /** Repeating an index, or listing it in another order, gives the same mask. */
  lemma MaskDependsOnlyOnIndexSet(indices: seq<int>, others: seq<int>, length: int)
    requires forall x :: x in indices <==> x in others
    ensures ListToMask(indices, length) == ListToMask(others, length)
  {
    var r, s := ListToMask(indices, length), ListToMask(others, length);
    if r.Some? {
      IndicesInRange(others, indices, length);
      forall i | 0 <= i < length ensures r.value[i] == s.value[i] {
        assert (i in indices) == (i in others);
        assert (i - length in indices) == (i - length in others);
      }
      assert r.value == s.value;
    } else if s.Some? {
      IndicesInRange(indices, others, length);
    }
  }
}

// A field written over and over: which write a reader sees.
module Histories {
  import opened Wrappers

  datatype Write<V> = Keep | Put(value: V) | Clear

  function Written<V>(before: Option<V>, w: Write<V>): Option<V> {
    match w
    case Keep => before
    case Put(v) => Some(v)
    case Clear => None
  }

  // The field before each write and after the last, empty at first.
  predicate IsHistory<V(==)>(values: seq<Option<V>>, writes: seq<Write<V>>) {
    && |values| == |writes| + 1
    && values[0] == None
    && forall i {:trigger writes[i]} :: 0 <= i < |writes| ==> values[i + 1] == Written(values[i], writes[i])
  }

  // Write `i` put a value that nothing has overwritten or cleared before moment `n`.
  predicate Last<V(==)>(writes: seq<Write<V>>, n: nat, i: nat) {
    i < n <= |writes| && writes[i].Put? && forall k :: i < k < n ==> writes[k] == Keep
  }

  // The field holds a value if and only if a write of that value stands.
  lemma {:induction false} LastWrite<V>(values: seq<Option<V>>, writes: seq<Write<V>>, n: nat, v: V)
    requires IsHistory(values, writes) && n <= |writes|
    ensures values[n] == Some(v) <==> exists i: nat :: Last(writes, n, i) && writes[i].value == v
  {
    if n > 0 {
      var w := writes[n - 1];
      LastWrite(values, writes, n - 1, v);
      if w.Put? {
        assert Last(writes, n, n - 1);
      } else if i: nat :| w == Keep && Last(writes, n - 1, i) && writes[i].value == v {
        assert Last(writes, n, i);
      }
    }
  }
}

/**
 * The scans that every lookup of the tank calculator performs over a table
 * column: the first row whose key equals the query exactly, and the first pair
 * of adjacent rows whose keys enclose the query (both ends inclusive).
 * The source repeats these loops in each lookup; here they are stated once,
 * over the column of keys, and each lookup projects its table onto that column.
 */
module Search {
  import opened Results

  /** Rows `i` and `i + 1` enclose `x`: `keys[i] <= x <= keys[i + 1]`. */
  predicate Brackets(keys: seq<real>, i: nat, x: real) {
    i + 1 < |keys| && keys[i] <= x && x <= keys[i + 1]
  }

  /** Every key is smaller than every later key. */
  predicate StrictlyIncreasing(keys: seq<real>) {
    forall j, k :: 0 <= j < k < |keys| ==> keys[j] < keys[k]
  }

  /** The first index at or after `from` whose key equals `x`. */
  function FirstMatchFrom(keys: seq<real>, x: real, from: nat): (r: Option<nat>)
    requires from <= |keys|
    decreases |keys| - from
    ensures r.Some? ==> from <= r.value < |keys| && keys[r.value] == x
    ensures r.Some? ==> forall j :: from <= j < r.value ==> keys[j] != x
    ensures r.None? ==> forall j :: from <= j < |keys| ==> keys[j] != x
  {
    if from == |keys| then None
    else if keys[from] == x then Some(from)
    else FirstMatchFrom(keys, x, from + 1)
  }

  /** The first index whose key equals `x`, or None when no key does. */
  function FirstMatch(keys: seq<real>, x: real): (r: Option<nat>)
    ensures r.Some? ==> r.value < |keys| && keys[r.value] == x
    ensures r.Some? ==> forall j :: 0 <= j < r.value ==> keys[j] != x
    ensures r.None? <==> forall j :: 0 <= j < |keys| ==> keys[j] != x
  {
    FirstMatchFrom(keys, x, 0)
  }

  /** The first index `i` at or after `from` such that rows `i` and `i + 1` enclose `x`. */
  function FirstBracketFrom(keys: seq<real>, x: real, from: nat): (r: Option<nat>)
    requires from <= |keys|
    decreases |keys| - from
    ensures r.Some? ==> from <= r.value && Brackets(keys, r.value, x)
    ensures r.Some? ==> forall j :: from <= j < r.value ==> !Brackets(keys, j, x)
    ensures r.None? ==> forall j :: from <= j < |keys| ==> !Brackets(keys, j, x)
  {
    if from + 1 >= |keys| then None
    else if keys[from] <= x && x <= keys[from + 1] then Some(from)
    else FirstBracketFrom(keys, x, from + 1)
  }

  /** The first index `i` such that rows `i` and `i + 1` enclose `x`, or None. */
  function FirstBracket(keys: seq<real>, x: real): (r: Option<nat>)
    ensures r.Some? ==> Brackets(keys, r.value, x)
    ensures r.Some? ==> forall j :: 0 <= j < r.value ==> !Brackets(keys, j, x)
    ensures r.None? <==> forall j :: 0 <= j < |keys| ==> !Brackets(keys, j, x)
  {
    FirstBracketFrom(keys, x, 0)
  }

  /**
   * Walking upwards from a key below `x` towards a last key above `x`, some
   * adjacent pair encloses `x`. No ordering of the keys is needed.
   */
  lemma {:induction false} BracketAtOrAfter(keys: seq<real>, x: real, k: nat)
    requires k < |keys| && keys[k] < x < keys[|keys| - 1]
    decreases |keys| - k
    ensures exists j :: k <= j && Brackets(keys, j, x)
  {
    if x <= keys[k + 1] {
      assert Brackets(keys, k, x);
    } else {
      BracketAtOrAfter(keys, x, k + 1);
    }
  }

  /**
   * A query strictly between the first and the last key always has a bracket,
   * whether or not the keys are sorted.
   */
  lemma InteriorHasBracket(keys: seq<real>, x: real)
    requires |keys| > 0 && keys[0] < x < keys[|keys| - 1]
    ensures FirstBracket(keys, x).Some?
  {
    BracketAtOrAfter(keys, x, 0);
  }

  /** In a strictly increasing column, each key is found exactly at its own index. */
  lemma KeyFoundAtItsIndex(keys: seq<real>, i: nat)
    requires StrictlyIncreasing(keys) && i < |keys|
    ensures FirstMatch(keys, keys[i]) == Some(i)
  {
  }

  /**
   * In a strictly increasing column, the midpoint of two adjacent keys equals
   * no key, and its first bracket is exactly that adjacent pair.
   */
  lemma {:induction false} MidpointBracket(keys: seq<real>, i: nat)
    requires StrictlyIncreasing(keys) && i + 1 < |keys|
    ensures FirstMatch(keys, (keys[i] + keys[i + 1]) / 2.0) == None
    ensures FirstBracket(keys, (keys[i] + keys[i + 1]) / 2.0) == Some(i)
  {
    var mid := (keys[i] + keys[i + 1]) / 2.0;
    forall j | 0 <= j < |keys| ensures keys[j] != mid {
      if j < i {
        assert keys[j] < keys[i];
      } else if j > i + 1 {
        assert keys[i + 1] < keys[j];
      }
    }
    assert Brackets(keys, i, mid);
    forall j | 0 <= j < i ensures !Brackets(keys, j, mid) {
      assert j + 1 == i || keys[j + 1] < keys[i];
    }
  }
}

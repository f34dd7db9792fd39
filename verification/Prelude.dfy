/** Result shapes and sequence helpers shared by every component model. */
module Prelude {

  datatype Option<+T> = None | Some(value: T)

  datatype Result<+T> = Ok(value: T) | Err(error: string)

  newtype byte = x: int | 0 <= x < 256

  type Bytes = seq<byte>

  /** How many numbers a width in bytes can hold. */
  function Capacity(width: nat): nat {
    if width == 0 then 1 else 256 * Capacity(width - 1)
  }

  lemma WordCapacities()
    ensures Capacity(4) == 0x1_0000_0000 && Capacity(8) == U64_MAX + 1
  {
    assert Capacity(2) == 65536;
    assert Capacity(4) == 4294967296;
    assert Capacity(6) == 281474976710656;
  }

  const U64_MAX: nat := 0xFFFF_FFFF_FFFF_FFFF

  /** The elements of a list of lists, in order. */
  function Flatten<T>(parts: seq<seq<T>>): seq<T> {
    if parts == [] then [] else parts[0] + Flatten(parts[1..])
  }

  lemma {:induction false} FlattenAppend<T>(parts: seq<seq<T>>, more: seq<seq<T>>)
    ensures Flatten(parts + more) == Flatten(parts) + Flatten(more)
  {
    if parts == [] {
      assert parts + more == more;
    } else {
      assert (parts + more)[1..] == parts[1..] + more;
      FlattenAppend(parts[1..], more);
    }
  }

  lemma FlattenSnoc<T>(parts: seq<seq<T>>, last: seq<T>)
    ensures Flatten(parts + [last]) == Flatten(parts) + last
  {
    FlattenAppend(parts, [last]);
    assert [last][1..] == [];
    assert Flatten([last]) == last + [];
  }

  lemma {:induction false} FlattenIsLonger<T>(parts: seq<seq<T>>)
    requires forall i :: 0 <= i < |parts| ==> parts[i] != []
    ensures |Flatten(parts)| >= |parts|
  {
    if parts != [] {
      FlattenIsLonger(parts[1..]);
    }
  }

  lemma {:induction false} FlattenContains<T>(parts: seq<seq<T>>, i: nat, j: nat)
    requires i < |parts| && j < |parts[i]|
    ensures parts[i][j] in Flatten(parts)
  {
    if i > 0 {
      FlattenContains(parts[1..], i - 1, j);
    }
  }

  /** Where an element of a part is in the flattened list. */
  lemma {:induction false} FlattenIndex<T>(parts: seq<seq<T>>, b: nat, k: nat)
    requires b < |parts| && k < |parts[b]|
    ensures |Flatten(parts[..b])| + k < |Flatten(parts)| && Flatten(parts)[|Flatten(parts[..b])| + k] == parts[b][k]
  {
    FlattenAppend(parts[..b], parts[b..]);
    assert parts[..b] + parts[b..] == parts;
    assert parts[b..][0] == parts[b];
  }

  /** Which part an element of the flattened list comes from. */
  lemma {:induction false} FlattenLocate<T>(parts: seq<seq<T>>, i: nat) returns (b: nat, k: nat)
    requires i < |Flatten(parts)|
    ensures b < |parts| && k < |parts[b]| && parts[b][k] == Flatten(parts)[i] && i == |Flatten(parts[..b])| + k
    decreases |parts|
  {
    if i < |parts[0]| {
      b, k := 0, i;
      assert parts[..0] == [];
    } else {
      b, k := FlattenLocate(parts[1..], i - |parts[0]|);
      assert parts[..b + 1][1..] == parts[1..][..b];
      b := b + 1;
    }
  }

  lemma FlattenCut<T>(parts: seq<seq<T>>, b: nat)
    requires b <= |parts|
    ensures |Flatten(parts[..b])| <= |Flatten(parts)| && Flatten(parts)[..|Flatten(parts[..b])|] == Flatten(parts[..b])
  {
    FlattenAppend(parts[..b], parts[b..]);
    assert parts[..b] + parts[b..] == parts;
  }

  lemma FlattenLast<T>(parts: seq<seq<T>>)
    requires parts != []
    ensures Flatten(parts) == Flatten(parts[..|parts| - 1]) + parts[|parts| - 1]
  {
    assert parts == parts[..|parts| - 1] + [parts[|parts| - 1]];
    FlattenSnoc(parts[..|parts| - 1], parts[|parts| - 1]);
  }

  lemma AppendLast<T>(a: seq<T>, b: seq<T>)
    requires b != []
    ensures a + b == (a + b[..|b| - 1]) + [b[|b| - 1]] && b == b[..|b| - 1] + [b[|b| - 1]]
  {}

  lemma ConsInit<T>(x: T, rest: seq<T>)
    requires rest != []
    ensures ([x] + rest)[..|rest|] == [x] + rest[..|rest| - 1] && ([x] + rest)[|rest|] == rest[|rest| - 1]
  {}

  lemma Associate<T>(a: seq<T>, b: seq<T>, c: seq<T>)
    ensures (a + b) + c == a + (b + c)
  {}

  lemma {:induction false} SubsetIsSmaller<T>(a: set<T>, b: set<T>)
    requires a <= b
    ensures |a| <= |b|
  {
    if a != {} {
      var x :| x in a;
      SubsetIsSmaller(a - {x}, b - {x});
    }
  }

  lemma {:induction false} ElementsAreFew<T>(s: seq<T>, elements: set<T>)
    requires forall x :: x in elements ==> x in s
    ensures |elements| <= |s|
  {
    if s == [] {
      assert elements == {};
    } else {
      ElementsAreFew(s[1..], elements - {s[0]});
    }
  }

  /** A measure added up over a map. */
  ghost function MapSum<K, V>(m: map<K, V>, measure: V -> int): int {
    if m == map[] then 0
    else
      var k :| k in m;
      measure(m[k]) + MapSum(m - {k}, measure)
  }

  lemma {:induction false} MapSumRemove<K, V>(m: map<K, V>, measure: V -> int, k: K)
    requires k in m
    ensures MapSum(m, measure) == measure(m[k]) + MapSum(m - {k}, measure)
    decreases |m|
  {
    var j :| j in m && MapSum(m, measure) == measure(m[j]) + MapSum(m - {j}, measure);
    if j != k {
      MapSumRemove(m - {j}, measure, k);
      MapSumRemove(m - {k}, measure, j);
      assert m - {j} - {k} == m - {k} - {j};
    }
  }

  lemma MapSumUpdate<K, V>(m: map<K, V>, measure: V -> int, k: K, v: V)
    ensures MapSum(m[k := v], measure) == MapSum(m, measure) + measure(v) - (if k in m then measure(m[k]) else 0)
  {
    MapSumRemove(m[k := v], measure, k);
    assert m[k := v] - {k} == m - {k};
    if k in m {
      MapSumRemove(m, measure, k);
    } else {
      assert m - {k} == m;
    }
  }

  lemma {:induction false} MapSumNonNegative<K, V>(m: map<K, V>, measure: V -> int)
    requires forall k :: k in m ==> measure(m[k]) >= 0
    ensures MapSum(m, measure) >= 0
    decreases |m|
  {
    if m != map[] {
      var k :| k in m && MapSum(m, measure) == measure(m[k]) + MapSum(m - {k}, measure);
      MapSumNonNegative(m - {k}, measure);
    }
  }

  /** A map with fewer keys and smaller values sums to no more. */
  lemma {:induction false} MapSumMonotone<K, V>(small: map<K, V>, large: map<K, V>, measure: V -> int)
    requires forall k :: k in large ==> measure(large[k]) >= 0
    requires forall k :: k in small ==> k in large && measure(small[k]) <= measure(large[k])
    ensures MapSum(small, measure) <= MapSum(large, measure)
    decreases |small|
  {
    if small == map[] {
      MapSumNonNegative(large, measure);
    } else {
      var k :| k in small && MapSum(small, measure) == measure(small[k]) + MapSum(small - {k}, measure);
      MapSumRemove(large, measure, k);
      MapSumMonotone(small - {k}, large - {k}, measure);
    }
  }

  ghost predicate Distinct<T(!new)>(items: seq<T>) {
    forall i, j :: 0 <= i < j < |items| ==> items[i] != items[j]
  }

  /** No two items hold a common key. */
  ghost predicate KeysDisjoint<T(!new), K(!new)>(keys: T -> set<K>, items: seq<T>) {
    forall i, j :: 0 <= i < j < |items| ==> keys(items[i]) !! keys(items[j])
  }

  function Max(a: int, b: int): int {
    if a >= b then a else b
  }

  function Min(a: int, b: int): int {
    if a <= b then a else b
  }
}

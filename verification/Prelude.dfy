/** Small types and sequence facts shared by every module. */
module Prelude {

  datatype Option<+T> = None | Some(value: T) {
    function GetOr(default: T): T {
      match this
      case Some(v) => v
      case None => default
    }
  }

  datatype Result<+T> = Ok(value: T) | Err

  /** A 32-byte hash; the tracker and the collector only compare hashes. */
  type Hash = nat

  /** The width of the source's block numbers, sessions and indices. */
  const TWO_32: nat := 0x1_0000_0000
  type u32 = x: int | 0 <= x < TWO_32

  type u8 = x: int | 0 <= x < 256
  type Bytes = seq<u8>

  function Pow256(w: nat): nat { if w == 0 then 1 else 256 * Pow256(w - 1) }

  /** `a - b` on u32 as the release build computes it. */
  function WrappingSub(a: u32, b: u32): u32 {
    if a >= b then a - b else a - b + TWO_32
  }

  /** An absent list of a `HashMap<_, Vec<_>>` reads as empty (`entry(..).or_default()`). */
  function GetList<K, V>(m: map<K, seq<V>>, k: K): seq<V> {
    if k in m then m[k] else []
  }

  function Last<T>(s: seq<T>): T
    requires s != []
  {
    s[|s| - 1]
  }

  function LastOpt<T>(s: seq<T>): Option<T> {
    if s == [] then None else Some(Last(s))
  }

  function Front<T>(s: seq<T>): seq<T>
    requires s != []
  {
    s[..|s| - 1]
  }

  lemma AppendAssoc<T>(a: seq<T>, b: seq<T>, c: seq<T>)
    ensures a + b + c == a + (b + c)
  {
  }

  function Itself<T>(x: T): T { x }

  ghost predicate NoDup<T(!new)>(s: seq<T>) {
    forall i, j :: 0 <= i < j < |s| ==> s[i] != s[j]
  }

  /** `order` lists every element of `keys` exactly once: one possible iteration order of a hash map. */
  ghost predicate Enumerates<T(!new)>(order: seq<T>, keys: set<T>) {
    NoDup(order) && forall x :: x in order <==> x in keys
  }

  /** `picked` lists, in order and once each, what `out` makes of the elements of `from` that `keep` keeps. */
  ghost predicate Selects<T(!new), U(!new)>(from: seq<T>, keep: T -> bool, out: T -> U, picked: seq<U>) {
    exists at: seq<nat> :: SelectsAt(from, keep, out, picked, at)
  }

  /** The positions that were picked. */
  ghost predicate SelectsAt<T(!new), U(!new)>(from: seq<T>, keep: T -> bool, out: T -> U, picked: seq<U>, at: seq<nat>)
  {
    && |at| == |picked|
    && (forall i, j :: 0 <= i < j < |at| ==> at[i] < at[j])
    && (forall i :: 0 <= i < |at| ==> at[i] < |from| && keep(from[at[i]]) && picked[i] == out(from[at[i]]))
    && (forall k: nat :: k < |from| && keep(from[k]) ==> k in at)
  }

  lemma SelectsSnoc<T(!new), U(!new)>(from: seq<T>, keep: T -> bool, out: T -> U, picked: seq<U>, x: T)
    requires Selects(from, keep, out, picked)
    ensures Selects(from + [x], keep, out, if keep(x) then picked + [out(x)] else picked)
  {
    var at :| SelectsAt(from, keep, out, picked, at);
    if keep(x) {
      PickedAt(from, keep, out, picked, at, x);
    } else {
      assert SelectsAt(from + [x], keep, out, picked, at);
    }
  }

  lemma PickedAt<T(!new), U(!new)>(from: seq<T>, keep: T -> bool, out: T -> U, picked: seq<U>, at: seq<nat>, x: T)
    requires SelectsAt(from, keep, out, picked, at) && keep(x)
    ensures SelectsAt(from + [x], keep, out, picked + [out(x)], at + [|from|])
  {
    var end: nat := |from|;
    var longer, more: seq<nat> := from + [x], at + [end];
    assert longer[end] == x && more[|at|] == end;
    forall i | 0 <= i < |more|
      ensures more[i] < |longer| && keep(longer[more[i]]) && (picked + [out(x)])[i] == out(longer[more[i]])
    {
      if i < |at| {
        assert more[i] == at[i] && longer[at[i]] == from[at[i]];
      }
    }
    forall k: nat | k < |longer| && keep(longer[k])
      ensures k in more
    {
      assert k < end ==> longer[k] == from[k] && k in at;
    }
  }

  lemma SelectsNothing<T(!new), U(!new)>(keep: T -> bool, out: T -> U)
    ensures Selects([], keep, out, [])
  {
    assert SelectsAt([], keep, out, [], []);
  }

  /** In particular it has exactly the kept elements. */
  lemma SelectsMembers<T(!new), U(!new)>(from: seq<T>, keep: T -> bool, out: T -> U, picked: seq<U>, y: U)
    requires Selects(from, keep, out, picked)
    ensures y in picked <==> exists k :: 0 <= k < |from| && keep(from[k]) && out(from[k]) == y
  {
    var at :| SelectsAt(from, keep, out, picked, at);
    if k :| 0 <= k < |from| && keep(from[k]) && out(from[k]) == y {
      assert k in at;
      var i :| 0 <= i < |at| && at[i] == k;
      assert picked[i] == y;
    }
    if y in picked {
      var i :| 0 <= i < |picked| && picked[i] == y;
      var k := at[i];
      assert k < |from| && keep(from[k]) && out(from[k]) == y;
    }
  }
}

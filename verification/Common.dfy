/** Small value types and facts shared by the whole project. */
module Common {

  newtype byte = x: int | 0 <= x < 256

  datatype Option<+T> = None | Some(value: T) {
    function GetOr(default: T): T { if None? then default else value }
  }

  function Max(a: int, b: int): int { if a >= b then a else b }

  function Min(a: int, b: int): int { if a <= b then a else b }

  /** Concatenation of a sequence of chunks. */
  function Concat<T>(chunks: seq<seq<T>>): seq<T> {
    if chunks == [] then [] else chunks[0] + Concat(chunks[1..])
  }

  lemma {:induction false} ConcatAppend<T>(a: seq<seq<T>>, b: seq<seq<T>>)
    ensures Concat(a + b) == Concat(a) + Concat(b)
  {
    if a == [] {
      assert a + b == b;
    } else {
      ConcatAppend(a[1..], b);
      assert (a + b)[1..] == a[1..] + b;
      assert Concat(a + b) == a[0] + (Concat(a[1..]) + Concat(b));
    }
  }

  /** A suffix grows with the sequence it ends. */
  lemma SuffixGrows<T>(h: seq<T>, x: T, k: nat)
    requires k <= |h|
    ensures h[k..] + [x] == (h + [x])[k..]
    ensures forall i | 0 <= i < |h| :: (h + [x])[i] == h[i]
  {
  }

  ghost predicate IsLeast(k: nat, s: set<nat>) {
    k in s && forall j | j in s :: k <= j
  }

  lemma {:induction false} LeastExists(s: set<nat>)
    requires s != {}
    ensures exists k: nat :: IsLeast(k, s)
  {
    var x: nat :| x in s;
    if s == {x} {
      assert IsLeast(x, s);
    } else {
      LeastExists(s - {x});
      var k: nat :| IsLeast(k, s - {x});
      var m: nat := if k <= x then k else x;
      assert forall j | j in s :: j == x || j in s - {x};
      assert IsLeast(m, s);
    }
  }

  /** The first key of an ordered map, as `begin()` gives it. */
  function Least(s: set<nat>): (k: nat)
    requires s != {}
    ensures IsLeast(k, s)
  {
    LeastExists(s);
    var k: nat :| k in s && forall j | j in s :: k <= j;
    k
  }
}

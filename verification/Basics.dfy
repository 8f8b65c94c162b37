/** Small shared vocabulary: bytes, options, and choice from finite sets of stream ids. */
module Basics {

  type byte = b: int | 0 <= b < 256

  datatype Option<+T> = None | Some(value: T)

  function Min(a: int, b: int): int { if a <= b then a else b }

  lemma {:induction false} FindLeast(s: set<nat>) returns (x: nat)
    requires s != {}
    ensures x in s && forall y :: y in s ==> x <= y
    decreases |s|
  {
    x :| x in s;
    if y :| y in s && y < x {
      var m := FindLeast(s - {x});
      assert forall z :: z in s ==> z == x || z in s - {x};
      x := m;
    }
  }

  lemma {:induction false} LeastExists(s: set<nat>)
    requires s != {}
    ensures exists x :: x in s && forall y :: y in s ==> x <= y
  {
    var x := FindLeast(s);
  }

  function Least(s: set<nat>): (x: nat)
    requires s != {}
    ensures x in s
  {
    LeastExists(s);
    var x :| x in s && forall y :: y in s ==> x <= y;
    x
  }

  /** Go visits a map in an unspecified order. `picks` lists the keys the run happened to visit
      first; quantifying over it covers every order. */
  function Choose(s: set<nat>, picks: seq<nat>): (x: nat)
    requires s != {}
    ensures x in s
    ensures picks != [] && picks[0] in s ==> x == picks[0]
  {
    if picks != [] && picks[0] in s then picks[0] else Least(s)
  }

  function Rest<T>(s: seq<T>): seq<T> { if s == [] then [] else s[1..] }
}

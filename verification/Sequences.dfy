/** Streams that arrive in parts. */
module Sequences {

  function Flat<T>(parts: seq<seq<T>>): seq<T> {
    if parts == [] then [] else Flat(parts[..|parts| - 1]) + parts[|parts| - 1]
  }

  lemma {:induction false} FlatNext<T>(parts: seq<seq<T>>, p: seq<T>)
    ensures Flat(parts + [p]) == Flat(parts) + p
  {
    assert (parts + [p])[..|parts|] == parts;
  }

  lemma {:induction false} FlatNothing<T>()
    ensures Flat<T>([]) == []
  {}

  lemma {:induction false} FlatOne<T>(p: seq<T>)
    ensures Flat([p]) == p
  {
    assert [p][..0] == [];
  }

  lemma {:induction false} FlatConcat<T>(a: seq<seq<T>>, b: seq<seq<T>>)
    ensures Flat(a + b) == Flat(a) + Flat(b)
  {
    hide Flat;
    if b == [] {
      FlatNothing<T>();
      assert a + b == a;
    } else {
      var most, last := b[..|b| - 1], b[|b| - 1];
      FlatConcat(a, most);
      FlatNext(most, last);
      FlatNext(a + most, last);
      Reassociate(Flat(a), Flat(most), last);
      assert most + [last] == b && (a + most) + [last] == a + b;
    }
  }

  lemma {:induction false} Reassociate<T>(a: seq<T>, b: seq<T>, c: seq<T>)
    ensures a + (b + c) == (a + b) + c
  {}
}

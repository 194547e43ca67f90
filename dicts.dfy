/**
 * Python's dict as floppy.py uses it: keys kept in insertion order, each key
 * once, and `d[k] = v` either replacing the value of a present key (which keeps
 * its place) or appending a new one.
 */
module Dicts {

  datatype Dict<K, V> = Dict(keys: seq<K>, items: map<K, V>) {

    /** Every key is listed once, and the listed keys are exactly those of `items`. */
    predicate Valid() {
      && (forall i, j :: 0 <= i < j < |keys| ==> keys[i] != keys[j])
      && (forall k :: k in items ==> k in keys)
      && (forall k :: k in keys ==> k in items)
    }

    /** `d[k] = v` */
    function Put(k: K, v: V): Dict<K, V> {
      Dict(if k in items then keys else keys + [k], items[k := v])
    }

    /** `d.items()`, in insertion order. */
    function Pairs(): seq<(K, V)>
      requires Valid()
    {
      seq(|keys|, i requires 0 <= i < |keys| => (keys[i], items[keys[i]]))
    }
  }

  function Empty<K, V>(): (d: Dict<K, V>)
    ensures d.Valid() && d.items == map[]
  {
    Dict([], map[])
  }

  /** `for k, v in ps: d[k] = v`, starting from `acc`. */
  function PutAll<K, V>(acc: Dict<K, V>, ps: seq<(K, V)>): Dict<K, V>
    decreases |ps|
  {
    if ps == [] then acc else PutAll(acc.Put(ps[0].0, ps[0].1), ps[1..])
  }

  /** `d[k] = v` keeps a dict well formed. */
  lemma {:induction false} PutValid<K, V>(d: Dict<K, V>, k: K, v: V)
    requires d.Valid()
    ensures d.Put(k, v).Valid()
  {
  }

  /** Assigning one more pair at the end is one more `Put` on the result. */
  lemma {:induction false} PutAllSnoc<K, V>(acc: Dict<K, V>, ps: seq<(K, V)>, k: K, v: V)
    ensures PutAll(acc, ps + [(k, v)]) == PutAll(acc, ps).Put(k, v)
    decreases |ps|
  {
    if ps != [] {
      assert (ps + [(k, v)])[1..] == ps[1..] + [(k, v)];
      PutAllSnoc(acc.Put(ps[0].0, ps[0].1), ps[1..], k, v);
    }
  }

  /** Assigning keys one after another keeps a dict well formed. */
  lemma {:induction false} PutAllValid<K, V>(acc: Dict<K, V>, ps: seq<(K, V)>)
    requires acc.Valid()
    ensures PutAll(acc, ps).Valid()
    decreases |ps|
  {
    if ps != [] {
      PutValid(acc, ps[0].0, ps[0].1);
      PutAllValid(acc.Put(ps[0].0, ps[0].1), ps[1..]);
    }
  }

  /** A key ends up in the dict exactly when it was there before or was assigned. */
  lemma {:induction false} PutAllDomain<K, V>(acc: Dict<K, V>, ps: seq<(K, V)>, k: K)
    ensures k in PutAll(acc, ps).items <==> k in acc.items || exists i :: 0 <= i < |ps| && ps[i].0 == k
    decreases |ps|
  {
    if ps != [] {
      var tail := ps[1..];
      PutAllDomain(acc.Put(ps[0].0, ps[0].1), tail, k);
      if exists i :: 0 <= i < |tail| && tail[i].0 == k {
        var i :| 0 <= i < |tail| && tail[i].0 == k;
        assert ps[i + 1].0 == k;
      }
      if exists i :: 0 <= i < |ps| && ps[i].0 == k {
        var i :| 0 <= i < |ps| && ps[i].0 == k;
        if i > 0 {
          assert tail[i - 1].0 == k;
        }
      }
    }
  }

  /** The last assignment to a key wins. */
  lemma {:induction false} PutAllLastWins<K, V>(acc: Dict<K, V>, ps: seq<(K, V)>, i: nat)
    requires i < |ps|
    requires forall j :: i < j < |ps| ==> ps[j].0 != ps[i].0
    ensures ps[i].0 in PutAll(acc, ps).items
    ensures PutAll(acc, ps).items[ps[i].0] == ps[i].1
    decreases |ps|
  {
    var next := acc.Put(ps[0].0, ps[0].1);
    if i > 0 {
      PutAllLastWins(next, ps[1..], i - 1);
    } else {
      PutAllUntouched(next, ps[1..], ps[0].0);
    }
  }

  /** Keys that are not assigned keep their presence and value. */
  lemma {:induction false} PutAllUntouched<K, V>(acc: Dict<K, V>, ps: seq<(K, V)>, k: K)
    requires forall j :: 0 <= j < |ps| ==> ps[j].0 != k
    ensures k in PutAll(acc, ps).items <==> k in acc.items
    ensures k in acc.items ==> PutAll(acc, ps).items[k] == acc.items[k]
    decreases |ps|
  {
    if ps != [] {
      PutAllUntouched(acc.Put(ps[0].0, ps[0].1), ps[1..], k);
    }
  }

  /** A value in the result is the old one of an unassigned key, or one of the assigned values. */
  lemma {:induction false} PutAllFrom<K, V>(acc: Dict<K, V>, ps: seq<(K, V)>, k: K)
    requires k in PutAll(acc, ps).items
    ensures
      || (k in acc.items && PutAll(acc, ps).items[k] == acc.items[k])
      || (exists i :: 0 <= i < |ps| && ps[i] == (k, PutAll(acc, ps).items[k]))
    decreases |ps|
  {
    if ps != [] {
      var next := acc.Put(ps[0].0, ps[0].1);
      var r := PutAll(acc, ps);
      PutAllFrom(next, ps[1..], k);
      if exists i :: 0 <= i < |ps| - 1 && ps[1..][i] == (k, r.items[k]) {
        var i :| 0 <= i < |ps| - 1 && ps[1..][i] == (k, r.items[k]);
        assert ps[i + 1] == (k, r.items[k]);
      } else if k == ps[0].0 {
        assert ps[0] == (k, r.items[k]);
      }
    }
  }

  /** A well-formed dict without its newest key. */
  function DropLast<K, V>(d: Dict<K, V>): (rest: Dict<K, V>)
    requires d.Valid() && d.keys != []
    ensures rest.Valid()
    ensures rest.keys == d.keys[..|d.keys| - 1]
    ensures d.keys[|d.keys| - 1] !in rest.items
    ensures rest.items == d.items - {d.keys[|d.keys| - 1]}
  {
    var n := |d.keys|;
    var last := d.keys[n - 1];
    var rest := Dict(d.keys[..n - 1], d.items - {last});
    assert forall k :: k in rest.items ==> k in rest.keys by {
      forall k | k in rest.items ensures k in rest.keys {
        var j :| 0 <= j < n && d.keys[j] == k;
        assert rest.keys[j] == k;
      }
    }
    assert forall k :: k in rest.keys ==> k in rest.items by {
      forall k | k in rest.keys ensures k in rest.items {
        var j :| 0 <= j < n - 1 && rest.keys[j] == k;
        assert d.keys[j] == k;
      }
    }
    rest
  }

  /** Putting the newest key back after dropping it gives the dict back. */
  lemma {:induction false} PutDropLast<K, V>(d: Dict<K, V>)
    requires d.Valid() && d.keys != []
    ensures DropLast(d).Put(d.keys[|d.keys| - 1], d.items[d.keys[|d.keys| - 1]]) == d
  {
    var last := d.keys[|d.keys| - 1];
    var r := DropLast(d).Put(last, d.items[last]);
    assert r.keys == d.keys;
    assert r.items == d.items;
  }

  /** A dict's items are those without its newest key, followed by the newest one. */
  lemma {:induction false} PairsDropLast<K, V>(d: Dict<K, V>)
    requires d.Valid() && d.keys != []
    ensures d.Pairs() == DropLast(d).Pairs() + [(d.keys[|d.keys| - 1], d.items[d.keys[|d.keys| - 1]])]
  {
    var n := |d.keys|;
    var last := d.keys[n - 1];
    var rest := DropLast(d);
    var ps := d.Pairs();
    forall i | 0 <= i < n - 1 ensures ps[i] == rest.Pairs()[i] {
      assert d.keys[i] != last;
    }
  }

  /** Replaying a well-formed dict's items into an empty dict rebuilds it. */
  lemma {:induction false} PutAllReplay<K, V>(d: Dict<K, V>)
    requires d.Valid()
    ensures PutAll(Empty(), d.Pairs()) == d
    decreases |d.keys|
  {
    if d.keys != [] {
      var n := |d.keys|;
      var last := d.keys[n - 1];
      var rest := DropLast(d);
      PutAllReplay(rest);
      PairsDropLast(d);
      PutAllSnoc(Empty(), rest.Pairs(), last, d.items[last]);
      PutDropLast(d);
    } else {
      assert d.items.Keys == {};
    }
  }
}

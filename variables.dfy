/**
 * A `Dictionary<string, string>` of template variables, as its entries in
 * enumeration order. A dictionary that only ever gains or overwrites entries
 * enumerates in insertion order, and overwriting a key keeps its slot; that is
 * the order in which the template expansion applies the variables.
 */
module TemplateVariables {
  import opened Common

  type Variables = seq<(string, string)>

  /** No key appears twice (what a dictionary guarantees). */
  predicate UniqueKeys(vs: Variables)
  {
    forall i, j :: 0 <= i < j < |vs| ==> vs[i].0 != vs[j].0
  }

  predicate HasKey(vs: Variables, k: string)
  {
    exists i :: 0 <= i < |vs| && vs[i].0 == k
  }

  /** `vs.TryGetValue(k, out v)`: the value of the first entry with key `k`. */
  function Lookup(vs: Variables, k: string): (r: Option<string>)
    ensures r.None? <==> !HasKey(vs, k)
    ensures r.Some? ==> (k, r.value) in vs
  {
    if vs == [] then None
    else if vs[0].0 == k then Some(vs[0].1)
    else
      assert forall i :: 1 <= i < |vs| ==> vs[i] == vs[1..][i - 1];
      Lookup(vs[1..], k)
  }

  /**
   * `vs[k] = v`: overwrites the value of an existing key in its slot, or adds
   * the entry at the end.
   */
  function Assign(vs: Variables, k: string, v: string): Variables
  {
    if vs == [] then [(k, v)]
    else if vs[0].0 == k then [(k, v)] + vs[1..]
    else [vs[0]] + Assign(vs[1..], k, v)
  }

  /** After `vs[k] = v` the key reads `v` and every other key reads as before. */
  lemma {:induction false} AssignLookup(vs: Variables, k: string, v: string)
    ensures Lookup(Assign(vs, k, v), k) == Some(v)
    ensures forall k' :: k' != k ==> Lookup(Assign(vs, k, v), k') == Lookup(vs, k')
    decreases |vs|
  {
    if vs != [] && vs[0].0 != k {
      AssignLookup(vs[1..], k, v);
    }
  }

  /** `vs[k] = v` grows the dictionary only when the key is new, and every old key keeps its slot. */
  lemma {:induction false} AssignSlots(vs: Variables, k: string, v: string)
    ensures |Assign(vs, k, v)| == if HasKey(vs, k) then |vs| else |vs| + 1
    ensures forall i :: 0 <= i < |vs| ==> Assign(vs, k, v)[i].0 == vs[i].0
    decreases |vs|
  {
    if vs != [] && vs[0].0 != k {
      AssignSlots(vs[1..], k, v);
      assert HasKey(vs, k) <==> HasKey(vs[1..], k) by {
        if HasKey(vs, k) {
          var i :| 0 <= i < |vs| && vs[i].0 == k;
          assert vs[1..][i - 1].0 == k;
        }
      }
    }
  }

  /** An entry whose key the rest does not have, in front of a dictionary, keeps the keys unique. */
  lemma ConsKeepsUnique(e: (string, string), vs: Variables)
    requires UniqueKeys(vs) && !HasKey(vs, e.0)
    ensures UniqueKeys([e] + vs)
  {
    var a := [e] + vs;
    forall i, j | 0 <= i < j < |a| ensures a[i].0 != a[j].0 {
      assert a[j] == vs[j - 1];
      if i > 0 {
        assert a[i] == vs[i - 1];
      }
    }
  }

  /** The entries after the first of a dictionary have unique keys, none of them the first's. */
  lemma TailUnique(vs: Variables)
    requires |vs| > 0 && UniqueKeys(vs)
    ensures UniqueKeys(vs[1..]) && !HasKey(vs[1..], vs[0].0)
  {
    var tail := vs[1..];
    forall i, j | 0 <= i < j < |tail| ensures tail[i].0 != tail[j].0 {
      assert tail[i] == vs[i + 1] && tail[j] == vs[j + 1];
    }
    forall i | 0 <= i < |tail| ensures tail[i].0 != vs[0].0 {
      assert tail[i] == vs[i + 1];
    }
  }

  /** Assigning keeps the keys of a dictionary unique. */
  lemma {:induction false} AssignKeepsUnique(vs: Variables, k: string, v: string)
    requires UniqueKeys(vs)
    ensures UniqueKeys(Assign(vs, k, v))
    decreases |vs|
  {
    if vs != [] {
      var tail := vs[1..];
      TailUnique(vs);
      if vs[0].0 == k {
        ConsKeepsUnique((k, v), tail);
      } else {
        AssignKeepsUnique(tail, k, v);
        AssignLookup(tail, k, v);
        assert Lookup(Assign(tail, k, v), vs[0].0).None?;
        ConsKeepsUnique(vs[0], Assign(tail, k, v));
      }
    }
  }

  /**
   * `foreach (var e in extra) vs[e.Key] = e.Value;`: the entries of `extra`
   * assigned one after another.
   */
  function Merge(vs: Variables, extra: Variables): Variables
    decreases |extra|
  {
    if extra == [] then vs else Merge(Assign(vs, extra[0].0, extra[0].1), extra[1..])
  }

  /**
   * After the merge a key's value is the one in `extra` when `extra` has the
   * key (overriding), and the original one otherwise.
   */
  lemma {:induction false} MergeLookup(vs: Variables, extra: Variables, k: string)
    requires UniqueKeys(extra)
    ensures Lookup(Merge(vs, extra), k) == if HasKey(extra, k) then Lookup(extra, k) else Lookup(vs, k)
    decreases |extra|
  {
    if extra != [] {
      var rest := extra[1..];
      assert UniqueKeys(rest);
      AssignLookup(vs, extra[0].0, extra[0].1);
      MergeLookup(Assign(vs, extra[0].0, extra[0].1), rest, k);
      if k == extra[0].0 {
        assert !HasKey(rest, k);
      } else {
        assert HasKey(extra, k) <==> HasKey(rest, k) by {
          if HasKey(extra, k) {
            var i :| 0 <= i < |extra| && extra[i].0 == k;
            assert rest[i - 1].0 == k;
          }
          if HasKey(rest, k) {
            var i :| 0 <= i < |rest| && rest[i].0 == k;
            assert extra[i + 1].0 == k;
          }
        }
      }
    }
  }

  /** The merge keeps every original key in its slot and keeps keys unique. */
  lemma {:induction false} MergeKeepsSlots(vs: Variables, extra: Variables)
    ensures |Merge(vs, extra)| >= |vs|
    ensures forall i :: 0 <= i < |vs| ==> Merge(vs, extra)[i].0 == vs[i].0
    ensures UniqueKeys(vs) ==> UniqueKeys(Merge(vs, extra))
    decreases |extra|
  {
    if extra != [] {
      AssignSlots(vs, extra[0].0, extra[0].1);
      if UniqueKeys(vs) {
        AssignKeepsUnique(vs, extra[0].0, extra[0].1);
      }
      MergeKeepsSlots(Assign(vs, extra[0].0, extra[0].1), extra[1..]);
    }
  }
}

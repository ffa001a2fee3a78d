/** Property lists of ChannelFinder channels and how the processor merges them (processor.py:882-895). */
module Properties {
  import opened CfModel

  function Names(ps: seq<Prop>): set<string> {
    set p | p in ps :: p.name
  }

  /** The properties whose names are not in `drop`, in order. */
  function Without(ps: seq<Prop>, drop: set<string>): seq<Prop> {
    if ps == [] then [] else
    var rest := Without(ps[..|ps| - 1], drop);
    var p := ps[|ps| - 1];
    if p.name in drop then rest else rest + [p]
  }

  function Merge(written: seq<Prop>, prior: seq<Prop>, managed: set<string>): seq<Prop> {
    written + Without(prior, Names(written) + managed)
  }

  predicate Has(ps: seq<Prop>, name: string, value: string) {
    exists p | p in ps :: p.name == name && p.value == value
  }

  /** `name` is present and has no other value. */
  predicate Sole(ps: seq<Prop>, name: string, value: string) {
    Has(ps, name, value) && forall p | p in ps :: p.name == name ==> p.value == value
  }

  /** The merge, as the source's loop computes it. */
  method MergePropertyLists(written: seq<Prop>, prior: seq<Prop>, managed: set<string>) returns (r: seq<Prop>)
    ensures r == Merge(written, prior, managed)
  {
    r := written;
    for k := 0 to |prior|
      invariant r == written + Without(prior[..k], Names(written) + managed)
    {
      assert prior[..k + 1][..k] == prior[..k];
      if prior[k].name !in Names(written) && prior[k].name !in managed {
        r := r + [prior[k]];
      }
    }
    assert prior[..|prior|] == prior;
  }

  lemma {:induction false} WithoutMembers(ps: seq<Prop>, drop: set<string>)
    ensures forall p :: p in Without(ps, drop) <==> p in ps && p.name !in drop
  {
    if ps == [] {
    } else {
      var n := |ps| - 1;
      WithoutMembers(ps[..n], drop);
      assert ps == ps[..n] + [ps[n]];
    }
  }

  lemma {:induction false} WithoutConcat(a: seq<Prop>, b: seq<Prop>, drop: set<string>)
    ensures Without(a + b, drop) == Without(a, drop) + Without(b, drop)
  {
    if b == [] {
      assert a + b == a;
    } else {
      var n := |b| - 1;
      assert (a + b)[..|a + b| - 1] == a + b[..n];
      WithoutConcat(a, b[..n], drop);
    }
  }

  lemma {:induction false} WithoutTwice(ps: seq<Prop>, a: set<string>, b: set<string>)
    ensures Without(Without(ps, a), b) == Without(ps, a + b)
  {
    if ps == [] {
    } else {
      var n := |ps| - 1;
      WithoutTwice(ps[..n], a, b);
      WithoutConcat(Without(ps[..n], a), [ps[n]], b);
      assert [ps[n]][..0] == [];
    }
  }

  lemma {:induction false} WithoutAll(ps: seq<Prop>, drop: set<string>)
    requires Names(ps) <= drop
    ensures Without(ps, drop) == []
  {
    if ps == [] {
    } else {
      var n := |ps| - 1;
      assert forall p | p in ps[..n] :: p in ps;
      assert ps[n] in ps;
      assert ps[n].name in Names(ps);
      WithoutAll(ps[..n], drop);
    }
  }

  /** Merging the same new properties a second time changes nothing. */
  lemma MergeIsIdempotent(written: seq<Prop>, prior: seq<Prop>, managed: set<string>)
    ensures Merge(written, Merge(written, prior, managed), managed) == Merge(written, prior, managed)
  {
    var drop := Names(written) + managed;
    WithoutConcat(written, Without(prior, drop), drop);
    WithoutAll(written, drop);
    WithoutTwice(prior, drop, drop);
    assert drop + drop == drop;
  }

  /**
   As long as only managed names are written and dropped, the unmanaged properties of a channel come
   out of a merge with the same names, owners, values, multiplicity and order.
   */
  lemma MergeKeepsUserProperties(written: seq<Prop>, prior: seq<Prop>, dropped: set<string>, managed: set<string>)
    requires Names(written) <= managed && dropped <= managed
    ensures Without(Merge(written, prior, dropped), managed) == Without(prior, managed)
  {
    var drop := Names(written) + dropped;
    WithoutConcat(written, Without(prior, drop), managed);
    WithoutAll(written, managed);
    WithoutTwice(prior, drop, managed);
    assert drop + managed == managed;
  }

  /** A name written once wins over whatever the channel had under it. */
  lemma MergeSets(written: seq<Prop>, prior: seq<Prop>, managed: set<string>, name: string, value: string)
    requires Sole(written, name, value)
    ensures Sole(Merge(written, prior, managed), name, value)
  {
    WithoutMembers(prior, Names(written) + managed);
    var p :| p in written && p.name == name && p.value == value;
    assert p in Merge(written, prior, managed);
  }

  /** A managed name that is not written disappears; an unmanaged one that is not written stays. */
  lemma MergeOfUnwritten(written: seq<Prop>, prior: seq<Prop>, managed: set<string>, name: string, value: string)
    requires name !in Names(written)
    ensures Has(Merge(written, prior, managed), name, value) <==> name !in managed && Has(prior, name, value)
  {
    WithoutMembers(prior, Names(written) + managed);
    var m := Merge(written, prior, managed);
    if Has(m, name, value) {
      var p :| p in m && p.name == name && p.value == value;
      assert p !in written;
      assert p in prior;
    }
    if name !in managed && Has(prior, name, value) {
      var p :| p in prior && p.name == name && p.value == value;
      assert p in m;
    }
  }
}

/**
 How channel names are packed into queries (server/recceiver/cf/adapter.py:65-79): joined with '|', each
 query as long as the limit allows.
 */
module NameQuery {
  const LIMIT := 600

  datatype Packing = Packing(chunks: seq<string>, buf: string)

  function Add(p: Packing, name: string): Packing {
    if p.buf == "" then p.(buf := name)
    else if |p.buf| + |name| < LIMIT then p.(buf := p.buf + "|" + name)
    else Packing(p.chunks + [p.buf], name)
  }

  function Packed(names: seq<string>): Packing {
    if names == [] then Packing([], "") else Add(Packed(names[..|names| - 1]), names[|names| - 1])
  }

  function Chunks(names: seq<string>): seq<string> {
    var p := Packed(names);
    if p.buf == "" then p.chunks else p.chunks + [p.buf]
  }

  method PackNames(names: seq<string>) returns (chunks: seq<string>)
    ensures chunks == Chunks(names)
  {
    chunks := [];
    var buf := "";
    for i := 0 to |names|
      invariant Packing(chunks, buf) == Packed(names[..i])
    {
      var name := names[i];
      assert names[..i + 1][..i] == names[..i];
      if buf == "" {
        buf := name;
      } else if |buf| + |name| < LIMIT {
        buf := buf + "|" + name;
      } else {
        chunks := chunks + [buf];
        buf := name;
      }
    }
    assert names[..|names|] == names;
    if buf != "" {
      chunks := chunks + [buf];
    }
  }

  // ---------------------------------------------------------------- nothing is lost

  /** The names in a query. */
  function Split(s: string): (r: seq<string>)
    ensures |r| >= 1
  {
    if s == "" then [""] else
    var r := Split(s[1..]);
    if s[0] == '|' then [""] + r else [[s[0]] + r[0]] + r[1..]
  }

  function SplitAll(chunks: seq<string>): seq<string> {
    if chunks == [] then [] else SplitAll(chunks[..|chunks| - 1]) + Split(chunks[|chunks| - 1])
  }

  predicate IsName(name: string) {
    name != "" && '|' !in name
  }

  ghost predicate AreNames(names: seq<string>) {
    forall k | 0 <= k < |names| :: IsName(names[k])
  }

  lemma {:induction false} SplitName(name: string)
    requires '|' !in name
    ensures Split(name) == [name]
  {
    if name != "" {
      SplitName(name[1..]);
      assert [name[0]] + name[1..] == name;
    }
  }

  lemma {:induction false} SplitJoin(s: string, name: string)
    requires '|' !in name
    ensures Split(s + "|" + name) == Split(s) + [name]
  {
    if s == "" {
      assert (s + "|" + name)[1..] == name;
      SplitName(name);
    } else {
      assert (s + "|" + name)[1..] == s[1..] + "|" + name;
      SplitJoin(s[1..], name);
      var r := Split(s[1..]);
      assert (r + [name])[1..] == r[1..] + [name];
    }
  }

  lemma SplitAllSnoc(chunks: seq<string>, c: string)
    ensures SplitAll(chunks + [c]) == SplitAll(chunks) + Split(c)
  {
    assert (chunks + [c])[..|chunks|] == chunks;
  }

  lemma AddLosesNothing(p: Packing, name: string)
    requires p.buf != "" && IsName(name)
    ensures var q := Add(p, name);
            q.buf != "" && SplitAll(q.chunks) + Split(q.buf) == SplitAll(p.chunks) + Split(p.buf) + [name]
  {
    hide Split;
    SplitName(name);
    SplitJoin(p.buf, name);
    SplitAllSnoc(p.chunks, p.buf);
  }

  lemma {:induction false} PackedIsLossless(names: seq<string>)
    requires AreNames(names)
    ensures var p := Packed(names);
            (names == [] <==> p.buf == "") && (names != [] ==> SplitAll(p.chunks) + Split(p.buf) == names)
  {
    if names != [] {
      hide Split;
      var n := |names| - 1;
      assert IsName(names[n]) && names == names[..n] + [names[n]];
      PackedIsLossless(names[..n]);
      if n > 0 {
        AddLosesNothing(Packed(names[..n]), names[n]);
      } else {
        SplitName(names[n]);
      }
    }
  }

  /** Taken apart again, the queries give back all names in order. */
  lemma QueriesLoseNothing(names: seq<string>)
    requires AreNames(names)
    ensures SplitAll(Chunks(names)) == names
  {
    PackedIsLossless(names);
    var p := Packed(names);
    if names != [] {
      SplitAllSnoc(p.chunks, p.buf);
    }
  }

  // ---------------------------------------------------------------- the limit

  ghost predicate Short(chunk: string) {
    |chunk| <= LIMIT || IsName(chunk)
  }

  lemma {:induction false} PackedIsShort(names: seq<string>)
    requires AreNames(names)
    ensures forall c | c in Packed(names).chunks :: Short(c)
    ensures names != [] ==> Short(Packed(names).buf)
  {
    if names != [] {
      PackedIsShort(names[..|names| - 1]);
      assert IsName(names[|names| - 1]);
    }
  }

  /** Every query is within the limit or a single name. */
  lemma QueriesAreShort(names: seq<string>)
    requires AreNames(names)
    ensures forall c | c in Chunks(names) :: Short(c)
  {
    PackedIsShort(names);
    PackedIsLossless(names);
  }

  // ---------------------------------------------------------------- no better packing

  function Flat(groups: seq<seq<string>>): seq<string> {
    if groups == [] then [] else Flat(groups[..|groups| - 1]) + groups[|groups| - 1]
  }

  /** The query for a group of names. */
  function Joined(group: seq<string>): string {
    var n := |group| - 1;
    if group == [] then "" else if n == 0 then group[0] else Joined(group[..n]) + "|" + group[n]
  }

  /** Consecutive groups of names that would do as queries. */
  ghost predicate IsSplit(groups: seq<seq<string>>, names: seq<string>) {
    && Flat(groups) == names
    && forall k | 0 <= k < |groups| :: groups[k] != [] && (|groups[k]| == 1 || |Joined(groups[k])| <= LIMIT)
  }

  /** `groups` without the last name. */
  function WithoutLast(groups: seq<seq<string>>): seq<seq<string>>
    requires groups != [] && groups[|groups| - 1] != []
  {
    var n := |groups| - 1;
    var g := groups[n];
    if |g| == 1 then groups[..n] else groups[..n] + [g[..|g| - 1]]
  }

  lemma WithoutLastIsSplit(groups: seq<seq<string>>, names: seq<string>)
    requires names != [] && IsSplit(groups, names)
    ensures groups != [] && groups[|groups| - 1] != []
    ensures IsSplit(WithoutLast(groups), names[..|names| - 1])
    ensures var g := groups[|groups| - 1]; g[|g| - 1] == names[|names| - 1]
  {
    var n := |groups| - 1;
    var g := groups[n];
    var m := |g| - 1;
    assert names == Flat(groups[..n]) + g;
    if m == 0 {
      assert names[..|names| - 1] == Flat(groups[..n]);
    } else {
      assert Joined(g) == Joined(g[..m]) + "|" + g[m];
      var h := groups[..n] + [g[..m]];
      assert h[..n] == groups[..n];
      assert names[..|names| - 1] == Flat(groups[..n]) + g[..m];
    }
  }

  /** Greedy packing is never behind: fewer queries, or as many and a last one that is no longer. */
  ghost predicate Ahead(p: Packing, groups: seq<seq<string>>) {
    var used := |p.chunks| + if p.buf == "" then 0 else 1;
    used < |groups| || (used == |groups| && (groups != [] ==> |p.buf| <= |Joined(groups[|groups| - 1])|))
  }

  lemma AheadStep(p: Packing, groups: seq<seq<string>>, name: string)
    requires groups != [] && name != ""
    requires var g := groups[|groups| - 1];
             g != [] && g[|g| - 1] == name && (|g| == 1 || |Joined(g)| <= LIMIT)
    requires Ahead(p, WithoutLast(groups))
    requires p.buf == "" ==> p.chunks == []
    ensures Ahead(Add(p, name), groups)
  {
    var g := groups[|groups| - 1];
    var m := |g| - 1;
    if m > 0 {
      assert Joined(g) == Joined(g[..m]) + "|" + name;
      assert WithoutLast(groups)[|groups| - 1] == g[..m];
    }
  }

  lemma {:induction false} GreedyStaysAhead(names: seq<string>, groups: seq<seq<string>>)
    requires AreNames(names) && IsSplit(groups, names)
    ensures Ahead(Packed(names), groups)
  {
    if names == [] {
    } else {
      var n := |names| - 1;
      WithoutLastIsSplit(groups, names);
      GreedyStaysAhead(names[..n], WithoutLast(groups));
      PackedIsLossless(names[..n]);
      assert IsName(names[n]);
      AheadStep(Packed(names[..n]), groups, names[n]);
    }
  }

  /** No way of cutting the names into consecutive queries within the limit needs fewer queries. */
  lemma PackingIsOptimal(names: seq<string>, groups: seq<seq<string>>)
    requires AreNames(names) && IsSplit(groups, names)
    ensures |Chunks(names)| <= |groups|
  {
    GreedyStaysAhead(names, groups);
  }
}

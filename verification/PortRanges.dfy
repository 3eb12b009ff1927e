/**
 The ports column of `ps`: ports published under their own number, or not published at all, are grouped
 into ranges by address and protocol; other mappings are listed one by one.
 */
module PortRanges {

  datatype Port = Port(privatePort: int, ip: string, publicPort: int, kind: string)

  // ----- Order -----

  /** Strings are compared character by character. */
  predicate StringLess(a: string, b: string) {
    if a == [] then b != []
    else if b == [] then false
    else a[0] < b[0] || (a[0] == b[0] && StringLess(a[1..], b[1..]))
  }

  predicate Less(a: Port, b: Port) {
    if a.privatePort != b.privatePort then a.privatePort < b.privatePort
    else if a.ip != b.ip then StringLess(a.ip, b.ip)
    else if a.publicPort != b.publicPort then a.publicPort < b.publicPort
    else StringLess(a.kind, b.kind)
  }

  lemma {:induction false} StringLessTotal(a: string, b: string)
    ensures a == b || StringLess(a, b) || StringLess(b, a)
    ensures !(StringLess(a, b) && StringLess(b, a)) && !StringLess(a, a)
  {
    if a != [] {
      StringLessTotal(a[1..], a[1..]);
      if b != [] {
        StringLessTotal(a[1..], b[1..]);
        if a[0] == b[0] && a[1..] == b[1..] {
          assert a == [a[0]] + a[1..] && b == [b[0]] + b[1..];
        }
      }
    }
  }

  lemma {:induction false} StringLessTransitive(a: string, b: string, c: string)
    requires StringLess(a, b) && StringLess(b, c)
    ensures StringLess(a, c)
  {
    if a != [] && a[0] == b[0] && b[0] == c[0] {
      StringLessTransitive(a[1..], b[1..], c[1..]);
    }
  }

  /** `Less` is a strict total order on ports, all four fields taken together. */
  lemma LessTotal(a: Port, b: Port)
    ensures a == b || Less(a, b) || Less(b, a)
    ensures !(Less(a, b) && Less(b, a)) && !Less(a, a)
  {
    StringLessTotal(a.ip, b.ip);
    StringLessTotal(a.kind, b.kind);
    StringLessTotal(a.kind, a.kind);
  }

  lemma LessTransitive(a: Port, b: Port, c: Port)
    requires Less(a, b) && Less(b, c)
    ensures Less(a, c)
  {
    StringLessTotal(a.ip, b.ip);
    StringLessTotal(b.ip, c.ip);
    if StringLess(a.ip, b.ip) && StringLess(b.ip, c.ip) {
      StringLessTransitive(a.ip, b.ip, c.ip);
      StringLessTotal(a.ip, c.ip);
    }
    if StringLess(a.kind, b.kind) && StringLess(b.kind, c.kind) {
      StringLessTransitive(a.kind, b.kind, c.kind);
    }
  }

  /** The strings are equal up to `n`, and there the first ends or has the smaller character. */
  ghost predicate SmallerAt(a: string, b: string, n: nat) {
    n <= |a| && n < |b| && a[..n] == b[..n] && (n == |a| || a[n] < b[n])
  }

  lemma SmallerAtNext(a: string, b: string, n: nat)
    requires a != [] && b != []
    ensures SmallerAt(a, b, n + 1) <==> a[0] == b[0] && SmallerAt(a[1..], b[1..], n)
  {
    if n < |a| && n < |b| {
      var x, y := a[1..][..n], b[1..][..n];
      assert a[..n + 1] == [a[0]] + x && b[..n + 1] == [b[0]] + y;
      assert ([a[0]] + x)[1..] == x && ([b[0]] + y)[1..] == y;
    }
  }

  /** What comparing strings means: one is a proper beginning of the other, or has the smaller character where they
      first differ. */
  lemma {:induction false} StringLessMeans(a: string, b: string)
    ensures StringLess(a, b) <==> exists n: nat :: SmallerAt(a, b, n)
  {
    assert SmallerAt(a, b, 0) <==> b != [] && (a == [] || a[0] < b[0]);
    if a != [] && b != [] {
      StringLessMeans(a[1..], b[1..]);
      if StringLess(a[1..], b[1..]) && a[0] == b[0] {
        var n: nat :| SmallerAt(a[1..], b[1..], n);
        SmallerAtNext(a, b, n);
      }
      if exists n: nat :: SmallerAt(a, b, n) {
        var n: nat :| SmallerAt(a, b, n);
        if n > 0 {
          SmallerAtNext(a, b, n - 1);
        }
      }
    }
  }

  /** Ports are compared by private port first, then by address, public port and protocol. */
  lemma LessMeans(a: Port, b: Port)
    ensures Less(a, b) <==>
      || a.privatePort < b.privatePort
      || (a.privatePort == b.privatePort && StringLess(a.ip, b.ip))
      || (a.privatePort == b.privatePort && a.ip == b.ip && a.publicPort < b.publicPort)
      || (a.privatePort == b.privatePort && a.ip == b.ip && a.publicPort == b.publicPort && StringLess(a.kind, b.kind))
  {
    StringLessTotal(a.ip, b.ip);
  }

  ghost predicate Sorted(s: seq<Port>) {
    forall i, j :: 0 <= i < j < |s| ==> !Less(s[j], s[i])
  }

  function Insert(s: seq<Port>, p: Port): seq<Port> {
    if s == [] || Less(p, s[0]) then [p] + s else [s[0]] + Insert(s[1..], p)
  }

  /** What `sort.Sort` leaves; there is only one such order (`SortIsUnique`). */
  function Sort(s: seq<Port>): seq<Port> {
    if s == [] then [] else Insert(Sort(s[1..]), s[0])
  }

  lemma HeadCount(s: seq<Port>)
    requires s != []
    ensures multiset(s) == multiset{s[0]} + multiset(s[1..])
  {
    assert s == [s[0]] + s[1..];
  }

  lemma {:induction false} InsertCounts(s: seq<Port>, p: Port)
    ensures multiset(Insert(s, p)) == multiset(s) + multiset{p}
  {
    if s != [] && !Less(p, s[0]) {
      InsertCounts(s[1..], p);
      HeadCount(s);
    }
  }

  lemma PrependSorted(p: Port, s: seq<Port>)
    requires Sorted(s) && forall x :: x in multiset(s) ==> !Less(x, p)
    ensures Sorted([p] + s)
  {
    forall j | 0 <= j < |s| ensures !Less(s[j], p) {
      assert s[j] in multiset(s);
    }
  }

  lemma {:induction false} InsertSorted(s: seq<Port>, p: Port)
    requires Sorted(s)
    ensures Sorted(Insert(s, p))
  {
    if s == [] {
    } else if Less(p, s[0]) {
      forall x | x in multiset(s) ensures !Less(x, p) {
        var j :| 0 <= j < |s| && s[j] == x;
        LessTotal(s[j], s[0]);
        if Less(s[j], p) {
          LessTransitive(s[j], p, s[0]);
        }
      }
      PrependSorted(p, s);
    } else {
      InsertSorted(s[1..], p);
      InsertCounts(s[1..], p);
      forall x | x in multiset(Insert(s[1..], p)) ensures !Less(x, s[0]) {
        if x != p {
          assert x in multiset(s[1..]);
          var j :| 0 <= j < |s[1..]| && s[1..][j] == x;
          assert s[j + 1] == x;
        }
      }
      PrependSorted(s[0], Insert(s[1..], p));
    }
  }

  lemma {:induction false} SortSorts(s: seq<Port>)
    ensures Sorted(Sort(s)) && multiset(Sort(s)) == multiset(s)
  {
    if s != [] {
      SortSorts(s[1..]);
      InsertSorted(Sort(s[1..]), s[0]);
      InsertCounts(Sort(s[1..]), s[0]);
      HeadCount(s);
    }
  }

  lemma LeastIsFirst(a: seq<Port>, b: seq<Port>)
    requires a != [] && Sorted(a) && Sorted(b) && multiset(a) == multiset(b)
    ensures b != [] && a[0] == b[0]
  {
    assert a[0] in multiset(b);
    var i :| 0 <= i < |b| && b[i] == a[0];
    assert b[0] in multiset(a);
    var j :| 0 <= j < |a| && a[j] == b[0];
    LessTotal(a[0], b[0]);
  }

  /** Two sorted lists of the same ports are equal, so any sort gives the same result. */
  lemma {:induction false} SortIsUnique(a: seq<Port>, b: seq<Port>)
    requires Sorted(a) && Sorted(b) && multiset(a) == multiset(b)
    ensures a == b
    decreases |a|
  {
    if a == [] {
      assert |b| == |multiset(b)|;
    } else {
      LeastIsFirst(a, b);
      HeadCount(a);
      HeadCount(b);
      assert multiset(a[1..]) == multiset(a) - multiset{a[0]};
      assert multiset(b[1..]) == multiset(b) - multiset{b[0]};
      SortIsUnique(a[1..], b[1..]);
      assert a == [a[0]] + a[1..] && b == [b[0]] + b[1..];
    }
  }

  // ----- Grouping -----

  /** Address and protocol with a slash between, or the protocol alone for a port without address. */
  type Key = string

  datatype Range = Range(first: int, last: int)

  datatype Item =
    | Group(key: Key, range: Range)
    | Mapping(ip: string, publicPort: int, privatePort: int, kind: string)

  predicate IsMapping(p: Port) {
    p.ip != "" && p.publicPort != p.privatePort
  }

  function MappingOf(p: Port): Item {
    Mapping(p.ip, p.publicPort, p.privatePort, p.kind)
  }

  function KeyOf(p: Port): Key {
    if p.ip == "" then p.kind else p.ip + "/" + p.kind
  }

  /** The private ports to be grouped under a key. */
  function PortsOf(ports: seq<Port>, k: Key): seq<int> {
    if ports == [] then []
    else
      var n := |ports| - 1;
      PortsOf(ports[..n], k) + if !IsMapping(ports[n]) && KeyOf(ports[n]) == k then [ports[n].privatePort] else []
  }

  function Mappings(ports: seq<Port>): seq<Item> {
    if ports == [] then []
    else
      var n := |ports| - 1;
      Mappings(ports[..n]) + if IsMapping(ports[n]) then [MappingOf(ports[n])] else []
  }

  /** The ranges among the items that were emitted under a key. */
  function RangesOf(items: seq<Item>, k: Key): seq<Range> {
    if items == [] then []
    else
      var n := |items| - 1;
      RangesOf(items[..n], k) + if items[n].Group? && items[n].key == k then [items[n].range] else []
  }

  /** Ports one after the other: each joins the last range if it is the next number, and starts a range
      of its own otherwise. */
  function Ranges(ps: seq<int>): (rs: seq<Range>)
    ensures ps != [] ==> rs != [] && rs[|rs| - 1].last == ps[|ps| - 1]
  {
    if ps == [] then []
    else
      Join(Ranges(ps[..|ps| - 1]), ps[|ps| - 1])
  }

  function Join(rs: seq<Range>, p: int): (n: seq<Range>)
    ensures n != [] && n[|n| - 1].last == p
  {
    if rs != [] && p == rs[|rs| - 1].last + 1
    then rs[..|rs| - 1] + [Range(rs[|rs| - 1].first, p)]
    else rs + [Range(p, p)]
  }

  /** All the ports of some ranges. */
  function Expand(rs: seq<Range>): multiset<int> {
    if rs == [] then multiset{}
    else Expand(rs[..|rs| - 1]) + Span(rs[|rs| - 1])
  }

  function Span(r: Range): multiset<int>
    decreases r.last - r.first
  {
    if r.last < r.first then multiset{} else Span(Range(r.first, r.last - 1)) + multiset{r.last}
  }

  // ----- What ranges are like -----

  ghost predicate Proper(rs: seq<Range>) {
    forall i :: 0 <= i < |rs| ==> rs[i].first <= rs[i].last
  }

  lemma ExpandLast(rs: seq<Range>, r: Range)
    ensures Expand(rs + [r]) == Expand(rs) + Span(r)
  {
    assert (rs + [r])[..|rs|] == rs;
  }

  lemma JoinProper(rs: seq<Range>, p: int)
    requires Proper(rs)
    ensures Proper(Join(rs, p))
  {
  }

  lemma SpanOne(p: int)
    ensures Span(Range(p, p)) == multiset{p}
  {
    assert Span(Range(p, p - 1)) == multiset{};
  }

  lemma ExtendConserves(before: seq<Range>, r: Range)
    requires r.first <= r.last
    ensures Expand(before + [Range(r.first, r.last + 1)]) == Expand(before + [r]) + multiset{r.last + 1}
  {
    ExpandLast(before, r);
    ExpandLast(before, Range(r.first, r.last + 1));
  }

  /** Where the next port joins the last range, and where it does not. */
  lemma JoinCases(rs: seq<Range>, p: int)
    ensures if rs != [] && p == rs[|rs| - 1].last + 1 then
              var before, r := rs[..|rs| - 1], rs[|rs| - 1];
              rs == before + [r] && Join(rs, p) == before + [Range(r.first, r.last + 1)]
            else Join(rs, p) == rs + [Range(p, p)]
  {
  }

  lemma JoinConserves(rs: seq<Range>, p: int)
    requires Proper(rs)
    ensures Expand(Join(rs, p)) == Expand(rs) + multiset{p}
  {
    JoinCases(rs, p);
    if rs != [] && p == rs[|rs| - 1].last + 1 {
      ExtendConserves(rs[..|rs| - 1], rs[|rs| - 1]);
    } else {
      SpanOne(p);
      ExpandLast(rs, Range(p, p));
    }
  }

  lemma {:induction false} RangesProper(ps: seq<int>)
    ensures Proper(Ranges(ps))
  {
    if ps != [] {
      RangesProper(ps[..|ps| - 1]);
      JoinProper(Ranges(ps[..|ps| - 1]), ps[|ps| - 1]);
    }
  }

  lemma CountLast(ps: seq<int>)
    requires ps != []
    ensures multiset(ps) == multiset(ps[..|ps| - 1]) + multiset{ps[|ps| - 1]}
  {
    assert ps == ps[..|ps| - 1] + [ps[|ps| - 1]];
  }

  /** Ranges conserve ports, duplicates included. */
  lemma {:induction false} RangesConserve(ps: seq<int>)
    ensures Expand(Ranges(ps)) == multiset(ps)
  {
    if ps != [] {
      var before := ps[..|ps| - 1];
      RangesConserve(before);
      RangesProper(before);
      JoinConserves(Ranges(before), ps[|ps| - 1]);
      CountLast(ps);
    }
  }

  ghost predicate Increasing(ps: seq<int>) {
    forall i, j :: 0 <= i < j < |ps| ==> ps[i] < ps[j]
  }

  /** Between two ranges there is a gap, so they neither overlap nor could be joined. */
  ghost predicate Apart(rs: seq<Range>) {
    forall i, j :: 0 <= i < j < |rs| ==> rs[i].last + 1 < rs[j].first
  }

  lemma JoinApart(rs: seq<Range>, p: int)
    requires Proper(rs) && Apart(rs) && (rs != [] ==> rs[|rs| - 1].last < p)
    ensures Apart(Join(rs, p))
  {
    if rs != [] {
      var n := |rs| - 1;
      assert forall i :: 0 <= i < n ==> rs[i].last + 1 < rs[n].first;
    }
  }

  lemma {:induction false} RangesApart(ps: seq<int>)
    requires Increasing(ps)
    ensures Apart(Ranges(ps))
  {
    if ps != [] {
      var before := ps[..|ps| - 1];
      RangesApart(before);
      RangesProper(before);
      assert before != [] ==> before[|before| - 1] < ps[|ps| - 1];
      JoinApart(Ranges(before), ps[|ps| - 1]);
    }
  }

  // ----- Ports of a key, before and after sorting -----

  lemma PortsOfMore(done: seq<Port>, p: Port, k: Key)
    ensures PortsOf(done + [p], k) == PortsOf(done, k) + if !IsMapping(p) && KeyOf(p) == k then [p.privatePort] else []
  {
    assert (done + [p])[..|done|] == done;
  }

  lemma {:induction false} PortsOfConcat(a: seq<Port>, b: seq<Port>, k: Key)
    ensures PortsOf(a + b, k) == PortsOf(a, k) + PortsOf(b, k)
    decreases |b|
  {
    if b == [] {
      assert a + b == a;
    } else {
      var rest, p := b[..|b| - 1], b[|b| - 1];
      PortsOfConcat(a, rest, k);
      SplitOff(a, b);
      PortsOfMore(a + rest, p, k);
      PortsOfMore(rest, p, k);
      Associative(PortsOf(a, k), PortsOf(rest, k), if !IsMapping(p) && KeyOf(p) == k then [p.privatePort] else []);
    }
  }

  lemma SplitOff(a: seq<Port>, b: seq<Port>)
    requires b != []
    ensures b == b[..|b| - 1] + [b[|b| - 1]] && a + b == a + b[..|b| - 1] + [b[|b| - 1]]
  {
  }

  lemma Associative(x: seq<int>, y: seq<int>, z: seq<int>)
    ensures x + y + z == x + (y + z)
  {
  }

  /** Taking one port out of a list. */
  lemma PortsOfWithout(b: seq<Port>, j: nat, k: Key)
    requires j < |b|
    ensures multiset(PortsOf(b, k)) == multiset(PortsOf([b[j]], k)) + multiset(PortsOf(b[..j] + b[j + 1..], k))
  {
    var l, p, r := b[..j], [b[j]], b[j + 1..];
    assert b == l + (p + r);
    PortsOfConcat(l, p + r, k);
    PortsOfConcat(p, r, k);
    PortsOfConcat(l, r, k);
  }

  lemma Without(b: seq<Port>, j: nat)
    requires j < |b|
    ensures multiset(b[..j] + b[j + 1..]) == multiset(b) - multiset{b[j]}
  {
    assert b == b[..j] + [b[j]] + b[j + 1..];
  }

  /** Reordering does not change which ports fall under a key. */
  lemma {:induction false} PortsOfPermutation(a: seq<Port>, b: seq<Port>, k: Key)
    requires multiset(a) == multiset(b)
    ensures multiset(PortsOf(a, k)) == multiset(PortsOf(b, k))
    decreases |a|
  {
    if a == [] {
      assert |b| == |multiset(b)|;
    } else {
      assert a[0] in multiset(b);
      var j :| 0 <= j < |b| && b[j] == a[0];
      var rest := b[..j] + b[j + 1..];
      HeadCount(a);
      Without(b, j);
      PortsOfPermutation(a[1..], rest, k);
      PortsOfHead(a, k);
      PortsOfWithout(b, j, k);
    }
  }

  lemma PortsOfHead(a: seq<Port>, k: Key)
    requires a != []
    ensures multiset(PortsOf(a, k)) == multiset(PortsOf([a[0]], k)) + multiset(PortsOf(a[1..], k))
  {
    var first, rest := [a[0]], a[1..];
    PortsOfConcat(first, rest, k);
    assert a == first + rest;
  }

  ghost predicate NonDecreasing(ps: seq<int>) {
    forall i, j :: 0 <= i < j < |ps| ==> ps[i] <= ps[j]
  }

  lemma {:induction false} PortsOfIn(ports: seq<Port>, n: nat, k: Key, x: int)
    requires n <= |ports| && x in PortsOf(ports[..n], k)
    ensures exists i :: 0 <= i < n && ports[i].privatePort == x && !IsMapping(ports[i]) && KeyOf(ports[i]) == k
  {
    if n > 0 {
      assert ports[..n][..n - 1] == ports[..n - 1] && ports[..n][n - 1] == ports[n - 1];
      if x in PortsOf(ports[..n - 1], k) {
        PortsOfIn(ports, n - 1, k, x);
      } else {
        var p := ports[n - 1];
        assert !IsMapping(p) && KeyOf(p) == k && p.privatePort == x;
      }
    }
  }

  lemma {:induction false} PortsOfSorted(ports: seq<Port>, k: Key)
    requires Sorted(ports)
    ensures NonDecreasing(PortsOf(ports, k))
  {
    if ports != [] {
      var n := |ports| - 1;
      PortsOfSorted(ports[..n], k);
      forall x | x in PortsOf(ports[..n], k) ensures x <= ports[n].privatePort {
        PortsOfIn(ports, n, k, x);
      }
      var before := PortsOf(ports[..n], k);
      assert forall i :: 0 <= i < |before| ==> before[i] in before && before[i] <= ports[n].privatePort;
    }
  }

  /** Two ports to be grouped under the same key. */
  predicate Clash(p: Port, q: Port) {
    !IsMapping(p) && !IsMapping(q) && KeyOf(p) == KeyOf(q)
  }

  /** No port is given twice under the same key. */
  ghost predicate NoDuplicates(ports: seq<Port>) {
    forall i, j :: 0 <= i < j < |ports| && Clash(ports[i], ports[j]) ==> ports[i].privatePort != ports[j].privatePort
  }

  /** A port is counted at most once under its key. */
  lemma {:induction false} PortsOfDistinct(ports: seq<Port>, k: Key)
    requires NoDuplicates(ports)
    ensures forall x: int :: multiset(PortsOf(ports, k))[x] <= 1
  {
    if ports != [] {
      var n, before := |ports| - 1, ports[..|ports| - 1];
      PortsOfDistinct(before, k);
      if !IsMapping(ports[n]) && KeyOf(ports[n]) == k {
        var x := ports[n].privatePort;
        if x in PortsOf(before, k) {
          PortsOfIn(ports, n, k, x);
          assert false;
        }
        assert multiset(PortsOf(before, k))[x] == 0;
      }
    }
  }

  lemma TwiceCounted(ps: seq<int>, i: nat, j: nat)
    requires i < j < |ps| && ps[i] == ps[j]
    ensures multiset(ps)[ps[i]] >= 2
  {
    assert ps == ps[..j] + [ps[j]] + ps[j + 1..];
    assert ps[i] in ps[..j];
  }

  lemma NonDecreasingOnce(ps: seq<int>)
    requires NonDecreasing(ps) && forall x: int :: multiset(ps)[x] <= 1
    ensures Increasing(ps)
  {
    forall i, j | 0 <= i < j < |ps| ensures ps[i] < ps[j] {
      if ps[i] == ps[j] {
        TwiceCounted(ps, i, j);
      }
    }
  }

  // ----- The loop -----

  /** The ranges shown under a key are those of its ports in sorted order. */
  ghost predicate Shows(items: seq<Item>, ports: seq<Port>) {
    forall k: Key :: RangesOf(items, k) == Ranges(PortsOf(Sort(ports), k))
  }

  lemma RangesOfOne(items: seq<Item>, e: Item, k: Key)
    ensures RangesOf(items + [e], k) == RangesOf(items, k) + if e.Group? && e.key == k then [e.range] else []
  {
    assert (items + [e])[..|items|] == items;
  }

  lemma {:induction false} RangesOfConcat(a: seq<Item>, b: seq<Item>, k: Key)
    requires forall i :: 0 <= i < |b| ==> b[i].Mapping?
    ensures RangesOf(a + b, k) == RangesOf(a, k)
    decreases |b|
  {
    if b == [] {
      assert a + b == a;
    } else {
      var rest, e := b[..|b| - 1], b[|b| - 1];
      RangesOfConcat(a, rest, k);
      RangesOfOne(a + rest, e, k);
      assert a + b == a + rest + [e];
    }
  }

  /** Expanding what is shown under a key gives back exactly the ports to be grouped under it, as often as
      they were given. */
  lemma PortsAreConserved(ports: seq<Port>, items: seq<Item>, k: Key)
    requires Shows(items, ports)
    ensures Expand(RangesOf(items, k)) == multiset(PortsOf(ports, k))
  {
    SortSorts(ports);
    PortsOfPermutation(Sort(ports), ports, k);
    RangesConserve(PortsOf(Sort(ports), k));
  }

  /** Without duplicates, the ranges of a key are disjoint and maximal. */
  lemma RangesAreMaximal(ports: seq<Port>, items: seq<Item>, k: Key)
    requires Shows(items, ports) && NoDuplicates(ports)
    ensures Proper(RangesOf(items, k)) && Apart(RangesOf(items, k))
  {
    var ps := PortsOf(Sort(ports), k);
    SortSorts(ports);
    PortsOfSorted(Sort(ports), k);
    PortsOfPermutation(Sort(ports), ports, k);
    PortsOfDistinct(ports, k);
    NonDecreasingOnce(ps);
    RangesProper(ps);
    RangesApart(ps);
  }

  /** The range a key has open, if any. */
  function Open(groups: map<Key, Range>, k: Key): seq<Range> {
    if k in groups then [groups[k]] else []
  }

  /** What was emitted under a key and the range it has open are the ranges of its ports so far. */
  ghost predicate TracksKey(items: seq<Item>, groups: map<Key, Range>, done: seq<Port>, k: Key) {
    RangesOf(items, k) + Open(groups, k) == Ranges(PortsOf(done, k))
  }

  ghost predicate Tracks(items: seq<Item>, groups: map<Key, Range>, done: seq<Port>) {
    forall k: Key :: TracksKey(items, groups, done, k)
  }

  /** A key comes up with its first port, and from then on has a range open. */
  ghost predicate Opens(groups: map<Key, Range>, done: seq<Port>) {
    forall k: Key :: k in groups <==> PortsOf(done, k) != []
  }

  lemma OpensMore(groups: map<Key, Range>, after: map<Key, Range>, done: seq<Port>, p: Port)
    requires Opens(groups, done) && after.Keys == groups.Keys + if IsMapping(p) then {} else {KeyOf(p)}
    ensures Opens(after, done + [p])
  {
    forall k: Key ensures k in after <==> PortsOf(done + [p], k) != [] {
      PortsOfMore(done, p, k);
    }
  }

  lemma RangesMore(ps: seq<int>, p: int)
    ensures Ranges(ps + [p]) == Join(Ranges(ps), p)
  {
    assert (ps + [p])[..|ps|] == ps;
  }

  /** A port under a key other than `k` does not matter to `k`. */
  lemma TracksOther(items: seq<Item>, groups: map<Key, Range>, done: seq<Port>, more: seq<Item>, after: map<Key, Range>,
                    p: Port, k: Key)
    requires TracksKey(items, groups, done, k) && (IsMapping(p) || KeyOf(p) != k)
    requires RangesOf(more, k) == RangesOf(items, k) && Open(after, k) == Open(groups, k)
    ensures TracksKey(more, after, done + [p], k)
  {
    PortsOfMore(done, p, k);
    assert PortsOf(done, k) + [] == PortsOf(done, k);
  }

  lemma TracksNew(items: seq<Item>, groups: map<Key, Range>, done: seq<Port>, p: Port)
    requires Tracks(items, groups, done) && Opens(groups, done) && !IsMapping(p) && KeyOf(p) !in groups
    ensures Tracks(items, groups[KeyOf(p) := Range(p.privatePort, p.privatePort)], done + [p])
  {
    var after := groups[KeyOf(p) := Range(p.privatePort, p.privatePort)];
    forall k: Key ensures TracksKey(items, after, done + [p], k) {
      assert TracksKey(items, groups, done, k);
      if k == KeyOf(p) {
        PortsOfMore(done, p, k);
        RangesMore(PortsOf(done, k), p.privatePort);
        assert RangesOf(items, k) + Open(groups, k) == [];
      } else {
        TracksOther(items, groups, done, items, after, p, k);
      }
    }
  }

  lemma TracksNext(items: seq<Item>, groups: map<Key, Range>, done: seq<Port>, p: Port)
    requires Tracks(items, groups, done) && !IsMapping(p) && KeyOf(p) in groups
    requires p.privatePort == groups[KeyOf(p)].last + 1
    ensures Tracks(items, groups[KeyOf(p) := Range(groups[KeyOf(p)].first, p.privatePort)], done + [p])
  {
    var g := groups[KeyOf(p)];
    var after := groups[KeyOf(p) := Range(g.first, p.privatePort)];
    forall k: Key ensures TracksKey(items, after, done + [p], k) {
      assert TracksKey(items, groups, done, k);
      if k == KeyOf(p) {
        PortsOfMore(done, p, k);
        RangesMore(PortsOf(done, k), p.privatePort);
        JoinLast(RangesOf(items, k), g, p.privatePort);
      } else {
        TracksOther(items, groups, done, items, after, p, k);
      }
    }
  }

  lemma JoinLast(rs: seq<Range>, g: Range, p: int)
    ensures Join(rs + [g], p) == if p == g.last + 1 then rs + [Range(g.first, p)] else rs + [g] + [Range(p, p)]
  {
    assert (rs + [g])[..|rs + [g]| - 1] == rs;
  }

  lemma TracksGap(items: seq<Item>, groups: map<Key, Range>, done: seq<Port>, p: Port)
    requires Tracks(items, groups, done) && !IsMapping(p) && KeyOf(p) in groups
    requires p.privatePort != groups[KeyOf(p)].last + 1
    ensures Tracks(items + [Group(KeyOf(p), groups[KeyOf(p)])], groups[KeyOf(p) := Range(p.privatePort, p.privatePort)],
                   done + [p])
  {
    var g := groups[KeyOf(p)];
    var after := groups[KeyOf(p) := Range(p.privatePort, p.privatePort)];
    var more := items + [Group(KeyOf(p), g)];
    forall k: Key ensures TracksKey(more, after, done + [p], k) {
      assert TracksKey(items, groups, done, k);
      RangesOfOne(items, Group(KeyOf(p), g), k);
      if k == KeyOf(p) {
        PortsOfMore(done, p, k);
        RangesMore(PortsOf(done, k), p.privatePort);
        JoinLast(RangesOf(items, k), g, p.privatePort);
      } else {
        TracksOther(items, groups, done, more, after, p, k);
      }
    }
  }

  lemma TracksMapping(items: seq<Item>, groups: map<Key, Range>, done: seq<Port>, p: Port)
    requires Tracks(items, groups, done) && IsMapping(p)
    ensures Tracks(items, groups, done + [p])
  {
    forall k: Key ensures TracksKey(items, groups, done + [p], k) {
      assert TracksKey(items, groups, done, k);
      TracksOther(items, groups, done, items, groups, p, k);
    }
  }

  /** Closing the open range of a key. */
  lemma TracksClose(items: seq<Item>, groups: map<Key, Range>, whole: seq<Port>, key: Key)
    requires key in groups && Tracks(items, groups, whole)
    ensures Tracks(items + [Group(key, groups[key])], groups - {key}, whole)
  {
    forall k: Key ensures TracksKey(items + [Group(key, groups[key])], groups - {key}, whole, k) {
      assert TracksKey(items, groups, whole, k);
      TracksKeyClose(items, groups, whole, key, k);
    }
  }

  lemma TracksKeyClose(items: seq<Item>, groups: map<Key, Range>, whole: seq<Port>, key: Key, k: Key)
    requires key in groups && TracksKey(items, groups, whole, k)
    ensures TracksKey(items + [Group(key, groups[key])], groups - {key}, whole, k)
  {
    RangesOfOne(items, Group(key, groups[key]), k);
    OpenCloses(RangesOf(items, k), groups, key, k);
  }

  lemma OpenCloses(rs: seq<Range>, groups: map<Key, Range>, key: Key, k: Key)
    requires key in groups
    ensures (rs + if key == k then [groups[key]] else []) + Open(groups - {key}, k) == rs + Open(groups, k)
  {
    if key == k {
      assert Open(groups - {key}, k) == [] && rs + [groups[key]] + [] == rs + [groups[key]];
    } else {
      assert Open(groups - {key}, k) == Open(groups, k) && rs + [] == rs;
    }
  }

  lemma TracksClosed(items: seq<Item>, groups: map<Key, Range>, whole: seq<Port>)
    requires Tracks(items, groups, whole) && groups.Keys == {}
    ensures forall k: Key :: RangesOf(items, k) == Ranges(PortsOf(whole, k))
  {
    forall k: Key ensures RangesOf(items, k) == Ranges(PortsOf(whole, k)) {
      assert TracksKey(items, groups, whole, k);
      assert k !in groups.Keys;
      assert RangesOf(items, k) + [] == RangesOf(items, k);
    }
  }

  lemma MappingsMore(done: seq<Port>, p: Port)
    ensures Mappings(done + [p]) == Mappings(done) + if IsMapping(p) then [MappingOf(p)] else []
  {
    assert (done + [p])[..|done|] == done;
  }

  /** The mappings are the ports with an address that are published under another number, as often as they are given. */
  lemma {:induction false} MappingsConserved(ports: seq<Port>, p: Port)
    ensures multiset(Mappings(ports))[Mapping(p.ip, p.publicPort, p.privatePort, p.kind)]
         == if p.ip != "" && p.publicPort != p.privatePort then multiset(ports)[p] else 0
  {
    if ports != [] {
      var n := |ports| - 1;
      MappingsConserved(ports[..n], p);
      assert ports == ports[..n] + [ports[n]];
    }
  }

  /** The port a mapping was made of. */
  function PortOf(e: Item): Port
    requires e.Mapping?
  {
    Port(e.privatePort, e.ip, e.publicPort, e.kind)
  }

  /** They come in the order of the ports. */
  lemma {:induction false} MappingsSorted(ports: seq<Port>)
    requires Sorted(ports)
    ensures forall i :: 0 <= i < |Mappings(ports)| ==>
      Mappings(ports)[i].Mapping? && PortOf(Mappings(ports)[i]) in ports
    ensures forall i, j :: 0 <= i < j < |Mappings(ports)| ==>
      !Less(PortOf(Mappings(ports)[j]), PortOf(Mappings(ports)[i]))
  {
    if ports != [] {
      var n := |ports| - 1;
      var before := Mappings(ports[..n]);
      MappingsSorted(ports[..n]);
      forall i | 0 <= i < |before| ensures PortOf(before[i]) in ports && !Less(ports[n], PortOf(before[i])) {
        var j :| 0 <= j < |ports[..n]| && ports[..n][j] == PortOf(before[i]);
        assert ports[j] == PortOf(before[i]);
      }
    }
  }

  lemma {:induction false} MappingsAreMappings(ports: seq<Port>)
    ensures forall i :: 0 <= i < |Mappings(ports)| ==> Mappings(ports)[i].Mapping?
  {
    if ports != [] {
      MappingsAreMappings(ports[..|ports| - 1]);
    }
  }

  // ----- The order in which ranges are shown -----

  /** The range the ports of a key end with. */
  function LastRange(ports: seq<Port>, k: Key): Range
    requires PortsOf(ports, k) != []
  {
    var rs := Ranges(PortsOf(ports, k));
    rs[|rs| - 1]
  }

  /** The port does not follow the last one of its key. */
  predicate Gap(before: seq<Port>, p: Port) {
    var ps := PortsOf(before, KeyOf(p));
    !IsMapping(p) && ps != [] && p.privatePort != ps[|ps| - 1] + 1
  }

  /** The port is the first of its key. */
  predicate Opening(before: seq<Port>, p: Port) {
    !IsMapping(p) && PortsOf(before, KeyOf(p)) == []
  }

  /** Ranges that are followed by a gap, in the order in which the gaps come up. */
  function Closed(ports: seq<Port>): seq<Item> {
    if ports == [] then []
    else
      var before, p := ports[..|ports| - 1], ports[|ports| - 1];
      Closed(before) + if Gap(before, p) then [Group(KeyOf(p), LastRange(before, KeyOf(p)))] else []
  }

  /** The keys in the order in which they come up. */
  function Keys(ports: seq<Port>): seq<Key> {
    if ports == [] then []
    else
      var before, p := ports[..|ports| - 1], ports[|ports| - 1];
      Keys(before) + if Opening(before, p) then [KeyOf(p)] else []
  }

  ghost predicate AllUsed(ports: seq<Port>, keys: seq<Key>) {
    forall i :: 0 <= i < |keys| ==> PortsOf(ports, keys[i]) != []
  }

  /** The last range of each key. */
  function Opened(ports: seq<Port>, keys: seq<Key>): seq<Item>
    requires AllUsed(ports, keys)
  {
    seq(|keys|, i requires 0 <= i < |keys| => Group(keys[i], LastRange(ports, keys[i])))
  }

  /** What is shown: ranges followed by a gap, as the gaps come up, then the last range of each key, as the keys come
      up, and then the mappings. */
  ghost predicate InOrder(ports: seq<Port>, items: seq<Item>) {
    var sorted := Sort(ports);
    AllUsed(sorted, Keys(sorted)) && items == Closed(sorted) + Opened(sorted, Keys(sorted)) + Mappings(sorted)
  }

  lemma ClosedMore(done: seq<Port>, p: Port)
    ensures Closed(done + [p])
         == Closed(done) + if Gap(done, p) then [Group(KeyOf(p), LastRange(done, KeyOf(p)))] else []
    ensures Keys(done + [p]) == Keys(done) + if Opening(done, p) then [KeyOf(p)] else []
  {
    assert (done + [p])[..|done|] == done;
  }

  /** The open range of a key is the last one of its ports. */
  lemma OpenIsLast(items: seq<Item>, groups: map<Key, Range>, done: seq<Port>, k: Key)
    requires TracksKey(items, groups, done, k) && k in groups && PortsOf(done, k) != []
    ensures groups[k] == LastRange(done, k)
    ensures groups[k].last == PortsOf(done, k)[|PortsOf(done, k)| - 1]
  {
    var rs := RangesOf(items, k) + [groups[k]];
    assert rs[|rs| - 1] == groups[k];
  }

  ghost predicate IsOf(p: Port, k: Key) {
    !IsMapping(p) && KeyOf(p) == k
  }

  /** The key comes up in the list. */
  ghost predicate ComesUp(ports: seq<Port>, k: Key) {
    exists a :: 0 <= a < |ports| && IsOf(ports[a], k)
  }

  lemma {:induction false} UsedIff(ports: seq<Port>, k: Key)
    ensures PortsOf(ports, k) != [] <==> ComesUp(ports, k)
  {
    if ports != [] {
      var n, before := |ports| - 1, ports[..|ports| - 1];
      UsedIff(before, k);
      if ComesUp(before, k) {
        var a :| 0 <= a < |before| && IsOf(before[a], k);
        assert IsOf(ports[a], k);
      }
      if ComesUp(ports, k) && !IsOf(ports[n], k) {
        var a :| 0 <= a < |ports| && IsOf(ports[a], k);
        assert IsOf(before[a], k);
      }
    }
  }

  /** Up to some port the first key comes up, and the second does not. */
  ghost predicate ComesFirst(ports: seq<Port>, k: Key, l: Key) {
    exists n: nat :: n <= |ports| && ComesUp(ports[..n], k) && !ComesUp(ports[..n], l)
  }

  /** Every key that comes up is listed once, and in the order in which they come up. */
  lemma {:induction false} KeysComeUp(ports: seq<Port>)
    ensures forall k :: k in Keys(ports) <==> ComesUp(ports, k)
    ensures forall i, j :: 0 <= i < j < |Keys(ports)| ==> ComesFirst(ports, Keys(ports)[i], Keys(ports)[j])
  {
    if ports != [] {
      var n, before := |ports| - 1, ports[..|ports| - 1];
      KeysComeUp(before);
      var p, keys := ports[n], Keys(before);
      assert ports == before + [p];
      UsedIff(before, KeyOf(p));
      forall k ensures k in Keys(ports) <==> ComesUp(ports, k) {
        ComesUpMore(before, p, k);
      }
      forall i, j | 0 <= i < j < |Keys(ports)| ensures ComesFirst(ports, Keys(ports)[i], Keys(ports)[j]) {
        if j < |keys| {
          ComesFirstMore(before, p, keys[i], keys[j]);
        } else {
          assert keys[i] in keys;
          assert ports[..n] == before;
        }
      }
    }
  }

  lemma ComesUpMore(before: seq<Port>, p: Port, k: Key)
    ensures ComesUp(before + [p], k) <==> ComesUp(before, k) || IsOf(p, k)
  {
    var ports := before + [p];
    assert ports[|before|] == p;
    if ComesUp(before, k) {
      var a :| 0 <= a < |before| && IsOf(before[a], k);
      assert IsOf(ports[a], k);
    }
  }

  lemma ComesFirstMore(before: seq<Port>, p: Port, k: Key, l: Key)
    requires ComesFirst(before, k, l)
    ensures ComesFirst(before + [p], k, l)
  {
    var n: nat :| n <= |before| && ComesUp(before[..n], k) && !ComesUp(before[..n], l);
    assert (before + [p])[..n] == before[..n];
  }

  lemma KeysUsed(ports: seq<Port>)
    ensures AllUsed(ports, Keys(ports))
  {
    KeysComeUp(ports);
    forall i | 0 <= i < |Keys(ports)| ensures PortsOf(ports, Keys(ports)[i]) != [] {
      assert Keys(ports)[i] in Keys(ports);
      UsedIff(ports, Keys(ports)[i]);
    }
  }

  /** The port at `n` leaves a gap. */
  ghost predicate GapAt(ports: seq<Port>, n: nat) {
    n < |ports| && Gap(ports[..n], ports[n])
  }

  /** The range that a gap follows. */
  function BeforeGap(ports: seq<Port>, n: nat): Item
    requires GapAt(ports, n)
  {
    Group(KeyOf(ports[n]), LastRange(ports[..n], KeyOf(ports[n])))
  }

  lemma GapAtMore(before: seq<Port>, p: Port, n: nat)
    ensures GapAt(before + [p], n) <==> GapAt(before, n) || (n == |before| && Gap(before, p))
    ensures GapAt(before, n) ==> GapAt(before + [p], n) && BeforeGap(before + [p], n) == BeforeGap(before, n)
    ensures Gap(before, p) ==> BeforeGap(before + [p], |before|) == Group(KeyOf(p), LastRange(before, KeyOf(p)))
  {
    var ports := before + [p];
    assert ports[..|before|] == before;
    if n < |before| {
      assert ports[..n] == before[..n];
    }
  }

  /** The positions with a gap, in order. */
  ghost function Gaps(ports: seq<Port>): seq<nat> {
    if ports == [] then []
    else
      var n := |ports| - 1;
      Gaps(ports[..n]) + if Gap(ports[..n], ports[n]) then [n] else []
  }

  /** The ranges that are shown before the last ones are exactly those that are followed by a gap, in the order of the
      ports that leave the gaps. */
  lemma {:induction false} ClosedAtGaps(ports: seq<Port>)
    ensures |Gaps(ports)| == |Closed(ports)|
    ensures forall i :: 0 <= i < |Gaps(ports)| ==>
      GapAt(ports, Gaps(ports)[i]) && Closed(ports)[i] == BeforeGap(ports, Gaps(ports)[i])
  {
    if ports != [] {
      var n, before := |ports| - 1, ports[..|ports| - 1];
      ClosedAtGaps(before);
      assert ports == before + [ports[n]];
      forall i | 0 <= i < |Gaps(ports)|
        ensures GapAt(ports, Gaps(ports)[i]) && Closed(ports)[i] == BeforeGap(ports, Gaps(ports)[i])
      {
        GapAtMore(before, ports[n], Gaps(ports)[i]);
      }
    }
  }

  lemma {:induction false} GapsInOrder(ports: seq<Port>)
    ensures forall n: nat :: n in Gaps(ports) <==> GapAt(ports, n)
    ensures forall i, j :: 0 <= i < j < |Gaps(ports)| ==> Gaps(ports)[i] < Gaps(ports)[j]
  {
    if ports != [] {
      var n, before := |ports| - 1, ports[..|ports| - 1];
      var some := Gaps(before);
      GapsInOrder(before);
      assert ports == before + [ports[n]];
      forall m: nat ensures m in Gaps(ports) <==> GapAt(ports, m) {
        GapAtMore(before, ports[n], m);
        assert m in Gaps(ports) <==> m in some || (m == n && Gap(before, ports[n]));
      }
      forall i | 0 <= i < |some| ensures some[i] < n {
        assert some[i] in some;
      }
    }
  }

  // ----- Text -----

  /** Decimal digits. */
  function Digits(n: nat): string {
    (if n < 10 then "" else Digits(n / 10)) + ["0123456789"[n % 10]]
  }

  function Itoa(n: int): string {
    if n < 0 then "-" + Digits(-n) else Digits(n)
  }

  /** The number a text of digits stands for. */
  function Value(text: string): int {
    if text == "" then 0
    else Value(text[..|text| - 1]) * 10 + (text[|text| - 1] as int - '0' as int)
  }

  function Digit(d: nat): char
    requires d < 10
  {
    "0123456789"[d]
  }

  lemma DigitValue(d: nat)
    requires d < 10
    ensures Digit(d) as int - '0' as int == d && '0' <= Digit(d) <= '9' && (d > 0 ==> Digit(d) != '0')
  {
  }

  lemma ValueSnoc(text: string, c: char)
    ensures Value(text + [c]) == Value(text) * 10 + (c as int - '0' as int)
  {
    assert (text + [c])[..|text|] == text;
  }

  /** A number is written as its tens and its ones. */
  lemma TensAndOnes(n: nat) returns (tens: nat, ones: nat)
    ensures n == tens * 10 + ones && ones < 10 && (n >= 10 ==> 0 < tens < n) && (n < 10 ==> tens == 0)
    ensures Digits(n) == (if n < 10 then "" else Digits(tens)) + [Digit(ones)]
  {
    tens, ones := n / 10, n % 10;
  }

  /** Decimal digits stand for the number. */
  lemma {:induction false} DigitsValue(n: nat)
    ensures Value(Digits(n)) == n && Digits(n) != ""
  {
    var tens, ones := TensAndOnes(n);
    DigitValue(ones);
    if n < 10 {
      ValueSnoc("", Digit(ones));
    } else {
      DigitsValue(tens);
      ValueSnoc(Digits(tens), Digit(ones));
    }
  }

  /** They are digits, and do not start with a zero unless they are one. */
  lemma {:induction false} DigitsTell(n: nat)
    ensures Digits(n) != "" && forall i :: 0 <= i < |Digits(n)| ==> '0' <= Digits(n)[i] <= '9'
    ensures n > 0 ==> Digits(n)[0] != '0'
  {
    var tens, ones := TensAndOnes(n);
    DigitValue(ones);
    if n >= 10 {
      DigitsTell(tens);
    }
  }

  /** What is written for a number can be read back: a minus sign is there exactly for a negative one. */
  lemma ItoaTells(n: int)
    ensures Itoa(n) != ""
    ensures n >= 0 ==> Value(Itoa(n)) == n && Itoa(n)[0] != '-'
    ensures n < 0 ==> Itoa(n)[0] == '-' && Value(Itoa(n)[1..]) == -n
  {
    DigitsTell(if n < 0 then -n else n);
    DigitsValue(if n < 0 then -n else n);
    if n < 0 {
      assert Itoa(n)[1..] == Digits(-n);
    }
  }

  /** The parts of a text between slashes. */
  function Split(text: string): (parts: seq<string>)
    ensures parts != []
  {
    if text == "" then [""]
    else if text[0] == '/' then [""] + Split(text[1..])
    else
      var rest := Split(text[1..]);
      [[text[0]] + rest[0]] + rest[1..]
  }

  function RangeText(r: Range): string {
    if r.first == r.last then Itoa(r.first) else Itoa(r.first) + "-" + Itoa(r.last)
  }

  function FormGroup(key: Key, r: Range): string {
    var parts := Split(key);
    var ip := if |parts| > 1 then parts[0] else "";
    var groupType := if |parts| > 1 then parts[1] else parts[0];
    (if ip != "" then ip + ":" + RangeText(r) + "->" + RangeText(r) else RangeText(r)) + "/" + groupType
  }

  function ItemText(e: Item): string {
    match e
    case Group(key, range) => FormGroup(key, range)
    case Mapping(ip, publicPort, privatePort, kind) =>
      ip + ":" + Itoa(publicPort) + "->" + Itoa(privatePort) + "/" + kind
  }

  /** `strings.Join` with a comma and a blank. */
  function Joined(parts: seq<string>): string {
    if parts == [] then ""
    else if |parts| == 1 then parts[0]
    else Joined(parts[..|parts| - 1]) + ", " + parts[|parts| - 1]
  }

  function Texts(items: seq<Item>): string {
    Joined(seq(|items|, i requires 0 <= i < |items| => ItemText(items[i])))
  }

  /** A mapping shows its address and public port, and the private port and protocol they lead to. */
  lemma MappingShows(p: Port)
    requires IsMapping(p)
    ensures ItemText(MappingOf(p)) == p.ip + ":" + Itoa(p.publicPort) + "->" + Itoa(p.privatePort) + "/" + p.kind
  {
  }

  /** The texts of two lists are put together with a comma. */
  lemma {:induction false} JoinedConcat(a: seq<string>, b: seq<string>)
    requires a != [] && b != []
    ensures Joined(a + b) == Joined(a) + ", " + Joined(b)
    decreases |b|
  {
    var front, e := b[..|b| - 1], b[|b| - 1];
    assert b == front + [e];
    if front == [] {
      JoinedSnoc(a, e);
      assert a + b == a + [e] && b == [e];
    } else {
      JoinedConcat(a, front);
      JoinedSnoc(a + front, e);
      JoinedSnoc(front, e);
      assert a + b == a + front + [e];
      CommaBetween(Joined(a), Joined(front), e);
    }
  }

  lemma JoinedSnoc(parts: seq<string>, e: string)
    requires parts != []
    ensures Joined(parts + [e]) == Joined(parts) + ", " + e
  {
    assert (parts + [e])[..|parts|] == parts;
  }

  lemma CommaBetween(x: string, y: string, z: string)
    ensures (x + ", " + y) + ", " + z == x + ", " + (y + ", " + z)
  {
  }

  lemma {:induction false} SplitNoSlash(text: string)
    requires '/' !in text
    ensures Split(text) == [text]
  {
    if text != "" {
      SplitNoSlash(text[1..]);
      assert text == [text[0]] + text[1..];
    }
  }

  lemma {:induction false} SplitAtSlash(a: string, b: string)
    requires '/' !in a && '/' !in b
    ensures Split(a + "/" + b) == [a, b]
  {
    var text := a + "/" + b;
    if a == "" {
      assert text[1..] == b;
      SplitNoSlash(b);
    } else {
      assert text[1..] == a[1..] + "/" + b;
      SplitAtSlash(a[1..], b);
      assert a == [a[0]] + a[1..];
    }
  }

  /** As long as no slash is in either, an address and a protocol can be told from their key, and that is
      what the text of a range shows. */
  lemma GroupShowsKey(p: Port, r: Range)
    requires '/' !in p.ip && '/' !in p.kind
    ensures FormGroup(KeyOf(p), r)
         == (if p.ip == "" then "" else p.ip + ":" + RangeText(r) + "->") + RangeText(r) + "/" + p.kind
  {
    if p.ip == "" {
      SplitNoSlash(p.kind);
    } else {
      SplitAtSlash(p.ip, p.kind);
    }
  }

  lemma KeysTellApart(p: Port, q: Port)
    requires '/' !in p.ip && '/' !in p.kind && '/' !in q.ip && '/' !in q.kind
    ensures KeyOf(p) == KeyOf(q) <==> p.ip == q.ip && p.kind == q.kind
  {
    SplitNoSlash(p.kind);
    SplitNoSlash(q.kind);
    SplitAtSlash(p.ip, p.kind);
    SplitAtSlash(q.ip, q.kind);
  }

  /** The text is that of some items: ranges, showing the ports of every key, and then the other mappings. */
  ghost predicate Displays(text: string, items: seq<Item>, ports: seq<Port>) {
    && text == Texts(items) && Shows(items, ports) && InOrder(ports, items)
    && exists n :: 0 <= n <= |items| && AllGroups(items[..n]) && items[n..] == Mappings(Sort(ports))
  }

  /** `DisplayablePorts`: the items put into words, with commas between. */
  method DisplayablePorts(ports: seq<Port>) returns (text: string)
    ensures exists items :: Displays(text, items, ports)
  {
    var items, n := DisplayableItems(ports);
    assert AllGroups(items[..n]);
    text := Texts(items);
    assert Displays(text, items, ports);
  }

  /** What there is to show, range by range. */
  method DisplayableItems(ports: seq<Port>) returns (items: seq<Item>, ghost ranges: nat)
    ensures Shows(items, ports)
    ensures ranges <= |items| && (forall i :: 0 <= i < ranges ==> items[i].Group?)
    ensures items[ranges..] == Mappings(Sort(ports))
    ensures InOrder(ports, items)
  {
    var sorted := Sort(ports);
    var result, hostMappings, groupKeys, groups := GroupPorts(sorted);
    KeysUsed(sorted);
    result := CloseGroups(result, groupKeys, groups, sorted);
    ranges := |result|;
    items := result + hostMappings;
    MappingsAreMappings(sorted);
    forall k: Key ensures RangesOf(items, k) == Ranges(PortsOf(sorted, k)) {
      RangesOfConcat(result, hostMappings, k);
    }
  }

  /** What has been listed after the ports in `done`. */
  ghost predicate Listing(result: seq<Item>, hostMappings: seq<Item>, groupKeys: seq<Key>, groups: map<Key, Range>,
                          done: seq<Port>) {
    && hostMappings == Mappings(done) && AllGroups(result) && Lists(groupKeys, groups)
    && result == Closed(done) && groupKeys == Keys(done)
  }

  /** Where the loop stands after the ports in `done`. */
  ghost predicate Grouping(result: seq<Item>, hostMappings: seq<Item>, groupKeys: seq<Key>, groups: map<Key, Range>,
                           done: seq<Port>) {
    Tracks(result, groups, done) && Opens(groups, done) && Listing(result, hostMappings, groupKeys, groups, done)
  }

  lemma OneMorePort(ports: seq<Port>, i: nat)
    requires i <= |ports|
    ensures i < |ports| ==> ports[..i + 1] == ports[..i] + [ports[i]]
    ensures i == |ports| ==> ports[..i] == ports
  {
  }

  lemma NothingGrouped()
    ensures Grouping([], [], [], map[], [])
  {
    forall k: Key ensures TracksKey([], map[], [], k) {}
  }

  /** The loop over the sorted ports. */
  method GroupPorts(sorted: seq<Port>)
    returns (result: seq<Item>, hostMappings: seq<Item>, groupKeys: seq<Key>, groups: map<Key, Range>)
    ensures Grouping(result, hostMappings, groupKeys, groups, sorted)
  {
    result, hostMappings, groupKeys, groups := [], [], [], map[];
    NothingGrouped();
    for i := 0 to |sorted|
      invariant Grouping(result, hostMappings, groupKeys, groups, sorted[..i])
    {
      OneMorePort(sorted, i);
      result, hostMappings, groupKeys, groups := GroupPort(sorted[i], result, hostMappings, groupKeys, groups,
                                                           sorted[..i]);
    }
    OneMorePort(sorted, |sorted|);
  }

  /** The body of the loop. */
  method GroupPort(port: Port, result0: seq<Item>, hostMappings0: seq<Item>, groupKeys0: seq<Key>, groups0: map<Key,
                   Range>, ghost done: seq<Port>)
    returns (result: seq<Item>, hostMappings: seq<Item>, groupKeys: seq<Key>, groups: map<Key, Range>)
    requires Grouping(result0, hostMappings0, groupKeys0, groups0, done)
    ensures Grouping(result, hostMappings, groupKeys, groups, done + [port])
  {
    result, hostMappings, groupKeys, groups := result0, hostMappings0, groupKeys0, groups0;
    var current, portKey := port.privatePort, KeyOf(port);
    if port.ip != "" && port.publicPort != current {
      GroupingMapping(result, hostMappings, groupKeys, groups, done, port);
      hostMappings := hostMappings + [MappingOf(port)];
    } else if portKey !in groups {
      GroupingNew(result, hostMappings, groupKeys, groups, done, port);
      groups := groups[portKey := Range(current, current)];
      groupKeys := groupKeys + [portKey];
    } else if current == groups[portKey].last + 1 {
      GroupingFollows(result, hostMappings, groupKeys, groups, done, port);
      groups := groups[portKey := Range(groups[portKey].first, current)];
    } else {
      GroupingGap(result, hostMappings, groupKeys, groups, done, port);
      result := result + [Group(portKey, groups[portKey])];
      groups := groups[portKey := Range(current, current)];
    }
  }

  lemma GroupingMapping(result: seq<Item>, hostMappings: seq<Item>, groupKeys: seq<Key>, groups: map<Key, Range>,
                        done: seq<Port>, p: Port)
    requires Grouping(result, hostMappings, groupKeys, groups, done) && IsMapping(p)
    ensures Grouping(result, hostMappings + [MappingOf(p)], groupKeys, groups, done + [p])
  {
    ListingMapping(result, hostMappings, groupKeys, groups, done, p);
    TracksMapping(result, groups, done, p);
    OpensMore(groups, groups, done, p);
  }

  lemma GroupingNew(result: seq<Item>, hostMappings: seq<Item>, groupKeys: seq<Key>, groups: map<Key, Range>,
                    done: seq<Port>, p: Port)
    requires Grouping(result, hostMappings, groupKeys, groups, done) && !IsMapping(p) && KeyOf(p) !in groups
    ensures Grouping(result, hostMappings, groupKeys + [KeyOf(p)],
                     groups[KeyOf(p) := Range(p.privatePort, p.privatePort)], done + [p])
  {
    var k, r := KeyOf(p), Range(p.privatePort, p.privatePort);
    ListingNew(result, hostMappings, groupKeys, groups, done, p, r);
    TracksNew(result, groups, done, p);
    OpensMore(groups, groups[k := r], done, p);
  }

  lemma GroupingFollows(result: seq<Item>, hostMappings: seq<Item>, groupKeys: seq<Key>, groups: map<Key, Range>,
                        done: seq<Port>, p: Port)
    requires Grouping(result, hostMappings, groupKeys, groups, done) && !IsMapping(p) && KeyOf(p) in groups
    requires p.privatePort == groups[KeyOf(p)].last + 1
    ensures Grouping(result, hostMappings, groupKeys,
                     groups[KeyOf(p) := Range(groups[KeyOf(p)].first, p.privatePort)], done + [p])
  {
    var k, r := KeyOf(p), Range(groups[KeyOf(p)].first, p.privatePort);
    OpenKey(result, groups, done, k);
    ListingKnown(result, hostMappings, groupKeys, groups, done, p, r);
    TracksNext(result, groups, done, p);
    OpensMore(groups, groups[k := r], done, p);
  }

  lemma GroupingGap(result: seq<Item>, hostMappings: seq<Item>, groupKeys: seq<Key>, groups: map<Key, Range>,
                    done: seq<Port>, p: Port)
    requires Grouping(result, hostMappings, groupKeys, groups, done) && !IsMapping(p) && KeyOf(p) in groups
    requires p.privatePort != groups[KeyOf(p)].last + 1
    ensures Grouping(result + [Group(KeyOf(p), groups[KeyOf(p)])], hostMappings, groupKeys,
                     groups[KeyOf(p) := Range(p.privatePort, p.privatePort)], done + [p])
  {
    var k, r := KeyOf(p), Range(p.privatePort, p.privatePort);
    OpenKey(result, groups, done, k);
    ListingKnown(result, hostMappings, groupKeys, groups, done, p, r);
    TracksGap(result, groups, done, p);
    OpensMore(groups, groups[k := r], done, p);
  }

  /** A key with an open range has ports, and the open range is the last one of them. */
  lemma OpenKey(items: seq<Item>, groups: map<Key, Range>, done: seq<Port>, k: Key)
    requires Tracks(items, groups, done) && Opens(groups, done) && k in groups
    ensures PortsOf(done, k) != [] && groups[k] == LastRange(done, k)
    ensures groups[k].last == PortsOf(done, k)[|PortsOf(done, k)| - 1]
  {
    assert TracksKey(items, groups, done, k);
    OpenIsLast(items, groups, done, k);
  }

  lemma ListingMapping(result: seq<Item>, hostMappings: seq<Item>, groupKeys: seq<Key>, groups: map<Key, Range>,
                       done: seq<Port>, p: Port)
    requires Listing(result, hostMappings, groupKeys, groups, done) && IsMapping(p)
    ensures Listing(result, hostMappings + [MappingOf(p)], groupKeys, groups, done + [p])
  {
    MappingsMore(done, p);
    ClosedMore(done, p);
    assert Closed(done) + [] == Closed(done) && Keys(done) + [] == Keys(done);
  }

  lemma ListingNew(result: seq<Item>, hostMappings: seq<Item>, groupKeys: seq<Key>, groups: map<Key, Range>,
                   done: seq<Port>, p: Port, r: Range)
    requires Listing(result, hostMappings, groupKeys, groups, done) && KeyOf(p) !in groups && Opening(done, p)
    ensures Listing(result, hostMappings, groupKeys + [KeyOf(p)], groups[KeyOf(p) := r], done + [p])
  {
    MappingsMore(done, p);
    ClosedMore(done, p);
    ListsMore(groupKeys, groups, KeyOf(p), r);
    assert Closed(done) + [] == Closed(done) && Mappings(done) + [] == Mappings(done);
  }

  /** A range is closed exactly where the port leaves a gap. */
  lemma ListingKnown(result: seq<Item>, hostMappings: seq<Item>, groupKeys: seq<Key>, groups: map<Key, Range>,
                     done: seq<Port>, p: Port, r: Range)
    requires Listing(result, hostMappings, groupKeys, groups, done) && !IsMapping(p)
    requires KeyOf(p) in groups && PortsOf(done, KeyOf(p)) != [] && groups[KeyOf(p)] == LastRange(done, KeyOf(p))
    ensures var more := if Gap(done, p) then result + [Group(KeyOf(p), groups[KeyOf(p)])] else result;
      Listing(more, hostMappings, groupKeys, groups[KeyOf(p) := r], done + [p])
  {
    MappingsMore(done, p);
    ClosedMore(done, p);
    ListsMore(groupKeys, groups, KeyOf(p), r);
    assert Closed(done) + [] == Closed(done) && Mappings(done) + [] == Mappings(done);
    assert Keys(done) + [] == Keys(done);
  }

  /** Each key once. */
  ghost predicate Lists(keys: seq<Key>, groups: map<Key, Range>) {
    && (forall k :: k in groups <==> k in keys)
    && (forall i, j :: 0 <= i < j < |keys| ==> keys[i] != keys[j])
  }

  lemma ListsMore(keys: seq<Key>, groups: map<Key, Range>, k: Key, r: Range)
    requires Lists(keys, groups)
    ensures Lists(if k in groups then keys else keys + [k], groups[k := r])
  {
  }

  ghost predicate AllGroups(items: seq<Item>) {
    forall i :: 0 <= i < |items| ==> items[i].Group?
  }

  lemma KeysLeft(keys: seq<Key>, i: nat)
    requires i < |keys| && forall i, j :: 0 <= i < j < |keys| ==> keys[i] != keys[j]
    ensures forall k :: k in keys[i..] <==> k == keys[i] || k in keys[i + 1..]
    ensures keys[i] !in keys[i + 1..]
  {
    assert keys[i..] == [keys[i]] + keys[i + 1..];
  }

  /** The loop over the keys, in the order in which they came up. */
  method CloseGroups(before: seq<Item>, groupKeys: seq<Key>, groups: map<Key, Range>, ghost sorted: seq<Port>)
    returns (result: seq<Item>)
    requires Tracks(before, groups, sorted) && Lists(groupKeys, groups)
    requires AllGroups(before)
    requires AllUsed(sorted, groupKeys)
    ensures forall k: Key :: RangesOf(result, k) == Ranges(PortsOf(sorted, k))
    ensures AllGroups(result) && result == before + Opened(sorted, groupKeys)
  {
    result := before;
    ghost var left := groups;
    ClosingStarts(before, groupKeys, groups, sorted);
    for i := 0 to |groupKeys|
      invariant Closing(before, result, left, groupKeys, groups, sorted, i)
    {
      ClosingNext(before, result, left, groupKeys, groups, sorted, i);
      left := left - {groupKeys[i]};
      result := result + [Group(groupKeys[i], groups[groupKeys[i]])];
    }
    TracksClosed(result, left, sorted);
    InTurnOpened(before, groupKeys, groups, sorted);
  }

  /** Where that loop stands after `i` keys: the ranges of the keys in `left` are still open. */
  ghost predicate Closing(before: seq<Item>, result: seq<Item>, left: map<Key, Range>, keys: seq<Key>,
                          groups: map<Key, Range>, sorted: seq<Port>, i: nat)
  {
    && i <= |keys| && Lists(keys, groups) && Tracks(result, left, sorted)
    && (forall k :: k in left <==> k in keys[i..]) && (forall k :: k in left ==> left[k] == groups[k])
    && AllGroups(result) && result == before + InTurn(keys[..i], groups)
  }

  lemma ClosingStarts(before: seq<Item>, keys: seq<Key>, groups: map<Key, Range>, sorted: seq<Port>)
    requires Tracks(before, groups, sorted) && Lists(keys, groups) && AllGroups(before)
    ensures Closing(before, before, groups, keys, groups, sorted, 0)
  {
    assert keys[0..] == keys && InTurn(keys[..0], groups) == [];
    assert before + [] == before;
  }

  lemma ClosingNext(before: seq<Item>, result: seq<Item>, left: map<Key, Range>, keys: seq<Key>,
                    groups: map<Key, Range>, sorted: seq<Port>, i: nat)
    requires Closing(before, result, left, keys, groups, sorted, i) && i < |keys|
    ensures keys[i] in groups
    ensures Closing(before, result + [Group(keys[i], groups[keys[i]])], left - {keys[i]}, keys, groups, sorted, i + 1)
  {
    KeysLeft(keys, i);
    TracksClose(result, left, sorted, keys[i]);
    InTurnMore(before, keys, i, groups);
  }

  /** The open ranges of some keys, in turn. */
  function InTurn(keys: seq<Key>, groups: map<Key, Range>): seq<Item>
    requires forall i :: 0 <= i < |keys| ==> keys[i] in groups
  {
    seq(|keys|, i requires 0 <= i < |keys| => Group(keys[i], groups[keys[i]]))
  }

  lemma InTurnMore(before: seq<Item>, keys: seq<Key>, i: nat, groups: map<Key, Range>)
    requires i < |keys| && forall j :: 0 <= j < |keys| ==> keys[j] in groups
    ensures before + InTurn(keys[..i], groups) + [Group(keys[i], groups[keys[i]])]
         == before + InTurn(keys[..i + 1], groups)
  {
    assert InTurn(keys[..i], groups) + [Group(keys[i], groups[keys[i]])] == InTurn(keys[..i + 1], groups);
  }

  lemma InTurnOpened(items: seq<Item>, keys: seq<Key>, groups: map<Key, Range>, sorted: seq<Port>)
    requires Tracks(items, groups, sorted) && AllUsed(sorted, keys) && forall i :: 0 <= i < |keys| ==> keys[i] in groups
    ensures InTurn(keys[..|keys|], groups) == Opened(sorted, keys)
  {
    assert keys[..|keys|] == keys;
    forall i | 0 <= i < |keys| ensures groups[keys[i]] == LastRange(sorted, keys[i]) {
      assert TracksKey(items, groups, sorted, keys[i]);
      OpenIsLast(items, groups, sorted, keys[i]);
    }
  }
}

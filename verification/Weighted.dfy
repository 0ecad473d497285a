/** Weighted selection of the first address (`plugin/loadbalance/weighted.go`).  */
module Weighted {
  import opened Names
  import opened Records

  type Byte = x: nat | x < 256

  datatype WeightItem = WeightItem(address: string, value: Byte)

  type Domains = map<Name, seq<WeightItem>>

  datatype WAddress = WAddress(index: nat, weight: Byte)

  /** The first weight given to an address, 1 when there is none. */
  function FirstWeight(ws: seq<WeightItem>, ip: string): Byte {
    if ws == [] then 1 else if ws[0].address == ip then ws[0].value else FirstWeight(ws[1..], ip)
  }

  /** Item `i` is the first one with the address. */
  predicate ListedFirst(ws: seq<WeightItem>, ip: string, i: nat) {
    i < |ws| && ws[i].address == ip && forall x :: 0 <= x < i ==> ws[x].address != ip
  }

  /** It is the value of the first item with the address, or 1 when there is none. */
  lemma {:induction false} FirstWeightExactly(ws: seq<WeightItem>, ip: string)
    ensures forall i: nat :: ListedFirst(ws, ip, i) ==> FirstWeight(ws, ip) == ws[i].value
    ensures (forall i :: 0 <= i < |ws| ==> ws[i].address != ip) ==> FirstWeight(ws, ip) == 1
  {
    forall i: nat | ListedFirst(ws, ip, i)
      ensures FirstWeight(ws, ip) == ws[i].value
    {
      FirstWeightAt(ws, ip, i);
    }
    if forall i :: 0 <= i < |ws| ==> ws[i].address != ip {
      UnlistedWeight(ws, ip);
    }
  }

  lemma {:induction false} FirstWeightAt(ws: seq<WeightItem>, ip: string, i: nat)
    requires ListedFirst(ws, ip, i)
    ensures FirstWeight(ws, ip) == ws[i].value
  {
    if i > 0 {
      assert forall x :: 0 <= x < i - 1 ==> ws[1..][x] == ws[x + 1];
      FirstWeightAt(ws[1..], ip, i - 1);
    }
  }

  lemma {:induction false} UnlistedWeight(ws: seq<WeightItem>, ip: string)
    requires forall i :: 0 <= i < |ws| ==> ws[i].address != ip
    ensures FirstWeight(ws, ip) == 1
  {
    if ws != [] {
      UnlistedWeight(ws[1..], ip);
    }
  }

  /** The address of an A or AAAA record. */
  function Ip(r: RR): string {
    match r.data
    case Plain(_, text) => text
    case _ => ""
  }

  function WeightOf(domains: Domains, r: RR): Byte {
    FirstWeight(if r.owner in domains then domains[r.owner] else [], Ip(r))
  }

  /** An address has the weight that the list of its owner gives it first, and 1 when that has none
      for it or there is no such list. */
  lemma {:induction false} AddressWeight(domains: Domains, owner: Name, ttl: nat, t: PlainType, ip: string)
    ensures var w := WeightOf(domains, RR(owner, ttl, Plain(t, ip)));
            if owner !in domains then w == 1
            else
              var ws := domains[owner];
              && (forall i: nat :: ListedFirst(ws, ip, i) ==> w == ws[i].value)
              && ((forall i :: 0 <= i < |ws| ==> ws[i].address != ip) ==> w == 1)
  {
    FirstWeightExactly(if owner in domains then domains[owner] else [], ip);
  }

  function Weigh(domains: Domains, address: seq<RR>): seq<WAddress> {
    seq(|address|, i requires 0 <= i < |address| => WAddress(i, WeightOf(domains, address[i])))
  }

  /** The sum of the first `k` weights. */
  function Psum(s: seq<WAddress>, k: nat): nat
    requires k <= |s|
  {
    if k == 0 then 0 else Psum(s, k - 1) + s[k - 1].weight
  }

  function Total(s: seq<WAddress>): nat {
    Psum(s, |s|)
  }

  // ----- selection

  /** `v` falls on position `k`. */
  ghost predicate FallsOn(s: seq<WAddress>, v: nat, k: nat) {
    k < |s| && Psum(s, k) <= v < Psum(s, k + 1)
  }

  lemma {:induction false} PsumGrows(s: seq<WAddress>, j: nat, k: nat)
    requires j <= k <= |s|
    ensures Psum(s, j) <= Psum(s, k)
    decreases k
  {
    if j < k {
      PsumGrows(s, j, k - 1);
    }
  }

  /** A draw below the total falls on exactly one position. */
  lemma {:induction false} FallsOnOne(s: seq<WAddress>, v: nat, j: nat, k: nat)
    requires FallsOn(s, v, j) && FallsOn(s, v, k)
    ensures j == k
  {
    if j < k {
      PsumGrows(s, j + 1, k);
    } else if k < j {
      PsumGrows(s, k + 1, j);
    }
  }

  /** The loop of `topAddressIndex`. */
  method Select(s: seq<WAddress>, v: nat) returns (index: int, ghost k: nat)
    ensures v < Total(s) ==> FallsOn(s, v, k) && index == s[k].index
    ensures v >= Total(s) ==> index == -1
  {
    var psum := 0;
    k := 0;
    for i := 0 to |s|
      invariant psum == Psum(s, i) <= v
    {
      psum := psum + s[i].weight;
      if v < psum {
        PsumGrows(s, i + 1, |s|);
        return s[i].index, i;
      }
    }
    index := -1;
  }

  // ----- any order of equal weights

  ghost predicate Permutes<T>(s: seq<T>, t: seq<T>) {
    multiset(s) == multiset(t)
  }

  ghost predicate Descending(s: seq<WAddress>) {
    forall i, j :: 0 <= i < j < |s| ==> s[i].weight >= s[j].weight
  }

  /** `sort.Slice`: some order by falling weight; which of equal weights comes first is open. */
  method SortByWeight(s: seq<WAddress>) returns (t: seq<WAddress>)
    ensures Permutes(s, t) && Descending(t)
  {
    t := [];
    var rest := s;
    while rest != []
      invariant multiset(t) + multiset(rest) == multiset(s) && Descending(t)
      invariant forall i, j :: 0 <= i < |t| && 0 <= j < |rest| ==> t[i].weight >= rest[j].weight
      decreases |rest|
    {
      HasHeaviest(rest);
      var k :| 0 <= k < |rest| && Heaviest(rest, k);
      RemoveOne(rest, k);
      t := t + [rest[k]];
      rest := rest[..k] + rest[k + 1..];
    }
  }

  predicate Heaviest(s: seq<WAddress>, k: nat)
    requires k < |s|
  {
    forall i :: 0 <= i < |s| ==> s[i].weight <= s[k].weight
  }

  lemma {:induction false} HasHeaviest(s: seq<WAddress>)
    requires s != []
    ensures exists k :: 0 <= k < |s| && Heaviest(s, k)
  {
    var n := |s| - 1;
    if n == 0 {
      assert Heaviest(s, 0);
    } else {
      HasHeaviest(s[..n]);
      var k :| 0 <= k < n && Heaviest(s[..n], k);
      assert forall i :: 0 <= i < n ==> s[..n][i] == s[i];
      assert Heaviest(s, if s[n].weight > s[k].weight then n else k);
    }
  }

  lemma {:induction false} TotalRemove(t: seq<WAddress>, j: nat)
    requires j < |t|
    ensures Total(t) == Total(t[..j] + t[j + 1..]) + t[j].weight
    decreases |t|
  {
    var n := |t| - 1;
    PsumPrefix(t, n, n);
    var r := t[..j] + t[j + 1..];
    if j == n {
      assert r == t[..n];
    } else {
      TotalRemove(t[..n], j);
      assert r[..n - 1] == t[..n][..j] + t[..n][j + 1..];
      PsumPrefix(r, n - 1, n - 1);
    }
  }

  lemma {:induction false} PsumPrefix(t: seq<WAddress>, m: nat, n: nat)
    requires m <= n <= |t|
    ensures Psum(t[..n], m) == Psum(t, m)
    decreases m
  {
    if m > 0 {
      PsumPrefix(t, m - 1, n);
    }
  }

  /** The total does not depend on the order. */
  lemma {:induction false} TotalPermutes(s: seq<WAddress>, t: seq<WAddress>)
    requires Permutes(s, t)
    ensures Total(s) == Total(t)
    decreases |s|
  {
    assert |multiset(s)| == |multiset(t)|;
    if s != [] {
      assert s[0] in multiset(s);
      assert s[0] in t;
      var j :| 0 <= j < |t| && t[j] == s[0];
      RemoveOne(s, 0);
      RemoveOne(t, j);
      TotalPermutes(s[..0] + s[1..], t[..j] + t[j + 1..]);
      TotalRemove(s, 0);
      TotalRemove(t, j);
    }
  }

  lemma RemoveOne<T>(s: seq<T>, j: nat)
    requires j < |s|
    ensures multiset(s[..j] + s[j + 1..]) == multiset(s) - multiset{s[j]}
  {
    assert s == s[..j] + [s[j]] + s[j + 1..];
  }

  /** In any order of the weighed addresses each index occurs once, with its weight. */
  lemma {:induction false} IndexOnce(domains: Domains, address: seq<RR>, t: seq<WAddress>, i: nat) returns (k: nat)
    requires Permutes(Weigh(domains, address), t) && i < |address|
    ensures k < |t| && t[k] == WAddress(i, WeightOf(domains, address[i]))
    ensures forall j :: 0 <= j < |t| && t[j].index == i ==> j == k
  {
    var s := Weigh(domains, address);
    assert s[i] in multiset(s);
    assert s[i] in t;
    k :| 0 <= k < |t| && t[k] == s[i];
    forall j | 0 <= j < |t| && t[j].index == i
      ensures j == k
    {
      assert t[j] in multiset(t);
      assert t[j] in s;
      assert t[j] == s[i];
      if j != k {
        TwiceIn(t, j, k);
        OnceIn(s, i);
      }
    }
  }

  lemma TwiceIn<T>(t: seq<T>, j: nat, k: nat)
    requires j < |t| && k < |t| && j != k && t[j] == t[k]
    ensures multiset(t)[t[j]] >= 2
  {
    var a, b := if j < k then j else k, if j < k then k else j;
    assert t == t[..a] + [t[a]] + t[a + 1..b] + [t[b]] + t[b + 1..];
  }

  lemma OnceIn<T>(s: seq<T>, i: nat)
    requires i < |s| && forall j :: 0 <= j < |s| && j != i ==> s[j] != s[i]
    ensures multiset(s)[s[i]] == 1
  {
    var a, b := s[..i], s[i + 1..];
    assert s == a + [s[i]] + b;
    assert s[i] !in a && s[i] !in b;
  }

  // ----- fairness

  /** The draws that put address `i` first. */
  ghost function Draws(t: seq<WAddress>, i: nat): set<nat> {
    set v, k | 0 <= k < |t| && v in Range(0, Total(t)) && FallsOn(t, v, k) && t[k].index == i :: v
  }

  ghost function Range(lo: nat, hi: nat): (r: set<nat>)
    ensures forall v :: v in r <==> lo <= v < hi
  {
    if lo >= hi then {} else Range(lo, hi - 1) + {hi - 1}
  }

  lemma {:induction false} RangeSize(lo: nat, hi: nat)
    requires lo <= hi
    ensures |Range(lo, hi)| == hi - lo
    decreases hi
  {
    if lo < hi {
      RangeSize(lo, hi - 1);
    }
  }

  /** Whatever the order of equal weights, address `i` is put first by exactly as many of the
      possible draws as its weight. */
  lemma {:induction false} Fair(domains: Domains, address: seq<RR>, t: seq<WAddress>, i: nat)
    requires Permutes(Weigh(domains, address), t) && i < |address|
    ensures |Draws(t, i)| == WeightOf(domains, address[i])
    ensures Total(t) == Total(Weigh(domains, address))
  {
    TotalPermutes(Weigh(domains, address), t);
    var k := IndexOnce(domains, address, t, i);
    var lo, hi := Psum(t, k), Psum(t, k + 1);
    PsumGrows(t, k + 1, |t|);
    assert Draws(t, i) == Range(lo, hi) by {
      forall v: nat
        ensures v in Draws(t, i) <==> v in Range(lo, hi)
      {
        if v in Range(lo, hi) {
          assert FallsOn(t, v, k) && v in Range(0, Total(t));
        }
      }
    }
    RangeSize(lo, hi);
  }

  // ----- the policy

  /** The weights of the addresses and their sum. */
  method WeighAll(domains: Domains, address: seq<RR>) returns (wa: seq<WAddress>, wsum: nat)
    ensures wa == Weigh(domains, address) && wsum == Total(wa)
  {
    wa, wsum := [], 0;
    for i := 0 to |address|
      invariant wa == Weigh(domains, address)[..i] && wsum == Total(wa)
    {
      var weight: Byte := 1;
      var ws := if address[i].owner in domains then domains[address[i].owner] else [];
      var j := 0;
      while j < |ws|
        invariant 0 <= j <= |ws| && weight == 1
        invariant WeightOf(domains, address[i]) == FirstWeight(ws[j..], Ip(address[i]))
      {
        if ws[j].address == Ip(address[i]) {
          weight := ws[j].value;
          break;
        }
        j := j + 1;
      }
      assert j == |ws| ==> ws[j..] == [];
      ghost var before := wa;
      wa := wa + [WAddress(i, weight)];
      assert wa[..i] == before;
      PsumPrefix(wa, i, i);
      wsum := wsum + weight;
    }
  }

  /** `topAddressIndex`, for the draw `v`. The draw is below the total, which must be positive:
      `Intn` does not accept zero. */
  method TopAddressIndex(domains: Domains, address: seq<RR>, v: nat) returns (index: nat, ghost t: seq<WAddress>)
    requires v < Total(Weigh(domains, address))
    ensures index < |address| && Permutes(Weigh(domains, address), t) && Descending(t)
    ensures v in Draws(t, index)
  {
    var wa, wsum := WeighAll(domains, address);
    var sorted := SortByWeight(wa);
    t := sorted;
    TotalPermutes(wa, t);
    var i;
    ghost var k;
    i, k := Select(sorted, v);
    assert t[k] in multiset(t);
    assert t[k] in wa;
    index := i;
  }

  /** The total is zero just when every address has weight zero. */
  lemma {:induction false} ZeroTotal(s: seq<WAddress>, n: nat)
    requires n <= |s|
    ensures Psum(s, n) == 0 <==> forall i :: 0 <= i < n ==> s[i].weight == 0
    decreases n
  {
    if n > 0 {
      ZeroTotal(s, n - 1);
    }
  }

  /** `v` can be drawn for these addresses: `Intn` gives a number below the total of their weights. */
  predicate CanDraw(domains: Domains, address: seq<RR>, v: nat) {
    v < Total(Weigh(domains, address))
  }

  /** There is something to draw exactly when some address has a positive weight; otherwise `Intn`
      is called with zero, and panics. */
  lemma {:induction false} DrawExactly(domains: Domains, address: seq<RR>)
    ensures (exists v :: CanDraw(domains, address, v)) <==> exists i :: 0 <= i < |address| && WeightOf(domains, address[i]) > 0
  {
    var s := Weigh(domains, address);
    ZeroTotal(s, |s|);
    if Total(s) > 0 {
      assert CanDraw(domains, address, 0);
      var i :| 0 <= i < |s| && s[i].weight != 0;
      assert WeightOf(domains, address[i]) > 0;
    } else {
      forall i | 0 <= i < |address|
        ensures WeightOf(domains, address[i]) == 0
      {
        assert s[i].weight == 0;
      }
    }
  }

  /** One address to which the weight file gives the weight 0. */
  lemma NothingToDraw(domains: Domains, r: RR)
    requires domains == map[r.owner := [WeightItem(Ip(r), 0)]]
    ensures forall v :: !CanDraw(domains, [r], v)
  {
    assert WeightOf(domains, r) == 0;
    DrawExactly(domains, [r]);
  }

  /** `setTopRecord` swaps the selected address to the front. */
  method SetTopRecord(domains: Domains, address: array<RR>, v: nat) returns (ghost top: nat, ghost t: seq<WAddress>)
    requires v < Total(Weigh(domains, address[..]))
    modifies address
    ensures top < address.Length && address[0] == old(address[top]) && address[top] == old(address[0])
    ensures forall i :: 0 <= i < address.Length && i != 0 && i != top ==> address[i] == old(address[i])
    ensures Permutes(Weigh(domains, old(address[..])), t) && v in Draws(t, top)
    ensures Permutes(old(address[..]), address[..])
  {
    var itop;
    itop, t := TopAddressIndex(domains, address[..], v);
    top := itop;
    if itop != 0 {
      address[0], address[itop] := address[itop], address[0];
    }
  }

  function Class(r: RR): nat {
    if r.Type() == TYPE_CNAME then 0
    else if r.Type() == TYPE_A || r.Type() == TYPE_AAAA then 2
    else if r.Type() == TYPE_MX then 3
    else 1
  }

  /** The records of a class, in order. */
  function OfClass(rs: seq<RR>, c: nat): seq<RR> {
    if rs == [] then []
    else OfClass(rs[..|rs| - 1], c) + if Class(rs[|rs| - 1]) == c then [rs[|rs| - 1]] else []
  }

  method Split(rs: seq<RR>) returns (cname: seq<RR>, rest: seq<RR>, address: seq<RR>, mx: seq<RR>)
    ensures cname == OfClass(rs, 0) && rest == OfClass(rs, 1) && address == OfClass(rs, 2) && mx == OfClass(rs, 3)
  {
    cname, rest, address, mx := [], [], [], [];
    for i := 0 to |rs|
      invariant cname == OfClass(rs[..i], 0) && rest == OfClass(rs[..i], 1)
      invariant address == OfClass(rs[..i], 2) && mx == OfClass(rs[..i], 3)
    {
      assert rs[..i + 1][..i] == rs[..i];
      var r := rs[i];
      if r.Type() == TYPE_CNAME {
        cname := cname + [r];
      } else if r.Type() == TYPE_A || r.Type() == TYPE_AAAA {
        address := address + [r];
      } else if r.Type() == TYPE_MX {
        mx := mx + [r];
      } else {
        rest := rest + [r];
      }
    }
    assert rs[..|rs|] == rs;
  }

  /** How often `x` occurs. */
  function Count(rs: seq<RR>, x: RR): nat {
    multiset(rs)[x]
  }

  lemma {:induction false} ClassCount(rs: seq<RR>, c: nat, x: RR)
    ensures Count(OfClass(rs, c), x) == if Class(x) == c then Count(rs, x) else 0
  {
    if rs != [] {
      var n := |rs| - 1;
      ClassCount(rs[..n], c, x);
      assert rs == rs[..n] + [rs[n]];
    }
  }

  /** The classes are the CNAMEs, the records that are none of the others, the addresses and the MXs. */
  lemma {:induction false} ClassByType(rs: seq<RR>, x: RR)
    ensures Count(OfClass(rs, 0), x) == if x.Type() == TYPE_CNAME then Count(rs, x) else 0
    ensures Count(OfClass(rs, 2), x) == if x.Type() in {TYPE_A, TYPE_AAAA} then Count(rs, x) else 0
    ensures Count(OfClass(rs, 3), x) == if x.Type() == TYPE_MX then Count(rs, x) else 0
    ensures Count(OfClass(rs, 1), x) == if x.Type() in {TYPE_CNAME, TYPE_A, TYPE_AAAA, TYPE_MX} then 0 else Count(rs, x)
  {
    ClassCount(rs, 0, x);
    ClassCount(rs, 1, x);
    ClassCount(rs, 2, x);
    ClassCount(rs, 3, x);
  }

  lemma {:induction false} SplitKeeps(rs: seq<RR>)
    ensures multiset(OfClass(rs, 0)) + multiset(OfClass(rs, 1)) + multiset(OfClass(rs, 2)) + multiset(OfClass(rs, 3)) == multiset(rs)
  {
    var all := multiset(OfClass(rs, 0)) + multiset(OfClass(rs, 1)) + multiset(OfClass(rs, 2)) + multiset(OfClass(rs, 3));
    forall x: RR
      ensures all[x] == multiset(rs)[x]
    {
      ClassCount(rs, 0, x);
      ClassCount(rs, 1, x);
      ClassCount(rs, 2, x);
      ClassCount(rs, 3, x);
    }
  }

  /** `weightedRoundRobin`: a permutation of its input that keeps the order of everything but
      the addresses, of which the drawn one comes first. */
  method WeightedRoundRobin(domains: Domains, rs: seq<RR>, v: nat) returns (out: seq<RR>, ghost top: nat, ghost t: seq<WAddress>)
    requires OfClass(rs, 2) != [] ==> v < Total(Weigh(domains, OfClass(rs, 2)))
    ensures Permutes(rs, out)
    ensures OfClass(rs, 2) == [] ==> out == rs
    ensures OfClass(rs, 2) != [] ==> Rearranged(domains, rs, out, v, top, t)
  {
    var cname, rest, address, mx := Split(rs);
    top, t := 0, [];
    if |address| == 0 {
      return rs, top, t;
    }
    var a := new RR[|address|](i requires 0 <= i < |address| => address[i]);
    assert a[..] == address;
    top, t := SetTopRecord(domains, a, v);
    out := cname + rest + a[..] + mx;
    SplitKeeps(rs);
    assert multiset(a[..]) == multiset(address);
    assert Swapped(address, a[..], top);
  }

  ghost predicate Swapped(s: seq<RR>, s': seq<RR>, top: nat) {
    && top < |s| == |s'| && s'[0] == s[top] && s'[top] == s[0]
    && forall i :: 0 < i < |s| && i != top ==> s'[i] == s[i]
  }

  ghost predicate Rearranged(domains: Domains, rs: seq<RR>, out: seq<RR>, v: nat, top: nat, t: seq<WAddress>) {
    var before, address := OfClass(rs, 0) + OfClass(rs, 1), OfClass(rs, 2);
    && Permutes(Weigh(domains, address), t) && v in Draws(t, top)
    && |before| + |address| <= |out|
    && out == before + out[|before|..|before| + |address|] + OfClass(rs, 3)
    && Swapped(address, out[|before|..|before| + |address|], top)
  }
}

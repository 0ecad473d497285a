/** A zone in place, and zone transfer in both directions (`plugin/file/zone.go`,
    `plugin/file/xfr.go`, `plugin/transfer/transfer.go`, `plugin/file/secondary.go`).  */
module Transfer {
  import opened Names
  import opened Records
  import opened Llrb
  import opened ZoneTree
  import opened Store
  import opened Zones

  /** `Elem.All`: all records of an element, its types in no particular order. */
  method ListElem(m: RRsets) returns (list: seq<RR>, ghost order: seq<RRType>)
    ensures Enumerates(order, m.Keys) && list == Listing(m, order)
  {
    list, order := [], [];
    var rest := m.Keys;
    while rest != {}
      invariant rest <= m.Keys && Enumerates(order, m.Keys - rest) && list == Listing(m, order)
      decreases rest
    {
      var t :| t in rest;
      rest := rest - {t};
      list := list + m[t];
      assert (order + [t])[..|order|] == order;
      order := order + [t];
    }
  }

  ghost function NamesOf<V>(s: Items<V>): seq<Name> {
    seq(|s|, i requires 0 <= i < |s| => s[i].0)
  }

  lemma {:induction false} NamesSplit<V>(t: Rbt<V>)
    requires t.Bin?
    ensures NamesOf(All(t)) == NamesOf(All(t.left)) + [t.key] + NamesOf(All(t.right))
  {
  }

  lemma ListsConcat(ca: seq<seq<RR>>, ka: seq<Name>, oa: seq<seq<RRType>>, cb: seq<seq<RR>>, kb: seq<Name>, ob: seq<seq<RRType>>, c: Contents)
    requires ListsNames(ca, ka, oa, c) && ListsNames(cb, kb, ob, c)
    ensures ListsNames(ca + cb, ka + kb, oa + ob, c)
  {
  }

  lemma ListsJoin<V>(t: Rbt<V>, cl: seq<seq<RR>>, ol: seq<seq<RRType>>, list: seq<RR>, order: seq<RRType>,
                     cr: seq<seq<RR>>, or: seq<seq<RRType>>, c: Contents)
    requires t.Bin? && t.key in c && Enumerates(order, c[t.key].Keys) && list == Listing(c[t.key], order)
    requires ListsNames(cl, NamesOf(All(t.left)), ol, c) && ListsNames(cr, NamesOf(All(t.right)), or, c)
    ensures ListsNames(cl + [list] + cr, NamesOf(All(t)), ol + [order] + or, c)
  {
    NamesSplit(t);
    ListsConcat(cl, NamesOf(All(t.left)), ol, [list], [t.key], [order], c);
    ListsConcat(cl + [list], NamesOf(All(t.left)) + [t.key], ol + [order], cr, NamesOf(All(t.right)), or, c);
  }

  lemma RecordsOfElem(e: Elem, ix: map<Name, Elem>, c: Contents)
    requires e in ix.Values && Indexed(ix, c)
    ensures e.owner in c && e.m == c[e.owner]
  {
    var k :| k in ix && ix[k] == e;
  }

  /** `walk` with the callback of `Transfer`: one chunk per name, in order. */
  method WalkChunks(n: Node?, ghost h: Shape, ghost t: Rbt<Elem>, ghost ix: map<Name, Elem>, ghost c: Contents)
    returns (chunks: seq<seq<RR>>, ghost orders: seq<seq<RRType>>)
    requires Rep(n, h, t) && Elems(t) <= ix.Values && Indexed(ix, c)
    ensures ListsNames(chunks, NamesOf(All(t)), orders, c)
    decreases t
  {
    if n == null {
      return [], [];
    }
    var e, l, r := n.elem, n.left, n.right;
    RecordsOfElem(e, ix, c);
    assert allocated(Nodes(h.r)) && allocated(ix.Values);
    var cl, list, cr;
    ghost var ol, order, or;
    cl, ol := WalkChunks(l, h.l, t.left, ix, c);
    assert Rep(r, h.r, t.right);
    list, order := ListElem(e.m);
    assert Rep(r, h.r, t.right);
    cr, or := WalkChunks(r, h.r, t.right, ix, c);
    chunks, orders := cl + [list] + cr, ol + [order] + or;
    ListsJoin(t, cl, ol, list, order, cr, or, c);
  }

  /** The switch of `Insert`: where the record goes. */
  method Switch(origin: Name, r: RR) returns (p: Place)
    ensures p == PlaceOf(origin, r)
  {
    var h := r.Type();
    if h == TYPE_NS {
      if r.owner == origin {
        return AtNs;
      }
    } else if h == TYPE_SOA {
      return AtSoa;
    } else if h == TYPE_NSEC3 || h == TYPE_NSEC3PARAM {
      return Rejected;
    } else if h == TYPE_RRSIG {
      if r.data.covered == TYPE_SOA {
        return AtSigSoa;
      } else if r.data.covered == TYPE_NS && r.owner == origin {
        return AtSigNs;
      }
    }
    return InTree;
  }

  predicate HasSerial(r: RR, serial: nat) {
    r.data.SOA? && r.data.serial == serial
  }

  /** `file.Zone`, as far as records go. */
  class LiveZone {
    const origin: Name
    var tree: Tree
    var apex: Apex

    ghost predicate Valid()
      reads this, tree, Nodes(tree.view.shape), tree.view.ix.Values
    {
      tree.Valid()
    }

    ghost function Value(): Zone
      reads this, tree
    {
      Zone(origin, apex, tree.Contents())
    }

    /** `CopyWithoutApex`, and `NewZone` */
    constructor (origin: Name)
      ensures Valid() && Value() == Zone(origin, EMPTY_APEX, map[])
      ensures fresh(tree) && tree.view == View(E, Nil, map[], map[])
    {
      this.origin := origin;
      tree := new Tree();
      apex := EMPTY_APEX;
    }

    method SetApex(a: Apex)
      requires Valid()
      modifies this`apex
      ensures Valid() && Value() == old(Value()).(apex := a)
    {
      apex := a;
    }

    method InsertInTree(r: RR)
      requires Valid()
      modifies tree, Nodes(tree.view.shape), tree.view.ix.Values
      ensures Valid() && Value() == old(Value()).(contents := AddTo(old(Value()).contents, r))
      ensures forall x :: x in Nodes(tree.view.shape) ==> x in old(Nodes(tree.view.shape)) || fresh(x)
      ensures forall x :: x in tree.view.ix.Values ==> x in old(tree.view.ix.Values) || fresh(x)
    {
      tree.Insert(r);
    }

    /** Puts a lower-cased record in its place. */
    method Put(r: RR, p: Place)
      requires Valid() && p == PlaceOf(origin, r)
      modifies this`apex, tree, Nodes(tree.view.shape), tree.view.ix.Values
      ensures Valid() && Value() == Placed(old(Value()), p, r)
      ensures forall x :: x in Nodes(tree.view.shape) ==> x in old(Nodes(tree.view.shape)) || fresh(x)
      ensures forall x :: x in tree.view.ix.Values ==> x in old(tree.view.ix.Values) || fresh(x)
    {
      if p == InTree {
        InsertInTree(r);
      } else {
        SetApex(ApexWith(apex, p, r));
      }
    }

    /** Sorts a record into the apex or the tree. */
    method Insert(r0: RR) returns (ok: bool)
      requires Valid()
      modifies this`apex, tree, Nodes(tree.view.shape), tree.view.ix.Values
      ensures Valid() && ok == InsertRR(old(Value()), r0).Some?
      ensures Value() == if ok then InsertRR(old(Value()), r0).value else old(Value())
      ensures forall x :: x in Nodes(tree.view.shape) ==> x in old(Nodes(tree.view.shape)) || fresh(x)
      ensures forall x :: x in tree.view.ix.Values ==> x in old(tree.view.ix.Values) || fresh(x)
    {
      var r := Lowered(r0);
      assert allocated(Nodes(tree.view.shape)) && allocated(tree.view.ix.Values);
      var p := Switch(origin, r);
      InsertPlaces(Value(), r0);
      assert Valid();
      Put(r, p);
      ok := p != Rejected;
    }

    /** The chunks sent for a request with `serial`; `None` without a SOA. A serial other than
        zero that matches the SOA gets the SOA alone. */
    method Transfer(serial: nat) returns (ch: Option<seq<seq<RR>>>, ghost chunks: seq<seq<RR>>, ghost orders: seq<seq<RRType>>)
      requires Valid()
      ensures ch.None? <==> apex.soa.None?
      ensures ch.Some? && serial != 0 && apex.soa.value.data.SOA? && apex.soa.value.data.serial == serial ==> ch.value == [[apex.soa.value]]
      ensures ch.Some? && !(serial != 0 && apex.soa.value.data.SOA? && apex.soa.value.data.serial == serial) ==>
                ch.value == Stream(apex, chunks) && ListsNames(chunks, NamesOf(All(tree.view.model)), orders, tree.Contents())
    {
      ch, chunks, orders := None, [], [];
      if apex.soa.Some? {
        var soa := apex.soa.value;
        if serial != 0 && HasSerial(soa, serial) {
          ch := Some([[soa]]);
        } else {
          var cs;
          cs, orders := WalkChunks(tree.root, tree.view.shape, tree.view.model, tree.view.ix, tree.view.contents);
          chunks := cs;
          ch := Some(Stream(apex, cs));
        }
      }
    }

    /** Inserts records until one is rejected. */
    method Load(rs: seq<RR>) returns (ok: bool)
      requires Valid()
      modifies this`apex, tree, Nodes(tree.view.shape), tree.view.ix.Values
      ensures Valid() && ok == InsertRRs(old(Value()), rs).Some?
      ensures ok ==> Value() == InsertRRs(old(Value()), rs).value
      ensures forall x :: x in Nodes(tree.view.shape) ==> x in old(Nodes(tree.view.shape)) || fresh(x)
      ensures forall x :: x in tree.view.ix.Values ==> x in old(tree.view.ix.Values) || fresh(x)
    {
      ok := true;
      for i := 0 to |rs|
        invariant Valid() && ok && InsertRRs(old(Value()), rs) == InsertRRs(Value(), rs[i..])
        invariant forall x :: x in Nodes(tree.view.shape) ==> x in old(Nodes(tree.view.shape)) || fresh(x)
        invariant forall x :: x in tree.view.ix.Values ==> x in old(tree.view.ix.Values) || fresh(x)
      {
        assert rs[i..][0] == rs[i] && rs[i..][1..] == rs[i + 1..];
        ok := Insert(rs[i]);
        if !ok {
          return;
        }
      }
      assert rs[|rs|..] == [];
    }

    /** `TransferIn` from one primary: the new zone goes live only when every envelope arrived
        and every record was accepted. */
    method TransferIn(envs: seq<Envelope>) returns (ok: bool)
      requires Valid()
      modifies this
      ensures Valid() && ok == Receive(Zone(origin, EMPTY_APEX, map[]), envs).Some?
      ensures Value() == if ok then Receive(Zone(origin, EMPTY_APEX, map[]), envs).value else old(Value())
    {
      assert allocated(Nodes(tree.view.shape)) && allocated(tree.view.ix.Values);
      var z1;
      z1, ok := Fetch(origin, envs);
      if ok {
        Adopt(z1);
      }
    }

    method Adopt(z1: LiveZone)
      requires z1.Valid() && z1.origin == origin && z1 != this
      modifies this
      ensures Valid() && Value() == old(z1.Value())
    {
      tree := z1.tree;
      apex := z1.apex;
    }
  }

  /** A message of a transfer, or the failure to read it. */
  datatype Envelope = Records(rrs: seq<RR>) | Broken

  /** The envelopes inserted one after the other. */
  function Receive(z: Zone, envs: seq<Envelope>): Option<Zone>
    decreases envs
  {
    if envs == [] then Some(z)
    else match envs[0]
      case Broken => None
      case Records(rrs) =>
        match InsertRRs(z, rrs)
        case None => None
        case Some(z') => Receive(z', envs[1..])
  }

  method FillFrom(z: LiveZone, envs: seq<Envelope>) returns (ok: bool)
    requires z.Valid()
    modifies z`apex, z.tree, Nodes(z.tree.view.shape), z.tree.view.ix.Values
    ensures z.Valid() && ok == Receive(old(z.Value()), envs).Some?
    ensures ok ==> z.Value() == Receive(old(z.Value()), envs).value
  {
    ok := true;
    for i := 0 to |envs|
      invariant z.Valid() && ok && Receive(old(z.Value()), envs) == Receive(z.Value(), envs[i..])
      invariant forall x :: x in Nodes(z.tree.view.shape) ==> x in old(Nodes(z.tree.view.shape)) || fresh(x)
      invariant forall x :: x in z.tree.view.ix.Values ==> x in old(z.tree.view.ix.Values) || fresh(x)
    {
      assert envs[i..][0] == envs[i] && envs[i..][1..] == envs[i + 1..];
      if envs[i].Broken? {
        return false;
      }
      ok := z.Load(envs[i].rrs);
      if !ok {
        return;
      }
    }
    assert envs[|envs|..] == [];
  }

  method Fetch(origin: Name, envs: seq<Envelope>) returns (z: LiveZone, ok: bool)
    ensures fresh(z) && z.Valid() && z.origin == origin && ok == Receive(Zone(origin, EMPTY_APEX, map[]), envs).Some?
    ensures ok ==> z.Value() == Receive(Zone(origin, EMPTY_APEX, map[]), envs).value
  {
    z := new LiveZone(origin);
    ok := FillFrom(z, envs);
  }

  // ----- batching

  /** The stream begins with a SOA and ends with the same one (section 2.2 of RFC 5936). */
  ghost predicate Framed(pchan: seq<seq<RR>>) {
    && pchan != [] && pchan[0] != [] && pchan[|pchan| - 1] != []
    && pchan[0][0].data.SOA?
    && var last := pchan[|pchan| - 1]; last[|last| - 1] == pchan[0][0]
  }

  /** What waits to be sent after the first `n` chunks. */
  function Waiting(pchan: seq<seq<RR>>, n: nat): seq<RR>
    requires n <= |pchan|
  {
    if n == 0 then []
    else
      var rrs := Waiting(pchan, n - 1) + pchan[n - 1];
      if |rrs| > 500 then [] else rrs
  }

  /** The first SOA that begins one of the first `n` chunks. */
  function FirstSoa(pchan: seq<seq<RR>>, n: nat): Option<RR>
    requires n <= |pchan| && forall i :: 0 <= i < |pchan| ==> pchan[i] != []
  {
    if n == 0 then None
    else if FirstSoa(pchan, n - 1).Some? then FirstSoa(pchan, n - 1)
    else if pchan[n - 1][0].data.SOA? then Some(pchan[n - 1][0])
    else None
  }

  /** No chunk has more than `l` records. */
  ghost predicate Longest<T>(chunks: seq<seq<T>>, l: nat) {
    forall i :: 0 <= i < |chunks| ==> |chunks[i]| <= l
  }

  /** One record is left over, a SOA was seen, and the two differ. */
  predicate Swaps(pchan: seq<seq<RR>>)
    requires forall i :: 0 <= i < |pchan| ==> pchan[i] != []
  {
    var rrs, soa := Waiting(pchan, |pchan|), FirstSoa(pchan, |pchan|);
    |rrs| == 1 && soa.Some? && rrs[0] != soa.value
  }

  /** The loop of `transfer.ServeDNS`: chunks are gathered into messages of more than 500
      records; a single record left over is answered with the SOA seen first. The records are
      those of the stream exactly when this does not swap one for another. */
  method Batch(pchan: seq<seq<RR>>) returns (messages: seq<seq<RR>>)
    requires forall i :: 0 <= i < |pchan| ==> pchan[i] != []
    ensures Flatten(messages) == Flatten(pchan) <==> !Swaps(pchan)
    ensures |Flatten(messages)| == |Flatten(pchan)|
    ensures forall i :: 0 <= i < |messages| - 1 ==> |messages[i]| > 500
    ensures forall l: nat :: Longest(pchan, l) ==> Longest(messages, 500 + l)
  {
    messages := [];
    var rrs := [];
    var soa := None;
    for i := 0 to |pchan|
      invariant Gathered(messages, rrs, pchan[..i])
      invariant rrs == Waiting(pchan, i) && soa == FirstSoa(pchan, i)
      invariant forall j :: 0 <= j < |messages| ==> |messages[j]| > 500
      invariant |rrs| <= 500 && forall l: nat :: Longest(pchan, l) ==> Longest(messages, 500 + l)
    {
      var records := pchan[i];
      if records[0].data.SOA? && soa.None? {
        soa := Some(records[0]);
      }
      GatherMore(messages, rrs, pchan, i);
      rrs := rrs + records;
      if |rrs| > 500 {
        GatherFlush(messages, rrs, pchan[..i + 1]);
        messages := messages + [rrs];
        rrs := [];
      }
    }
    assert pchan[..|pchan|] == pchan;
    GatherFlush(messages, rrs, pchan);
    if |rrs| == 1 && soa.Some? {
      LastSwapped(messages, rrs, pchan, soa.value);
      messages := messages + [[soa.value]];
      return;
    }
    if |rrs| > 0 {
      messages := messages + [rrs];
    }
  }

  /** A chunk of more than 500 records that begins with a SOA, and then one other record: that
      record is swapped for the SOA. */
  lemma {:induction false} LoneRecordSwapped(first: seq<RR>, r: RR)
    requires |first| > 500 && first[0].data.SOA? && r != first[0]
    ensures Swaps([first, [r]])
  {
    var pchan := [first, [r]];
    assert Waiting(pchan, 1) == [] && FirstSoa(pchan, 1) == Some(first[0]);
    assert Waiting(pchan, 2) == [r] && FirstSoa(pchan, 2) == Some(first[0]);
  }

  lemma LastSwapped<T>(messages: seq<seq<T>>, rrs: seq<T>, chunks: seq<seq<T>>, x: T)
    requires Gathered(messages, rrs, chunks) && |rrs| == 1
    ensures Flatten(messages + [[x]]) == Flatten(chunks) <==> x == rrs[0]
    ensures |Flatten(messages + [[x]])| == |Flatten(chunks)|
  {
    FlattenSnoc(messages, [x]);
    var n := |Flatten(messages)|;
    assert Flatten(chunks)[n] == rrs[0] && Flatten(messages + [[x]])[n] == x;
  }

  /** A framed stream is sent as it is. */
  lemma {:induction false} FramedIsKept(pchan: seq<seq<RR>>)
    requires (forall i :: 0 <= i < |pchan| ==> pchan[i] != []) && Framed(pchan)
    ensures !Swaps(pchan)
  {
    var n := |pchan|;
    SoaIsFirst(pchan, n);
    var last := pchan[n - 1];
    var rrs := Waiting(pchan, n - 1) + last;
    assert rrs[|rrs| - 1] == last[|last| - 1];
  }

  lemma {:induction false} SoaIsFirst(pchan: seq<seq<RR>>, n: nat)
    requires (forall i :: 0 <= i < |pchan| ==> pchan[i] != []) && 0 < n <= |pchan| && pchan[0][0].data.SOA?
    ensures FirstSoa(pchan, n) == Some(pchan[0][0])
  {
    if n > 1 {
      SoaIsFirst(pchan, n - 1);
    }
  }

  /** The messages and what is waiting are the records so far. */
  ghost predicate Gathered<T>(messages: seq<seq<T>>, rrs: seq<T>, chunks: seq<seq<T>>) {
    Flatten(messages) + rrs == Flatten(chunks)
  }

  lemma GatherMore<T>(messages: seq<seq<T>>, rrs: seq<T>, chunks: seq<seq<T>>, i: nat)
    requires i < |chunks| && Gathered(messages, rrs, chunks[..i])
    ensures Gathered(messages, rrs + chunks[i], chunks[..i + 1])
  {
    FlattenSnoc(chunks[..i], chunks[i]);
    assert chunks[..i + 1] == chunks[..i] + [chunks[i]];
  }

  lemma GatherFlush<T>(messages: seq<seq<T>>, rrs: seq<T>, chunks: seq<seq<T>>)
    requires Gathered(messages, rrs, chunks)
    ensures Gathered(messages + [rrs], [], chunks)
    ensures rrs == [] ==> Flatten(messages) == Flatten(chunks)
  {
    FlattenSnoc(messages, rrs);
  }

  lemma FlattenSnoc<T>(ss: seq<seq<T>>, x: seq<T>)
    ensures Flatten(ss + [x]) == Flatten(ss) + x
  {
    assert (ss + [x])[..|ss|] == ss;
  }

  function Envelopes(messages: seq<seq<RR>>): seq<Envelope> {
    seq(|messages|, i requires 0 <= i < |messages| => Records(messages[i]))
  }

  /** How the records are cut into messages does not matter to the receiver. */
  lemma {:induction false} ReceiveFlat(z: Zone, messages: seq<seq<RR>>)
    ensures Receive(z, Envelopes(messages)) == InsertRRs(z, Flatten(messages))
    decreases messages
  {
    if messages != [] {
      var r := messages[1..];
      assert messages == [messages[0]] + r;
      FlattenConcat([messages[0]], r);
      assert [messages[0]][..0] == [] && Flatten([messages[0]]) == [] + messages[0];
      assert Flatten(messages) == messages[0] + Flatten(r);
      InsertRRsConcat(z, messages[0], Flatten(r));
      assert Envelopes(messages)[0] == Records(messages[0]) && Envelopes(messages)[1..] == Envelopes(r);
      if InsertRRs(z, messages[0]).Some? {
        ReceiveFlat(InsertRRs(z, messages[0]).value, r);
      }
    }
  }

  /** The records of all envelopes. */
  function Carried(envs: seq<Envelope>): seq<seq<RR>> {
    seq(|envs|, i requires 0 <= i < |envs| => if envs[i].Records? then envs[i].rrs else [])
  }

  lemma {:induction false} BrokenFails(z: Zone, envs: seq<Envelope>, i: nat)
    requires i < |envs| && envs[i].Broken?
    ensures Receive(z, envs).None?
    decreases envs
  {
    if i > 0 && envs[0].Records? && InsertRRs(z, envs[0].rrs).Some? {
      BrokenFails(InsertRRs(z, envs[0].rrs).value, envs[1..], i - 1);
    }
  }

  /** A zone is received exactly when no envelope is broken and all records can be inserted one after the other. */
  lemma {:induction false} ReceiveExactly(z: Zone, envs: seq<Envelope>)
    ensures Receive(z, envs) == if exists i :: 0 <= i < |envs| && envs[i].Broken? then None else InsertRRs(z, Flatten(Carried(envs)))
  {
    if i :| 0 <= i < |envs| && envs[i].Broken? {
      BrokenFails(z, envs, i);
    } else {
      assert Envelopes(Carried(envs)) == envs;
      ReceiveFlat(z, Carried(envs));
    }
  }

  lemma {:induction false} StreamFramed(z: Zone, chunks: seq<seq<RR>>, ks: seq<Name>, orders: seq<seq<RRType>>)
    requires WellFormed(z) && z.apex.soa.Some? && ListsNames(chunks, ks, orders, z.contents)
    ensures Framed(Stream(z.apex, chunks))
    ensures forall i :: 0 <= i < |Stream(z.apex, chunks)| ==> Stream(z.apex, chunks)[i] != []
  {
    var s := Stream(z.apex, chunks);
    assert PlaceOf(z.origin, [z.apex.soa.value][0]) == AtSoa;
    forall i | 0 <= i < |chunks|
      ensures chunks[i] != []
    {
      var m := z.contents[ks[i]];
      var t :| t in m;
      assert t in orders[i];
      ListingNonempty(m, orders[i], ks[i]);
    }
    assert forall i :: 0 < i < |s| - 1 ==> s[i] == chunks[i - 1];
  }

  lemma ListingNonempty(m: RRsets, order: seq<RRType>, k: Name)
    requires Proper(m, k) && order != [] && forall i :: 0 <= i < |order| ==> order[i] in m
    ensures Listing(m, order) != []
  {
    assert m[order[|order| - 1]] != [];
  }

  lemma {:induction false} NamesEnumerate<V>(s: Items<V>)
    requires Sorted(s)
    ensures Enumerates(NamesOf(s), Index(s).Keys)
  {
    ItemsByIndex(s);
    var ks := NamesOf(s);
    forall x | x in Index(s)
      ensures x in ks
    {
      var i :| 0 <= i < |s| && s[i].0 == x;
      assert ks[i] == x;
    }
    forall i, j | 0 <= i < j < |ks|
      ensures ks[i] != ks[j]
    {
      CompareFlip(ks[i], ks[j]);
      assert Lt(s[i].0, s[j].0);
    }
  }

  /** A whole transfer: what the primary streams, batched on the way, makes the secondary equal to it. */
  method TransferZone(primary: LiveZone, secondary: LiveZone)
    requires primary.Valid() && secondary.Valid() && primary != secondary && primary.origin == secondary.origin
    requires WellFormed(primary.Value()) && primary.apex.soa.Some?
    modifies secondary
    ensures secondary.Valid() && secondary.Value() == old(primary.Value())
  {
    ghost var z, z0 := primary.Value(), Zone(primary.origin, EMPTY_APEX, map[]);
    ghost var ks := NamesOf(All(primary.tree.view.model));
    NamesEnumerate(All(primary.tree.view.model));
    assert allocated(Nodes(secondary.tree.view.shape)) && allocated(secondary.tree.view.ix.Values);
    var ch;
    ghost var chunks, orders;
    ch, chunks, orders := primary.Transfer(0);
    StreamFramed(z, chunks, ks, orders);
    RoundTrip(z, chunks, ks, orders);
    FramedIsKept(ch.value);
    var messages := Batch(ch.value);
    ReceiveFlat(z0, messages);
    var ok := secondary.TransferIn(Envelopes(messages));
  }
}

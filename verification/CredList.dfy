/**
 PublicKeyCredentialDescriptor lists: parsed once with the whole request, then
 walked again from the sub-buffer that was kept.
 */
module CredList {
  import opened Values
  import opened BigEndian
  import opened Cbor
  import opened CborLaws

  const UNEXPECTED_TYPE: nat := 0x11
  const INVALID_CBOR: nat := 0x12

  const ID_KEY: seq<byte> := [0x69, 0x64]                       // "id"
  const TYPE_KEY: seq<byte> := [0x74, 0x79, 0x70, 0x65]         // "type"
  const PUBLIC_KEY: seq<byte> := [0x70, 0x75, 0x62, 0x6C, 0x69, 0x63, 0x2D, 0x6B, 0x65, 0x79]

  datatype Parsed<+T> = Got(value: T, next: nat) | Bad(status: nat)

  datatype Descriptor = Descriptor(gotId: bool, id: seq<byte>, gotType: bool, publicKey: bool)

  // ----- what the bytes say -----

  function Major(b: seq<byte>, pos: nat): int
    requires pos <= |b|
  {
    if pos == |b| then -1 else b[pos] as nat / 32
  }

  function HeadOf(b: seq<byte>, pos: nat, mt: nat): (r: Parsed<nat>)
    requires pos <= |b|
    ensures r.Got? ==> pos < r.next <= |b|
    ensures r.Bad? ==> r.status in {UNEXPECTED_TYPE, INVALID_CBOR}
  {
    var h := ReadHead(b, pos);
    if Major(b, pos) != mt then Bad(UNEXPECTED_TYPE)
    else if h == None || h.value.mt != mt then Bad(INVALID_CBOR)
    else Got(h.value.v, h.value.next)
  }

  function RunOf(b: seq<byte>, pos: nat, mt: nat): (r: Parsed<seq<byte>>)
    requires pos <= |b|
    ensures r.Got? ==> pos < r.next <= |b|
    ensures r.Bad? ==> r.status in {UNEXPECTED_TYPE, INVALID_CBOR}
  {
    var h := HeadOf(b, pos, mt);
    if h.Bad? then Bad(h.status)
    else if h.value > |b| - h.next then Bad(INVALID_CBOR)
    else Got(b[h.next..h.next + h.value], h.next + h.value)
  }

  /** `m` entries of a descriptor; a repeated key counts with its last value. */
  function Entries(b: seq<byte>, pos: nat, m: nat, d: Descriptor): (r: Parsed<Descriptor>)
    requires pos <= |b|
    ensures r.Got? ==> pos <= r.next <= |b|
    ensures r.Bad? ==> r.status in {UNEXPECTED_TYPE, INVALID_CBOR}
    decreases m
  {
    if m == 0 then Got(d, pos)
    else
      var k := RunOf(b, pos, MT_TEXT);
      if k.Bad? then Bad(k.status)
      else if k.value == ID_KEY then
        var v := RunOf(b, k.next, MT_BYTES);
        if v.Bad? then Bad(v.status) else Entries(b, v.next, m - 1, d.(gotId := true, id := v.value))
      else if k.value == TYPE_KEY then
        var v := RunOf(b, k.next, MT_TEXT);
        if v.Bad? then Bad(v.status)
          else Entries(b, v.next, m - 1, d.(gotType := true, publicKey := v.value == PUBLIC_KEY))
      else
        var v := Skip(b, k.next, 0);
        if v == None then Bad(INVALID_CBOR) else Entries(b, v.value, m - 1, d)
  }

  function DescriptorAt(b: seq<byte>, pos: nat): (r: Parsed<Descriptor>)
    requires pos <= |b|
    ensures r.Got? ==> pos < r.next <= |b|
    ensures r.Bad? ==> r.status in {UNEXPECTED_TYPE, INVALID_CBOR}
  {
    var h := HeadOf(b, pos, MT_MAP);
    if h.Bad? then Bad(h.status)
    else
      var d := Entries(b, h.next, h.value, Descriptor(false, [], false, false));
      if d.Bad? || (d.value.gotId && d.value.gotType) then d else Bad(UNEXPECTED_TYPE)
  }

  function DescriptorsAt(b: seq<byte>, pos: nat, n: nat): (r: Parsed<seq<Descriptor>>)
    requires pos <= |b|
    ensures r.Got? ==> pos <= r.next <= |b| && |r.value| == n
    ensures r.Bad? ==> r.status in {UNEXPECTED_TYPE, INVALID_CBOR}
    decreases n
  {
    if n == 0 then Got([], pos)
    else
      var d := DescriptorAt(b, pos);
      if d.Bad? then Bad(d.status)
      else
        var ds := DescriptorsAt(b, d.next, n - 1);
        if ds.Bad? then ds else Got([d.value] + ds.value, ds.next)
  }

  function ListAt(b: seq<byte>, pos: nat): (r: Parsed<seq<Descriptor>>)
    requires pos <= |b|
    ensures r.Got? ==> pos < r.next <= |b|
    ensures r.Bad? ==> r.status in {UNEXPECTED_TYPE, INVALID_CBOR}
  {
    var h := HeadOf(b, pos, MT_ARRAY);
    if h.Bad? then Bad(h.status) else DescriptorsAt(b, h.next, h.value)
  }

  /** Ids of the "public-key" descriptors, in order. */
  function PublicIds(ds: seq<Descriptor>): seq<seq<byte>> {
    if ds == [] then []
    else (if ds[0].publicKey then [ds[0].id] else []) + PublicIds(ds[1..])
  }

  // ----- what a descriptor means, as a tree -----

  function KeyAt(es: seq<Item>, i: nat): Item
    requires 2 * i < |es|
  {
    es[2 * i]
  }

  function ValueAt(es: seq<Item>, i: nat): Item
    requires 2 * i + 1 < |es|
  {
    es[2 * i + 1]
  }

  /** The value under `key` that comes last. */
  function LastValue(es: seq<Item>, key: seq<byte>): Option<Item> {
    var n := |es|;
    if n < 2 then None
    else if es[n - 2] == Text(key) then Some(es[n - 1])
    else LastValue(es[..n - 2], key)
  }

  /** "id" is bytes and "type" is text, whenever they occur; any other value is within the skip limit. */
  ghost predicate Fits(key: Item, value: Item) {
    && key.Text?
    && (if key.text == ID_KEY then value.Bytes?
        else if key.text == TYPE_KEY then value.Text?
        else Level(value) <= CBOR_SKIP_MAX_DEPTH)
  }

  ghost predicate AllFit(es: seq<Item>) {
    |es| % 2 == 0 && forall i :: 0 <= i && 2 * i + 1 < |es| ==> Fits(KeyAt(es, i), ValueAt(es, i))
  }

  ghost predicate IsDescriptor(t: Item) {
    t.Map? && AllFit(t.entries) && LastValue(t.entries, ID_KEY).Some? && LastValue(t.entries, TYPE_KEY).Some?
  }

  predicate IsPublic(t: Item)
    requires t.Map?
  {
    LastValue(t.entries, TYPE_KEY) == Some(Text(PUBLIC_KEY))
  }

  function IdIn(t: Item): seq<byte>
    requires t.Map?
  {
    var v := LastValue(t.entries, ID_KEY);
    if v.Some? && v.value.Bytes? then v.value.bytes else []
  }

  ghost predicate AreDescriptors(ts: seq<Item>) { forall i :: 0 <= i < |ts| ==> IsDescriptor(ts[i]) }

  /** Ids of the public-key descriptors of a list, in order. */
  ghost function TreeIds(ts: seq<Item>): seq<seq<byte>>
    requires AreDescriptors(ts)
  {
    if ts == [] then [] else (if IsPublic(ts[0]) then [IdIn(ts[0])] else []) + TreeIds(ts[1..])
  }

  /** A list of descriptors at `pos`. */
  ghost predicate IsCredList(r: Option<(Item, nat)>) {
    r.Some? && r.value.0.Arr? && AreDescriptors(r.value.0.items)
  }

  /** The last value of all entries is that of the later ones, if they have one. */
  lemma {:induction false} LastOfFront(k: Item, v: Item, es: seq<Item>, n: nat, key: seq<byte>)
    requires |es| == 2 * n
    ensures LastValue([k, v] + es, key) ==
            if LastValue(es, key).Some? then LastValue(es, key) else if k == Text(key) then Some(v) else None
    decreases n
  {
    var all, end := [k, v] + es, |es|;
    if n == 0 {
      assert all[..0] == [];
    } else {
      assert all[end] == es[end - 2] && all[end + 1] == es[end - 1];
      assert all[..end] == [k, v] + es[..end - 2];
      LastOfFront(k, v, es[..end - 2], n - 1, key);
    }
  }

  lemma FitsFront(k: Item, v: Item, es: seq<Item>, n: nat)
    requires |es| == 2 * n
    ensures AllFit([k, v] + es) <==> Fits(k, v) && AllFit(es)
  {
    hide Fits;
    var all := [k, v] + es;
    assert forall i :: 0 <= i < n ==> KeyAt(es, i) == KeyAt(all, i + 1) && ValueAt(es, i) == ValueAt(all, i + 1);
    assert forall i :: 0 < i <= n ==> KeyAt(all, i) == KeyAt(es, i - 1) && ValueAt(all, i) == ValueAt(es, i - 1);
    assert KeyAt(all, 0) == k && ValueAt(all, 0) == v;
  }

  /** A string head and its bytes are exactly a string item. */
  lemma RunMeans(b: seq<byte>, pos: nat, mt: nat)
    requires pos <= |b| && mt in {MT_BYTES, MT_TEXT}
    ensures var r, t := RunOf(b, pos, mt), Decode(b, pos);
      && (r.Got? <==> t.Some? && (if mt == MT_BYTES then t.value.0.Bytes? else t.value.0.Text?))
      && (r.Got? ==> t.value == (if mt == MT_BYTES then Bytes(r.value) else Text(r.value), r.next))
      && (r.Bad? && t.Some? ==> r.status == UNEXPECTED_TYPE)
  {
  }

  lemma HeadMeans(b: seq<byte>, pos: nat, mt: nat)
    requires pos <= |b| && mt in {MT_ARRAY, MT_MAP}
    ensures var h, t := HeadOf(b, pos, mt), Decode(b, pos);
      && (t.Some? && (if mt == MT_ARRAY then t.value.0.Arr? else t.value.0.Map?) <==>
            h.Got? && DecodeAll(b, h.next, if mt == MT_MAP then 2 * h.value else h.value).Some?)
      && (h.Got? && t.Some? ==>
            var m := DecodeAll(b, h.next, if mt == MT_MAP then 2 * h.value else h.value).value;
            t.value == (if mt == MT_ARRAY then Arr(m.0) else Map(m.0), m.1))
      && (h.Bad? && t.Some? ==> h.status == UNEXPECTED_TYPE)
  {
  }

  /** What a run of items is after its first. */
  ghost function Onto(h: Option<(Item, nat)>, t: Option<(seq<Item>, nat)>): Option<(seq<Item>, nat)> {
    if h == None || t == None then None else Some(([h.value.0] + t.value.0, t.value.1))
  }

  lemma OntoTwice(k: (Item, nat), v: (Item, nat), t: Option<(seq<Item>, nat)>)
    ensures Onto(Some(k), Onto(Some(v), t)) == if t == None then None else Some(([k.0, v.0] + t.value.0, t.value.1))
  {
    if t.Some? { assert [k.0] + ([v.0] + t.value.0) == [k.0, v.0] + t.value.0; }
  }

  /** Two items more: a key and its value. */
  lemma TwoMore(b: seq<byte>, pos: nat, n: nat)
    requires pos <= |b| && n >= 2
    ensures Decode(b, pos) == None ==> DecodeAll(b, pos, n) == None
    ensures Decode(b, pos).Some? ==>
      var k := Decode(b, pos).value; var v := Decode(b, k.1);
      && (v == None ==> DecodeAll(b, pos, n) == None)
      && (v.Some? ==>
            var t := DecodeAll(b, v.value.1, n - 2);
            DecodeAll(b, pos, n) == if t == None then None else Some(([k.0, v.value.0] + t.value.0, t.value.1)))
  {
    hide Decode, DecodeAll;
    OneMore(b, pos, n);
    var k := Decode(b, pos);
    if k.Some? {
      OneMore(b, k.value.1, n - 1);
      var v := Decode(b, k.value.1);
      if v.Some? {
        OntoTwice(k.value, v.value, DecodeAll(b, v.value.1, n - 2));
        hide Onto;
      }
    }
  }

  lemma OneMore(b: seq<byte>, pos: nat, n: nat)
    requires pos <= |b| && n > 0
    ensures var h := Decode(b, pos);
      DecodeAll(b, pos, n) == if h == None then None else Onto(h, DecodeAll(b, h.value.1, n - 1))
  {
    hide Decode, ReadHead;
  }

  /** What was collected before the entries `es`, and what they add. */
  ghost predicate Collected(d: Descriptor, es: seq<Item>, all: Descriptor) {
    var i, t := LastValue(es, ID_KEY), LastValue(es, TYPE_KEY);
    && all.gotId == (d.gotId || i.Some?) && (if i.Some? then i.value == Bytes(all.id) else all.id == d.id)
    && all.gotType == (d.gotType || t.Some?)
    && all.publicKey == (if t.Some? then t.value == Text(PUBLIC_KEY) else d.publicKey)
  }

  /** `d` after one entry. */
  function After(d: Descriptor, k: Item, v: Item): Descriptor {
    if k == Text(ID_KEY) && v.Bytes? then d.(gotId := true, id := v.bytes)
    else if k == Text(TYPE_KEY) then d.(gotType := true, publicKey := v == Text(PUBLIC_KEY))
    else d
  }

  lemma CollectedFront(d: Descriptor, k: Item, v: Item, es: seq<Item>, n: nat, all: Descriptor)
    requires |es| == 2 * n && Fits(k, v) && Collected(After(d, k, v), es, all)
    ensures Collected(d, [k, v] + es, all)
  {
    LastOfFront(k, v, es, n, ID_KEY);
    LastOfFront(k, v, es, n, TYPE_KEY);
    hide LastValue;
  }

  lemma LevelFront(k: Item, v: Item, es: seq<Item>)
    ensures Level(v) <= LevelAll([k, v] + es) && LevelAll(es) <= LevelAll([k, v] + es)
  {
    var all := [k, v] + es;
    assert all[1..] == [v] + es && all[1..][1..] == es;
  }

  /** What `e` made of entries that decode to `r`. */
  ghost predicate Means(e: Parsed<Descriptor>, r: Option<(seq<Item>, nat)>, d: Descriptor) {
    && (e.Got? <==> r.Some? && AllFit(r.value.0))
    && (e.Got? ==> e.next == r.value.1 && Collected(d, r.value.0, e.value))
    && (e.Bad? && r.Some? && LevelAll(r.value.0) <= CBOR_SKIP_MAX_DEPTH ==> e.status == UNEXPECTED_TYPE)
  }

  lemma {:induction false} EntriesMean(b: seq<byte>, pos: nat, m: nat, d: Descriptor)
    requires pos <= |b|
    ensures Means(Entries(b, pos, m, d), DecodeAll(b, pos, 2 * m), d)
    decreases m
  {
    hide Decode, DecodeAll, Entries, Means, Fits, After;
    if m == 0 {
      NoEntries(b, pos, d);
    } else {
      TwoMore(b, pos, 2 * m);
      EntryMeans(b, pos, m, d);
      if Entries(b, pos, m, d).Bad? { NoEntry(Entries(b, pos, m, d), d); }
      var k := Decode(b, pos);
      if k.Some? {
        var v := Decode(b, k.value.1);
        if v.Some? {
          var more := After(d, k.value.0, v.value.0);
          EntriesMean(b, v.value.1, m - 1, more);
          assert 2 * m - 2 == 2 * (m - 1);
          var e, rest := Entries(b, v.value.1, m - 1, more), DecodeAll(b, v.value.1, 2 * m - 2);
          MeansFront(Entries(b, pos, m, d), e, rest, m - 1, d, k.value.0, v.value.0);
        }
      }
    }
  }

  lemma NoEntry(e: Parsed<Descriptor>, d: Descriptor)
    requires e.Bad?
    ensures Means(e, None, d)
  {
  }

  /** One entry in front of those that are understood. */
  lemma MeansFront(all: Parsed<Descriptor>, e: Parsed<Descriptor>, rest: Option<(seq<Item>, nat)>, n: nat,
          d: Descriptor, k: Item, v: Item)
    requires rest.Some? ==> |rest.value.0| == 2 * n
    requires Means(e, rest, After(d, k, v))
    requires if Fits(k, v) then all == e
             else all.Bad? && (Level(v) <= CBOR_SKIP_MAX_DEPTH ==> all.status == UNEXPECTED_TYPE)
    ensures Means(all, if rest == None then None else Some(([k, v] + rest.value.0, rest.value.1)), d)
  {
    hide AllFit, Collected, Fits, After, LevelAll, Level;
    if rest.Some? {
      FitsFront(k, v, rest.value.0, n);
      LevelFront(k, v, rest.value.0);
      if e.Got? && Fits(k, v) { CollectedFront(d, k, v, rest.value.0, n, e.value); }
    }
  }

  /** One entry: refused unless it fits, and collected if it does. */
  lemma EntryMeans(b: seq<byte>, pos: nat, m: nat, d: Descriptor)
    requires pos <= |b| && m > 0
    ensures var e, k := Entries(b, pos, m, d), Decode(b, pos);
      if k == None then e.Bad?
      else
        var v := Decode(b, k.value.1);
        if v == None then e.Bad? && (!k.value.0.Text? ==> e.status == UNEXPECTED_TYPE)
        else if Fits(k.value.0, v.value.0) then
          e == Entries(b, v.value.1, m - 1, After(d, k.value.0, v.value.0))
        else e.Bad? && (Level(v.value.0) <= CBOR_SKIP_MAX_DEPTH ==> e.status == UNEXPECTED_TYPE)
  {
    hide RunOf, Skip, Decode, ReadHead;
    RunMeans(b, pos, MT_TEXT);
    var k := Decode(b, pos);
    if k.Some? {
      RunMeans(b, k.value.1, MT_BYTES);
      RunMeans(b, k.value.1, MT_TEXT);
      SkipExact(b, k.value.1, 0);
    }
  }

  lemma NoEntries(b: seq<byte>, pos: nat, d: Descriptor)
    requires pos <= |b|
    ensures Means(Entries(b, pos, 0, d), DecodeAll(b, pos, 0), d)
  {
  }

  /** A descriptor is accepted if and only if it is one, as a tree. */
  lemma DescriptorMeans(b: seq<byte>, pos: nat)
    requires pos <= |b|
    ensures var d, r := DescriptorAt(b, pos), Decode(b, pos);
      && (d.Got? <==> r.Some? && IsDescriptor(r.value.0))
      && (d.Got? ==> d.next == r.value.1 && d.value.id == IdIn(r.value.0) && d.value.publicKey == IsPublic(r.value.0))
      && (d.Bad? && r.Some? && Level(r.value.0) <= CBOR_SKIP_MAX_DEPTH ==> d.status == UNEXPECTED_TYPE)
  {
    hide Decode, DecodeAll, HeadOf, Entries, AllFit;
    HeadMeans(b, pos, MT_MAP);
    var h := HeadOf(b, pos, MT_MAP);
    if h.Got? { EntriesMean(b, h.next, h.value, Descriptor(false, [], false, false)); }
  }

  lemma {:induction false} DescriptorsMean(b: seq<byte>, pos: nat, n: nat)
    requires pos <= |b|
    ensures var ds, r := DescriptorsAt(b, pos, n), DecodeAll(b, pos, n);
      && (ds.Got? <==> r.Some? && AreDescriptors(r.value.0))
      && (ds.Got? ==> ds.next == r.value.1 && PublicIds(ds.value) == TreeIds(r.value.0))
      && (ds.Bad? && r.Some? && LevelAll(r.value.0) <= CBOR_SKIP_MAX_DEPTH ==> ds.status == UNEXPECTED_TYPE)
    decreases n
  {
    hide Decode, DescriptorAt, AreDescriptors, TreeIds, IsDescriptor, IsPublic, IdIn, ReadHead;
    if n == 0 {
      AreNone();
    } else {
      DescriptorMeans(b, pos);
      var d := Decode(b, pos);
      if d.Some? {
        DescriptorsMean(b, d.value.1, n - 1);
        var rest := DecodeAll(b, d.value.1, n - 1);
        if rest.Some? { OneDescriptorMore(d.value.0, rest.value.0); }
      }
    }
  }

  lemma AreNone()
    ensures AreDescriptors([]) && TreeIds([]) == []
  {
  }

  lemma OneDescriptorMore(t: Item, ts: seq<Item>)
    ensures AreDescriptors([t] + ts) == (IsDescriptor(t) && AreDescriptors(ts))
    ensures AreDescriptors([t] + ts) ==> TreeIds([t] + ts) == (if IsPublic(t) then [IdIn(t)] else []) + TreeIds(ts)
  {
    hide IsDescriptor, IsPublic, IdIn;
    var all := [t] + ts;
    assert all[0] == t && all[1..] == ts;
    assert forall i :: 0 <= i < |ts| ==> ts[i] == all[i + 1];
    assert forall i :: 0 < i < |all| ==> all[i] == ts[i - 1];
  }

  /** A list is accepted if and only if it is a list of descriptors, and its ids are those of the tree. */
  lemma ListMeans(b: seq<byte>, pos: nat)
    requires pos <= |b|
    ensures var l, r := ListAt(b, pos), Decode(b, pos);
      && (l.Got? <==> IsCredList(r))
      && (l.Got? ==> l.next == r.value.1 && PublicIds(l.value) == TreeIds(r.value.0.items))
      && (l.Bad? && r.Some? && Level(r.value.0) <= CBOR_SKIP_MAX_DEPTH ==> l.status == UNEXPECTED_TYPE)
  {
    hide Decode, DecodeAll, HeadOf, DescriptorsAt, AreDescriptors, TreeIds;
    HeadMeans(b, pos, MT_ARRAY);
    var h := HeadOf(b, pos, MT_ARRAY);
    if h.Got? { DescriptorsMean(b, h.next, h.value); }
  }

  // ----- a result depends only on the bytes it consumed -----

  ghost predicate Cut(b: seq<byte>, c: seq<byte>, start: nat, end: nat) {
    start <= end <= |b| && c == b[start..end]
  }

  lemma SliceIsLocal(b: seq<byte>, c: seq<byte>, start: nat, end: nat, x: nat, y: nat)
    requires Cut(b, c, start, end) && start <= x <= y <= end
    ensures c[x - start..y - start] == b[x..y]
  {
    var d := b[x..y];
    forall k | 0 <= k < |d| ensures c[x - start..y - start][k] == d[k] {
      assert c[x - start + k] == b[x + k];
    }
  }

  lemma HeadIsLocal(b: seq<byte>, c: seq<byte>, start: nat, end: nat, pos: nat)
    requires Cut(b, c, start, end) && start <= pos <= end && ReadHead(b, pos).Some?
    requires ReadHead(b, pos).value.next <= end
    ensures var h := ReadHead(b, pos).value; ReadHead(c, pos - start) == Some(h.(next := h.next - start))
    ensures b[pos] == c[pos - start]
  {
    hide Num, Pow256;
    var at := pos - start;
    assert c[at] == b[pos];
    SliceIsLocal(b, c, start, end, pos + 1, ReadHead(b, pos).value.next);
  }

  lemma {:induction false} SkipIsLocal(b: seq<byte>, c: seq<byte>, start: nat, end: nat, pos: nat, depth: nat)
    requires Cut(b, c, start, end) && start <= pos <= end && Skip(b, pos, depth).Some?
    requires Skip(b, pos, depth).value <= end
    ensures Skip(c, pos - start, depth) == Some(Skip(b, pos, depth).value - start)
    decreases |b| - pos, 0
  {
    hide ReadHead;
    var Head(mt, v, next) := ReadHead(b, pos).value;
    HeadIsLocal(b, c, start, end, pos);
    if mt in {MT_ARRAY, MT_MAP} {
      SkipAllIsLocal(b, c, start, end, next, depth + 1, if mt == MT_MAP then 2 * v else v);
    }
  }

  lemma {:induction false} SkipAllIsLocal(b: seq<byte>, c: seq<byte>, start: nat, end: nat, pos: nat, depth: nat,
          n: nat)
    requires Cut(b, c, start, end) && start <= pos <= end && SkipAll(b, pos, depth, n).Some?
    requires SkipAll(b, pos, depth, n).value <= end
    ensures SkipAll(c, pos - start, depth, n) == Some(SkipAll(b, pos, depth, n).value - start)
    decreases |b| - pos, 1
  {
    if n > 0 {
      var p := Skip(b, pos, depth).value;
      SkipIsLocal(b, c, start, end, pos, depth);
      SkipAllIsLocal(b, c, start, end, p, depth, n - 1);
    }
  }

  lemma HeadOfIsLocal(b: seq<byte>, c: seq<byte>, start: nat, end: nat, pos: nat, mt: nat)
    requires Cut(b, c, start, end) && start <= pos <= end && HeadOf(b, pos, mt).Got? && HeadOf(b, pos, mt).next <= end
    ensures HeadOf(c, pos - start, mt) == Got(HeadOf(b, pos, mt).value, HeadOf(b, pos, mt).next - start)
  {
    hide ReadHead;
    HeadIsLocal(b, c, start, end, pos);
  }

  lemma RunIsLocal(b: seq<byte>, c: seq<byte>, start: nat, end: nat, pos: nat, mt: nat)
    requires Cut(b, c, start, end) && start <= pos <= end && RunOf(b, pos, mt).Got? && RunOf(b, pos, mt).next <= end
    ensures RunOf(c, pos - start, mt) == Got(RunOf(b, pos, mt).value, RunOf(b, pos, mt).next - start)
  {
    hide HeadOf;
    HeadOfIsLocal(b, c, start, end, pos, mt);
    SliceIsLocal(b, c, start, end, HeadOf(b, pos, mt).next, RunOf(b, pos, mt).next);
  }

  lemma {:induction false} EntriesAreLocal(b: seq<byte>, c: seq<byte>, start: nat, end: nat, pos: nat, m: nat,
          d: Descriptor)
    requires Cut(b, c, start, end) && start <= pos <= end && Entries(b, pos, m, d).Got?
    requires Entries(b, pos, m, d).next <= end
    ensures Entries(c, pos - start, m, d) == Got(Entries(b, pos, m, d).value, Entries(b, pos, m, d).next - start)
    decreases m
  {
    hide RunOf, Skip;
    if m > 0 {
      var k := RunOf(b, pos, MT_TEXT);
      if k.value == ID_KEY {
        var v := RunOf(b, k.next, MT_BYTES);
        EntriesAreLocal(b, c, start, end, v.next, m - 1, d.(gotId := true, id := v.value));
        RunIsLocal(b, c, start, end, k.next, MT_BYTES);
      } else if k.value == TYPE_KEY {
        var v := RunOf(b, k.next, MT_TEXT);
        EntriesAreLocal(b, c, start, end, v.next, m - 1, d.(gotType := true, publicKey := v.value == PUBLIC_KEY));
        RunIsLocal(b, c, start, end, k.next, MT_TEXT);
      } else {
        EntriesAreLocal(b, c, start, end, Skip(b, k.next, 0).value, m - 1, d);
        SkipIsLocal(b, c, start, end, k.next, 0);
      }
      RunIsLocal(b, c, start, end, pos, MT_TEXT);
    }
  }

  lemma DescriptorIsLocal(b: seq<byte>, c: seq<byte>, start: nat, end: nat, pos: nat)
    requires Cut(b, c, start, end) && start <= pos <= end && DescriptorAt(b, pos).Got?
    requires DescriptorAt(b, pos).next <= end
    ensures DescriptorAt(c, pos - start) == Got(DescriptorAt(b, pos).value, DescriptorAt(b, pos).next - start)
  {
    hide HeadOf, Entries;
    var h := HeadOf(b, pos, MT_MAP);
    EntriesAreLocal(b, c, start, end, h.next, h.value, Descriptor(false, [], false, false));
    HeadOfIsLocal(b, c, start, end, pos, MT_MAP);
  }

  lemma {:induction false} DescriptorsAreLocal(b: seq<byte>, c: seq<byte>, start: nat, end: nat, pos: nat, n: nat)
    requires Cut(b, c, start, end) && start <= pos <= end && DescriptorsAt(b, pos, n).Got?
    requires DescriptorsAt(b, pos, n).next <= end
    ensures DescriptorsAt(c, pos - start, n) == Got(DescriptorsAt(b, pos, n).value,
              DescriptorsAt(b, pos, n).next - start)
    decreases n
  {
    hide DescriptorAt;
    if n > 0 {
      DescriptorsAreLocal(b, c, start, end, DescriptorAt(b, pos).next, n - 1);
      DescriptorIsLocal(b, c, start, end, pos);
    }
  }

  /** Parsing just the bytes an accepted list consumed gives the same list, to the last byte. */
  lemma ListReplays(b: seq<byte>, pos: nat)
    requires pos <= |b| && ListAt(b, pos).Got?
    ensures var l := ListAt(b, pos); ListAt(b[pos..l.next], 0) == Got(l.value, l.next - pos)
  {
    hide HeadOf, DescriptorsAt;
    var l, h := ListAt(b, pos), HeadOf(b, pos, MT_ARRAY);
    HeadOfIsLocal(b, b[pos..l.next], pos, l.next, pos, MT_ARRAY);
    DescriptorsAreLocal(b, b[pos..l.next], pos, l.next, h.next, h.value);
  }

  // ----- the parser -----

  method ReadRun(r: Reader, mt: nat) returns (rc: nat, s: seq<byte>)
    requires r.Valid() && !r.err
    modifies r
    ensures r.Valid()
    ensures var p := RunOf(r.buf, old(r.pos), mt);
      if p.Got? then rc == 0 && !r.err && s == p.value && r.pos == p.next else rc == p.status
  {
    s := [];
    if r.PeekMajor() != mt { return UNEXPECTED_TYPE, s; }
    var ok;
    ok, s := r.Run(mt);
    rc := if ok then 0 else INVALID_CBOR;
  }

  method ReadHeader(r: Reader, mt: nat) returns (rc: nat, n: nat)
    requires r.Valid() && !r.err
    modifies r
    ensures r.Valid()
    ensures var p := HeadOf(r.buf, old(r.pos), mt);
      if p.Got? then rc == 0 && !r.err && n == p.value && r.pos == p.next else rc == p.status
  {
    n := 0;
    if r.PeekMajor() != mt { return UNEXPECTED_TYPE, n; }
    var ok;
    ok, n := r.Typed(mt);
    rc := if ok then 0 else INVALID_CBOR;
  }

  method ReadDescriptor(r: Reader) returns (rc: nat, id: seq<byte>, publicKey: bool)
    requires r.Valid() && !r.err
    modifies r
    ensures r.Valid()
    ensures var p := DescriptorAt(r.buf, old(r.pos));
      if p.Got? then rc == 0 && !r.err && id == p.value.id && publicKey == p.value.publicKey && r.pos == p.next
        else rc == p.status != 0
    // As a tree: a map with text keys, bytes for "id" and text for "type", the last of each counting.
    ensures var t := Decode(r.buf, old(r.pos));
      && (rc == 0 <==> t.Some? && IsDescriptor(t.value.0))
      && (rc == 0 ==> id == IdIn(t.value.0) && publicKey == IsPublic(t.value.0) && r.pos == t.value.1)
      && (rc != 0 && t.Some? && Level(t.value.0) <= CBOR_SKIP_MAX_DEPTH ==> rc == UNEXPECTED_TYPE)
  {
    hide HeadOf, RunOf, Skip, Decode, IsDescriptor, IdIn, IsPublic;
    DescriptorMeans(r.buf, r.pos);
    id, publicKey := [], false;
    var m;
    rc, m := ReadHeader(r, MT_MAP);
    if rc != 0 { return; }
    var gotId, gotType := false, false;
    ghost var all := Entries(r.buf, r.pos, m, Descriptor(false, [], false, false));
    for j := 0 to m
      invariant r.Valid() && !r.err && rc == 0
      invariant all == Entries(r.buf, r.pos, m - j, Descriptor(gotId, id, gotType, publicKey))
    {
      var k;
      rc, k := ReadRun(r, MT_TEXT);
      if rc != 0 { return; }
      if k == ID_KEY {
        rc, id := ReadRun(r, MT_BYTES);
        if rc != 0 { return; }
        gotId := true;
      } else if k == TYPE_KEY {
        var t;
        rc, t := ReadRun(r, MT_TEXT);
        if rc != 0 { return; }
        publicKey := t == PUBLIC_KEY;
        gotType := true;
      } else {
        var ok := r.SkipItem(0);
        if !ok { rc := INVALID_CBOR; return; }
      }
    }
    rc := if gotId && gotType then 0 else UNEXPECTED_TYPE;
  }

  /** Accepts a list and keeps the bytes it took. */
  method ReadCredList(r: Reader) returns (rc: nat, kept: seq<byte>)
    requires r.Valid() && !r.err
    modifies r
    ensures r.Valid()
    ensures var p := ListAt(r.buf, old(r.pos));
      if p.Got? then rc == 0 && !r.err && r.pos == p.next && kept == r.buf[old(r.pos)..p.next] else rc == p.status != 0
    // As a tree: an array of descriptors.
    ensures var t := Decode(r.buf, old(r.pos));
      && (rc == 0 <==> IsCredList(t)) && (rc == 0 ==> kept == r.buf[old(r.pos)..t.value.1])
      && (rc != 0 && t.Some? && Level(t.value.0) <= CBOR_SKIP_MAX_DEPTH ==> rc == UNEXPECTED_TYPE)
  {
    hide HeadOf, DescriptorAt, Decode, IsCredList, Level;
    ListMeans(r.buf, r.pos);
    kept := [];
    var start, n := r.pos, 0;
    rc, n := ReadHeader(r, MT_ARRAY);
    if rc != 0 { return; }
    ghost var from := r.pos;
    for i := 0 to n
      invariant from <= r.pos <= |r.buf| && !r.err && rc == 0
      invariant var a, b := DescriptorsAt(r.buf, from, n), DescriptorsAt(r.buf, r.pos, n - i);
        a.Got? == b.Got? && (if a.Got? then a.next == b.next else a.status == b.status)
    {
      var id, pk;
      rc, id, pk := ReadDescriptor(r);
      if rc != 0 { return; }
    }
    kept := r.buf[start..r.pos];
  }

  // ----- the second walk -----

  class Walk {
    const r: Reader
    var left: nat

    constructor (kept: seq<byte>)
      ensures fresh(r) && r.buf == kept && Valid()
      ensures ListAt(kept, 0).Got? ==> Sound() && Rest() == PublicIds(ListAt(kept, 0).value)
    {
      r := new Reader(kept);
      left := 0;
      new;
      var ok, n := r.Typed(MT_ARRAY);
      if ok { left := n; }
    }

    ghost predicate Valid() reads this, r { r.Valid() && (left > 0 ==> !r.err) }

    /** What is left parses. */
    ghost predicate Sound()
      requires Valid()
      reads this, r
    {
      DescriptorsAt(r.buf, r.pos, left).Got?
    }

    ghost function Rest(): seq<seq<byte>>
      requires Valid() && Sound()
      reads this, r
    {
      PublicIds(DescriptorsAt(r.buf, r.pos, left).value)
    }

    /** The next "public-key" id; `stuck` marks the branch for a descriptor that does not parse. */
    method Next() returns (found: bool, id: seq<byte>, ghost stuck: bool)
      requires Valid()
      modifies this, r
      ensures Valid() && (stuck ==> left == 0)
      ensures old(Sound()) ==> !stuck && Sound() && found == (old(Rest()) != [])
      ensures old(Sound()) && found ==> id == old(Rest())[0] && Rest() == old(Rest())[1..]
      ensures old(Sound()) && !found ==> left == 0
    {
      found, id, stuck := false, [], false;
      hide DescriptorAt;
      while left > 0
        invariant Valid() && !found && !stuck
        invariant old(Sound()) ==> Sound() && Rest() == old(Rest())
        decreases left
      {
        left := left - 1;
        var rc, pk;
        rc, id, pk := ReadDescriptor(r);
        if rc != 0 {
          left := 0;
          stuck := true;
          return;
        }
        if pk {
          found := true;
          return;
        }
      }
    }
  }

  method WalkAll(w: Walk) returns (ids: seq<seq<byte>>)
    requires w.Valid() && w.Sound()
    modifies w, w.r
    ensures ids == old(w.Rest())
  {
    hide w.Sound, w.Rest;
    ids := [];
    var found, id, stuck := w.Next();
    while found
      invariant w.Valid() && w.Sound()
      invariant old(w.Rest()) == ids + (if found then [id] + w.Rest() else [])
      decreases if found then |w.Rest()| + 1 else 0
    {
      ids := ids + [id];
      found, id, stuck := w.Next();
      assert !stuck;
    }
  }

  /** Parse, keep the sub-buffer, walk it: every "public-key" id once and in order, never stuck. */
  method ParseThenWalk(r: Reader) returns (rc: nat, ids: seq<seq<byte>>)
    requires r.Valid() && !r.err
    modifies r
    ensures var p := ListAt(r.buf, old(r.pos));
      if p.Got? then rc == 0 && ids == PublicIds(p.value) else rc == p.status != 0
    // As a tree: exactly an array of descriptors is accepted, and the ids are those of its public-key ones.
    ensures var t := Decode(r.buf, old(r.pos));
      (rc == 0 <==> IsCredList(t)) && (rc == 0 ==> ids == TreeIds(t.value.0.items))
  {
    ListMeans(r.buf, r.pos);
    hide ListAt, Decode, IsCredList, TreeIds;
    ids := [];
    var kept;
    ghost var p := ListAt(r.buf, r.pos);
    if p.Got? { ListReplays(r.buf, r.pos); }
    rc, kept := ReadCredList(r);
    if rc != 0 { return; }
    var w := new Walk(kept);
    ids := WalkAll(w);
  }
}

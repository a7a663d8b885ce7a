/**
 What the writers, `validate` and `skip` mean for item trees.
 */
module CborLaws {
  import opened Values
  import opened BigEndian
  import opened Cbor

  function Max(a: nat, b: nat): nat { if a < b then b else a }

  /** Containers nested around the deepest point of an item. */
  ghost function Depth(t: Item): nat
    decreases t
  {
    match t
    case Arr(ts) => 1 + DepthAll(ts)
    case Map(ts) => 1 + DepthAll(ts)
    case _ => 0
  }

  ghost function DepthAll(ts: seq<Item>): nat
    decreases ts
  {
    if ts == [] then 0 else Max(Depth(ts[0]), DepthAll(ts[1..]))
  }

  /** Levels below an item: unlike Depth, an empty container adds none. */
  ghost function Level(t: Item): nat
    decreases t
  {
    match t
    case Arr(ts) => if ts == [] then 0 else 1 + LevelAll(ts)
    case Map(ts) => if ts == [] then 0 else 1 + LevelAll(ts)
    case _ => 0
  }

  ghost function LevelAll(ts: seq<Item>): nat
    decreases ts
  {
    if ts == [] then 0 else Max(Level(ts[0]), LevelAll(ts[1..]))
  }

  lemma {:induction false} LevelIsBelowDepth(t: Item)
    ensures Level(t) <= Depth(t)
    decreases t
  {
    match t
    case Arr(ts) => LevelsAreBelowDepth(ts);
    case Map(ts) => LevelsAreBelowDepth(ts);
    case _ =>
  }

  lemma {:induction false} LevelsAreBelowDepth(ts: seq<Item>)
    ensures LevelAll(ts) <= DepthAll(ts)
    decreases ts
  {
    if ts != [] {
      LevelIsBelowDepth(ts[0]);
      LevelsAreBelowDepth(ts[1..]);
    }
  }

  // ----- validate and skip, exactly -----

  ghost function Within(r: Option<(Item, nat)>, levels: nat): Option<nat> {
    if r.Some? && Depth(r.value.0) <= levels then Some(r.value.1) else None
  }

  /** Validation accepts what decodes to a tree within the nesting limit, and nothing else. */
  lemma {:induction false} ValidateExact(b: seq<byte>, pos: nat, depth: nat)
    requires pos <= |b| && depth <= CBOR_MAX_DEPTH
    ensures Validate(b, pos, depth) == Within(Decode(b, pos), CBOR_MAX_DEPTH - depth)
    decreases |b| - pos, 0
  {
    var h := ReadHead(b, pos);
    if h.Some? && h.value.mt in {MT_ARRAY, MT_MAP} {
      var Head(mt, v, next) := h.value;
      var n := if mt == MT_MAP then 2 * v else v;
      if depth < CBOR_MAX_DEPTH { ValidateAllExact(b, next, depth + 1, n); }
    }
  }

  lemma {:induction false} ValidateAllExact(b: seq<byte>, pos: nat, depth: nat, n: nat)
    requires pos <= |b| && depth <= CBOR_MAX_DEPTH
    ensures var r := DecodeAll(b, pos, n);
      ValidateAll(b, pos, depth, n) == if r.Some? && DepthAll(r.value.0) <= CBOR_MAX_DEPTH - depth then Some(r.value.1)
        else None
    decreases |b| - pos, 1
  {
    if n > 0 {
      ValidateExact(b, pos, depth);
      var h := Decode(b, pos);
      if h.Some? { ValidateAllExact(b, h.value.1, depth, n - 1); }
    }
  }

  lemma {:induction false} SkipExact(b: seq<byte>, pos: nat, depth: nat)
    requires pos <= |b|
    ensures var r := Decode(b, pos);
      Skip(b, pos, depth) == if r.Some? && depth + Level(r.value.0) <= CBOR_SKIP_MAX_DEPTH then Some(r.value.1)
        else None
    decreases |b| - pos, 0
  {
    var h := ReadHead(b, pos);
    if h.Some? && h.value.mt in {MT_ARRAY, MT_MAP} {
      var Head(mt, v, next) := h.value;
      SkipAllExact(b, next, depth + 1, if mt == MT_MAP then 2 * v else v);
    }
  }

  lemma {:induction false} SkipAllExact(b: seq<byte>, pos: nat, depth: nat, n: nat)
    requires pos <= |b|
    ensures var r := DecodeAll(b, pos, n);
      SkipAll(b, pos, depth, n) ==
        if r.Some? && (n == 0 || depth + LevelAll(r.value.0) <= CBOR_SKIP_MAX_DEPTH) then Some(r.value.1) else None
    decreases |b| - pos, 1
  {
    if n > 0 {
      SkipExact(b, pos, depth);
      var h := Decode(b, pos);
      if h.Some? { SkipAllExact(b, h.value.1, depth, n - 1); }
    }
  }

  /** Whatever validation accepted, skipping consumes, and exactly that. */
  lemma ValidatedSkips(b: seq<byte>, pos: nat)
    requires pos <= |b| && Validate(b, pos, 0).Some?
    ensures Skip(b, pos, 0) == Validate(b, pos, 0)
  {
    ValidateExact(b, pos, 0);
    SkipExact(b, pos, 0);
    LevelIsBelowDepth(Decode(b, pos).value.0);
  }

  /** The same for an item inside a validated container, which is where the parsers skip. */
  lemma {:induction false} ValidatedSkipsInside(b: seq<byte>, pos: nat, depth: nat, n: nat, k: nat)
    requires pos <= |b| && depth <= CBOR_MAX_DEPTH && k <= n && ValidateAll(b, pos, depth, n).Some?
    ensures ValidateAll(b, pos, depth, k).Some? && SkipAll(b, pos, 0, k) == ValidateAll(b, pos, depth, k)
    decreases n
  {
    if k > 0 {
      ValidateExact(b, pos, depth);
      SkipExact(b, pos, 0);
      LevelIsBelowDepth(Decode(b, pos).value.0);
      ValidatedSkipsInside(b, Validate(b, pos, depth).value, depth, n - 1, k - 1);
    }
  }

  // ----- the writers, call after call -----

  /** A tree written by the calls a caller makes for it, results unchecked until the end. */
  method WriteTree(w: Writer, t: Item)
    requires w.Valid() && Writable(t)
    modifies w, w.buf
    ensures w.Put(Encode(t))
    decreases t, 1
  {
    hide EncodeHead, Low;
    var ok;
    match t
    case Uint(v) => ok := w.PutHead(MT_UINT, v);
    case Neg(u) => ok := w.WriteNegint(-1 - u);
    case Bytes(s) => ok := w.WriteRun(MT_BYTES, s);
    case Text(s) => ok := w.WriteRun(MT_TEXT, s);
    case Arr(ts) =>
      ok := w.PutHead(MT_ARRAY, |ts|);
      WriteTrees(w, ts);
    case Map(ts) =>
      ok := w.PutHead(MT_MAP, |ts| / 2);
      WriteTrees(w, ts);
    case Simple(c) =>
      if c == 22 { ok := w.WriteNull(); } else { ok := w.WriteBool(c == 21); }
  }

  method WriteTrees(w: Writer, ts: seq<Item>)
    requires w.Valid() && AllWritable(ts)
    modifies w, w.buf
    ensures w.Put(EncodeAll(ts))
    decreases ts, 0
  {
    hide Encode, Writable;
    if ts != [] {
      WriteTree(w, ts[0]);
      WriteTrees(w, ts[1..]);
    }
  }

  // ----- round trip -----

  /** Every integer is one the reader lets through. */
  ghost predicate Readable(t: Item)
    decreases t
  {
    match t
    case Uint(v) => v <= SIZE_MAX
    case Neg(u) => u <= SIZE_MAX
    case Arr(ts) => AllReadable(ts)
    case Map(ts) => AllReadable(ts)
    case _ => true
  }

  ghost predicate AllReadable(ts: seq<Item>)
    decreases ts
  {
    ts == [] || (Readable(ts[0]) && AllReadable(ts[1..]))
  }

  ghost predicate At(b: seq<byte>, pos: nat, s: seq<byte>) {
    pos + |s| <= |b| && b[pos..pos + |s|] == s
  }

  lemma AtMeans(b: seq<byte>, pos: nat, s: seq<byte>)
    requires At(b, pos, s)
    ensures pos + |s| <= |b| && b[pos..pos + |s|] == s
  {
  }

  lemma AtSplit(b: seq<byte>, pos: nat, s: seq<byte>, t: seq<byte>)
    requires At(b, pos, s + t)
    ensures At(b, pos, s) && At(b, pos + |s|, t)
  {
    assert b[pos..pos + |s|] == (s + t)[..|s|];
    assert b[pos + |s|..pos + |s| + |t|] == (s + t)[|s|..];
  }

  lemma InitialByte(mt: nat, ai: nat)
    requires mt < 8 && ai < 32
    ensures Low(32 * mt + ai) as nat / 32 == mt && Low(32 * mt + ai) as nat % 32 == ai
  {
  }

  lemma LongHeadRoundTrip(b: seq<byte>, pos: nat, mt: nat, ai: nat, n: nat, v: nat)
    requires mt < 8 && (ai, n) in {(24, 1), (25, 2), (26, 4), (27, 8)}
    requires v < Pow256(n) && At(b, pos, [Low(32 * mt + ai)] + Be(v, n))
    ensures ReadHead(b, pos) == if v <= SIZE_MAX then Some(Head(mt, v, pos + 1 + n)) else None
  {
    hide Be, Num, Pow256, Low;
    InitialByte(mt, ai);
    var e := [Low(32 * mt + ai)] + Be(v, n);
    assert b[pos] == b[pos..pos + |e|][0] == e[0];
    assert b[pos + 1..pos + 1 + n] == e[1..] == Be(v, n);
  }

  lemma HeadRoundTrip(b: seq<byte>, pos: nat, mt: nat, v: nat)
    requires mt < 8 && v < U64_END && At(b, pos, EncodeHead(mt, v))
    ensures ReadHead(b, pos) == if v <= SIZE_MAX then Some(Head(mt, v, pos + |EncodeHead(mt, v)|)) else None
  {
    PowerValues();
    hide Be, Num, Pow256, Low;
    if v < 24 {
      InitialByte(mt, v);
      assert b[pos] == b[pos..pos + 1][0];
    } else {
      hide ReadHead;
      if v <= 0xFF { LongHeadRoundTrip(b, pos, mt, 24, 1, v); }
      else if v <= 0xFFFF { LongHeadRoundTrip(b, pos, mt, 25, 2, v); }
      else if v <= 0xFFFF_FFFF { LongHeadRoundTrip(b, pos, mt, 26, 4, v); }
      else { LongHeadRoundTrip(b, pos, mt, 27, 8, v); }
    }
  }

  /** What the writers produced reads back as the same tree exactly when every number is readable. */
  lemma {:induction false} RoundTrip(t: Item, b: seq<byte>, pos: nat)
    requires Writable(t) && At(b, pos, Encode(t))
    ensures Decode(b, pos) == if Readable(t) then Some((t, pos + |Encode(t)|)) else None
    decreases t
  {
    hide ReadHead, EncodeHead;
    match t
    case Uint(v) => HeadRoundTrip(b, pos, MT_UINT, v);
    case Neg(u) => HeadRoundTrip(b, pos, MT_NEGINT, u);
    case Simple(c) => HeadRoundTrip(b, pos, MT_SIMPLE, c);
    case Bytes(s) => RunRoundTrip(b, pos, MT_BYTES, s);
    case Text(s) => RunRoundTrip(b, pos, MT_TEXT, s);
    case Arr(ts) => ContainerRoundTrip(ts, b, pos, MT_ARRAY, |ts|);
    case Map(ts) => ContainerRoundTrip(ts, b, pos, MT_MAP, |ts| / 2);
  }

  lemma {:induction false} ContainerRoundTrip(ts: seq<Item>, b: seq<byte>, pos: nat, mt: nat, count: nat)
    requires mt in {MT_ARRAY, MT_MAP} && count < U64_END && AllWritable(ts)
    requires At(b, pos, EncodeHead(mt, count) + EncodeAll(ts))
    ensures var next := pos + |EncodeHead(mt, count)|;
      && ReadHead(b, pos) == (if count <= SIZE_MAX then Some(Head(mt, count, next)) else None)
      && next <= |b|
      && DecodeAll(b, next, |ts|) == if AllReadable(ts) then Some((ts, next + |EncodeAll(ts)|)) else None
    decreases ts, 1
  {
    hide ReadHead, EncodeHead;
    AtSplit(b, pos, EncodeHead(mt, count), EncodeAll(ts));
    HeadRoundTrip(b, pos, mt, count);
    RoundTripAll(ts, b, pos + |EncodeHead(mt, count)|);
  }

  lemma RunRoundTrip(b: seq<byte>, pos: nat, mt: nat, s: seq<byte>)
    requires mt in {MT_BYTES, MT_TEXT} && |s| < U64_END && At(b, pos, EncodeHead(mt, |s|) + s)
    ensures var next := pos + |EncodeHead(mt, |s|)|;
      && ReadHead(b, pos) == (if |s| <= SIZE_MAX then Some(Head(mt, |s|, next)) else None)
      && next + |s| <= |b| && b[next..next + |s|] == s
  {
    hide EncodeHead, ReadHead, At;
    AtSplit(b, pos, EncodeHead(mt, |s|), s);
    AtMeans(b, pos + |EncodeHead(mt, |s|)|, s);
    HeadRoundTrip(b, pos, mt, |s|);
  }

  lemma {:induction false} RoundTripAll(ts: seq<Item>, b: seq<byte>, pos: nat)
    requires AllWritable(ts) && At(b, pos, EncodeAll(ts))
    ensures DecodeAll(b, pos, |ts|) == if AllReadable(ts) then Some((ts, pos + |EncodeAll(ts)|)) else None
    decreases ts, 0
  {
    hide Decode, Encode, Writable, Readable;
    if ts != [] {
      AtSplit(b, pos, Encode(ts[0]), EncodeAll(ts[1..]));
      RoundTrip(ts[0], b, pos);
      RoundTripAll(ts[1..], b, pos + |Encode(ts[0])|);
      assert ts == [ts[0]] + ts[1..];
    }
  }

  /** A written item passes cbor_validate if and only if at most four containers nest. */
  lemma WrittenValidates(t: Item)
    requires Writable(t) && Readable(t)
    ensures Validate(Encode(t), 0, 0) == Some(|Encode(t)|) <==> Depth(t) <= CBOR_MAX_DEPTH
  {
    RoundTrip(t, Encode(t), 0);
    ValidateExact(Encode(t), 0, 0);
  }

  // ----- shortest heads -----

  /** No bytes that read as this head are fewer than the ones put_head writes. */
  lemma ShortestHead(b: seq<byte>, pos: nat)
    requires pos <= |b| && ReadHead(b, pos).Some?
    ensures var Head(mt, v, next) := ReadHead(b, pos).value; |EncodeHead(mt, v)| <= next - pos
  {
    PowerValues();
  }

  /** The writers' bytes for a tree are the fewest that decode to it. */
  lemma {:induction false} ShortestEncoding(b: seq<byte>, pos: nat)
    requires pos <= |b| && Decode(b, pos).Some? && Writable(Decode(b, pos).value.0)
    ensures |Encode(Decode(b, pos).value.0)| <= Decode(b, pos).value.1 - pos
    decreases |b| - pos, 0
  {
    hide ReadHead, EncodeHead;
    ShortestHead(b, pos);
    var Head(mt, v, next) := ReadHead(b, pos).value;
    if mt in {MT_ARRAY, MT_MAP} {
      ShortestEncodings(b, next, if mt == MT_MAP then 2 * v else v);
    }
  }

  lemma {:induction false} ShortestEncodings(b: seq<byte>, pos: nat, n: nat)
    requires pos <= |b| && DecodeAll(b, pos, n).Some? && AllWritable(DecodeAll(b, pos, n).value.0)
    ensures |EncodeAll(DecodeAll(b, pos, n).value.0)| <= DecodeAll(b, pos, n).value.1 - pos
    decreases |b| - pos, 1
  {
    if n > 0 {
      var h := Decode(b, pos).value;
      var t := DecodeAll(b, h.1, n - 1).value;
      assert DecodeAll(b, pos, n).value.0[0] == h.0 && DecodeAll(b, pos, n).value.0[1..] == t.0;
      ShortestEncoding(b, pos);
      ShortestEncodings(b, h.1, n - 1);
    }
  }

  // ----- the grammar -----

  /** The low five bits of a head's first byte when an argument of n bytes follows. */
  const INFO := map[1 := 24, 2 := 25, 4 := 26, 8 := 27]

  /** `s` is a head with this major type and argument; more than one length may say the same argument. */
  ghost predicate Spells(s: seq<byte>, mt: nat, v: nat) {
    && mt < 8 && s != []
    && if |s| == 1 then v < 24 && s[0] as nat == 32 * mt + v
       else |s| - 1 in INFO && s[0] as nat == 32 * mt + INFO[|s| - 1] && v == Num(s[1..])
  }

  ghost predicate HeadIn(b: seq<byte>, pos: nat, next: nat, mt: nat, v: nat) {
    pos <= next <= |b| && v <= SIZE_MAX && Spells(b[pos..next], mt, v)
  }

  /** The bytes from `pos` to `next` are an item, and it is `t`. */
  ghost predicate ItemIn(b: seq<byte>, pos: nat, next: nat, t: Item)
    decreases t
  {
    match t
    case Uint(v) => HeadIn(b, pos, next, MT_UINT, v)
    case Neg(u) => HeadIn(b, pos, next, MT_NEGINT, u)
    case Simple(c) => HeadIn(b, pos, next, MT_SIMPLE, c)
    case Bytes(s) => |s| <= next && HeadIn(b, pos, next - |s|, MT_BYTES, |s|) && At(b, next - |s|, s)
    case Text(s) => |s| <= next && HeadIn(b, pos, next - |s|, MT_TEXT, |s|) && At(b, next - |s|, s)
    case Arr(ts) => exists k: nat :: HeadIn(b, pos, k, MT_ARRAY, |ts|) && ItemsIn(b, k, next, ts)
    case Map(ts) => |ts| % 2 == 0 && exists k: nat :: HeadIn(b, pos, k, MT_MAP, |ts| / 2) && ItemsIn(b, k, next, ts)
  }

  ghost predicate ItemsIn(b: seq<byte>, pos: nat, next: nat, ts: seq<Item>)
    decreases ts
  {
    if ts == [] then pos == next <= |b|
    else exists k: nat :: ItemIn(b, pos, k, ts[0]) && ItemsIn(b, k, next, ts[1..])
  }

  /** A head is read exactly where there is one: reserved, cut off and over-large ones are none. */
  lemma HeadExact(b: seq<byte>, pos: nat, h: Head)
    requires pos <= |b|
    ensures ReadHead(b, pos) == Some(h) <==> HeadIn(b, pos, h.next, h.mt, h.v)
  {
    hide Num;
    if HeadIn(b, pos, h.next, h.mt, h.v) {
      var s := b[pos..h.next];
      assert s[0] == b[pos] && s[1..] == b[pos + 1..h.next];
    }
    if ReadHead(b, pos) == Some(h) {
      var s := b[pos..h.next];
      assert s[0] == b[pos] && s[1..] == b[pos + 1..h.next];
    }
  }

  /** Decode finds `t` exactly where the bytes mean `t`; a tag or an indefinite length means nothing. */
  lemma {:induction false} DecodeExact(b: seq<byte>, pos: nat, next: nat, t: Item)
    requires pos <= |b|
    ensures Decode(b, pos) == Some((t, next)) <==> ItemIn(b, pos, next, t)
    decreases t
  {
    hide ReadHead, HeadIn, At;
    var h := ReadHead(b, pos);
    if h.Some? { HeadExact(b, pos, h.value); }
    match t
    case Uint(v) => HeadExact(b, pos, Head(MT_UINT, v, next));
    case Neg(u) => HeadExact(b, pos, Head(MT_NEGINT, u, next));
    case Simple(c) => HeadExact(b, pos, Head(MT_SIMPLE, c, next));
    case Bytes(s) => RunExact(b, pos, next, MT_BYTES, s, t);
    case Text(s) => RunExact(b, pos, next, MT_TEXT, s, t);
    case Arr(ts) =>
      HeadsExact(b, pos, MT_ARRAY, |ts|);
      if h.Some? { ItemsExact(b, h.value.next, next, ts); }
    case Map(ts) =>
      HeadsExact(b, pos, MT_MAP, |ts| / 2);
      if h.Some? { ItemsExact(b, h.value.next, next, ts); }
  }

  lemma HeadsExact(b: seq<byte>, pos: nat, mt: nat, v: nat)
    requires pos <= |b|
    ensures forall k: nat :: HeadIn(b, pos, k, mt, v) <==> ReadHead(b, pos) == Some(Head(mt, v, k))
  {
    hide ReadHead, HeadIn;
    forall k: nat ensures HeadIn(b, pos, k, mt, v) <==> ReadHead(b, pos) == Some(Head(mt, v, k)) {
      HeadExact(b, pos, Head(mt, v, k));
    }
  }

  lemma RunExact(b: seq<byte>, pos: nat, next: nat, mt: nat, s: seq<byte>, t: Item)
    requires pos <= |b| && (mt, t) in {(MT_BYTES, Bytes(s)), (MT_TEXT, Text(s))}
    ensures Decode(b, pos) == Some((t, next)) <==>
            |s| <= next && HeadIn(b, pos, next - |s|, mt, |s|) && At(b, next - |s|, s)
  {
    hide ReadHead, HeadIn;
    if |s| <= next { HeadExact(b, pos, Head(mt, |s|, next - |s|)); }
  }

  lemma {:induction false} ItemsExact(b: seq<byte>, pos: nat, next: nat, ts: seq<Item>)
    requires pos <= |b|
    ensures DecodeAll(b, pos, |ts|) == Some((ts, next)) <==> ItemsIn(b, pos, next, ts)
    decreases ts
  {
    hide Decode, ItemIn;
    if ts != [] {
      forall k: nat ensures Decode(b, pos) == Some((ts[0], k)) <==> ItemIn(b, pos, k, ts[0]) {
        DecodeExact(b, pos, k, ts[0]);
      }
      var d := Decode(b, pos);
      if d.Some? { ItemsExact(b, d.value.1, next, ts[1..]); }
      assert ts == [ts[0]] + ts[1..];
    }
  }
}

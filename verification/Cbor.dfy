/**
 CBOR (RFC 8949) as CTAP2 uses it: cursor-style writer and reader, `skip` and
 `validate`.  The functions say what one pass over the bytes yields; the
 classes are the C cursors, proved against them.
 */
module Cbor {
  import opened Values
  import opened BigEndian

  const SIZE_MAX: nat := 0xFFFF_FFFF          // size_t on the target
  const CBOR_MAX_DEPTH: nat := 4
  const CBOR_SKIP_MAX_DEPTH: nat := 16

  const MT_UINT: nat := 0
  const MT_NEGINT: nat := 1
  const MT_BYTES: nat := 2
  const MT_TEXT: nat := 3
  const MT_ARRAY: nat := 4
  const MT_MAP: nat := 5
  const MT_SIMPLE: nat := 7

  /** A data item; `Neg(u)` is the integer -1 - u and a map lists key, value, key, value, … */
  datatype Item =
    | Uint(v: nat)
    | Neg(u: nat)
    | Bytes(bytes: seq<byte>)
    | Text(text: seq<byte>)
    | Arr(items: seq<Item>)
    | Map(entries: seq<Item>)
    | Simple(code: nat)

  datatype Head = Head(mt: nat, v: nat, next: nat)

  // ----- what the writers produce -----

  function EncodeHead(mt: nat, v: nat): (s: seq<byte>)
    requires mt < 8 && v < U64_END
    ensures 1 <= |s| <= 9
  {
    if v < 24 then [Low(32 * mt + v)]
    else if v <= 0xFF then [Low(32 * mt + 24)] + Be(v, 1)
    else if v <= 0xFFFF then [Low(32 * mt + 25)] + Be(v, 2)
    else if v <= 0xFFFF_FFFF then [Low(32 * mt + 26)] + Be(v, 4)
    else [Low(32 * mt + 27)] + Be(v, 8)
  }

  /** Numbers that fit the writers' parameters; maps come in pairs. */
  ghost predicate Writable(t: Item)
    decreases t
  {
    match t
    case Uint(v) => v < U64_END
    case Neg(u) => u < U64_END / 2
    case Bytes(s) => |s| <= SIZE_MAX
    case Text(s) => |s| <= SIZE_MAX
    case Arr(ts) => |ts| <= SIZE_MAX && AllWritable(ts)
    case Map(ts) => |ts| / 2 <= SIZE_MAX && |ts| % 2 == 0 && AllWritable(ts)
    case Simple(c) => c in {20, 21, 22}       // false, true, null
  }

  ghost predicate AllWritable(ts: seq<Item>)
    decreases ts
  {
    ts == [] || (Writable(ts[0]) && AllWritable(ts[1..]))
  }

  ghost function Encode(t: Item): (s: seq<byte>)
    requires Writable(t)
    ensures |s| > 0
    decreases t
  {
    match t
    case Uint(v) => EncodeHead(MT_UINT, v)
    case Neg(u) => EncodeHead(MT_NEGINT, u)
    case Bytes(s) => EncodeHead(MT_BYTES, |s|) + s
    case Text(s) => EncodeHead(MT_TEXT, |s|) + s
    case Arr(ts) => EncodeHead(MT_ARRAY, |ts|) + EncodeAll(ts)
    case Map(ts) => EncodeHead(MT_MAP, |ts| / 2) + EncodeAll(ts)
    case Simple(c) => EncodeHead(MT_SIMPLE, c)
  }

  ghost function EncodeAll(ts: seq<Item>): seq<byte>
    requires AllWritable(ts)
    decreases ts
  {
    if ts == [] then [] else Encode(ts[0]) + EncodeAll(ts[1..])
  }

  // ----- what the readers see -----

  function ReadHead(b: seq<byte>, pos: nat): (h: Option<Head>)
    requires pos <= |b|
    ensures h.Some? ==> pos < h.value.next <= |b| && h.value.mt < 8 && h.value.v <= SIZE_MAX
  {
    PowerValues();
    if pos == |b| then None
    else
      var mt, ai := b[pos] as nat / 32, b[pos] as nat % 32;
      if ai < 24 then Some(Head(mt, ai, pos + 1))
      else if ai > 27 then None
      else
        var n := if ai == 24 then 1 else if ai == 25 then 2 else if ai == 26 then 4 else 8;
        if pos + 1 + n > |b| then None
        else
          var v := Num(b[pos + 1..pos + 1 + n]);
          if v > SIZE_MAX then None else Some(Head(mt, v, pos + 1 + n))
  }

  /** One item, as the typed readers would take it apart; nothing bounds the nesting here. */
  ghost function Decode(b: seq<byte>, pos: nat): (r: Option<(Item, nat)>)
    requires pos <= |b|
    ensures r.Some? ==> pos < r.value.1 <= |b|
    decreases |b| - pos, 0
  {
    var h := ReadHead(b, pos);
    if h == None then None
    else
      var Head(mt, v, next) := h.value;
      if mt == MT_UINT then Some((Uint(v), next))
      else if mt == MT_NEGINT then Some((Neg(v), next))
      else if mt == MT_SIMPLE then Some((Simple(v), next))
      else if mt == MT_BYTES || mt == MT_TEXT then
        if v > |b| - next then None
        else Some((if mt == MT_BYTES then Bytes(b[next..next + v]) else Text(b[next..next + v]), next + v))
      else if mt == MT_ARRAY then
        var m := DecodeAll(b, next, v);
        if m == None then None else Some((Arr(m.value.0), m.value.1))
      else if mt == MT_MAP then
        var m := DecodeAll(b, next, 2 * v);
        if m == None then None else Some((Map(m.value.0), m.value.1))
      else None
  }

  ghost function DecodeAll(b: seq<byte>, pos: nat, n: nat): (r: Option<(seq<Item>, nat)>)
    requires pos <= |b|
    ensures r.Some? ==> |r.value.0| == n && pos + n <= r.value.1 <= |b|
    decreases |b| - pos, 1
  {
    if n == 0 then Some(([], pos))
    else
      var h := Decode(b, pos);
      if h == None then None
      else
        var t := DecodeAll(b, h.value.1, n - 1);
        if t == None then None else Some(([h.value.0] + t.value.0, t.value.1))
  }

  /** Position after the item at `pos` as cbor_reader_skip moves there. */
  function Skip(b: seq<byte>, pos: nat, depth: nat): (r: Option<nat>)
    requires pos <= |b|
    ensures r.Some? ==> pos < r.value <= |b|
    decreases |b| - pos, 0
  {
    var h := ReadHead(b, pos);
    if depth > CBOR_SKIP_MAX_DEPTH || h == None then None
    else
      var Head(mt, v, next) := h.value;
      if mt in {MT_UINT, MT_NEGINT, MT_SIMPLE} then Some(next)
      else if mt in {MT_BYTES, MT_TEXT} then if v > |b| - next then None else Some(next + v)
      else if mt in {MT_ARRAY, MT_MAP} then SkipAll(b, next, depth + 1, if mt == MT_MAP then 2 * v else v)
      else None
  }

  function SkipAll(b: seq<byte>, pos: nat, depth: nat, n: nat): (r: Option<nat>)
    requires pos <= |b|
    ensures r.Some? ==> pos <= r.value <= |b|
    decreases |b| - pos, 1
  {
    if n == 0 then Some(pos)
    else
      var p := Skip(b, pos, depth);
      if p == None then None else SkipAll(b, p.value, depth, n - 1)
  }

  function Validate(b: seq<byte>, pos: nat, depth: nat): (r: Option<nat>)
    requires pos <= |b|
    ensures r.Some? ==> pos < r.value <= |b|
    decreases |b| - pos, 0
  {
    var h := ReadHead(b, pos);
    if h == None then None
    else
      var Head(mt, v, next) := h.value;
      if mt in {MT_UINT, MT_NEGINT, MT_SIMPLE} then Some(next)
      else if mt in {MT_BYTES, MT_TEXT} then if v > |b| - next then None else Some(next + v)
      else if mt in {MT_ARRAY, MT_MAP} then
        if depth >= CBOR_MAX_DEPTH || v > |b| - next then None
        else ValidateAll(b, next, depth + 1, if mt == MT_MAP then 2 * v else v)
      else None
  }

  function ValidateAll(b: seq<byte>, pos: nat, depth: nat, n: nat): (r: Option<nat>)
    requires pos <= |b|
    ensures r.Some? ==> pos <= r.value <= |b|
    decreases |b| - pos, 1
  {
    if n == 0 then Some(pos)
    else
      var p := Validate(b, pos, depth);
      if p == None then None else ValidateAll(b, p.value, depth, n - 1)
  }

  // ----- the cursors -----

  class Writer {
    const buf: array<byte>
    var pos: nat
    var err: bool

    constructor (buf: array<byte>)
      ensures this.buf == buf && Valid() && !err && Written() == []
    {
      this.buf := buf;
      pos, err := 0, false;
    }

    ghost predicate Valid() reads this { pos <= buf.Length }

    ghost function Written(): seq<byte>
      requires Valid()
      reads this, buf
    {
      buf[..pos]
    }

    /** `add` went out whole, or the error flag is up for good and what was written stays. */
    twostate predicate Put(add: seq<byte>)
      requires old(Valid())
      reads this, buf
    {
      && Valid() && old(Written()) <= Written()
      && err == (old(err) || |add| > buf.Length - old(pos))
      && (!err ==> Written() == old(Written()) + add)
    }

    method PutByte(b: byte) returns (ok: bool)
      requires Valid()
      modifies this, buf
      ensures Put([b]) && ok == !err
    {
      if err { return false; }
      if pos >= buf.Length { err := true; return false; }
      buf[pos] := b;
      pos := pos + 1;
      return true;
    }

    method PutBytes(s: seq<byte>) returns (ok: bool)
      requires Valid()
      modifies this, buf
      ensures Put(s) && ok == !err
    {
      if err { return false; }
      if |s| > buf.Length - pos { err := true; return false; }
      forall k | 0 <= k < |s| { buf[pos + k] := s[k]; }
      pos := pos + |s|;
      return true;
    }

    /** An initial byte and the bytes of its argument. */
    method PutLong(first: byte, argument: seq<byte>) returns (ok: bool)
      requires Valid()
      modifies this, buf
      ensures Put([first] + argument) && ok == !err
    {
      ok := PutByte(first);
      if !ok { return; }
      ok := PutBytes(argument);
    }

    method PutHead(mt: nat, v: nat) returns (ok: bool)
      requires Valid() && mt < 8 && v < U64_END
      modifies this, buf
      ensures Put(EncodeHead(mt, v)) && ok == !err
    {
      hide Be, Num, Pow256, Low, Put;
      if v < 24 {
        ok := PutByte(Low(32 * mt + v));
      } else if v <= 0xFF {
        ShiftsOut1(v);
        ok := PutLong(Low(32 * mt + 24), [Low(v)]);
      } else if v <= 0xFFFF {
        ShiftsOut2(v);
        ok := PutLong(Low(32 * mt + 25), [Low(v / 0x100), Low(v)]);
      } else if v <= 0xFFFF_FFFF {
        ShiftsOut4(v);
        ok := PutLong(Low(32 * mt + 26), [Low(v / 0x100_0000), Low(v / 0x1_0000), Low(v / 0x100), Low(v)]);
      } else {
        ShiftsOut8(v);
        ok := PutLong(Low(32 * mt + 27),
                      [Low(v / 0x100_0000_0000_0000), Low(v / 0x1_0000_0000_0000), Low(v / 0x100_0000_0000),
                        Low(v / 0x1_0000_0000),
                       Low(v / 0x100_0000), Low(v / 0x1_0000), Low(v / 0x100), Low(v)]);
      }
    }

    method WriteNegint(v: int) returns (ok: bool)
      requires Valid() && -0x8000_0000_0000_0000 <= v < 0x8000_0000_0000_0000
      modifies this, buf
      ensures if v >= 0 then err && !ok && Valid() && Written() == old(Written())
                else Put(EncodeHead(MT_NEGINT, -1 - v)) && ok == !err
    {
      if v >= 0 { err := true; return false; }
      ok := PutHead(MT_NEGINT, -(v + 1));
    }

    method WriteRun(mt: nat, s: seq<byte>) returns (ok: bool)
      requires Valid() && mt in {MT_BYTES, MT_TEXT} && |s| < U64_END
      modifies this, buf
      ensures Put(EncodeHead(mt, |s|) + s) && ok == !err
    {
      ok := PutHead(mt, |s|);
      if !ok { return; }
      ok := PutBytes(s);
    }

    method WriteBool(v: bool) returns (ok: bool)
      requires Valid()
      modifies this, buf
      ensures Put(EncodeHead(MT_SIMPLE, if v then 21 else 20)) && ok == !err
    {
      ok := PutByte(if v then 245 else 244);
    }

    method WriteNull() returns (ok: bool)
      requires Valid()
      modifies this, buf
      ensures Put(EncodeHead(MT_SIMPLE, 22)) && ok == !err
    {
      ok := PutByte(246);
    }
  }

  class Reader {
    const buf: seq<byte>
    var pos: nat
    var err: bool

    constructor (buf: seq<byte>)
      ensures this.buf == buf && Valid() && pos == 0 && !err
    {
      this.buf := buf;
      pos, err := 0, false;
    }

    ghost predicate Valid() reads this { pos <= |buf| }

    /** The call moved to `to`, or failed and left the error flag up. */
    twostate predicate Moved(ok: bool, to: Option<nat>)
      reads this
    {
      && old(pos) <= pos <= |buf|
      && ok == (!old(err) && to.Some?)
      && (if ok then !err && pos == to.value else err)
    }

    function PeekMajor(): (mt: int)
      requires Valid()
      reads this
    {
      if pos >= |buf| then -1 else buf[pos] as nat / 32
    }

    method Head() returns (ok: bool, mt: nat, v: nat)
      requires Valid()
      modifies this
      ensures var h := ReadHead(buf, old(pos));
        && Moved(ok, if h.Some? then Some(h.value.next) else None)
        && (ok ==> mt == h.value.mt && v == h.value.v)
    {
      hide Num, Pow256;
      ok, mt, v := false, 0, 0;
      if err { return; }
      if pos >= |buf| { err := true; return; }
      var ib := buf[pos] as nat;
      pos := pos + 1;
      var ai := ib % 32;
      if ai < 24 {
        v := ai;
      } else if ai == 24 {
        if pos + 1 > |buf| { err := true; return; }
        v := buf[pos] as nat;
        NumOf1(buf[pos..pos + 1]);
        NumWidth(buf[pos..pos + 1]);
        pos := pos + 1;
      } else if ai == 25 {
        if pos + 2 > |buf| { err := true; return; }
        v := buf[pos] as nat * 0x100 + buf[pos + 1] as nat;
        NumOf2(buf[pos..pos + 2]);
        NumWidth(buf[pos..pos + 2]);
        pos := pos + 2;
      } else if ai == 26 {
        if pos + 4 > |buf| { err := true; return; }
        v := buf[pos] as nat * 0x100_0000 + buf[pos + 1] as nat * 0x1_0000
        + buf[pos + 2] as nat * 0x100 + buf[pos + 3] as nat;
        NumOf4(buf[pos..pos + 4]);
        NumWidth(buf[pos..pos + 4]);
        pos := pos + 4;
      } else if ai == 27 {
        if pos + 8 > |buf| { err := true; return; }
        NumOf0();
        assert buf[pos..pos] == [];
        for i := 0 to 8
          invariant pos == old(pos) + 1 && !err && v == Num(buf[pos..pos + i])
        {
          NumOfMore(buf[pos..pos + i], buf[pos + i]);
          assert buf[pos..pos + i + 1] == buf[pos..pos + i] + [buf[pos + i]];
          v := v * 256 + buf[pos + i] as nat;
        }
        pos := pos + 8;
        if v > SIZE_MAX { err := true; return; }
      } else {
        err := true;
        return;
      }
      return true, ib / 32, v;
    }

    /** cbor_reader_read_uint and the array and map header readers. */
    method Typed(want: nat) returns (ok: bool, v: nat)
      requires Valid()
      modifies this
      ensures var h := ReadHead(buf, old(pos));
        && old(pos) <= pos <= |buf| && ok == !err == (!old(err) && h.Some? && h.value.mt == want)
        && (ok ==> v == h.value.v && pos == h.value.next)
    {
      var mt;
      ok, mt, v := Head();
      if ok && mt != want { err := true; ok := false; }
    }

    method Run(want: nat) returns (ok: bool, s: seq<byte>)
      requires Valid()
      modifies this
      ensures var h := ReadHead(buf, old(pos));
        && old(pos) <= pos <= |buf|
        && ok == !err == (!old(err) && h.Some? && h.value.mt == want && h.value.v <= |buf| - h.value.next)
        && (ok ==> pos == h.value.next + h.value.v && s == buf[h.value.next..pos])
    {
      s := [];
      var v;
      ok, v := Typed(want);
      if !ok { return; }
      if v > |buf| - pos { err := true; return false, s; }
      s := buf[pos..pos + v];
      pos := pos + v;
    }

    method SkipItem(depth: nat) returns (ok: bool)
      requires Valid()
      modifies this
      ensures Moved(ok, Skip(buf, old(pos), depth))
      decreases |buf| - pos
    {
      hide ReadHead;
      if depth > CBOR_SKIP_MAX_DEPTH { err := true; return false; }
      var mt, v;
      ok, mt, v := Head();
      if !ok { return; }
      match mt {
        case 0 | 1 | 7 => return true;
        case 2 | 3 =>
          if v > |buf| - pos { err := true; return false; }
          pos := pos + v;
          return true;
        case 4 =>
          ghost var start := pos;
          for i := 0 to v
            invariant old(pos) < pos <= |buf| && !err
            invariant SkipAll(buf, start, depth + 1, v) == SkipAll(buf, pos, depth + 1, v - i)
          {
            var done := SkipItem(depth + 1);
            if !done { return false; }
          }
          return true;
        case 5 =>
          ghost var start := pos;
          for i := 0 to v
            invariant old(pos) < pos <= |buf| && !err
            invariant SkipAll(buf, start, depth + 1, 2 * v) == SkipAll(buf, pos, depth + 1, 2 * (v - i))
          {
            var done := SkipItem(depth + 1);   // key
            if !done { return false; }
            done := SkipItem(depth + 1);       // value
            if !done { return false; }
          }
          return true;
        case _ =>
          err := true;
          return false;
      }
    }

    method ValidateItem(depth: nat) returns (ok: bool)
      requires Valid()
      modifies this
      ensures Moved(ok, Validate(buf, old(pos), depth))
      decreases |buf| - pos
    {
      hide ReadHead;
      var mt, v;
      ok, mt, v := Head();
      if !ok { return; }
      match mt {
        case 0 | 1 | 7 => return true;
        case 2 | 3 =>
          if v > |buf| - pos { err := true; return false; }
          pos := pos + v;
          return true;
        case 4 | 5 =>
          if depth >= CBOR_MAX_DEPTH { err := true; return false; }
          if v > |buf| - pos { err := true; return false; }
          var items := if mt == 5 then 2 * v else v;
          ghost var start := pos;
          for i := 0 to items
            invariant old(pos) < pos <= |buf| && !err
            invariant ValidateAll(buf, start, depth + 1, items) == ValidateAll(buf, pos, depth + 1, items - i)
          {
            var done := ValidateItem(depth + 1);
            if !done { return false; }
          }
          return true;
        case _ =>
          err := true;
          return false;
      }
    }
  }

  /** cbor_validate: validation from the first byte ends at the last. */
  method Validated(b: seq<byte>) returns (ok: bool)
    ensures ok == (Validate(b, 0, 0) == Some(|b|))
  {
    var r := new Reader(b);
    ok := r.ValidateItem(0);
    if ok { ok := r.pos == |b|; }
  }

  /** One-, two- and four-byte arguments never exceed SIZE_MAX. */
  lemma NumWidth(s: seq<byte>)
    requires |s| in {1, 2, 4}
    ensures Num(s) <= SIZE_MAX
  {
    PowerValues();
  }
}

/**
 CTAPHID messages as 64-byte reports: how a payload is cut into an INIT packet
 and CONT packets, and what a receiver makes of packets as they come.
 */
module CtapFrames {
  import opened Values
  import opened BigEndian

  const REPORT_LEN: nat := 64
  const INIT_DATA_LEN: nat := 57
  const CONT_DATA_LEN: nat := 59
  const MAX_PAYLOAD: nat := 2048
  const BROADCAST: nat := 0xFFFF_FFFF

  const INIT_FLAG: nat := 0x80
  const CMD_PING: nat := 0x01
  const CMD_MSG: nat := 0x03
  const CMD_INIT: nat := 0x06
  const CMD_CBOR: nat := 0x10
  const CMD_CANCEL: nat := 0x11
  const CMD_KEEPALIVE: nat := 0x3B
  const CMD_ERROR: nat := 0x3F

  type Packet = p: seq<byte> | |p| == REPORT_LEN witness seq(REPORT_LEN, _ => 0)

  /** A complete request as the dispatcher gets it. */
  datatype Request = Request(cid: nat, cmd: nat, payload: seq<byte>)

  /** A message being put together; `n` is the next sequence number. */
  datatype Assembly = Idle | Part(cid: nat, cmd: nat, total: nat, data: seq<byte>, n: nat)

  function Min(a: nat, b: nat): nat { if a < b then a else b }

  // ----- reading a packet -----

  function CidOf(p: Packet): (cid: nat)
    ensures cid <= BROADCAST
  {
    PowerValues();
    Num(p[..4])
  }

  predicate IsInit(p: Packet) { p[4] >= 0x80 }

  function Low7(p: Packet): nat { p[4] as nat % 0x80 }

  function BcntOf(p: Packet): nat { p[5] as nat * 0x100 + p[6] as nat }

  function Begin(p: Packet): Assembly {
    Part(CidOf(p), Low7(p), BcntOf(p), p[7..7 + Min(BcntOf(p), INIT_DATA_LEN)], 0)
  }

  /** The next CONT packet of a message; any other sequence number ends it. */
  function Continue(a: Assembly, p: Packet): Assembly
    requires a.Part? && |a.data| <= a.total
  {
    if Low7(p) != a.n then Idle
    else a.(data := a.data + p[5..5 + Min(a.total - |a.data|, CONT_DATA_LEN)], n := a.n + 1)
  }

  function Finish(a: Assembly, refuse: bool): (Assembly, Option<Request>) {
    if a.Part? && |a.data| >= a.total then (Idle, if refuse then None else Some(Request(a.cid, a.cmd, a.data)))
    else (a, None)
  }

  /**
   One packet at the device.  `busy`: a complete request waits or runs; `awaiting`: a touch
   wait is on.  Yields the assembly afterwards and the request that became complete.
   */
  function Ingest(a: Assembly, busy: bool, awaiting: bool, p: Packet): (Assembly, Option<Request>)
    requires a.Part? ==> |a.data| <= a.total
  {
    var cid, cmd, bcnt := CidOf(p), Low7(p), BcntOf(p);
    var own := a.Part? && a.cid == cid;
    if cid == 0 then (a, None)
    else if !IsInit(p) then if own then Finish(Continue(a, p), busy || awaiting) else (a, None)
    else if cid == BROADCAST && cmd != CMD_INIT then (a, None)
    else if cmd == CMD_INIT then (if own && bcnt <= INIT_DATA_LEN then Idle else a, None)
    else if cmd == CMD_CANCEL then (if own then Idle else a, None)
    else if busy || awaiting || (a.Part? && !own) then (a, None)
    else if bcnt > MAX_PAYLOAD then (Idle, None)
    else Finish(Begin(p), false)
  }

  ghost predicate Underway(a: Assembly) {
    a.Part? ==>
      && 0 < a.cid < BROADCAST && a.cmd < 0x80 && a.cmd !in {CMD_INIT, CMD_CANCEL}
      && |a.data| < a.total <= MAX_PAYLOAD && |a.data| == INIT_DATA_LEN + CONT_DATA_LEN * a.n
  }

  /** Between packets an assembly is short of its total and its sequence number never wraps. */
  lemma IngestKeeps(a: Assembly, busy: bool, awaiting: bool, p: Packet)
    requires Underway(a)
    ensures var (b, r) := Ingest(a, busy, awaiting, p);
      && Underway(b) && (b.Part? ==> b.n < 0x80)
      && (busy || awaiting ==> r == None)
      && (busy && a.Idle? ==> b.Idle?)
      && (r.Some? ==>
           b.Idle? && 0 < r.value.cid < BROADCAST && r.value.cmd < 0x80 && r.value.cmd !in {CMD_INIT, CMD_CANCEL}
             && |r.value.payload| <= MAX_PAYLOAD)
  {
    hide Num;
  }

  // ----- building packets -----

  function Fill(s: seq<byte>): Packet
    requires |s| <= REPORT_LEN
  {
    s + seq(REPORT_LEN - |s|, _ => 0)
  }

  function InitPacket(cid: nat, cmd: nat, total: nat, data: seq<byte>): Packet
    requires cid <= BROADCAST && INIT_FLAG <= cmd < 0x100 && |data| <= INIT_DATA_LEN
  {
    Fill(Be(cid, 4) + [cmd as byte] + Be(total, 2) + data)
  }

  function ContPacket(cid: nat, n: nat, data: seq<byte>): Packet
    requires cid <= BROADCAST && |data| <= CONT_DATA_LEN
  {
    Fill(Be(cid, 4) + [(n % 0x80) as byte] + data)
  }

  lemma InitParts(cid: nat, cmd: nat, total: nat, data: seq<byte>)
    requires cid <= BROADCAST && INIT_FLAG <= cmd < 0x100 && total < 0x1_0000 && |data| <= INIT_DATA_LEN
    ensures var p := InitPacket(cid, cmd, total, data);
      CidOf(p) == cid && p[4] == cmd as byte && IsInit(p) && Low7(p) == cmd - INIT_FLAG && BcntOf(p) == total
        && p[7..7 + |data|] == data
  {
    hide Num, Be, Pow256;
    PowerValues();
    var p := InitPacket(cid, cmd, total, data);
    assert p[..4] == Be(cid, 4) && p[5..7] == Be(total, 2);
    NumOf2(p[5..7]);
  }

  lemma ContParts(cid: nat, n: nat, data: seq<byte>)
    requires cid <= BROADCAST && n < 0x80 && |data| <= CONT_DATA_LEN
    ensures var p := ContPacket(cid, n, data); CidOf(p) == cid && !IsInit(p) && Low7(p) == n && p[5..5 + |data|] == data
  {
    hide Num, Be, Pow256;
    PowerValues();
    var p := ContPacket(cid, n, data);
    assert p[..4] == Be(cid, 4);
  }

  // ----- cutting a payload up -----

  function Chunk(sent: nat, total: nat): nat
    requires sent <= total
  {
    Min(total - sent, if sent == 0 then INIT_DATA_LEN else CONT_DATA_LEN)
  }

  function MakePacket(cid: nat, cmd: nat, payload: seq<byte>, sent: nat, n: nat): Packet
    requires cid <= BROADCAST && INIT_FLAG <= cmd < 0x100 && sent <= |payload|
  {
    var data := payload[sent..sent + Chunk(sent, |payload|)];
    if sent == 0 then InitPacket(cid, cmd, |payload|, data) else ContPacket(cid, n, data)
  }

  /** The packets still to send once `sent` bytes and `n` CONT packets are out. */
  function PacketsFrom(cid: nat, cmd: nat, payload: seq<byte>, sent: nat, n: nat): (ps: seq<Packet>)
    requires cid <= BROADCAST && INIT_FLAG <= cmd < 0x100 && sent <= |payload|
    ensures ps != []
    decreases |payload| - sent
  {
    var chunk := Chunk(sent, |payload|);
    [MakePacket(cid, cmd, payload, sent, n)] +
      if sent + chunk >= |payload| then []
        else PacketsFrom(cid, cmd, payload, sent + chunk, if sent == 0 then n else n + 1)
  }

  function Packets(cid: nat, cmd: nat, payload: seq<byte>): seq<Packet>
    requires cid <= BROADCAST && INIT_FLAG <= cmd < 0x100
  {
    PacketsFrom(cid, cmd, payload, 0, 0)
  }

  // ----- putting it together again -----

  /** What the packets of one message say: all of them in order and nothing behind. */
  function Reassembled(a: Assembly, ps: seq<Packet>): Option<Request>
    requires a.Part? ==> |a.data| <= a.total
    decreases |ps|
  {
    if a.Idle? then None
    else if |a.data| == a.total then if ps == [] then Some(Request(a.cid, a.cmd, a.data)) else None
    else if ps == [] || IsInit(ps[0]) || CidOf(ps[0]) != a.cid then None
    else Reassembled(Continue(a, ps[0]), ps[1..])
  }

  function Message(ps: seq<Packet>): Option<Request> {
    if ps == [] || !IsInit(ps[0]) then None else Reassembled(Begin(ps[0]), ps[1..])
  }

  lemma {:induction false} TailReassembles(cid: nat, cmd: nat, payload: seq<byte>, sent: nat, n: nat)
    requires cid <= BROADCAST && INIT_FLAG <= cmd < 0x100 && |payload| <= MAX_PAYLOAD
    requires 0 < sent < |payload| && sent == INIT_DATA_LEN + CONT_DATA_LEN * n
    ensures Reassembled(Part(cid, cmd - INIT_FLAG, |payload|, payload[..sent], n),
              PacketsFrom(cid, cmd, payload, sent, n))
      == Some(Request(cid, cmd - INIT_FLAG, payload))
    decreases |payload| - sent
  {
    hide CidOf, Low7, ContPacket;
    var chunk := Chunk(sent, |payload|);
    var a := Part(cid, cmd - INIT_FLAG, |payload|, payload[..sent], n);
    var ps := PacketsFrom(cid, cmd, payload, sent, n);
    ContParts(cid, n, payload[sent..sent + chunk]);
    assert payload[..sent] + payload[sent..sent + chunk] == payload[..sent + chunk];
    assert Continue(a, ps[0]) == a.(data := payload[..sent + chunk], n := n + 1);
    if sent + chunk < |payload| {
      TailReassembles(cid, cmd, payload, sent + chunk, n + 1);
    } else {
      assert payload[..sent + chunk] == payload;
    }
  }

  /** Any payload of up to 2048 bytes survives being cut up and put together. */
  lemma FragmentsReassemble(cid: nat, cmd: nat, payload: seq<byte>)
    requires cid <= BROADCAST && INIT_FLAG <= cmd < 0x100 && |payload| <= MAX_PAYLOAD
    ensures Message(Packets(cid, cmd, payload)) == Some(Request(cid, cmd - INIT_FLAG, payload))
  {
    hide CidOf, Low7, InitPacket, BcntOf;
    var chunk := Chunk(0, |payload|);
    InitParts(cid, cmd, |payload|, payload[..chunk]);
    var ps := Packets(cid, cmd, payload);
    assert Begin(ps[0]) == Part(cid, cmd - INIT_FLAG, |payload|, payload[..chunk], 0);
    if chunk < |payload| {
      TailReassembles(cid, cmd, payload, chunk, 0);
    } else {
      assert payload[..chunk] == payload;
    }
  }

  // ----- a device that gets other channels' packets in between -----

  function FeedAll(a: Assembly, ps: seq<Packet>): (Assembly, seq<Request>)
    requires a.Part? ==> |a.data| <= a.total
    decreases |ps|
  {
    if ps == [] then (a, [])
    else
      var (b, r) := Ingest(a, false, false, ps[0]);
      var (c, rs) := FeedAll(b, ps[1..]);
      (c, if r.Some? then [r.value] + rs else rs)
  }

  lemma Alone(r: Request)
    ensures [r] + [] == [r]
  {
  }

  function Own(ps: seq<Packet>, cid: nat): seq<Packet> {
    if ps == [] then []
    else if CidOf(ps[0]) == cid then [ps[0]] + Own(ps[1..], cid)
    else Own(ps[1..], cid)
  }

  lemma {:induction false} OwnEnd(ps: seq<Packet>, cid: nat)
    requires ps != [] && CidOf(ps[|ps| - 1]) == cid
    ensures Own(ps, cid) != []
    decreases |ps|
  {
    if |ps| > 1 { OwnEnd(ps[1..], cid); }
  }

  lemma {:induction false} RestArrives(a: Assembly, ps: seq<Packet>)
    requires Underway(a) && a.Part?
    requires ps != [] && CidOf(ps[|ps| - 1]) == a.cid && Reassembled(a, Own(ps, a.cid)).Some?
    ensures FeedAll(a, ps) == (Idle, [Reassembled(a, Own(ps, a.cid)).value])
    decreases |ps|
  {
    hide CidOf, BcntOf, Low7;
    var p, own := ps[0], Own(ps, a.cid);
    if CidOf(p) == a.cid {
      assert own[0] == p && own[1..] == Own(ps[1..], a.cid);
      var b := Continue(a, p);
      if |b.data| == b.total {
        if |ps| > 1 { OwnEnd(ps[1..], a.cid); }
        assert ps[1..] == [];
        assert FeedAll(Idle, ps[1..]) == (Idle, []);
        Alone(Request(b.cid, b.cmd, b.data));
      } else {
        RestArrives(b, ps[1..]);
      }
    } else {
      assert own == Own(ps[1..], a.cid);
      RestArrives(a, ps[1..]);
    }
  }

  /**
   A request cut into packets reaches the dispatcher once and byte for byte, whatever packets of
   other channels arrive between its first packet and its last.
   */
  lemma RequestArrives(ps: seq<Packet>, cid: nat, cmd: nat, payload: seq<byte>)
    requires 0 < cid < BROADCAST && cmd < 0x80 && cmd !in {CMD_INIT, CMD_CANCEL} && |payload| <= MAX_PAYLOAD
    requires ps != [] && CidOf(ps[0]) == cid == CidOf(ps[|ps| - 1])
    requires Own(ps, cid) == Packets(cid, INIT_FLAG + cmd, payload)
    ensures FeedAll(Idle, ps) == (Idle, [Request(cid, cmd, payload)])
  {
    hide CidOf, BcntOf, Low7, PacketsFrom, Continue;
    FragmentsReassemble(cid, INIT_FLAG + cmd, payload);
    var own := Own(ps, cid);
    assert own[0] == ps[0] && own[1..] == Own(ps[1..], cid);
    var a := Begin(ps[0]);
    FirstPacket(cid, INIT_FLAG + cmd, payload);
    if |a.data| == a.total {
      if |ps| > 1 { OwnEnd(ps[1..], cid); }
      assert ps[1..] == [];
      assert FeedAll(Idle, ps[1..]) == (Idle, []);
      Alone(Request(a.cid, a.cmd, a.data));
    } else {
      RestArrives(a, ps[1..]);
    }
  }

  lemma FirstPacket(cid: nat, cmd: nat, payload: seq<byte>)
    requires cid <= BROADCAST && INIT_FLAG <= cmd < 0x100 && |payload| <= MAX_PAYLOAD
    ensures Begin(Packets(cid, cmd, payload)[0]) == Part(cid, cmd - INIT_FLAG, |payload|,
              payload[..Chunk(0, |payload|)], 0)
  {
    hide CidOf, Low7, InitPacket, BcntOf;
    InitParts(cid, cmd, |payload|, payload[..Chunk(0, |payload|)]);
  }
}

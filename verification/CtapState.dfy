/**
 What holds of a CTAPHID device between any two of its steps, and which changes keep it.
 */
module CtapState {
  import opened Values
  import opened BigEndian
  import opened CtapFrames
  import opened CtapLog

  const ERR_INVALID_CMD: nat := 0x01
  const ERR_INVALID_LEN: nat := 0x03
  const ERR_INVALID_SEQ: nat := 0x04
  const ERR_CHANNEL_BUSY: nat := 0x06
  const ERR_INVALID_CHANNEL: nat := 0x0B
  const ERR_OTHER: nat := 0x7F

  const INIT_RESP_LEN: nat := 17
  const CAPABILITIES: seq<byte> := [2, 0, 4, 0, 0x0C]  // protocol, device version, flags

  /** Request assembly, one at a time. */
  datatype Incoming = Incoming(assembling: bool, cid: nat, cmd: nat, total: nat, received: nat, nextSeq: nat)

  /** Response emission. */
  datatype Outgoing = Outgoing(pending: bool, cid: nat, cmd: nat, total: nat, sent: nat, n: nat)

  /** The device's variables, the contents of its two buffers and its history. */
  datatype State = State(
    rq: Incoming, req: seq<byte>, rs: Outgoing, resp: seq<byte>, owner: Option<nat>, out: seq<Packet>,
    nextCid: nat, busyCid: nat, running: bool, abandoned: bool, short: Option<Packet>, resync: Option<Packet>,
    awaiting: bool, cancelled: bool, log: Log)

  function Prefix(s: seq<byte>, n: nat): seq<byte> { if n <= |s| then s[..n] else s }

  /** The assembly that the variables describe. */
  function Asm(rq: Incoming, req: seq<byte>): Assembly {
    if rq.assembling then Part(rq.cid, rq.cmd, rq.total, Prefix(req, rq.received), rq.nextSeq) else Idle
  }

  /** The request that waits or runs. */
  function Current(busyCid: nat, rq: Incoming, req: seq<byte>): Request {
    Request(busyCid, rq.cmd, Prefix(req, rq.received))
  }

  // ----- invariant -----

  /** While a request waits or runs no assembly is active and its bytes are those accepted. */
  ghost predicate Owned(q: Request, assembling: bool, running: bool, abandoned: bool, answered: bool, l: Log) {
    && (running || abandoned ==> q.cid != 0)
    && |l.queued| == |l.fate| + (if q.cid != 0 && !running then 1 else 0)
    && (q.cid != 0 ==>
          && !assembling && q.cid < BROADCAST && q.cmd < 0x80 && q.cmd !in {CMD_INIT, CMD_CANCEL}
          && |l.queued| > 0 && l.queued[|l.queued| - 1] == q
          && (|l.queued| - 1 in l.gone) == abandoned
          && (answered || |l.queued| - 1 !in l.answers))
    && (running && !abandoned ==> l.fate[|l.queued| - 1].Dispatched?)
  }

  /** The two packets that may be held. */
  ghost predicate Held(abandoned: bool, busyCid: nat, short: Option<Packet>, resync: Option<Packet>) {
    && (short.Some? ==> Short(short.value)) && (resync.Some? ==> Short(resync.value))
    && (abandoned ==> resync.Some? && CidOf(resync.value) == busyCid)
  }

  /** A pending response: `out` went out, the rest follows from the counters. */
  ghost predicate Reply(rs: Outgoing, payload: seq<byte>, owner: Option<nat>, out: seq<Packet>, l: Log) {
    && rs.cid <= BROADCAST && INIT_FLAG <= rs.cmd < 0x100 && rs.sent <= |payload|
    && (rs.sent == 0 || rs.sent < |payload|)
    && Packets(rs.cid, rs.cmd, payload) == out + PacketsFrom(rs.cid, rs.cmd, payload, rs.sent, rs.n)
    && if owner.Some? then Answering(l, owner.value, rs, payload, out)
       else |payload| <= INIT_DATA_LEN && rs.sent == 0 && rs.cmd in {INIT_FLAG + CMD_INIT, INIT_FLAG + CMD_ERROR}
  }

  ghost predicate Answering(l: Log, i: nat, rs: Outgoing, payload: seq<byte>, out: seq<Packet>) {
    && i in l.answers && i < |l.fate| <= |l.queued| && l.fate[i].Dispatched? && i !in l.gone && |l.about| == |l.wire|
    && rs.cid == l.queued[i].cid && rs.cmd == INIT_FLAG + l.queued[i].cmd && payload == l.answers[i]
    && out == AnswerPackets(l, |l.wire|, i)
  }

  /** The reply to deliver; an answer to an abandoned request, which the main loop is about to discard, is none. */
  function Pending(rs: Outgoing, stale: bool, owner: Option<nat>): Option<nat> {
    if rs.pending && !stale then owner else None
  }

  ghost predicate Promises(rs: Outgoing, resp: seq<byte>, stale: bool, owner: Option<nat>, out: seq<Packet>, l: Log) {
    && LogOk(l) && Delivery(l, Pending(rs, stale, owner))
    && (rs.pending && !stale ==> Reply(rs, Prefix(resp, rs.total), owner, out, l))
  }

  ghost predicate Inv(s: State) {
    && |s.req| == |s.resp| == MAX_PAYLOAD && s.rq.received <= MAX_PAYLOAD && s.rs.total <= MAX_PAYLOAD
    && 1 <= s.nextCid < BROADCAST
    && Underway(Asm(s.rq, s.req))
    && Owned(Current(s.busyCid, s.rq, s.req), s.rq.assembling, s.running, s.abandoned, s.running && s.rs.pending, s.log)
    && Held(s.abandoned, s.busyCid, s.short, s.resync)
    && Promises(s.rs, s.resp, s.running && s.abandoned, s.owner, s.out, s.log)
  }

  // ----- what a packet calls for -----

  function ErrorPacket(cid: nat, err: nat): Packet
    requires cid <= BROADCAST && err < 0x100
  {
    InitPacket(cid, INIT_FLAG + CMD_ERROR, 1, [err as byte])
  }

  function InitAnswer(nonce: seq<byte>, cid: nat): seq<byte> { nonce + Be(cid, 4) + CAPABILITIES }

  function WelcomePacket(to: nat, nonce: seq<byte>, cid: nat): Packet
    requires |nonce| == 8 && to <= BROADCAST
  {
    InitPacket(to, INIT_FLAG + CMD_INIT, INIT_RESP_LEN, InitAnswer(nonce, cid))
  }

  /** The error code a packet is refused with, if it is. */
  function Refusal(a: Assembly, busy: bool, awaiting: bool, p: Packet): Option<nat> {
    var cid, cmd, bcnt := CidOf(p), Low7(p), BcntOf(p);
    var own := a.Part? && a.cid == cid;
    if cid == 0 then Some(ERR_INVALID_CHANNEL)
    else if !IsInit(p) then
      if !own then None
      else if Low7(p) != a.n then Some(ERR_INVALID_SEQ)
      else if awaiting && |a.data| + CONT_DATA_LEN >= a.total then Some(ERR_CHANNEL_BUSY)
      else None
    else if cid == BROADCAST && cmd != CMD_INIT then Some(ERR_INVALID_CHANNEL)
    else if cmd == CMD_INIT then if bcnt != 8 then Some(ERR_INVALID_LEN) else None
    else if cmd == CMD_CANCEL then None
    else if busy || awaiting || (a.Part? && !own) then Some(ERR_CHANNEL_BUSY)
    else if bcnt > MAX_PAYLOAD then Some(ERR_INVALID_LEN)
    else None
  }

  /** `p` is the response, none of it out. */
  ghost predicate IsQueued(t: State, p: Packet) {
    && t.rs.pending && t.owner == None && t.out == [] && t.rs.cid == CidOf(p) <= BROADCAST
    && INIT_FLAG <= t.rs.cmd < 0x100
    && Packets(t.rs.cid, t.rs.cmd, Prefix(t.resp, t.rs.total)) == [p]
  }

  /**
   `p` is queued by an idle device; else it went out last, or is held or queued, or the slot was full, or the host left
   that channel.
   */
  ghost predicate Told(s: State, t: State, p: Packet) {
    || IsQueued(t, p)
    || ((s.busyCid != 0 || s.rs.pending)
        && (|| WentOut(s.log, t.log, p)
            || t.short == Some(p)
            || (s.short.Some? && t.short == s.short)
            || (t.abandoned && CidOf(p) == t.busyCid)))
  }

  predicate SameReply(s: State, t: State) { t.rs == s.rs && t.resp == s.resp && t.owner == s.owner && t.out == s.out }

  /** What any packet leaves alone: the bytes of the request that waits or runs, and the response buffer under it. */
  ghost predicate Undisturbed(s: State, t: State) {
    && t.busyCid == s.busyCid && t.running == s.running && t.awaiting == s.awaiting
    && (s.busyCid != 0 ==> t.rq == s.rq && t.req == s.req && t.resp == s.resp && (t.rs.pending ==> s.rs.pending))
  }

  /** INIT with a nonce on channel `cid`, answered by `p`. */
  ghost predicate Resynced(s: State, t: State, cid: nat, p: Packet) {
    && Undisturbed(s, t) && Grew(s.log, t.log) && t.log.queued == s.log.queued
    && t.abandoned == (s.abandoned || cid == s.busyCid)
    && t.cancelled == (s.cancelled || (cid == s.busyCid && s.running))
    && (s.rs.pending ==> SameReply(s, t) || cid == s.rs.cid != s.busyCid)
    && (s.rs.pending && cid == s.rs.cid && s.busyCid !in {0, cid} ==> !t.rs.pending)
    && if cid == s.busyCid then t.resync == Some(p) else Told(s, t, p)
  }

  /** A packet that is refused with `p`, or an INIT that allocates a channel. */
  ghost predicate Aside(s: State, t: State, p: Packet) {
    && Undisturbed(s, t) && Quietly(s.log, t.log)
    && t.rq == s.rq && t.req == s.req && t.abandoned == s.abandoned && t.cancelled == s.cancelled
    && (s.busyCid != 0 || s.rs.pending ==> SameReply(s, t)) && Told(s, t, p)
  }

  /** CTAPHID_INIT. */
  ghost predicate InitHandled(s: State, t: State, cid: nat, payload: seq<byte>)
    requires cid <= BROADCAST
  {
    if |payload| != 8 then Aside(s, t, ErrorPacket(cid, ERR_INVALID_LEN))
    else if cid == BROADCAST then Aside(s, t, WelcomePacket(BROADCAST, payload, s.nextCid))
    else Resynced(s, t, cid, WelcomePacket(cid, payload, cid)) && Restarted(s, t, cid)
  }

  /** The assembly is gone if it was that of channel `cid`, and untouched otherwise. */
  ghost predicate Restarted(s: State, t: State, cid: nat) {
    if s.rq.assembling && s.rq.cid == cid then !t.rq.assembling else t.rq == s.rq && t.req == s.req
  }

  /** The host leaves the rest of the pending answer. */
  predicate Drops(s: State, p: Packet) { Resync(p, s.rs.cid) && 0 < s.rs.cid < BROADCAST && s.rs.cid != s.busyCid }

  /** The host leaves the busy request, cancels its touch wait, or leaves the rest of an answer; nothing else does. */
  ghost predicate LeftBy(s: State, t: State, p: Packet) {
    && t.abandoned == (s.abandoned || (s.busyCid != 0 && Resync(p, s.busyCid)))
    && t.cancelled == (s.cancelled
         || (s.running && CidOf(p) == s.busyCid && IsInit(p) && (Low7(p) == CMD_CANCEL || Resync(p, s.busyCid))))
    && (s.rs.pending ==> if Drops(s, p) then s.busyCid != 0 ==> !t.rs.pending else SameReply(s, t))
  }

  /** Who must be told of an error is, and every INIT with a nonce is answered with the nonce and a channel. */
  ghost predicate Replied(s: State, t: State, p: Packet) {
    var e := Refusal(Asm(s.rq, s.req), s.busyCid != 0, s.awaiting, p);
    && (e.Some? ==> e.value < 0x100 && Told(s, t, ErrorPacket(CidOf(p), e.value)))
    && (0 < CidOf(p) && Resync(p, CidOf(p)) ==>
          var w := WelcomePacket(CidOf(p), p[7..15], if CidOf(p) == BROADCAST then s.nextCid else CidOf(p));
          if CidOf(p) == s.busyCid then t.resync == Some(w) else Told(s, t, w))
  }

  /** One packet: exactly what Ingest says becomes of the assembly, and a busy request is left in peace. */
  ghost predicate Ingested(s: State, t: State, p: Packet)
    requires Underway(Asm(s.rq, s.req))
  {
    var (a, r) := Ingest(Asm(s.rq, s.req), s.busyCid != 0, s.awaiting, p);
    && Asm(t.rq, t.req) == a && t.log.queued == s.log.queued + (if r.Some? then [r.value] else [])
    && t.busyCid == (if r.Some? then r.value.cid else s.busyCid)
    && t.running == s.running && t.awaiting == s.awaiting && Grew(s.log, t.log)
    && (s.busyCid != 0 ==> t.rq == s.rq && t.req == s.req && t.resp == s.resp && (t.rs.pending ==> s.rs.pending))
    && LeftBy(s, t, p) && Replied(s, t, p)
  }

  /** A complete request: refused during a touch wait, else accepted with the bytes assembled. */
  ghost predicate Completed(s: State, t: State, cid: nat)
    requires cid <= BROADCAST
  {
    && t.running == s.running && t.awaiting == s.awaiting && t.abandoned == s.abandoned && t.cancelled == s.cancelled
    && (s.rs.pending ==> SameReply(s, t))
    && if s.awaiting then
         t.busyCid == s.busyCid && Quietly(s.log, t.log) && Told(s, t, ErrorPacket(cid, ERR_CHANNEL_BUSY))
       else
         && t.busyCid == cid && Grew(s.log, t.log)
         && t.log == Queued(s.log, Request(cid, s.rq.cmd, Prefix(s.req, s.rq.received)))
  }

  // ----- packets -----

  lemma ShortAnswer(cid: nat, cmd: nat, payload: seq<byte>)
    requires cid <= BROADCAST && cmd in {INIT_FLAG + CMD_INIT, INIT_FLAG + CMD_ERROR} && |payload| <= INIT_DATA_LEN
    ensures Short(InitPacket(cid, cmd, |payload|, payload)) && CidOf(InitPacket(cid, cmd, |payload|, payload)) == cid
  {
    InitParts(cid, cmd, |payload|, payload);
  }

  lemma WelcomeIsShort(to: nat, nonce: seq<byte>, cid: nat)
    requires |nonce| == 8 && to <= BROADCAST
    ensures |InitAnswer(nonce, cid)| == INIT_RESP_LEN && Short(WelcomePacket(to, nonce, cid))
    ensures CidOf(WelcomePacket(to, nonce, cid)) == to
  {
    ShortAnswer(to, INIT_FLAG + CMD_INIT, InitAnswer(nonce, cid));
  }

  lemma OnePacket(cid: nat, cmd: nat, payload: seq<byte>)
    requires cid <= BROADCAST && INIT_FLAG <= cmd < 0x100 && |payload| <= INIT_DATA_LEN
    ensures Packets(cid, cmd, payload) == [InitPacket(cid, cmd, |payload|, payload)]
  {
    hide InitPacket;
    assert payload[0..|payload|] == payload;
  }

  // ----- changes that keep the invariant -----

  lemma SameLengths(l: Log)
    requires LogOk(l)
    ensures |l.about| == |l.wire| && |l.fate| <= |l.queued|
  {
  }

  lemma StillPromises(rs: Outgoing, resp: seq<byte>, stale: bool, owner: Option<nat>, out: seq<Packet>, l: Log,
          p: Packet, i: Option<nat>)
    requires Promises(rs, resp, stale, owner, out, l) && MayGo(l, p, i) && (i == None || KeepAlive(p))
    ensures Promises(rs, resp, stale, owner, out, Took(l, p, i))
  {
    hide LogOk, Delivery, Packets, PacketsFrom, AnswerPackets, KeepAlive, MayGo, Prefix;
    SameLengths(l);
    TookKeeps(l, p, i);
    TookDelivers(l, p, i, Pending(rs, stale, owner));
    if Pending(rs, stale, owner).Some? { TookAnswers(l, p, i, owner.value); }
  }

  /** A one-packet answer or a KEEPALIVE goes out. */
  lemma Pushed(s: State, p: Packet, i: Option<nat>)
    requires Inv(s) && MayGo(s.log, p, i) && (i == None || KeepAlive(p))
    ensures Inv(s.(log := Took(s.log, p, i)))
  {
    hide Promises, Underway, Asm, Held, MayGo, KeepAlive;
    StillPromises(s.rs, s.resp, s.running && s.abandoned, s.owner, s.out, s.log, p, i);
  }

  /** The held packets. */
  lemma Released(s: State, short: Option<Packet>, resync: Option<Packet>)
    requires Inv(s) && (short.Some? ==> Short(short.value)) && (resync.Some? ==> Short(resync.value))
    requires s.abandoned ==> resync.Some? && CidOf(resync.value) == s.busyCid
    ensures Inv(s.(short := short, resync := resync))
  {
    hide Promises, Underway, Asm, Owned, CidOf, Short;
  }

  lemma HeldAreShort(s: State)
    requires Inv(s)
    ensures (s.short.Some? ==> Short(s.short.value)) && (s.resync.Some? ==> Short(s.resync.value))
    ensures s.abandoned ==> s.resync.Some? && CidOf(s.resync.value) == s.busyCid
  {
  }

  /** A one-packet answer takes the response buffer of an idle device. */
  lemma ShortQueued(s: State, t: State)
    requires Inv(s) && !s.rs.pending && s.busyCid == 0 && |t.resp| == MAX_PAYLOAD
    requires t.rs.pending && t.rs.sent == 0 && t.rs.n == 0 && t.rs.total <= INIT_DATA_LEN && t.owner == None
    requires t.out == []
    requires t.rs.cid <= BROADCAST && t.rs.cmd in {INIT_FLAG + CMD_INIT, INIT_FLAG + CMD_ERROR}
    requires t == s.(rs := t.rs, resp := t.resp, owner := None, out := [])
    ensures Inv(t) && Told(s, t, InitPacket(t.rs.cid, t.rs.cmd, t.rs.total, t.resp[..t.rs.total]))
  {
    hide LogOk, Delivery, PacketsFrom, InitPacket, CidOf, Underway, Asm;
    OnePacket(t.rs.cid, t.rs.cmd, t.resp[..t.rs.total]);
    ShortAnswer(t.rs.cid, t.rs.cmd, t.resp[..t.rs.total]);
    var payload := t.resp[..t.rs.total];
    assert Packets(t.rs.cid, t.rs.cmd, payload) == [] + PacketsFrom(t.rs.cid, t.rs.cmd, payload, 0, 0);
  }

  function WithAnswer(l: Log, payload: seq<byte>): Log
    requires |l.queued| > 0
  {
    l.(answers := l.answers[|l.queued| - 1 := payload])
  }

  lemma AnswerStarts(l: Log, payload: seq<byte>)
    requires LogOk(l) && Delivery(l, None) && |l.queued| > 0 && |l.queued| - 1 !in l.answers && |payload| <= MAX_PAYLOAD
    requires |l.fate| == |l.queued| && l.fate[|l.queued| - 1].Dispatched?
    requires var q := l.queued[|l.queued| - 1]; q.cid <= BROADCAST && q.cmd in {CMD_PING, CMD_MSG, CMD_CBOR}
    ensures var i := |l.queued| - 1; var m := WithAnswer(l, payload);
      LogOk(m) && Delivery(m, Some(i)) && AnswerPackets(m, |m.wire|, i) == []
  {
    hide CidOf, Short, Packets, KeepAlive;
    var i := |l.queued| - 1;
    var m := WithAnswer(l, payload);
    NoAnswerYet(l, |l.wire|, i);
    forall j: nat ensures AnswerPackets(m, |m.wire|, j) == AnswerPackets(l, |l.wire|, j) {
      PrefixAnswers(l, m, |l.wire|, j);
    }
    forall k | 0 <= k < |m.wire| && m.about[k].Some? ensures OneAbout(m, m.about[k].value, m.wire[k], k) {
      assert OneAbout(l, l.about[k].value, l.wire[k], k);
    }
    forall j | j in l.answers ensures Whole(m, j) == Whole(l, j) {}
  }

  /** What is known of the request that waits or runs. */
  lemma RunsFor(s: State)
    requires Inv(s) && (s.busyCid != 0 || s.running)
    ensures |s.log.queued| > 0 && 0 < s.busyCid < BROADCAST && s.rq.cmd < 0x80 && s.rq.cmd !in {CMD_INIT, CMD_CANCEL}
    ensures s.rq.received <= MAX_PAYLOAD == |s.req|
    ensures s.log.queued[|s.log.queued| - 1] == Current(s.busyCid, s.rq, s.req) && !s.rq.assembling
    ensures (|s.log.queued| - 1 in s.log.gone) == s.abandoned
    ensures |s.log.fate| == |s.log.queued| - (if s.running then 0 else 1)
    ensures s.running ==> |s.log.fate| == |s.log.queued|
    ensures s.running && !s.abandoned ==>
              s.log.fate[|s.log.queued| - 1].Dispatched? && |s.log.queued| - 1 !in s.log.gone
  {
  }

  lemma AssemblingIsFree(s: State)
    requires Inv(s) && s.rq.assembling
    ensures s.busyCid == 0 && !s.running && !s.abandoned
  {
  }

  /** The running request gets its answer. */
  lemma Answered(s: State, t: State)
    requires Inv(s) && !s.rs.pending && s.running && !s.abandoned && |t.resp| == MAX_PAYLOAD
    requires t.rs.total <= MAX_PAYLOAD
    requires t.rs.pending && t.rs.sent == 0 && t.rs.n == 0 && t.rs.cid == s.busyCid && t.rs.cmd == INIT_FLAG + s.rq.cmd
    requires s.rq.cmd in {CMD_PING, CMD_MSG, CMD_CBOR}
    requires |s.log.queued| > 0 && t.owner == Some(|s.log.queued| - 1) && t.out == []
    requires t == s.(rs := t.rs, resp := t.resp, owner := t.owner, out := [],
              log := WithAnswer(s.log, t.resp[..t.rs.total]))
    ensures Inv(t)
  {
    hide LogOk, Delivery, PacketsFrom, AnswerPackets, CidOf, Underway, Asm, Short;
    var answer := t.resp[..t.rs.total];
    SameLengths(s.log);
    AnswerStarts(s.log, answer);
    SameLengths(t.log);
    assert Packets(t.rs.cid, t.rs.cmd, answer) == [] + PacketsFrom(t.rs.cid, t.rs.cmd, answer, 0, 0);
  }

  /** The busy request is left by its host, and the answer to that INIT is held. */
  lemma Abandoned(s: State, t: State, p: Packet)
    requires Inv(s) && s.busyCid != 0 && (s.running ==> !s.rs.pending) && Short(p) && CidOf(p) == s.busyCid
    requires t.short in {s.short, None}
    requires |s.log.queued| > 0
    requires t == s.(abandoned := true, cancelled := t.cancelled, short := t.short, resync := Some(p),
              log := Left(s.log, |s.log.queued| - 1))
    ensures Inv(t) && Grew(s.log, t.log)
  {
    hide LogOk, Delivery, Packets, PacketsFrom, AnswerPackets, Prefix, Grew, Short, CidOf, Underway, Asm;
    SameLengths(s.log);
    var i := |s.log.queued| - 1;
    LeftBehind(s.log, i, Pending(s.rs, s.running && s.abandoned, s.owner));
    if s.rs.pending && s.owner.Some? { PrefixAnswers(s.log, t.log, |s.log.wire|, s.owner.value); }
  }

  /** The rest of an answer is dropped, its host left. */
  lemma Discarded(s: State, t: State)
    requires Inv(s) && s.rs.pending && !s.running
    requires t == s.(rs := s.rs.(pending := false), log := if s.owner.Some? then Left(s.log, s.owner.value) else s.log)
    ensures Inv(t) && Grew(s.log, t.log)
  {
    hide LogOk, Delivery, Packets, PacketsFrom, AnswerPackets, Prefix, Grew, Short, CidOf, Underway, Asm;
    GrewFrom(s.log);
    if s.owner.Some? { LeftBehind(s.log, s.owner.value, s.owner); }
  }

  function Queued(l: Log, q: Request): Log { l.(queued := l.queued + [q]) }

  /** Requests accepted or taken up: the history so far stays true. */
  ghost predicate Extends(l: Log, m: Log) {
    && m == l.(queued := m.queued, fate := m.fate) && l.queued <= m.queued && l.fate <= m.fate && |m.fate| <= |m.queued|
    && (forall i :: |l.fate| <= i < |m.fate| && m.fate[i].Dispatched? ==> m.fate[i].request == m.queued[i])
  }

  lemma ExtendsKeepsLog(l: Log, m: Log)
    requires LogOk(l) && Extends(l, m)
    ensures LogOk(m)
  {
    hide CidOf, Short, KeepAlive;
    forall k | 0 <= k < |m.wire| && m.about[k].Some? ensures OneAbout(m, m.about[k].value, m.wire[k], k) {
      assert OneAbout(l, l.about[k].value, l.wire[k], k);
    }
  }

  lemma ExtendsKeepsDelivery(l: Log, m: Log, pending: Option<nat>)
    requires Delivery(l, pending) && Extends(l, m)
    ensures Delivery(m, pending)
  {
    hide Packets, KeepAlive;
    forall j: nat ensures AnswerPackets(m, |m.wire|, j) == AnswerPackets(l, |l.wire|, j) {
      PrefixAnswers(l, m, |l.wire|, j);
    }
    hide AnswerPackets, Whole;
    SameWhole(l, m);
  }

  /** One more request is accepted. */
  lemma Accepted(s: State, t: State)
    requires Inv(s) && s.busyCid == 0 && 0 < t.busyCid < BROADCAST && !s.rq.assembling && s.rq.cmd < 0x80
    requires s.rq.cmd !in {CMD_INIT, CMD_CANCEL}
    requires t == s.(busyCid := t.busyCid, log := Queued(s.log, Current(t.busyCid, s.rq, s.req)))
    ensures Inv(t) && Grew(s.log, t.log)
  {
    hide LogOk, Delivery, Packets, PacketsFrom, AnswerPackets, Prefix, Grew, Short, CidOf, Underway, Asm;
    SameLengths(s.log);
    OwnsNothing(s);
    ExtendsKeepsLog(s.log, t.log);
    ExtendsKeepsDelivery(s.log, t.log, Pending(s.rs, s.running && s.abandoned, s.owner));
    if s.rs.pending && s.owner.Some? { PrefixAnswers(s.log, t.log, |s.log.wire|, s.owner.value); }
    GrewQueued(s.log, Current(t.busyCid, s.rq, s.req));
    Unanswered(s.log, Pending(s.rs, s.running && s.abandoned, s.owner));
  }

  lemma GrewQueued(l: Log, q: Request)
    ensures Grew(l, Queued(l, q))
  {
  }

  lemma OwnsNothing(s: State)
    requires Inv(s) && s.busyCid == 0
    ensures !s.running && !s.abandoned && |s.log.queued| == |s.log.fate|
  {
  }

  /** The next request has no history yet. */
  lemma Unanswered(l: Log, pending: Option<nat>)
    requires LogOk(l) && Delivery(l, pending)
    ensures |l.queued| !in l.answers && |l.queued| !in l.gone
  {
  }

  /** The assembly variables are free while no request waits or runs. */
  lemma Unowned(s: State, t: State)
    requires Inv(s) && s.busyCid == 0 && |t.req| == MAX_PAYLOAD && t.rq.received <= MAX_PAYLOAD
    requires Underway(Asm(t.rq, t.req))
    requires t == s.(rq := t.rq, req := t.req)
    ensures Inv(t)
  {
    hide Promises, Underway, Asm, CidOf, Short;
  }

  lemma ChannelIsValid(s: State)
    requires Inv(s)
    ensures 1 <= s.nextCid < BROADCAST && s.busyCid != BROADCAST
  {
  }

  lemma ChannelGiven(s: State, next: nat)
    requires Inv(s) && 1 <= next < BROADCAST
    ensures Inv(s.(nextCid := next))
  {
    hide Promises, Underway, Asm, Owned, Held;
  }

  // ----- composing steps -----

  lemma QuietGrew(l: Log, m: Log)
    requires Quietly(l, m)
    ensures Grew(l, m) && m.queued == l.queued && |l.wire| <= |m.wire|
  {
  }

  lemma NobodyListens(s: State, cid: nat, cmd: nat, payload: seq<byte>)
    requires Inv(s) && s.abandoned && cid == s.busyCid
    requires cid <= BROADCAST && cmd in {INIT_FLAG + CMD_INIT, INIT_FLAG + CMD_ERROR} && |payload| <= INIT_DATA_LEN
    ensures Told(s, s, InitPacket(cid, cmd, |payload|, payload))
  {
    ShortAnswer(cid, cmd, payload);
  }

  lemma WentOutTold(s: State, t: State, l: Log, p: Packet)
    requires (s.busyCid != 0 || s.rs.pending) && Quietly(s.log, l) && WentOut(l, t.log, p)
    ensures Told(s, t, p)
  {
  }

  lemma ToldSince(s: State, m: State, t: State, p: Packet)
    requires Told(m, t, p) && |s.log.wire| <= |m.log.wire| && m.short in {s.short, None}
    requires m.busyCid == s.busyCid && (m.rs.pending ==> s.rs.pending)
    ensures Told(s, t, p)
  {
    hide CidOf, Packets, Prefix;
  }

  lemma LeftByInit(s: State, t: State, cid: nat, p: Packet)
    requires t.busyCid == s.busyCid == cid && t.running == s.running && t.awaiting == s.awaiting && t.rq == s.rq
    requires t.req == s.req && SameReply(s, t)
    requires Grew(s.log, t.log) && t.log.queued == s.log.queued && t.abandoned
    requires t.cancelled == (s.cancelled || s.running) && t.resync == Some(p)
    ensures Resynced(s, t, cid, p)
  {
  }

  lemma ResyncedSince(s: State, m: State, t: State, cid: nat, p: Packet)
    requires Resynced(m, t, cid, p) && cid != s.busyCid && (s.busyCid != 0 ==> m.rq == s.rq && m.req == s.req)
    requires m == s.(rq := m.rq, req := m.req, short := m.short, resync := m.resync) && m.short in {s.short, None}
    ensures Resynced(s, t, cid, p)
  {
    hide Told, Grew;
    ToldSince(s, m, t, p);
  }

  lemma AsideKeeps(s: State, t: State, p: Packet)
    requires Aside(s, t, p)
    ensures t.busyCid == s.busyCid && t.rq == s.rq && t.req == s.req
  {
  }

  lemma RefusedComplete(s: State, m: State, n: State, t: State, cid: nat)
    requires s.awaiting && cid <= BROADCAST && m == s.(rq := m.rq)
    requires Aside(m, n, ErrorPacket(cid, ERR_CHANNEL_BUSY)) && t == n.(rq := t.rq, req := t.req)
    ensures Completed(s, t, cid)
  {
    hide InitPacket;
  }

  // ----- one packet, whatever it is -----

  lemma Between(s: State)
    requires Inv(s)
    ensures Underway(Asm(s.rq, s.req))
  {
  }

  lemma NothingHappens(s: State, p: Packet)
    requires Inv(s) && Ingest(Asm(s.rq, s.req), s.busyCid != 0, s.awaiting, p) == (Asm(s.rq, s.req), None)
    requires Refusal(Asm(s.rq, s.req), s.busyCid != 0, s.awaiting, p) == None
    requires !(IsInit(p) && Low7(p) in {CMD_INIT, CMD_CANCEL})
    ensures Ingested(s, s, p)
  {
    hide Refusal, Ingest, CidOf, BcntOf, Low7;
    GrewFrom(s.log);
  }

  /** No channel is number 0, so nothing on it resynchronises or cancels. */
  lemma IsRefusedOnZero(s: State, t: State, p: Packet)
    requires Inv(s) && CidOf(p) == 0 && Aside(s, t, ErrorPacket(0, ERR_INVALID_CHANNEL))
    ensures Ingested(s, t, p)
  {
    hide Low7, BcntOf, InitPacket, Told, Asm, CidOf;
    if s.running { RunsFor(s); }
    QuietGrew(s.log, t.log);
  }

  /** The assembly may be dropped first. */
  lemma IsRefused(s: State, m: State, t: State, p: Packet, err: nat)
    requires Inv(s) && err < 0x100 && m == s.(rq := m.rq, req := m.req) && Aside(m, t, ErrorPacket(CidOf(p), err))
    requires (s.busyCid != 0 ==> m == s)
    requires Ingest(Asm(s.rq, s.req), s.busyCid != 0, s.awaiting, p) == (Asm(m.rq, m.req), None)
    requires Refusal(Asm(s.rq, s.req), s.busyCid != 0, s.awaiting, p) == Some(err)
    requires IsInit(p) && Low7(p) == CMD_INIT ==> BcntOf(p) != 8
    requires IsInit(p) && Low7(p) == CMD_CANCEL ==> CidOf(p) != s.busyCid || !s.running
    ensures Ingested(s, t, p)
  {
    hide Refusal, Ingest, CidOf, BcntOf, Low7, InitPacket, Told, Asm;
    QuietGrew(s.log, t.log);
    ToldSince(s, m, t, ErrorPacket(CidOf(p), err));
  }

  lemma MoreArrived(s: State, t: State, p: Packet)
    requires Inv(s) && t == s.(rq := t.rq, req := t.req) && s.busyCid == 0
    requires Ingest(Asm(s.rq, s.req), s.busyCid != 0, s.awaiting, p) == (Asm(t.rq, t.req), None)
    requires Refusal(Asm(s.rq, s.req), s.busyCid != 0, s.awaiting, p) == None
    requires !(IsInit(p) && Low7(p) in {CMD_INIT, CMD_CANCEL})
    ensures Ingested(s, t, p)
  {
    hide Refusal, Ingest, CidOf, BcntOf, Low7, Asm;
    GrewFrom(s.log);
  }

  lemma AllArrived(s: State, m: State, t: State, p: Packet)
    requires Inv(s) && m == s.(rq := m.rq, req := m.req) && s.busyCid == 0 && !t.rq.assembling
    requires !(IsInit(p) && Low7(p) in {CMD_INIT, CMD_CANCEL})
    requires Completed(m, t, CidOf(p))
    requires Ingest(Asm(s.rq, s.req), false, s.awaiting, p) ==
      (Idle, if s.awaiting then None else Some(Request(CidOf(p), m.rq.cmd, Prefix(m.req, m.rq.received))))
    requires Refusal(Asm(s.rq, s.req), false, s.awaiting, p) == if s.awaiting then Some(ERR_CHANNEL_BUSY) else None
    ensures Ingested(s, t, p)
  {
    hide Refusal, Ingest, CidOf, BcntOf, Low7, InitPacket, Told, Prefix;
    if s.awaiting {
      QuietGrew(s.log, t.log);
      ToldSince(s, m, t, ErrorPacket(CidOf(p), ERR_CHANNEL_BUSY));
    }
  }

  lemma InitDone(s: State, m: State, t: State, p: Packet)
    requires Inv(s) && 0 < CidOf(p) && IsInit(p) && Low7(p) == CMD_INIT && BcntOf(p) <= INIT_DATA_LEN
    requires m == s.(rq := m.rq, req := m.req)
    requires Restarted(s, m, CidOf(p)) && (s.busyCid != 0 ==> m == s)
    requires InitHandled(m, t, CidOf(p), p[7..7 + BcntOf(p)])
    ensures Ingested(s, t, p)
  {
    hide CidOf, BcntOf, Low7, InitPacket, InitAnswer, Told, Prefix, Aside, Resynced;
    ChannelIsValid(s);
    var cid, nonce := CidOf(p), p[7..7 + BcntOf(p)];
    InitIngests(s, m, p);
    hide Ingest, Refusal, Asm, Inv;
    if |nonce| != 8 {
      InitAside(s, m, t, p, ErrorPacket(cid, ERR_INVALID_LEN));
    } else if cid == BROADCAST {
      InitAside(s, m, t, p, WelcomePacket(BROADCAST, nonce, s.nextCid));
    } else {
      hide Restarted;
      InitAnswered(s, m, t, p, WelcomePacket(cid, nonce, cid));
    }
  }

  /** An INIT of acceptable length drops its own channel's assembly and nothing else; only its length can be wrong. */
  lemma InitIngests(s: State, m: State, p: Packet)
    requires Inv(s) && 0 < CidOf(p) && IsInit(p) && Low7(p) == CMD_INIT && BcntOf(p) <= INIT_DATA_LEN
    requires Restarted(s, m, CidOf(p))
    ensures Ingest(Asm(s.rq, s.req), s.busyCid != 0, s.awaiting, p) == (Asm(m.rq, m.req), None)
    ensures Refusal(Asm(s.rq, s.req), s.busyCid != 0, s.awaiting, p) == if BcntOf(p) != 8 then Some(ERR_INVALID_LEN)
              else None
  {
    hide CidOf, BcntOf, Low7, Prefix;
  }

  lemma InitAside(s: State, m: State, t: State, p: Packet, answer: Packet)
    requires 0 < CidOf(p) && IsInit(p) && Low7(p) == CMD_INIT && m == s.(rq := m.rq, req := m.req)
    requires (s.busyCid != 0 ==> m == s)
    requires Aside(m, t, answer) && Underway(Asm(s.rq, s.req))
    requires Ingest(Asm(s.rq, s.req), s.busyCid != 0, s.awaiting, p) == (Asm(m.rq, m.req), None)
    requires Refusal(Asm(s.rq, s.req), s.busyCid != 0, s.awaiting, p) == if BcntOf(p) != 8 then Some(ERR_INVALID_LEN)
              else None
    requires if BcntOf(p) != 8 then answer == ErrorPacket(CidOf(p), ERR_INVALID_LEN)
             else CidOf(p) == BROADCAST != s.busyCid && answer == WelcomePacket(BROADCAST, p[7..15], s.nextCid)
    ensures Ingested(s, t, p)
  {
    hide CidOf, BcntOf, Low7, InitPacket, InitAnswer, Told, Ingest, Refusal, Asm, Underway;
    QuietGrew(s.log, t.log);
    ToldSince(s, m, t, answer);
  }

  lemma InitAnswered(s: State, m: State, t: State, p: Packet, welcome: Packet)
    requires 0 < CidOf(p) < BROADCAST && IsInit(p) && Low7(p) == CMD_INIT && BcntOf(p) == 8
    requires m == s.(rq := m.rq, req := m.req) && (s.busyCid != 0 ==> m == s)
    requires Resynced(m, t, CidOf(p), welcome) && t.rq == m.rq && t.req == m.req && Underway(Asm(s.rq, s.req))
    requires Ingest(Asm(s.rq, s.req), s.busyCid != 0, s.awaiting, p) == (Asm(m.rq, m.req), None)
    requires Refusal(Asm(s.rq, s.req), s.busyCid != 0, s.awaiting, p) == None
    requires welcome == WelcomePacket(CidOf(p), p[7..15], CidOf(p))
    ensures Ingested(s, t, p)
  {
    hide CidOf, BcntOf, Low7, InitPacket, InitAnswer, Told, Ingest, Refusal, Asm, Underway, Grew;
    if CidOf(p) != s.busyCid {
      SameWireAs(s, m);
      ToldSince(s, m, t, welcome);
    }
  }

  lemma SameWireAs(s: State, m: State)
    requires m == s.(rq := m.rq, req := m.req)
    ensures |s.log.wire| <= |m.log.wire| && m.short in {s.short, None}
  {
  }

  /** The next CONT packet of the assembly in these variables. */
  lemma ContinueAsm(s: State, t: State, p: Packet)
    requires Inv(s) && s.rq.assembling && CidOf(p) == s.rq.cid && !IsInit(p) && Low7(p) == s.rq.nextSeq
    requires t == s.(rq := t.rq, req := t.req)
    requires var chunk := Min(s.rq.total - s.rq.received, CONT_DATA_LEN);
      && t.rq == s.rq.(nextSeq := s.rq.nextSeq + 1, received := s.rq.received + chunk) && |t.req| == MAX_PAYLOAD
      && Prefix(t.req, t.rq.received) == Prefix(s.req, s.rq.received) + p[5..5 + chunk]
    ensures t.rq.received <= t.rq.total <= MAX_PAYLOAD
    ensures Ingest(Asm(s.rq, s.req), false, s.awaiting, p) ==
      if t.rq.received < t.rq.total then (Asm(t.rq, t.req), None)
      else (Idle, if s.awaiting then None else Some(Request(t.rq.cid, t.rq.cmd, Prefix(t.req, t.rq.received))))
    ensures Refusal(Asm(s.rq, s.req), false, s.awaiting, p) == if s.awaiting && t.rq.received >= t.rq.total then
              Some(ERR_CHANNEL_BUSY) else None
    ensures if t.rq.received < t.rq.total then Inv(t) else Inv(t.(rq := t.rq.(assembling := false, cid := 0)))
    ensures 0 < s.rq.cid < BROADCAST && s.rq.cmd < 0x80 && s.rq.cmd !in {CMD_INIT, CMD_CANCEL}
    ensures s.rq.received < s.rq.total <= MAX_PAYLOAD
  {
    hide CidOf, Low7, BcntOf, Promises, Held, Owned;
    AssemblingIsFree(s);
    Unowned(s, if t.rq.received < t.rq.total then t else t.(rq := t.rq.(assembling := false, cid := 0)));
  }

  lemma WrongSequence(s: State, p: Packet)
    requires Inv(s) && s.rq.assembling && CidOf(p) == s.rq.cid && !IsInit(p) && Low7(p) != s.rq.nextSeq
    ensures Ingest(Asm(s.rq, s.req), false, s.awaiting, p) == (Idle, None)
    ensures Refusal(Asm(s.rq, s.req), false, s.awaiting, p) == Some(ERR_INVALID_SEQ)
  {
    hide CidOf, Low7, BcntOf;
  }

  lemma StrayPacket(s: State, p: Packet)
    requires Inv(s) && CidOf(p) != 0 && !IsInit(p) && (s.rq.assembling ==> CidOf(p) != s.rq.cid)
    ensures Ingested(s, s, p)
  {
    hide CidOf, Low7, BcntOf;
    assert Ingest(Asm(s.rq, s.req), s.busyCid != 0, s.awaiting, p) == (Asm(s.rq, s.req), None);
    NothingHappens(s, p);
  }

  lemma HasRoom(s: State)
    requires Inv(s) && s.rq.assembling
    ensures s.rq.received < s.rq.total <= MAX_PAYLOAD
  {
  }

  lemma CancelDone(s: State, t: State, p: Packet)
    requires Inv(s) && 0 < CidOf(p) < BROADCAST && IsInit(p) && Low7(p) == CMD_CANCEL
    requires t == s.(rq := t.rq, req := t.req, cancelled := s.cancelled || (CidOf(p) == s.busyCid && s.running))
    requires Restarted(s, t, CidOf(p)) && (s.busyCid != 0 ==> t.rq == s.rq && t.req == s.req)
    ensures Ingested(s, t, p)
  {
    hide CidOf, Low7, BcntOf, Prefix;
    GrewFrom(s.log);
  }

  /** A first packet that the device takes up. */
  lemma BeginAsm(s: State, t: State, p: Packet)
    requires Inv(s) && 0 < CidOf(p) < BROADCAST && IsInit(p) && Low7(p) !in {CMD_INIT, CMD_CANCEL}
    requires BcntOf(p) <= MAX_PAYLOAD
    requires s.busyCid == 0 && !s.awaiting && (s.rq.assembling ==> CidOf(p) == s.rq.cid)
    requires t == s.(rq := t.rq, req := t.req)
    requires var avail := Min(BcntOf(p), INIT_DATA_LEN);
      && t.rq == Incoming(s.rq.assembling, CidOf(p), Low7(p), BcntOf(p), avail, 0) && |t.req| == MAX_PAYLOAD
      && Prefix(t.req, avail) == p[7..7 + avail]
    ensures Refusal(Asm(s.rq, s.req), false, false, p) == None
    ensures Low7(p) < 0x80 && Inv(t.(rq := t.rq.(assembling := false, cid := 0)))
    ensures var u := t.(rq := t.rq.(assembling := true));
      if t.rq.received < t.rq.total then Inv(u) && Ingest(Asm(s.rq, s.req), false, false, p) == (Asm(u.rq, u.req), None)
      else Ingest(Asm(s.rq, s.req), false, false, p) == (Idle,
        Some(Request(CidOf(p), t.rq.cmd, Prefix(t.req, t.rq.received))))
  {
    hide CidOf, BcntOf, Promises, Held, Owned;
    Unowned(s, t.(rq := t.rq.(assembling := false, cid := 0)));
    if t.rq.received < t.rq.total { Unowned(s, t.(rq := t.rq.(assembling := true))); }
  }

  /** First packets that are turned away as they come. */
  lemma TurnedAway(s: State, p: Packet)
    requires Inv(s) && CidOf(p) != 0 && IsInit(p)
    ensures CidOf(p) == BROADCAST && Low7(p) != CMD_INIT ==> Refuses(s, Asm(s.rq, s.req), p, ERR_INVALID_CHANNEL)
    ensures Low7(p) == CMD_INIT && BcntOf(p) > INIT_DATA_LEN ==> Refuses(s, Asm(s.rq, s.req), p, ERR_INVALID_LEN)
    ensures CidOf(p) != BROADCAST && Low7(p) !in {CMD_INIT, CMD_CANCEL} ==>
      if s.busyCid != 0 || s.awaiting || (s.rq.assembling && CidOf(p) != s.rq.cid) then
        Refuses(s, Asm(s.rq, s.req), p, ERR_CHANNEL_BUSY)
      else BcntOf(p) > MAX_PAYLOAD ==> Refuses(s, Idle, p, ERR_INVALID_LEN)
  {
    hide CidOf, BcntOf, Low7;
    if CidOf(p) == BROADCAST { ChannelIsValid(s); }
  }

  ghost predicate Refuses(s: State, a: Assembly, p: Packet, err: nat)
    requires Underway(Asm(s.rq, s.req))
  {
    && Ingest(Asm(s.rq, s.req), s.busyCid != 0, s.awaiting, p) == (a, None)
    && Refusal(Asm(s.rq, s.req), s.busyCid != 0, s.awaiting, p) == Some(err)
    && (IsInit(p) && Low7(p) == CMD_INIT ==> BcntOf(p) != 8)
    && (IsInit(p) && Low7(p) == CMD_CANCEL ==> CidOf(p) != s.busyCid)
  }

  lemma CancelLatched(s: State, cancelled: bool)
    requires Inv(s)
    ensures Inv(s.(cancelled := cancelled))
  {
    hide Promises, Underway, Asm, Owned, Held;
  }

  lemma CancelIsAside(s: State, t: State, cid: nat)
    requires Restarted(s, t.(cancelled := s.cancelled), cid)
    ensures Restarted(s, t, cid)
  {
  }

  // ----- running a request -----

  /** While a request runs, packets and KEEPALIVEs leave it and its scratch buffer alone. */
  ghost predicate Pumped(s: State, t: State) {
    && t.busyCid == s.busyCid && t.running == s.running && t.rq == s.rq && t.req == s.req && t.resp == s.resp
    && !t.rs.pending && (s.abandoned ==> t.abandoned) && Ran(s.log, t.log)
  }

  lemma PacketPumped(s: State, t: State, p: Packet)
    requires Inv(s) && s.running && !s.rs.pending && Ingested(s, t, p)
    ensures Pumped(s, t)
  {
    RunsFor(s);
    IngestKeeps(Asm(s.rq, s.req), true, s.awaiting, p);
    hide Ingest, Asm, Replied, CidOf, Low7, BcntOf, Grew;
    GrewRan(s.log, t.log);
  }

  lemma PumpedFrom(s: State)
    requires !s.rs.pending
    ensures Pumped(s, s)
  {
  }

  lemma PumpedRuns(s: State, t: State)
    requires Pumped(s, t)
    ensures t.running == s.running && t.busyCid == s.busyCid && !t.rs.pending
  {
  }

  lemma FlushPumped(s: State, t: State)
    requires !s.rs.pending && t == s.(log := t.log, short := t.short, resync := t.resync) && Quietly(s.log, t.log)
    ensures Pumped(s, t)
  {
    GrewRan(s.log, t.log);
  }

  lemma KeepAlivePumped(s: State, t: State)
    requires !s.rs.pending && t == s.(log := t.log) && Ran(s.log, t.log)
    ensures Pumped(s, t)
  {
  }

  lemma PumpedTrans(s: State, m: State, t: State)
    requires Pumped(s, m) && Pumped(m, t)
    ensures Pumped(s, t)
  {
    hide Ran;
    RanTrans(s.log, m.log, t.log);
  }

  lemma PumpedScratch(s: State, t: State)
    requires Pumped(s, t)
    ensures t.resp == s.resp
  {
  }

  /** A request is being worked on: the scratch buffer is the handler's. */
  ghost predicate Working(s: State, t: State) {
    && t.busyCid == s.busyCid && t.running == s.running && t.rq == s.rq && t.req == s.req
    && !t.rs.pending && (s.abandoned ==> t.abandoned) && Ran(s.log, t.log)
  }

  lemma WorkingFrom(s: State)
    requires !s.rs.pending
    ensures Working(s, s)
  {
  }

  lemma WorkingOn(s: State, m: State, t: State)
    requires m == s.(resp := m.resp, awaiting := m.awaiting) && Pumped(m, t)
    ensures Working(s, t)
  {
  }

  lemma WorkingStill(s: State, m: State, t: State)
    requires Working(s, m) && t == m.(awaiting := t.awaiting)
    ensures Working(s, t)
  {
  }

  lemma WorkingTrans(s: State, m: State, t: State)
    requires Working(s, m) && Working(m, t)
    ensures Working(s, t)
  {
    hide Ran;
    RanTrans(s.log, m.log, t.log);
  }

  lemma WorkingRuns(s: State, t: State)
    requires Working(s, t)
    ensures t.running == s.running && t.busyCid == s.busyCid && !t.rs.pending && t.rq == s.rq && t.req == s.req
  {
  }

  /** The handler is done; `answer` is what the host gets unless it left. */
  ghost predicate Done(s: State, t: State, answer: Option<seq<byte>>) {
    && t.busyCid == s.busyCid && t.running == s.running && t.rq == s.rq && t.req == s.req
    && Ran(s.log, t.log.(answers := s.log.answers))
    && if t.abandoned || answer == None then t.log.answers == s.log.answers && (!t.abandoned ==> !t.rs.pending)
       else |s.log.queued| > 0 && t.log.answers == s.log.answers[|s.log.queued| - 1 := answer.value] && t.rs.pending
  }

  lemma NoAnswer(s: State, t: State, p: Packet)
    requires s.busyCid != 0 && !s.rs.pending && Aside(s, t, p)
    ensures Ran(s.log, t.log) && t.busyCid == s.busyCid && t.running == s.running && t.rq == s.rq && t.req == s.req
    ensures !t.rs.pending
    ensures t.abandoned == s.abandoned && t.log.answers == s.log.answers
  {
    QuietGrew(s.log, t.log);
    GrewRan(s.log, t.log);
  }

  lemma DoneWithout(s: State, m: State, t: State, p: Packet)
    requires Working(s, m) && s.busyCid != 0 && Aside(m, t, p)
    ensures Done(s, t, None)
  {
    NoAnswer(m, t, p);
    RanTrans(s.log, m.log, t.log);
  }

  lemma DoneWith(s: State, m: State, t: State, payload: seq<byte>)
    requires Working(s, m) && !m.abandoned && |m.log.queued| > 0 && t.rs.pending
    requires t == m.(rs := t.rs, resp := t.resp, owner := t.owner, out := t.out, log := WithAnswer(m.log, payload))
    ensures Done(s, t, Some(payload))
  {
    assert t.log.(answers := s.log.answers) == m.log;
  }

  lemma DoneInVain(s: State, m: State, t: State, answer: Option<seq<byte>>)
    requires Working(s, m) && m.abandoned && t == m.(rs := t.rs, resp := t.resp, owner := t.owner, out := t.out)
    ensures Done(s, t, answer)
  {
    assert t.log.(answers := s.log.answers) == m.log;
  }

  lemma TouchOver(s: State, t: State)
    requires Inv(s) && t == s.(awaiting := t.awaiting)
    ensures Inv(t)
  {
    hide Promises, Underway, Asm, Owned, Held;
  }

  /** The handler may write to the response buffer, and start or end a touch wait. */
  lemma Scribbled(s: State, t: State)
    requires Inv(s) && !s.rs.pending && |t.resp| == MAX_PAYLOAD && t == s.(resp := t.resp, awaiting := t.awaiting)
    ensures Inv(t)
  {
    hide LogOk, Delivery, Underway, Asm, Owned, Held;
  }

  lemma KeepAliveMayGo(s: State, status: nat)
    requires Inv(s) && s.running && !s.abandoned && status < 0x100 && s.busyCid <= BROADCAST
    ensures var p := InitPacket(s.busyCid, INIT_FLAG + CMD_KEEPALIVE, 1, [status as byte]);
      |s.log.queued| > 0 && KeepAlive(p) && MayGo(s.log, p, Some(|s.log.queued| - 1))
  {
    RunsFor(s);
    InitParts(s.busyCid, INIT_FLAG + CMD_KEEPALIVE, 1, [status as byte]);
  }

  function Fated(l: Log, f: Fate): Log { l.(fate := l.fate + [f]) }

  /** What becomes of the request that was taken up: nothing, if its host left it first. */
  function FateOf(s: State): Fate { if s.abandoned then Dropped else Dispatched(Current(s.busyCid, s.rq, s.req)) }

  /** The main loop has taken up the waiting request, and nothing became of it yet. */
  ghost predicate Unserved(s: State) {
    s.running && s.busyCid != 0 && !s.rs.pending && Inv(s.(running := false))
  }

  /** A handler is entered, or the request of a host that left is dropped. */
  function Entered(s: State): State { s.(log := Fated(s.log, FateOf(s))) }

  lemma Started(s: State)
    requires Unserved(s)
    ensures Inv(Entered(s))
    ensures !s.abandoned ==> |s.log.fate| == |s.log.queued| - 1 && Entered(s).log.fate[|s.log.fate|].Dispatched?
  {
    hide LogOk, Delivery, Underway, Asm, Prefix, CidOf, Short;
    var t := Entered(s);
    SameLengths(s.log);
    ExtendsKeepsLog(s.log, t.log);
    ExtendsKeepsDelivery(s.log, t.log, None);
  }

  lemma TakenUp(s: State, t: State)
    requires Inv(s) && s.busyCid != 0 && !s.running && !s.rs.pending && t == s.(running := true, cancelled := false)
    ensures Unserved(t) && Entered(t) == Taken(s)
  {
    hide Promises, Underway, Asm, Owned, Held;
    assert t.(running := false) == s.(cancelled := false);
  }

  /** The answer to a request that was abandoned meanwhile is in the buffer, for the main loop to discard. */
  lemma StaleAnswer(s: State, t: State)
    requires Inv(s) && s.running && s.abandoned && |t.resp| == MAX_PAYLOAD && t.rs.total <= MAX_PAYLOAD && t.rs.pending
    requires t == s.(rs := t.rs, resp := t.resp, owner := t.owner, out := t.out)
    ensures Inv(t)
  {
    hide LogOk, Delivery, Underway, Asm, Held, Prefix;
  }

  /** The main loop is done with the request. */
  lemma Finished(s: State, t: State)
    requires Inv(s) && s.running && |t.req| == MAX_PAYLOAD && t.rq == Incoming(false, 0, 0, 0, 0, 0)
    requires t == s.(running := false, rs := if s.abandoned then s.rs.(pending := false) else s.rs, cancelled := false,
                     rq := t.rq, req := t.req, busyCid := 0, abandoned := false)
    ensures Inv(t)
  {
    hide LogOk, Delivery, Reply, Prefix, CidOf, Short;
    RunsFor(s);
  }

  function Taken(s: State): State {
    s.(running := true, cancelled := false, log := Fated(s.log, FateOf(s)))
  }

  /**
   What became of the request that was waiting: it was dispatched unless its host had left it, and it
   has the expected answer unless the host has left it by now.
   */
  ghost predicate Served(s: State, l: Log, answer: Option<seq<byte>>) {
    && |l.queued| > 0 && l.queued == s.log.queued && l.queued[|l.queued| - 1] == Current(s.busyCid, s.rq, s.req)
    && l.fate == s.log.fate + [FateOf(s)]
    && l.answers == (if |l.queued| - 1 in l.gone || answer == None then s.log.answers
         else s.log.answers[|l.queued| - 1 := answer.value])
    && s.log.wire <= l.wire
  }

  lemma ServedBy(s: State, m: State, t: State, answer: Option<seq<byte>>)
    requires Inv(s) && s.busyCid != 0 && !s.running && m == Taken(s) && Inv(t) && Done(m, t, answer)
    ensures Served(s, t.log, answer)
  {
    RunsFor(s);
    RunsFor(t);
    hide Inv;
  }

  lemma DoneRuns(s: State, t: State, answer: Option<seq<byte>>)
    requires Done(s, t, answer)
    ensures t.running == s.running && t.log.fate == s.log.fate
  {
  }

  lemma NotServed(s: State, m: State, answer: Option<seq<byte>>)
    requires Inv(s) && s.busyCid != 0 && !s.running && m == Taken(s) && s.abandoned
    ensures Served(s, m.log, answer)
  {
    RunsFor(s);
    hide Inv;
  }

  lemma ServedStill(s: State, l: Log, m: Log, answer: Option<seq<byte>>)
    requires Served(s, l, answer) && Ran(l, m) && (|l.queued| - 1 in m.gone ==> |l.queued| - 1 in l.gone)
    ensures Served(s, m, answer)
  {
  }

  lemma QuietRan(l: Log, m: Log)
    requires Quietly(l, m)
    ensures Ran(l, m) && m.gone == l.gone
  {
  }

  /** An abandoned request waits behind a pending answer. */
  predicate Stuck(s: State) { s.rs.pending && s.abandoned && !s.running }

  /**
   What became of a stuck device: still stuck, the answer as it was, and nothing but INIT and ERROR answers went out.
   */
  ghost predicate StillStuck(s: State, t: State) {
    Stuck(t) && SameReply(s, t) && t.busyCid == s.busyCid && Grew(s.log, t.log) && t.log.queued == s.log.queued
  }

  /** INIT on the channel of the pending answer, if that is not the abandoned one too, is the only packet that helps. */
  lemma OnlyInitHelps(s: State, t: State, p: Packet)
    requires Inv(s) && Stuck(s) && Ingested(s, t, p)
    ensures if Drops(s, p) then !Stuck(t) else StillStuck(s, t)
  {
    hide Asm, Replied, CidOf, Low7, BcntOf, Grew, Refusal;
    IngestKeeps(Asm(s.rq, s.req), s.busyCid != 0, s.awaiting, p);
    hide Ingest;
  }

  lemma StuckFrom(s: State)
    requires Stuck(s)
    ensures StillStuck(s, s)
  {
    GrewFrom(s.log);
  }

  lemma StuckTrans(s: State, m: State, t: State)
    requires StillStuck(s, m) && StillStuck(m, t)
    ensures StillStuck(s, t)
  {
    hide Grew;
    GrewTrans(s.log, m.log, t.log);
  }

  lemma NowStuck(s: State, t: State)
    requires StillStuck(s, t)
    ensures Stuck(t) && t.rs == s.rs && t.busyCid == s.busyCid && (forall p :: Drops(t, p) == Drops(s, p))
    ensures t.log.fate == s.log.fate && t.log.answers == s.log.answers && t.log.queued == s.log.queued
  {
  }

  lemma TouchStuck(s: State, t: State)
    requires Stuck(s) && t == s.(awaiting := t.awaiting)
    ensures StillStuck(s, t)
  {
    GrewFrom(s.log);
  }

  /** The first packet of a request that is longer than any buffer, and a PING without payload. */
  function TooLong(cid: nat): Packet
    requires cid <= BROADCAST
  {
    InitPacket(cid, INIT_FLAG + CMD_PING, MAX_PAYLOAD + 1, [])
  }

  function EmptyPing(cid: nat): Packet
    requires cid <= BROADCAST
  {
    InitPacket(cid, INIT_FLAG + CMD_PING, 0, [])
  }

  /** A refused request leaves an ERROR to send, the next one is accepted, and INIT abandons it. */
  lemma BecomesStuck(cid: nat, s0: State, s1: State, s2: State, s3: State, nonce: seq<byte>)
    requires 0 < cid < BROADCAST && Inv(s0) && Inv(s1) && Inv(s2) && Inv(s3) && |nonce| == 8
    requires !s0.running && s0.busyCid == 0 && !s0.rq.assembling && !s0.awaiting && !s0.rs.pending
    requires Ingested(s0, s1, TooLong(cid)) && Ingested(s1, s2, EmptyPing(cid))
    requires Ingested(s2, s3, InitPacket(cid, INIT_FLAG + CMD_INIT, 8, nonce))
    ensures Stuck(s3) && s3.rs.cid == s3.busyCid == cid
    ensures s3.log.fate == s0.log.fate && s3.log.answers == s0.log.answers && |s3.log.queued| == |s0.log.queued| + 1
  {
    hide Inv, InitPacket, CidOf, Low7, BcntOf, IsInit, Ingested;
    InitParts(cid, INIT_FLAG + CMD_PING, MAX_PAYLOAD + 1, []);
    InitParts(cid, INIT_FLAG + CMD_PING, 0, []);
    InitParts(cid, INIT_FLAG + CMD_INIT, 8, nonce);
    TooLongIsRefused(s0, s1, TooLong(cid));
    PingIsTaken(s1, s2, EmptyPing(cid));
    InitAbandons(s2, s3, InitPacket(cid, INIT_FLAG + CMD_INIT, 8, nonce));
  }

  lemma TooLongIsRefused(s: State, t: State, p: Packet)
    requires Inv(s) && !s.running && s.busyCid == 0 && !s.rq.assembling && !s.awaiting && !s.rs.pending
    requires Ingested(s, t, p)
    requires 0 < CidOf(p) < BROADCAST && IsInit(p) && Low7(p) == CMD_PING && BcntOf(p) > MAX_PAYLOAD
    ensures !t.running && t.busyCid == 0 && !t.rq.assembling && !t.awaiting && t.rs.pending && t.rs.cid == CidOf(p)
    ensures Grew(s.log, t.log) && t.log.queued == s.log.queued
  {
    hide Grew, InitPacket, CidOf, Low7, BcntOf, IsInit, Held, Promises, Owned;
    ShortAnswer(CidOf(p), INIT_FLAG + CMD_ERROR, [ERR_INVALID_LEN as byte]);
  }

  lemma PingIsTaken(s: State, t: State, p: Packet)
    requires Inv(s) && !s.running && s.busyCid == 0 && !s.rq.assembling && !s.awaiting && s.rs.pending
    requires Ingested(s, t, p)
    requires 0 < CidOf(p) < BROADCAST && IsInit(p) && Low7(p) == CMD_PING && BcntOf(p) == 0
    ensures !t.running && t.busyCid == CidOf(p) && SameReply(s, t)
    ensures Grew(s.log, t.log) && |t.log.queued| == |s.log.queued| + 1
  {
    hide Grew, InitPacket, CidOf, Low7, BcntOf, IsInit, Held, Promises, Owned, Replied;
  }

  lemma InitAbandons(s: State, t: State, p: Packet)
    requires Inv(s) && !s.running && s.busyCid == CidOf(p) && s.rs.pending && s.rs.cid == CidOf(p) && Ingested(s, t, p)
    requires 0 < CidOf(p) < BROADCAST && IsInit(p) && Low7(p) == CMD_INIT && BcntOf(p) == 8
    ensures Stuck(t) && t.busyCid == CidOf(p) && t.rs.cid == CidOf(p)
    ensures Grew(s.log, t.log) && t.log.queued == s.log.queued
  {
    hide Grew, InitPacket, CidOf, Low7, BcntOf, IsInit, Held, Promises, Owned, Replied, Asm;
    IngestKeeps(Asm(s.rq, s.req), true, s.awaiting, p);
    hide Ingest;
  }

  // ----- emission -----

  function Advanced(rs: Outgoing): Outgoing
    requires rs.sent <= rs.total
  {
    var sent := rs.sent + Chunk(rs.sent, rs.total);
    rs.(sent := sent, n := if rs.sent == 0 then rs.n else rs.n + 1, pending := sent < rs.total)
  }

  lemma NextPacket(rs: Outgoing, payload: seq<byte>, owner: Option<nat>, out: seq<Packet>, l: Log)
    requires Reply(rs, payload, owner, out, l) && LogOk(l) && Delivery(l, owner) && |payload| == rs.total <= MAX_PAYLOAD
    ensures var p := MakePacket(rs.cid, rs.cmd, payload, rs.sent, rs.n); !KeepAlive(p) && MayGo(l, p, owner)
  {
    hide PacketsFrom, Packets, AnswerPackets, InitPacket, ContPacket, CidOf, LogOk;
    var data := payload[rs.sent..rs.sent + Chunk(rs.sent, |payload|)];
    if rs.sent == 0 { InitParts(rs.cid, rs.cmd, |payload|, data); } else { ContHeader(rs.cid, rs.n, data); }
  }

  lemma ContHeader(cid: nat, n: nat, data: seq<byte>)
    requires cid <= BROADCAST && |data| <= CONT_DATA_LEN
    ensures var p := ContPacket(cid, n, data); CidOf(p) == cid && !IsInit(p)
  {
    ContParts(cid, n % 0x80, data);
  }

  /** One packet of the pending response went out. */
  lemma ReplyAdvances(rs: Outgoing, payload: seq<byte>, owner: Option<nat>, out: seq<Packet>, l: Log)
    requires Reply(rs, payload, owner, out, l) && LogOk(l) && Delivery(l, owner) && |payload| == rs.total <= MAX_PAYLOAD
    ensures var p := MakePacket(rs.cid, rs.cmd, payload, rs.sent, rs.n);
      var next, m := Advanced(rs), Took(l, p, owner);
      && LogOk(m) && Delivery(m, if next.pending then owner else None)
      && (next.pending ==> Reply(next, payload, owner, out + [p], m))
  {
    hide CidOf, LogOk, MakePacket, Packets, PacketsFrom, KeepAlive, MayGo, AnswerPackets, Delivery;
    var p := MakePacket(rs.cid, rs.cmd, payload, rs.sent, rs.n);
    NextPacket(rs, payload, owner, out, l);
    TookKeeps(l, p, owner);
    var rest := RestFrom(rs, payload, out);
    if owner.Some? {
      TookAnswers(l, p, owner, owner.value);
      SameLengths(l);
      DeliveryAdvances(l, p, owner.value, rest);
    } else {
      TookDelivers(l, p, None, None);
    }
  }

  lemma RestFrom(rs: Outgoing, payload: seq<byte>, out: seq<Packet>) returns (rest: seq<Packet>)
    requires rs.cid <= BROADCAST && INIT_FLAG <= rs.cmd < 0x100 && rs.sent <= |payload| == rs.total
    requires (rs.sent == 0 || rs.sent < |payload|)
    requires Packets(rs.cid, rs.cmd, payload) == out + PacketsFrom(rs.cid, rs.cmd, payload, rs.sent, rs.n)
    ensures var next := Advanced(rs);
      && rest == (if next.pending then PacketsFrom(rs.cid, rs.cmd, payload, next.sent, next.n) else [])
      && Packets(rs.cid, rs.cmd, payload) == (out + [MakePacket(rs.cid, rs.cmd, payload, rs.sent, rs.n)]) + rest
      && (next.pending <==> rest != []) && next.sent <= next.total
  {
    hide MakePacket, Packets;
    var next := Advanced(rs);
    rest := if next.pending then PacketsFrom(rs.cid, rs.cmd, payload, next.sent, next.n) else [];
    var p := MakePacket(rs.cid, rs.cmd, payload, rs.sent, rs.n);
    assert PacketsFrom(rs.cid, rs.cmd, payload, rs.sent, rs.n) == [p] + rest;
    hide PacketsFrom, Advanced;
    Regroup(out, p, rest);
  }

  lemma Regroup(out: seq<Packet>, p: Packet, rest: seq<Packet>)
    ensures out + ([p] + rest) == (out + [p]) + rest
  {
  }

  lemma DeliveryAdvances(l: Log, p: Packet, i: nat, rest: seq<Packet>)
    requires Delivery(l, Some(i)) && !KeepAlive(p) && i in l.answers && i < |l.queued| && l.queued[i].cid <= BROADCAST
    requires l.queued[i].cmd < 0x80
    requires Whole(l, i) == (AnswerPackets(l, |l.wire|, i) + [p]) + rest
    ensures Delivery(Took(l, p, Some(i)), if rest == [] then None else Some(i))
  {
    hide Packets, KeepAlive, AnswerPackets, Whole;
    var m := Took(l, p, Some(i));
    SameWhole(l, m);
    forall j | j in m.answers
      ensures AnswerPackets(m, |m.wire|, j) == if j == i then AnswerPackets(l, |l.wire|, j) + [p]
                else AnswerPackets(l, |l.wire|, j)
    {
      TookAnswers(l, p, Some(i), j);
    }
  }

  lemma Emitted(s: State, t: State, p: Packet)
    requires Inv(s) && s.rs.pending && !s.running && s.rs.sent <= s.rs.total && |t.resp| == MAX_PAYLOAD
    requires s.rs.cid <= BROADCAST && INIT_FLAG <= s.rs.cmd < 0x100
    requires p == MakePacket(s.rs.cid, s.rs.cmd, Prefix(s.resp, s.rs.total), s.rs.sent, s.rs.n)
    requires t == s.(rs := Advanced(s.rs), out := s.out + [p], log := Took(s.log, p, s.owner))
    ensures Inv(t)
  {
    hide LogOk, Delivery, Reply, Underway, Asm, Held, MakePacket;
    ReplyAdvances(s.rs, Prefix(s.resp, s.rs.total), s.owner, s.out, s.log);
  }

  lemma ReplyParts(s: State)
    requires Inv(s) && s.rs.pending && !s.running
    ensures s.rs.cid <= BROADCAST && INIT_FLAG <= s.rs.cmd < 0x100 && s.rs.sent <= s.rs.total <= MAX_PAYLOAD == |s.resp|
    ensures s.rs.sent == 0 || s.rs.sent < s.rs.total
  {
  }

  // ----- what the invariant means for the host -----

  /**
   An answer that is not pending and was not left by its host reassembles on the wire to exactly what was answered.
   */
  lemma AnswersArrive(s: State, i: nat)
    requires Inv(s) && i in s.log.answers && i !in s.log.gone
    requires Pending(s.rs, s.running && s.abandoned, s.owner) != Some(i)
    ensures i < |s.log.fate| && s.log.fate[i] == Dispatched(s.log.queued[i])
    ensures |s.log.about| == |s.log.wire|
    ensures Message(AnswerPackets(s.log, |s.log.wire|, i)) == Some(Request(s.log.queued[i].cid, s.log.queued[i].cmd,
              s.log.answers[i]))
  {
    hide AnswerPackets, Packets;
    FragmentsReassemble(s.log.queued[i].cid, INIT_FLAG + s.log.queued[i].cmd, s.log.answers[i]);
  }
}

/**
 The CTAPHID device.  Every method keeps the invariant of CtapState; packets may
 arrive at each progress point of a running request, so what holds there holds
 of the device as a callback sees it.
 */
module CtapHid {
  import opened Values
  import opened BigEndian
  import opened CtapFrames
  import opened CtapLog
  import opened CtapState

  const KA_INTERVAL_MS: nat := 50
  const KA_PROCESSING: nat := 1
  const KA_UPNEEDED: nat := 2
  const TICKS: nat := 0x1_0000_0000

  /** One progress point of a CBOR request: it may have scribbled on the answer buffer, and USB delivers packets. */
  datatype Point = Point(scratch: seq<byte>, awaiting: bool, packets: seq<seq<byte>>, now: nat)

  /** What the CBOR dispatcher does with a request; no answer is its negative return. */
  datatype Handler = Handler(start: nat, points: seq<Point>, answer: Option<seq<byte>>)

  /** The IN endpoint: takes every report, refuses every one, or does as it likes. */
  datatype Usb = Accepting | Refusing | Either

  /**
   The answer a request gets unless its host leaves: PING echoes, MSG is refused with SW 6E00, CBOR is the dispatcher's.
   */
  function Expected(cmd: nat, payload: seq<byte>, run: Handler): Option<seq<byte>> {
    if cmd == CMD_PING then Some(payload)
    else if cmd == CMD_MSG then Some([0x6E, 0x00])
    else if cmd == CMD_CBOR then run.answer
    else None
  }

  /** Whatever may happen between two rounds of the main loop. */
  datatype Event = Delivered(packet: seq<byte>) | Touch(awaiting: bool) | Round(run: Handler)

  class Hid {
    const reqBuf: array<byte>
    const respBuf: array<byte>
    var rq: Incoming
    var rs: Outgoing

    var nextCid: nat
    var busyCid: nat              // whose request waits or runs; 0: nobody's
    var running: bool

    var inProgress: bool          // KEEPALIVE
    var kaStatus: nat
    var kaLast: nat

    var short: Option<Packet>     // one-packet answer that found USB busy
    var abandoned: bool           // the host resynchronised the busy channel
    var resync: Option<Packet>    // the answer to that

    var usb: Usb
    var awaiting: bool            // user_presence.c: a touch wait is on; its cancel latch
    var cancelled: bool

    ghost var log: Log
    ghost var owner: Option<nat>  // the request that the pending response answers
    ghost var out: seq<Packet>    // what of it is out
    ghost var req: seq<byte>      // contents of the two buffers
    ghost var resp: seq<byte>

    constructor ()
      ensures Buffers() && Inv(S()) && fresh(reqBuf) && fresh(respBuf)
      ensures !running && busyCid == 0 && !rq.assembling && !inProgress && !awaiting && !rs.pending
      ensures log == Log([], [], [], [], map[], map[])
    {
      reqBuf, respBuf := new byte[MAX_PAYLOAD](_ => 0), new byte[MAX_PAYLOAD](_ => 0);
      rq, rs := Incoming(false, 0, 0, 0, 0, 0), Outgoing(false, 0, 0, 0, 0, 0);
      nextCid, busyCid, running := 1, 0, false;
      inProgress, kaStatus, kaLast := false, 0, 0;
      short, resync, abandoned, awaiting, cancelled, usb := None, None, false, false, false, Either;
      log, owner, out := Log([], [], [], [], map[], map[]), None, [];
      new;
      req, resp := reqBuf[..], respBuf[..];
    }

    ghost function S(): State
      reads this
    {
      State(rq, req, rs, resp, owner, out, nextCid, busyCid, running, abandoned, short, resync, awaiting,
        cancelled, log)
    }

    ghost predicate Buffers()
      reads this`req, this`resp, reqBuf, respBuf
    {
      && reqBuf != respBuf && reqBuf.Length == respBuf.Length == MAX_PAYLOAD
      && req == reqBuf[..] && resp == respBuf[..]
    }

    // ----- packets out -----

    method Report(p: Packet, ghost i: Option<nat>) returns (ok: bool)
      modifies this`log
      ensures log == if ok then Took(old(log), p, i) else old(log)
      ensures (usb == Accepting ==> ok) && (usb == Refusing ==> !ok)
    {
      ok := Ready();
      if ok { log := Took(log, p, i); }
    }

    method Ready() returns (ok: bool)
      ensures (usb == Accepting ==> ok) && (usb == Refusing ==> !ok)
    {
      ok := *;
      if usb.Accepting? { ok := true; }
      if usb.Refusing? { ok := false; }
    }

    method Push(p: Packet, ghost i: Option<nat>) returns (ok: bool)
      modifies this`log
      ensures log == if ok then Took(old(log), p, i) else old(log)
      ensures (usb == Accepting ==> ok) && (usb == Refusing ==> !ok)
    {
      ok := Ready();
      if !ok { return; }
      ok := Report(p, i);
    }

    method PushShort(p: Packet) returns (ok: bool)
      requires Inv(S()) && Short(p)
      modifies this`log
      ensures Inv(S()) && Quietly(old(log), log) && (ok ==> WentOut(old(log), log, p))
      ensures (usb == Accepting ==> ok) && (!ok ==> log == old(log))
    {
      hide Inv, Quietly, WentOut, Short;
      QuietFrom(log);
      TookQuietly(log, p);
      Pushed(S(), p, None);
      ok := Push(p, None);
    }

    /** Retries the two held packets; the INIT answer of an abandoned request stays held. */
    method FlushPending() returns (empty: bool)
      requires Inv(S())
      modifies this`log, this`short, this`resync
      ensures Inv(S()) && empty == (short == None) && short in {old(short), None} && Quietly(old(log), log)
      ensures usb == Accepting ==> short == None && (!abandoned ==> resync == None)
      ensures abandoned ==> resync == old(resync) && resync.Some?
    {
      hide Inv, Quietly, WentOut, CidOf, Short;
      HeldAreShort(S());
      QuietFrom(log);
      if short.Some? {
        var ok := PushShort(short.value);
        Released(S(), None, resync);
        if ok { short := None; }
      }
      if short == None && resync.Some? && !abandoned {
        ghost var l := log;
        var ok := PushShort(resync.value);
        QuietTrans(old(log), l, log);
        Released(S(), short, None);
        if ok { resync := None; }
      }
      return short == None;
    }

    /** At once if USB takes it, else into the slot; with the slot full it is dropped. */
    method SendNow(cid: nat, cmd: nat, payload: seq<byte>)
      requires Inv(S()) && cid <= BROADCAST && cmd in {INIT_FLAG + CMD_INIT, INIT_FLAG + CMD_ERROR}
      requires |payload| <= INIT_DATA_LEN
      requires busyCid != 0 || rs.pending
      modifies this`log, this`short, this`resync
      ensures Inv(S()) && Quietly(old(log), log) && Told(old(S()), S(), InitPacket(cid, cmd, |payload|, payload))
    {
      hide Inv, Quietly, InitPacket, Short, WentOut, CidOf;
      var p := InitPacket(cid, cmd, |payload|, payload);
      ShortAnswer(cid, cmd, payload);
      var empty := FlushPending();
      if empty {
        ghost var l := log;
        var ok := PushShort(p);
        QuietTrans(old(log), l, log);
        if ok {
          WentOutTold(old(S()), S(), l, p);
          return;
        }
      }
      HeldAreShort(S());
      Released(S(), Some(p), resync);
      if short == None { short := Some(p); }
    }

    method CopyResponse(payload: seq<byte>)
      requires Buffers() && |payload| <= MAX_PAYLOAD
      modifies this`resp, respBuf
      ensures Buffers() && |resp| == MAX_PAYLOAD && resp[..|payload|] == payload
    {
      forall k | 0 <= k < |payload| { respBuf[k] := payload[k]; }
      resp := respBuf[..];
    }

    /** The response buffer and its counters for a message none of which is out. */
    method QueueResponse(cid: nat, cmd: nat, payload: seq<byte>, ghost who: Option<nat>)
      requires Buffers() && |payload| <= MAX_PAYLOAD
      modifies this`rs, this`owner, this`out, this`resp, respBuf
      ensures Buffers() && |resp| == MAX_PAYLOAD && resp[..|payload|] == payload
      ensures rs == Outgoing(true, cid, cmd, |payload|, 0, 0) && owner == who && out == []
    {
      CopyResponse(payload);
      rs := Outgoing(true, cid, cmd, |payload|, 0, 0);
      owner, out := who, [];
    }

    /** A one-packet answer that leaves both buffers alone unless the device is idle. */
    method ReplyShort(cid: nat, cmd: nat, payload: seq<byte>)
      requires Buffers() && Inv(S())
      requires cid <= BROADCAST && cmd in {INIT_FLAG + CMD_INIT, INIT_FLAG + CMD_ERROR} && |payload| <= INIT_DATA_LEN
      modifies this`rs, this`owner, this`out, this`resp, respBuf, this`log, this`short, this`resync
      ensures Buffers() && Inv(S()) && Aside(old(S()), S(), InitPacket(cid, cmd, |payload|, payload))
    {
      hide Buffers, Inv, Quietly, Told, InitPacket;
      QuietFrom(log);
      if abandoned && cid == busyCid {
        NobodyListens(S(), cid, cmd, payload);
        return;
      }
      if busyCid != 0 || rs.pending {
        SendNow(cid, cmd, payload);
      } else {
        QueueResponse(cid, cmd, payload, None);
        ShortQueued(old(S()), S());
      }
    }

    method QueueError(cid: nat, err: nat)
      requires Buffers() && Inv(S()) && cid <= BROADCAST && err < 0x100
      modifies this`rs, this`owner, this`out, this`resp, respBuf, this`log, this`short, this`resync
      ensures Buffers() && Inv(S()) && Aside(old(S()), S(), ErrorPacket(cid, err))
    {
      hide Buffers, Inv, Aside, InitPacket;
      ReplyShort(cid, INIT_FLAG + CMD_ERROR, [err as byte]);
    }

    /** The running request's answer takes the response buffer. */
    method QueueAnswer(payload: seq<byte>)
      requires Buffers() && Inv(S()) && running && !abandoned && !rs.pending && |payload| <= MAX_PAYLOAD
      requires rq.cmd in {CMD_PING, CMD_MSG, CMD_CBOR}
      modifies this`rs, this`owner, this`out, this`resp, respBuf, this`log
      ensures Buffers() && Inv(S()) && |old(log).queued| > 0 && log == WithAnswer(old(log), payload) && rs.pending
    {
      hide Buffers, Inv;
      RunsFor(S());
      QueueResponse(busyCid, INIT_FLAG + rq.cmd, payload, Some(|log.queued| - 1));
      log := WithAnswer(log, payload);
      Answered(old(S()), S());
    }

    // ----- assembly and channels -----

    method ClearRequest()
      requires Buffers()
      modifies this`req, reqBuf
      ensures Buffers() && req == seq(MAX_PAYLOAD, _ => 0)
    {
      forall k | 0 <= k < reqBuf.Length { reqBuf[k] := 0; }
      req := reqBuf[..];
    }

    method ResetAssembly()
      requires Buffers()
      modifies this`rq, this`req, reqBuf
      ensures Buffers() && rq == Incoming(false, 0, 0, 0, 0, 0) && req == seq(MAX_PAYLOAD, _ => 0)
    {
      hide Buffers;
      rq := Incoming(false, 0, 0, 0, 0, 0);
      ClearRequest();
    }

    /** A half-received request is dropped. */
    method DropAssembly()
      requires Buffers() && Inv(S()) && busyCid == 0
      modifies this`rq, this`req, reqBuf
      ensures Buffers() && Inv(S()) && !rq.assembling
    {
      hide Buffers, Inv;
      ResetAssembly();
      Unowned(old(S()), S());
    }

    /** Channel ids start at 1 and skip 0 and the broadcast id. */
    method AllocChannel() returns (cid: nat)
      requires nextCid < TICKS
      modifies this`nextCid
      ensures cid == old(nextCid) && 1 <= nextCid < BROADCAST && nextCid == if cid + 1 < BROADCAST then cid + 1 else 1
    {
      cid := nextCid;
      nextCid := (nextCid + 1) % TICKS;
      if nextCid == 0 { nextCid := 1; }
      if nextCid == BROADCAST { nextCid := 1; }
    }

    // ----- INIT -----

    method HandleAllocate(nonce: seq<byte>)
      requires Buffers() && Inv(S()) && |nonce| == 8
      modifies this`nextCid
      modifies this`rs, this`owner, this`out, this`resp, respBuf, this`log, this`short, this`resync
      ensures Buffers() && Inv(S()) && Aside(old(S()), S(), WelcomePacket(BROADCAST, nonce, old(nextCid)))
    {
      hide Buffers, Inv, Told, Quietly, InitPacket, InitAnswer;
      WelcomeIsShort(BROADCAST, nonce, nextCid);
      ChannelIsValid(S());
      var to := AllocChannel();
      ChannelGiven(old(S()), nextCid);
      ghost var m := S();
      ReplyShort(BROADCAST, INIT_FLAG + CMD_INIT, InitAnswer(nonce, to));
      ToldSince(old(S()), m, S(), WelcomePacket(BROADCAST, nonce, to));
    }

    /** The rest of an answer that the host left is dropped. */
    method DropReply()
      requires Inv(S()) && rs.pending && !running
      modifies this`rs, this`log
      ensures Inv(S()) && rs == old(rs).(pending := false) && Grew(old(log), log) && log.queued == old(log).queued
    {
      hide Inv, Grew, Left;
      rs := rs.(pending := false);
      if owner.Some? { log := Left(log, owner.value); }
      Discarded(old(S()), S());
    }

    /**
     Resync of the channel of the request that waits or runs: it is abandoned and the answer held until it is over.
     */
    method Abandon(p: Packet, ghost s: State)
      requires s == S().(short := s.short, resync := s.resync) && Inv(s) && short in {s.short, None}
      requires busyCid != 0 && (running ==> !rs.pending) && Short(p) && CidOf(p) == busyCid
      modifies this`abandoned, this`cancelled, this`resync, this`log
      ensures Inv(S()) && abandoned && resync == Some(p) && cancelled == (old(cancelled) || running)
      ensures Grew(old(log), log) && log.queued == old(log).queued
    {
      hide Inv, Short, CidOf, Grew, Left;
      RunsFor(s);
      abandoned := true;
      if running { cancelled := true; }
      resync := Some(p);
      log := Left(log, |log.queued| - 1);
      Abandoned(s, S(), p);
    }

    /** Held INIT answers to channel `cid` are forgotten, and no other held packet. */
    method Supersede(cid: nat)
      modifies this`short, this`resync
      ensures resync == if old(resync).Some? && CidOf(old(resync).value) == cid then None else old(resync)
      ensures short == if old(short).Some? && CidOf(old(short).value) == cid
                && old(short).value[4] as nat == INIT_FLAG + CMD_INIT then None else old(short)
    {
      hide CidOf;
      if resync.Some? && CidOf(resync.value) == cid { resync := None; }
      if short.Some? && CidOf(short.value) == cid && short.value[4] as nat == INIT_FLAG + CMD_INIT { short := None; }
    }

    method AnswerResync(cid: nat, p: Packet, answer: seq<byte>)
      requires Buffers() && Inv(S()) && cid <= BROADCAST && cid != busyCid && (running ==> !rs.pending)
      requires |answer| == INIT_RESP_LEN && p == InitPacket(cid, INIT_FLAG + CMD_INIT, INIT_RESP_LEN, answer)
      modifies this`rs, this`owner, this`out, this`resp, respBuf, this`log, this`short, this`resync
      ensures Buffers() && Inv(S()) && Resynced(old(S()), S(), cid, p)
    {
      hide Buffers, Inv, Told, Quietly, InitPacket, Grew;
      GrewFrom(log);
      if rs.pending && rs.cid == cid { DropReply(); }
      ghost var m := S();
      ReplyShort(cid, INIT_FLAG + CMD_INIT, answer);
      QuietGrew(m.log, log);
      GrewTrans(old(log), m.log, log);
      ToldSince(old(S()), m, S(), p);
    }

    method DropOwn(cid: nat)
      requires Buffers() && Inv(S())
      modifies this`rq, this`req, reqBuf
      ensures Buffers() && Inv(S()) && (busyCid != 0 ==> rq == old(rq) && req == old(req))
      ensures Restarted(old(S()), S(), cid)
    {
      hide Buffers, Inv;
      if rq.assembling && rq.cid == cid {
        AssemblingIsFree(S());
        DropAssembly();
      }
    }

    method LeaveBusy(cid: nat, p: Packet)
      requires Inv(S()) && 0 < cid == busyCid && (running ==> !rs.pending) && Short(p) && CidOf(p) == cid
      modifies this`log, this`short, this`resync, this`abandoned, this`cancelled
      ensures Inv(S()) && Resynced(old(S()), S(), cid, p)
    {
      hide Inv, Resynced, CidOf, Short, Grew;
      Supersede(cid);
      Abandon(p, old(S()));
      LeftByInit(old(S()), S(), cid, p);
    }

    method StartAfresh(cid: nat, p: Packet, answer: seq<byte>)
      requires Buffers() && Inv(S()) && cid <= BROADCAST && cid != busyCid && (running ==> !rs.pending)
      requires |answer| == INIT_RESP_LEN && p == InitPacket(cid, INIT_FLAG + CMD_INIT, INIT_RESP_LEN, answer)
      modifies this`rs, this`owner, this`out, this`resp, respBuf, this`log, this`short, this`resync
      ensures Buffers() && Inv(S()) && Resynced(old(S()), S(), cid, p)
    {
      hide Buffers, Inv, Resynced, InitPacket, CidOf, Short;
      HeldAreShort(S());
      Supersede(cid);
      Released(old(S()), short, resync);
      ghost var m := S();
      AnswerResync(cid, p, answer);
      ResyncedSince(old(S()), m, S(), cid, p);
    }

    method ResyncChannel(cid: nat, p: Packet, answer: seq<byte>)
      requires Buffers() && Inv(S()) && 0 < cid <= BROADCAST && (running ==> !rs.pending) && Short(p) && CidOf(p) == cid
      requires |answer| == INIT_RESP_LEN && p == InitPacket(cid, INIT_FLAG + CMD_INIT, INIT_RESP_LEN, answer)
      modifies this`rs, this`owner, this`out, this`resp, respBuf, this`log, this`short, this`resync
      modifies this`abandoned, this`cancelled
      ensures Buffers() && Inv(S()) && Resynced(old(S()), S(), cid, p)
    {
      hide Buffers, Inv, Resynced, InitPacket, CidOf, Short;
      if cid == busyCid {
        LeaveBusy(cid, p);
      } else {
        StartAfresh(cid, p, answer);
      }
    }

    /** INIT on a channel of its own: the channel starts afresh. */
    method HandleResync(cid: nat, nonce: seq<byte>)
      requires Buffers() && Inv(S()) && 0 < cid < BROADCAST && |nonce| == 8 && (running ==> !rs.pending)
      modifies this`rq, this`req, reqBuf
      modifies this`rs, this`owner, this`out, this`resp, respBuf, this`log, this`short, this`resync
      modifies this`abandoned, this`cancelled
      ensures Buffers() && Inv(S()) && Resynced(old(S()), S(), cid, WelcomePacket(cid, nonce, cid))
      ensures Restarted(old(S()), S(), cid)
    {
      hide Buffers, Inv, Resynced, InitPacket, InitAnswer, CidOf, Short;
      WelcomeIsShort(cid, nonce, cid);
      DropOwn(cid);
      ghost var m := S();
      ResyncChannel(cid, WelcomePacket(cid, nonce, cid), InitAnswer(nonce, cid));
      if busyCid == 0 { ResyncedSince(old(S()), m, S(), cid, WelcomePacket(cid, nonce, cid)); }
    }

    /** CTAPHID_INIT: allocates a channel (broadcast) or resynchronises one. */
    method HandleInit(cid: nat, payload: seq<byte>)
      requires Buffers() && Inv(S()) && 0 < cid <= BROADCAST && (running ==> !rs.pending)
      modifies this`rq, this`req, reqBuf
      modifies this`rs, this`owner, this`out, this`resp, respBuf, this`log, this`short, this`resync
      modifies this`abandoned, this`cancelled, this`nextCid
      ensures Buffers() && Inv(S()) && InitHandled(old(S()), S(), cid, payload)
    {
      hide Buffers, Inv, Resynced, Restarted, Aside, InitPacket, InitAnswer;
      if |payload| != 8 {
        QueueError(cid, ERR_INVALID_LEN);
      } else if cid == BROADCAST {
        HandleAllocate(payload);
      } else {
        HandleResync(cid, payload);
      }
    }

    // ----- packets in -----

    /** A request is complete and leaves the assembly; it waits for the main loop unless a touch wait is on. */
    method CompleteRequest(cid: nat)
      requires Buffers() && Inv(S().(rq := rq.(assembling := false, cid := 0)))
      requires busyCid == 0 && 0 < cid < BROADCAST && rq.cmd < 0x80 && rq.cmd !in {CMD_INIT, CMD_CANCEL}
      modifies this`busyCid
      modifies this`rq, this`req, reqBuf
      modifies this`rs, this`owner, this`out, this`resp, respBuf, this`log, this`short, this`resync
      ensures Buffers() && Inv(S()) && !rq.assembling && Completed(old(S()), S(), cid)
    {
      hide Buffers, Inv, Aside, Grew, Quietly;
      rq := rq.(assembling := false, cid := 0);
      if busyCid != 0 {
        assert false;   // no assembly starts while a request waits or runs
      } else if awaiting {
        ghost var m := S();
        QueueError(cid, ERR_CHANNEL_BUSY);
        AsideKeeps(m, S(), ErrorPacket(cid, ERR_CHANNEL_BUSY));
        ghost var n := S();
        DropAssembly();
        RefusedComplete(old(S()), m, n, S(), cid);
      } else {
        busyCid := cid;
        log := Queued(log, Current(cid, rq, req));
        Accepted(old(S()).(rq := rq), S());
      }
    }

    /** Bytes of the request behind those already there. */
    method CopyRequest(at: nat, data: seq<byte>)
      requires Buffers() && at + |data| <= MAX_PAYLOAD
      modifies this`req, reqBuf
      ensures Buffers() && |req| == MAX_PAYLOAD && Prefix(req, at + |data|) == Prefix(old(req), at) + data
    {
      forall k | 0 <= k < |data| { reqBuf[at + k] := data[k]; }
      req := reqBuf[..];
      assert req[..at] == old(req)[..at] && req[at..at + |data|] == data;
      assert req[..at + |data|] == req[..at] + req[at..at + |data|];
    }

    method StartRequest(cid: nat, cmd: nat, bcnt: nat, data: seq<byte>)
      requires Buffers() && |data| <= INIT_DATA_LEN
      modifies this`rq, this`req, reqBuf
      ensures Buffers() && rq == Incoming(old(rq).assembling, cid, cmd, bcnt, |data|, 0) && |req| == MAX_PAYLOAD
      ensures Prefix(req, |data|) == data
    {
      hide Buffers;
      ClearRequest();
      rq := Incoming(rq.assembling, cid, cmd, bcnt, 0, 0);
      CopyRequest(0, data);
      assert Prefix(req, |data|) == [] + data;
      rq := rq.(received := |data|);
    }

    method TakeChunk(p: Packet)
      requires Buffers() && Inv(S()) && rq.assembling && CidOf(p) == rq.cid && !IsInit(p) && Low7(p) == rq.nextSeq
      modifies this`rq, this`req, reqBuf
      ensures Buffers() && |req| == MAX_PAYLOAD && old(rq).received < old(rq).total
      ensures var chunk := Min(old(rq).total - old(rq).received, CONT_DATA_LEN);
        && rq == old(rq).(nextSeq := old(rq).nextSeq + 1, received := old(rq).received + chunk)
        && Prefix(req, rq.received) == Prefix(old(req), old(rq).received) + p[5..5 + chunk]
    {
      HasRoom(S());
      hide Buffers, Inv, Prefix, Low7, CidOf;
      var remaining := rq.total - rq.received;
      var chunk := if remaining > CONT_DATA_LEN then CONT_DATA_LEN else remaining;
      CopyRequest(rq.received, p[5..5 + chunk]);
      rq := rq.(nextSeq := rq.nextSeq + 1, received := rq.received + chunk);
    }

    method HandleContPacket(cid: nat, p: Packet)
      requires Buffers() && Inv(S()) && cid == CidOf(p) != 0 && !IsInit(p)
      modifies this`busyCid
      modifies this`rq, this`req, reqBuf
      modifies this`rs, this`owner, this`out, this`resp, respBuf, this`log, this`short, this`resync
      ensures Buffers() && Inv(S()) && Ingested(old(S()), S(), p)
    {
      hide Buffers, Inv, Ingested, Completed, Aside, CidOf, Low7, BcntOf, IsInit, Ingest, Refusal, InitPacket, Prefix;
      Between(S());
      if !rq.assembling || cid != rq.cid {
        StrayPacket(S(), p);
        return;
      }
      AssemblingIsFree(S());
      if Low7(p) != rq.nextSeq {
        WrongSequence(S(), p);
        DropAssembly();
        ghost var m := S();
        QueueError(cid, ERR_INVALID_SEQ);
        IsRefused(old(S()), m, S(), p, ERR_INVALID_SEQ);
        return;
      }
      TakeChunk(p);
      ContinueAsm(old(S()), S(), p);
      if rq.received >= rq.total {
        ghost var m := S();
        CompleteRequest(cid);
        AllArrived(old(S()), m, S(), p);
      } else {
        MoreArrived(old(S()), S(), p);
      }
    }

    /** The first packet of a request, or INIT, or CANCEL. */
    method HandleInitPacket(cid: nat, p: Packet)
      requires Buffers() && Inv(S()) && cid == CidOf(p) != 0 && IsInit(p) && (running ==> !rs.pending)
      modifies this`busyCid, this`abandoned, this`cancelled, this`nextCid
      modifies this`rq, this`req, reqBuf
      modifies this`rs, this`owner, this`out, this`resp, respBuf, this`log, this`short, this`resync
      ensures Buffers() && Inv(S()) && Ingested(old(S()), S(), p)
    {
      hide Buffers, Inv, Ingested, Aside, CidOf, Low7, BcntOf, IsInit, InitPacket, Refuses, Asm;
      Between(S());
      TurnedAway(S(), p);
      var cmd, bcnt := Low7(p), BcntOf(p);
      if cid == BROADCAST && cmd != CMD_INIT {
        Refuse(p, ERR_INVALID_CHANNEL);
      } else if cmd == CMD_INIT {
        if bcnt > INIT_DATA_LEN {
          Refuse(p, ERR_INVALID_LEN);
        } else {
          TakeInit(cid, p);
        }
      } else if cmd == CMD_CANCEL {
        TakeCancel(cid, p);
      } else if awaiting || busyCid != 0 {
        Refuse(p, ERR_CHANNEL_BUSY);
      } else if rq.assembling && cid != rq.cid {
        Refuse(p, ERR_CHANNEL_BUSY);
      } else if bcnt > MAX_PAYLOAD {
        RefuseTooLong(p);
      } else {
        TakeRequest(cid, p);
      }
    }

    method Refuse(p: Packet, err: nat)
      requires Buffers() && Inv(S()) && err < 0x100 && Underway(Asm(rq, req)) && Refuses(S(), Asm(rq, req), p, err)
      modifies this`rs, this`owner, this`out, this`resp, respBuf, this`log, this`short, this`resync
      ensures Buffers() && Inv(S()) && Ingested(old(S()), S(), p)
    {
      hide Buffers, Inv, Ingested, Aside, InitPacket, CidOf, Low7, BcntOf, IsInit, Asm, Ingest, Refusal;
      QueueError(CidOf(p), err);
      IsRefused(old(S()), old(S()), S(), p, err);
    }

    method RefuseTooLong(p: Packet)
      requires Buffers() && Inv(S()) && busyCid == 0 && Underway(Asm(rq, req)) && Refuses(S(), Idle, p, ERR_INVALID_LEN)
      modifies this`rq, this`req, reqBuf
      modifies this`rs, this`owner, this`out, this`resp, respBuf, this`log, this`short, this`resync
      ensures Buffers() && Inv(S()) && Ingested(old(S()), S(), p)
    {
      hide Buffers, Inv, Ingested, Aside, InitPacket, CidOf, Low7, BcntOf, IsInit, Ingest, Refusal;
      DropAssembly();
      ghost var m := S();
      QueueError(CidOf(p), ERR_INVALID_LEN);
      IsRefused(old(S()), m, S(), p, ERR_INVALID_LEN);
    }

    method TakeInit(cid: nat, p: Packet)
      requires Buffers() && Inv(S()) && cid == CidOf(p) != 0 && IsInit(p) && Low7(p) == CMD_INIT
      requires BcntOf(p) <= INIT_DATA_LEN
      requires running ==> !rs.pending
      modifies this`abandoned, this`cancelled, this`nextCid
      modifies this`rq, this`req, reqBuf
      modifies this`rs, this`owner, this`out, this`resp, respBuf, this`log, this`short, this`resync
      ensures Buffers() && Inv(S()) && Underway(old(Asm(rq, req))) && Ingested(old(S()), S(), p)
    {
      hide Buffers, Inv, Ingested, InitHandled, Restarted, CidOf, Low7, BcntOf, IsInit, Asm, Underway;
      Between(S());
      DropOwn(cid);
      ghost var m := S();
      HandleInit(cid, p[7..7 + BcntOf(p)]);
      InitDone(old(S()), m, S(), p);
    }

    method TakeCancel(cid: nat, p: Packet)
      requires Buffers() && Inv(S()) && 0 < cid == CidOf(p) < BROADCAST && IsInit(p) && Low7(p) == CMD_CANCEL
      modifies this`cancelled
      modifies this`rq, this`req, reqBuf
      ensures Buffers() && Inv(S()) && Underway(old(Asm(rq, req))) && Ingested(old(S()), S(), p)
    {
      hide Buffers, Inv, Ingested, Restarted, CidOf, Low7, BcntOf, IsInit, Asm, Underway;
      Between(S());
      DropOwn(cid);
      CancelLatched(S(), cancelled || (cid == busyCid && running));
      if cid == busyCid && running { cancelled := true; }
      CancelIsAside(old(S()), S(), cid);
      CancelDone(old(S()), S(), p);
    }

    method TakeRequest(cid: nat, p: Packet)
      requires Buffers() && Inv(S()) && 0 < cid == CidOf(p) < BROADCAST && IsInit(p)
      requires Low7(p) !in {CMD_INIT, CMD_CANCEL}
      requires busyCid == 0 && !awaiting && (rq.assembling ==> cid == rq.cid) && BcntOf(p) <= MAX_PAYLOAD
      modifies this`busyCid
      modifies this`rq, this`req, reqBuf
      modifies this`rs, this`owner, this`out, this`resp, respBuf, this`log, this`short, this`resync
      ensures Buffers() && Inv(S()) && Underway(old(Asm(rq, req))) && Ingested(old(S()), S(), p)
    {
      hide Buffers, Inv, Ingested, Completed, CidOf, Low7, BcntOf, IsInit, Asm, Underway, Prefix;
      Between(S());
      var bcnt := BcntOf(p);
      var avail := if bcnt > INIT_DATA_LEN then INIT_DATA_LEN else bcnt;
      StartRequest(cid, Low7(p), bcnt, p[7..7 + avail]);
      BeginAsm(old(S()), S(), p);
      if rq.received >= rq.total {
        ghost var m := S();
        CompleteRequest(cid);
        AllArrived(old(S()), m, S(), p);
      } else {
        rq := rq.(assembling := true);
        MoreArrived(old(S()), S(), p);
      }
    }

    /** One report from USB; anything shorter than a packet is ignored. */
    method HandlePacket(pkt: seq<byte>)
      requires Buffers() && Inv(S()) && (running ==> !rs.pending)
      modifies this`busyCid, this`abandoned, this`cancelled, this`nextCid
      modifies this`rq, this`req, reqBuf
      modifies this`rs, this`owner, this`out, this`resp, respBuf, this`log, this`short, this`resync
      ensures Buffers() && Inv(S()) && (running ==> !rs.pending) && Underway(old(Asm(rq, req)))
      ensures if |pkt| < REPORT_LEN then S() == old(S()) else Ingested(old(S()), S(), pkt[..REPORT_LEN])
    {
      hide Buffers, Inv, Aside, CidOf, Low7, BcntOf, IsInit, InitPacket, Asm, Underway, Ingest, Told, Replied, LeftBy;
      Between(S());
      if |pkt| < REPORT_LEN { return; }
      var p: Packet := pkt[..REPORT_LEN];
      if running { RunsFor(S()); }
      var cid := CidOf(p);
      if cid == 0 {
        QueueError(cid, ERR_INVALID_CHANNEL);
        IsRefusedOnZero(old(S()), S(), p);
      } else if IsInit(p) {
        HandleInitPacket(cid, p);
      } else {
        HandleContPacket(cid, p);
      }
    }

    // ----- running a request -----

    /** tud_task: USB delivers what has come in. */
    method PumpUsb(packets: seq<seq<byte>>)
      requires Buffers() && Inv(S()) && running && !rs.pending
      modifies this`busyCid, this`abandoned, this`cancelled, this`nextCid
      modifies this`rq, this`req, reqBuf
      modifies this`rs, this`owner, this`out, this`resp, respBuf, this`log, this`short, this`resync
      ensures Buffers() && Inv(S()) && Pumped(old(S()), S())
    {
      hide Buffers, Inv, Pumped, Ingested, Asm, Underway;
      PumpedFrom(S());
      for i := 0 to |packets|
        invariant Buffers() && Inv(S()) && running && !rs.pending && Pumped(old(S()), S())
      {
        ghost var m := S();
        HandlePacket(packets[i]);
        if |packets[i]| >= REPORT_LEN {
          PacketPumped(m, S(), packets[i][..REPORT_LEN]);
          PumpedTrans(old(S()), m, S());
        }
        PumpedRuns(old(S()), S());
      }
    }

    /** The touch wait began or ended since the last KEEPALIVE, or 50 ms have passed. */
    predicate Due(now: nat)
      reads this`awaiting, this`kaStatus, this`kaLast
    {
      kaStatus != (if awaiting then KA_UPNEEDED else KA_PROCESSING) || (now - kaLast) % TICKS >= KA_INTERVAL_MS
    }

    /** `p` is on the wire, the last there. */
    ghost predicate Last(p: Packet)
      reads this`log
    {
      |log.wire| > 0 && log.wire[|log.wire| - 1] == p
    }

    function AlivePacket(): Packet
      requires busyCid <= BROADCAST
      reads this`busyCid, this`awaiting
    {
      InitPacket(busyCid, INIT_FLAG + CMD_KEEPALIVE, 1, [(if awaiting then KA_UPNEEDED else KA_PROCESSING) as byte])
    }

    method KeepAliveIfDue(now: nat)
      requires Inv(S()) && running && !abandoned
      modifies this`log, this`kaStatus, this`kaLast
      ensures Inv(S()) && Ran(old(log), log)
      ensures |log.queued| > 0 && busyCid <= BROADCAST
      ensures log == old(log) || log == Took(old(log), AlivePacket(), Some(|log.queued| - 1))
      // Only when it is due, and then unless USB refuses it.
      ensures log != old(log) ==>
                old(Due(now)) && kaLast == now && kaStatus == (if awaiting then KA_UPNEEDED else KA_PROCESSING)
      ensures usb == Accepting && old(Due(now)) ==> Last(AlivePacket()) && log != old(log)
      ensures log == old(log) ==> kaStatus == old(kaStatus) && kaLast == old(kaLast)
    {
      hide Inv, Ran, InitPacket, KeepAlive, MayGo;
      RanFrom(log);
      RunsFor(S());
      var status := if awaiting then KA_UPNEEDED else KA_PROCESSING;
      if status != kaStatus || (now - kaLast) % TICKS >= KA_INTERVAL_MS {
        KeepAliveMayGo(S(), status);
        var p := InitPacket(busyCid, INIT_FLAG + CMD_KEEPALIVE, 1, [status as byte]);
        Pushed(S(), p, Some(|log.queued| - 1));
        TookRan(log, p, Some(|log.queued| - 1));
        var ok := Push(p, Some(|log.queued| - 1));
        if ok { kaStatus, kaLast := status, now; }
      }
    }

    method SendProgress(now: nat)
      requires Inv(S()) && running && !rs.pending
      modifies this`log, this`short, this`resync, this`kaStatus, this`kaLast
      ensures Inv(S()) && Pumped(old(S()), S()) && busyCid <= BROADCAST
      ensures usb == Accepting && !abandoned && old(Due(now)) ==> Last(AlivePacket())
    {
      hide Inv, Pumped, Ran, Due, Last, InitPacket;
      RunsFor(S());
      var empty := FlushPending();
      FlushPumped(old(S()), S());
      if empty && !abandoned {
        ghost var n := S();
        KeepAliveIfDue(now);
        KeepAlivePumped(n, S());
        PumpedTrans(old(S()), n, S());
      }
    }

    /** fido_hid_progress: pump USB, send what is held, then perhaps a KEEPALIVE. */
    method Progress(packets: seq<seq<byte>>, now: nat)
      requires Buffers() && Inv(S()) && !rs.pending
      modifies this`busyCid, this`abandoned, this`cancelled, this`nextCid, this`inProgress, this`kaStatus, this`kaLast
      modifies this`rq, this`req, reqBuf
      modifies this`rs, this`owner, this`out, this`resp, respBuf, this`log, this`short, this`resync
      ensures Buffers() && Inv(S()) && inProgress == old(inProgress)
      ensures if running && !inProgress then Pumped(old(S()), S()) else S() == old(S())
      // Unless the host leaves, a KEEPALIVE that is due goes out when USB takes packets.
      ensures running && !inProgress ==> busyCid <= BROADCAST
      ensures running && !inProgress && usb == Accepting && !abandoned && old(Due(now)) ==> Last(AlivePacket())
    {
      if !running || inProgress { return; }
      hide Buffers, Inv, Pumped, Due, Last, AlivePacket;
      inProgress := true;
      PumpThenSend(packets, now);
      inProgress := false;
    }

    method PumpThenSend(packets: seq<seq<byte>>, now: nat)
      requires Buffers() && Inv(S()) && running && !rs.pending
      modifies this`busyCid, this`abandoned, this`cancelled, this`nextCid, this`kaStatus, this`kaLast
      modifies this`rq, this`req, reqBuf
      modifies this`rs, this`owner, this`out, this`resp, respBuf, this`log, this`short, this`resync
      ensures Buffers() && Inv(S()) && Pumped(old(S()), S()) && busyCid <= BROADCAST
      ensures usb == Accepting && !abandoned && old(Due(now)) ==> Last(AlivePacket())
    {
      hide Buffers, Inv, Pumped, Due, Last, AlivePacket;
      PumpUsb(packets);
      PumpedRuns(old(S()), S());
      ghost var m := S();
      SendProgress(now);
      PumpedTrans(old(S()), m, S());
    }

    method ProgressPoint(pt: Point)
      requires Buffers() && Inv(S()) && running && !rs.pending && !inProgress
      modifies this`busyCid, this`abandoned, this`cancelled, this`nextCid, this`inProgress, this`kaStatus, this`kaLast
      modifies this`awaiting
      modifies this`rq, this`req, reqBuf
      modifies this`rs, this`owner, this`out, this`resp, respBuf, this`log, this`short, this`resync
      ensures Buffers() && Inv(S()) && !inProgress && Working(old(S()), S())
    {
      hide Buffers, Inv, Pumped;
      var n := if |pt.scratch| > MAX_PAYLOAD then MAX_PAYLOAD else |pt.scratch|;
      awaiting := pt.awaiting;
      CopyResponse(pt.scratch[..n]);
      Scribbled(old(S()), S());
      ghost var m := S();
      Progress(pt.packets, pt.now);
      assert resp == m.resp by { PumpedScratch(m, S()); }   // what the handler wrote is still there
      WorkingOn(old(S()), m, S());
    }

    /** A handler is called: from here on the request has been dispatched, and it must not have been before. */
    ghost method Enter()
      requires Unserved(S())
      modifies this`log
      ensures Inv(S()) && S() == Entered(old(S())) && running && |log.fate| == |old(log).fate| + 1
    {
      hide Inv;
      Started(S());
      log := Fated(log, FateOf(S()));
    }

    method HandleCbor(run: Handler)
      requires Buffers() && Unserved(S()) && !abandoned && !inProgress && rq.cmd == CMD_CBOR
      requires run.answer.Some? ==> |run.answer.value| <= MAX_PAYLOAD
      modifies this`busyCid, this`abandoned, this`cancelled, this`nextCid, this`inProgress, this`kaStatus, this`kaLast
      modifies this`awaiting
      modifies this`rq, this`req, reqBuf
      modifies this`rs, this`owner, this`out, this`resp, respBuf, this`log, this`short, this`resync
      ensures Buffers() && Inv(S()) && !inProgress && Done(Entered(old(S())), S(), run.answer)
    {
      hide Buffers, Inv, Working, Aside;
      Enter();
      ghost var s := S();
      WorkingFrom(s);
      for i := 0 to |run.points|
        invariant Buffers() && Inv(S()) && running && !rs.pending && !inProgress && Working(s, S())
      {
        ghost var m := S();
        ProgressPoint(run.points[i]);
        WorkingTrans(s, m, S());
        WorkingRuns(s, S());
      }
      WorkingRuns(s, S());
      FinishCbor(run.answer, s);
    }

    method FinishCbor(answer: Option<seq<byte>>, ghost s: State)
      requires Buffers() && Inv(S()) && running && !rs.pending && Working(s, S()) && rq.cmd == CMD_CBOR
      requires answer.Some? ==> |answer.value| <= MAX_PAYLOAD
      modifies this`awaiting
      modifies this`rs, this`owner, this`out, this`resp, respBuf, this`log, this`short, this`resync
      ensures Buffers() && Inv(S()) && Done(s, S(), answer)
    {
      hide Buffers, Inv, Working, Done, Aside, InitPacket;
      ghost var w := S();
      awaiting := false;
      TouchOver(w, S());
      RunsFor(S());
      ghost var m := S();
      WorkingStill(s, w, m);
      if answer == None {
        QueueError(busyCid, ERR_OTHER);
        DoneWithout(s, m, S(), ErrorPacket(m.busyCid, ERR_OTHER));
      } else if abandoned {
        QueueResponse(busyCid, INIT_FLAG + CMD_CBOR, answer.value, None);
        StaleAnswer(m, S());
        DoneInVain(s, m, S(), answer);
      } else {
        QueueAnswer(answer.value);
        DoneWith(s, m, S(), answer.value);
      }
    }

    /** The request that the main loop runs is handed to its handler, once. */
    method Dispatch(run: Handler)
      requires Buffers() && Unserved(S()) && !abandoned && !inProgress
      requires run.answer.Some? ==> |run.answer.value| <= MAX_PAYLOAD
      modifies this`busyCid, this`abandoned, this`cancelled, this`nextCid, this`inProgress, this`kaStatus, this`kaLast
      modifies this`awaiting
      modifies this`rq, this`req, reqBuf
      modifies this`rs, this`owner, this`out, this`resp, respBuf, this`log, this`short, this`resync
      ensures Buffers() && Inv(S()) && !inProgress
      ensures log.fate == old(log).fate + [Dispatched(Current(old(busyCid), old(rq), old(req)))]
      ensures Done(Entered(old(S())), S(), Expected(old(rq).cmd, Prefix(old(req), old(rq).received), run))
      // The host of a command that is not known is told so.
      ensures old(rq).cmd !in {CMD_PING, CMD_MSG, CMD_CBOR} ==>
                old(busyCid) <= BROADCAST && Aside(Entered(old(S())), S(), ErrorPacket(old(busyCid), ERR_INVALID_CMD))
    {
      hide Buffers, Inv, InitPacket, Prefix, Done, Aside;
      RunsFor(S().(running := false));
      if rq.cmd == CMD_INIT {
        assert false;   // INIT is handled as it comes in and never queued
      } else if rq.cmd == CMD_PING {
        EchoRequest();
      } else if rq.cmd == CMD_MSG {
        AnswerNow([0x6E, 0x00]);
      } else if rq.cmd == CMD_CBOR {
        HandleCbor(run);
      } else {
        AnswerError(ERR_INVALID_CMD);
      }
      DoneRuns(Entered(old(S())), S(), Expected(old(rq).cmd, Prefix(old(req), old(rq).received), run));
    }

    method AnswerNow(payload: seq<byte>)
      requires Buffers() && Unserved(S()) && !abandoned && |payload| <= MAX_PAYLOAD
      requires rq.cmd in {CMD_PING, CMD_MSG}
      modifies this`rs, this`owner, this`out, this`resp, respBuf, this`log
      ensures Buffers() && Inv(S()) && Done(Entered(old(S())), S(), Some(payload))
    {
      hide Buffers, Inv, Done, Working;
      Enter();
      ghost var s := S();
      RunsFor(s);
      QueueAnswer(payload);
      WorkingFrom(s);
      DoneWith(s, s, S(), payload);
    }

    method AnswerError(err: nat)
      requires Buffers() && Unserved(S()) && !abandoned && err < 0x100
      modifies this`rs, this`owner, this`out, this`resp, respBuf, this`log, this`short, this`resync
      ensures Buffers() && Inv(S()) && Done(Entered(old(S())), S(), None)
      ensures old(busyCid) <= BROADCAST && Aside(Entered(old(S())), S(), ErrorPacket(old(busyCid), err))
    {
      hide Buffers, Inv, Done, Working, Aside, InitPacket;
      Enter();
      ghost var s := S();
      RunsFor(s);
      WorkingFrom(s);
      QueueError(busyCid, err);
      DoneWithout(s, s, S(), ErrorPacket(s.busyCid, err));
    }

    method EchoRequest()
      requires Buffers() && Unserved(S()) && !abandoned && rq.cmd == CMD_PING && rq.received <= MAX_PAYLOAD
      modifies this`rs, this`owner, this`out, this`resp, respBuf, this`log
      ensures Buffers() && Inv(S()) && Done(Entered(old(S())), S(), Some(Prefix(req, rq.received)))
    {
      hide Inv, Done;
      AnswerNow(reqBuf[..rq.received]);
    }

    // ----- the main loop -----

    method TakeUp(start: nat)
      requires Inv(S()) && busyCid != 0 && !running && !rs.pending
      modifies this`kaStatus, this`kaLast, this`cancelled, this`running
      ensures Unserved(S()) && Entered(S()) == Taken(old(S()))
    {
      hide Inv;
      kaStatus, kaLast := 0, start;
      cancelled := false;   // earlier cancels do not count
      running := true;
      TakenUp(old(S()), S());
    }

    method LetGo()
      requires Buffers() && Inv(S()) && running
      modifies this`running, this`rs, this`cancelled, this`busyCid, this`abandoned
      modifies this`rq, this`req, reqBuf
      ensures Buffers() && Inv(S()) && !running && busyCid == 0
      ensures rs.pending == (old(rs).pending && !old(abandoned))
    {
      hide Buffers, Inv;
      running := false;
      if abandoned { rs := rs.(pending := false); }   // nobody waits for it
      cancelled := false;
      ResetAssembly();
      busyCid := 0;
      abandoned := false;
      Finished(old(S()), S());
    }

    /** The waiting request is dispatched, unless its host has left it; either way it is over afterwards. */
    method RunRequest(run: Handler)
      requires Buffers() && Inv(S()) && busyCid != 0 && !running && !rs.pending && !inProgress
      requires run.answer.Some? ==> |run.answer.value| <= MAX_PAYLOAD
      modifies this`busyCid, this`abandoned, this`cancelled, this`nextCid, this`inProgress, this`kaStatus, this`kaLast
      modifies this`awaiting, this`running
      modifies this`rq, this`req, reqBuf
      modifies this`rs, this`owner, this`out, this`resp, respBuf, this`log, this`short, this`resync
      ensures Buffers() && Inv(S()) && !inProgress && !running && busyCid == 0
      ensures Served(old(S()), log, Expected(old(rq).cmd, Prefix(old(req), old(rq).received), run))
    {
      hide Buffers, Inv, Done, Prefix, Served;
      TakeUp(run.start);
      ghost var m := S();
      if !abandoned {
        Dispatch(run);
        ServedBy(old(S()), Entered(m), S(), Expected(m.rq.cmd, Prefix(m.req, m.rq.received), run));
        DoneRuns(Entered(m), S(), Expected(m.rq.cmd, Prefix(m.req, m.rq.received), run));
      } else {
        Started(S());
        log := Fated(log, Dropped);
        NotServed(old(S()), S(), Expected(m.rq.cmd, Prefix(m.req, m.rq.received), run));
      }
      LetGo();
    }

    /** The next packet of the pending response; rolled back when USB refuses it. */
    method EmitPacket() returns (more: bool)
      requires Buffers() && Inv(S()) && !running
      modifies this`rs, this`out, this`log
      ensures Buffers() && Inv(S()) && Ran(old(log), log) && log.gone == old(log).gone
      ensures more ==> old(rs).pending && old(rs).sent <= old(rs).total && rs == Advanced(old(rs))
      ensures !more ==> rs == old(rs) && log == old(log)
      ensures usb == Accepting && old(rs).pending ==> more
    {
      hide Inv, Ran, MakePacket;
      RanFrom(log);
      if !rs.pending { return false; }
      more := Ready();
      if !more { return; }
      ReplyParts(S());
      var p := MakePacket(rs.cid, rs.cmd, respBuf[..rs.total], rs.sent, rs.n);
      hide Buffers;
      Emitted(S(), S().(rs := Advanced(rs), out := out + [p], log := Took(log, p, owner)), p);
      TookRan(log, p, owner);
      more := SendOrRollBack(p);
    }

    method SendOrRollBack(p: Packet) returns (ok: bool)
      requires rs.pending && rs.sent <= rs.total
      modifies this`rs, this`out, this`log
      ensures if ok then rs == Advanced(old(rs)) && out == old(out) + [p] && log == Took(old(log), p, owner)
              else rs == old(rs) && out == old(out) && log == old(log)
      ensures usb == Accepting ==> ok
    {
      var chunk := Chunk(rs.sent, rs.total);
      var first := rs.sent == 0;
      rs := rs.(sent := rs.sent + chunk, n := if first then rs.n else rs.n + 1);
      ok := Report(p, owner);
      if !ok {
        rs := rs.(sent := rs.sent - chunk, n := if first then rs.n else rs.n - 1);
        return;
      }
      out := out + [p];
      if rs.sent >= rs.total { rs := rs.(pending := false); }
    }

    method EmitAll()
      requires Buffers() && Inv(S()) && !running
      modifies this`rs, this`out, this`log
      ensures Buffers() && Inv(S()) && Ran(old(log), log) && log.gone == old(log).gone
      ensures usb == Accepting ==> !rs.pending
    {
      hide Buffers, Inv, Ran;
      RanFrom(log);
      var more := true;
      while more
        invariant Buffers() && Inv(S()) && Ran(old(log), log) && log.gone == old(log).gone
        invariant usb == Accepting && !more ==> !rs.pending
        decreases if more && rs.pending && rs.sent <= rs.total then rs.total - rs.sent + 2 else if more then 1 else 0
      {
        ghost var l := log;
        if rs.pending { ReplyParts(S()); }
        more := EmitPacket();
        RanTrans(old(log), l, log);
      }
    }

    /** fido_hid_task: run a waiting request once the previous answer is out, then send. */
    method Task(run: Handler)
      requires Buffers() && Inv(S()) && !running && !inProgress
      requires run.answer.Some? ==> |run.answer.value| <= MAX_PAYLOAD
      modifies this`busyCid, this`abandoned, this`cancelled, this`nextCid, this`inProgress, this`kaStatus, this`kaLast
      modifies this`awaiting, this`running
      modifies this`rq, this`req, reqBuf
      modifies this`rs, this`owner, this`out, this`resp, respBuf, this`log, this`short, this`resync
      ensures Buffers() && Inv(S()) && !inProgress && !running
      ensures if old(busyCid) == 0 || old(rs).pending then Ran(old(log), log) && busyCid == old(busyCid)
              else busyCid == 0 && Served(old(S()), log, Expected(old(rq).cmd, Prefix(old(req), old(rq).received), run))
      // When USB takes every packet nothing stays unsent, unless an abandoned request waits behind a pending answer.
      ensures if old(Stuck(S())) then StillStuck(old(S()), S()) && resync == old(resync)
              else usb == Accepting ==> !rs.pending && short == None && resync == None
    {
      hide Buffers, Inv, Ran, Prefix, Served;
      RanFrom(log);
      if busyCid == 0 { OwnsNothing(S()); }
      if busyCid != 0 && !rs.pending {
        RunRequest(run);
        OwnsNothing(S());
      }
      ghost var l := log;
      SendAll();
      if old(busyCid) != 0 && !old(rs).pending {
        ServedStill(old(S()), l, log, Expected(old(rq).cmd, Prefix(old(req), old(rq).received), run));
      }
    }

    /** The pending response moves only when no packet is held. */
    method SendAll()
      requires Buffers() && Inv(S()) && !running
      modifies this`rs, this`out, this`log, this`short, this`resync
      ensures Buffers() && Inv(S()) && Ran(old(log), log) && log.gone == old(log).gone
      ensures short.Some? || resync.Some? ==> Quietly(old(log), log) && rs == old(rs) && out == old(out)
      ensures abandoned ==> resync == old(resync) && resync.Some?
      ensures usb == Accepting ==> short == None && (!abandoned ==> resync == None && !rs.pending)
    {
      hide Buffers, Inv, Ran, Quietly;
      RanFrom(log);
      var empty := FlushPending();
      QuietRan(old(log), log);
      if empty && resync == None {
        ghost var l := log;
        EmitAll();
        RanTrans(old(log), l, log);
      }
    }

    /**
     Any packets, touch waits and rounds of the main loop, in any order: every accepted request but the one that waits
     has met its one fate, and what went out is sound and complete.
     */
    method AnyRun(events: seq<Event>)
      requires Buffers() && Inv(S()) && !running && !inProgress
      requires forall e :: e in events && e.Round? && e.run.answer.Some? ==> |e.run.answer.value| <= MAX_PAYLOAD
      modifies this, reqBuf, respBuf
      ensures Buffers() && Inv(S()) && !running
      ensures LogOk(log) && Delivery(log, Pending(rs, false, owner))
      ensures |log.queued| == |log.fate| + (if busyCid != 0 then 1 else 0)
    {
      for i := 0 to |events|
        invariant Buffers() && Inv(S()) && !running && !inProgress
      {
        hide Buffers, Inv, Ingested, Served, Ran;
        assert events[i] in events;
        match events[i] {
          case Delivered(packet) => Receive(packet);
          case Touch(on) =>
            ghost var s := S();
            awaiting := on;
            TouchOver(s, S());
          case Round(run) => Task(run);
        }
      }
    }

    /**
     A device whose abandoned request waits behind a pending answer stays so for any packets, touch waits and
     rounds, even when USB takes every packet, as long as no INIT leaves that answer.
     */
    method StaysStuck(events: seq<Event>)
      requires Buffers() && Inv(S()) && !inProgress && Stuck(S())
      requires forall e :: e in events && e.Round? && e.run.answer.Some? ==> |e.run.answer.value| <= MAX_PAYLOAD
      requires forall e :: e in events && e.Delivered? && |e.packet| >= REPORT_LEN ==>
                !Drops(S(), e.packet[..REPORT_LEN])
      modifies this, reqBuf, respBuf
      ensures Buffers() && Inv(S()) && StillStuck(old(S()), S())
    {
      StuckFrom(S());
      for i := 0 to |events|
        invariant Buffers() && Inv(S()) && !inProgress && StillStuck(old(S()), S())
      {
        hide Buffers, Inv, StillStuck, Stuck, Resync;
        assert events[i] in events;
        ghost var s := S();
        NowStuck(old(S()), s);
        StuckStep(events[i]);
        StuckTrans(old(S()), s, S());
      }
    }

    method StuckStep(e: Event)
      requires Buffers() && Inv(S()) && !inProgress && Stuck(S())
      requires e.Round? && e.run.answer.Some? ==> |e.run.answer.value| <= MAX_PAYLOAD
      requires e.Delivered? && |e.packet| >= REPORT_LEN ==> !Drops(S(), e.packet[..REPORT_LEN])
      modifies this, reqBuf, respBuf
      ensures Buffers() && Inv(S()) && !inProgress && StillStuck(old(S()), S())
    {
      hide Buffers, Inv, Ingested, Served, Ran, Grew, Resync, Drops;
      StuckFrom(S());
      ghost var s := S();
      match e {
        case Delivered(packet) =>
          Receive(packet);
          if |packet| >= REPORT_LEN { OnlyInitHelps(s, S(), packet[..REPORT_LEN]); }
        case Touch(on) =>
          awaiting := on;
          TouchOver(s, S());
          TouchStuck(s, S());
        case Round(run) => Task(run);
      }
    }

    /**
     Three packets on one channel before the first round: an over-long request, a PING, an INIT.  The device is stuck
     for good.
     */
    method HeldForEver(cid: nat, nonce: seq<byte>, events: seq<Event>)
      requires 0 < cid < BROADCAST && |nonce| == 8
      requires Buffers() && Inv(S()) && !running && busyCid == 0 && !rq.assembling && !inProgress && !awaiting
      requires !rs.pending
      requires forall e :: e in events && e.Round? && e.run.answer.Some? ==> |e.run.answer.value| <= MAX_PAYLOAD
      modifies this, reqBuf, respBuf
      ensures Buffers() && Inv(S()) && Stuck(S()) && rs.cid == busyCid == cid
      ensures log.fate == old(log).fate && log.answers == old(log).answers && |log.queued| == |old(log).queued| + 1
    {
      hide Buffers, Inv, Ingested, Grew, StillStuck, InitPacket;
      ghost var s0 := S();
      Receive(TooLong(cid));
      ghost var s1 := S();
      Receive(EmptyPing(cid));
      ghost var s2 := S();
      Receive(InitPacket(cid, INIT_FLAG + CMD_INIT, 8, nonce));
      BecomesStuck(cid, s0, s1, s2, S(), nonce);
      ghost var s := S();
      StaysStuck(events);
      NowStuck(s, S());
    }

    method Receive(packet: seq<byte>)
      requires Buffers() && Inv(S()) && !running
      modifies this`busyCid, this`abandoned, this`cancelled, this`nextCid
      modifies this`rq, this`req, reqBuf
      modifies this`rs, this`owner, this`out, this`resp, respBuf, this`log, this`short, this`resync
      ensures Buffers() && Inv(S()) && !running && Underway(old(Asm(rq, req)))
      ensures if |packet| < REPORT_LEN then S() == old(S()) else Ingested(old(S()), S(), packet[..REPORT_LEN])
      ensures |packet| == REPORT_LEN ==> packet[..REPORT_LEN] == packet
    {
      hide Buffers, Inv, Ingested, Underway, Asm;
      HandlePacket(packet);
    }
  }
}

/**
 The history of a CTAPHID device: what USB took, what was accepted and what became of it.
 */
module CtapLog {
  import opened Values
  import opened BigEndian
  import opened CtapFrames

  datatype Fate = Dispatched(request: Request) | Dropped

  /**
   Everything that happened.  `wire`: packets USB took; `about`: the request each of them answers
   or keeps alive; `queued`: requests accepted, `fate`: what became of them, in order; `answers`;
   `gone`: for a request the host left, how many packets were out by then.
   */
  datatype Log = Log(wire: seq<Packet>, about: seq<Option<nat>>, queued: seq<Request>, fate: seq<Fate>,
                     answers: map<nat, seq<byte>>, gone: map<nat, nat>)

  predicate Short(p: Packet) { p[4] as nat in {INIT_FLAG + CMD_INIT, INIT_FLAG + CMD_ERROR} }

  predicate KeepAlive(p: Packet) { p[4] as nat == INIT_FLAG + CMD_KEEPALIVE }

  /** An INIT that resynchronises channel `cid`. */
  predicate Resync(p: Packet, cid: nat) {
    IsInit(p) && Low7(p) == CMD_INIT && CidOf(p) == cid && BcntOf(p) == 8
  }

  /** The answer packets about request `i`, in the order USB took them. */
  ghost function AnswerPackets(l: Log, n: nat, i: nat): seq<Packet>
    requires n <= |l.wire| == |l.about|
  {
    if n == 0 then []
    else
      var before := AnswerPackets(l, n - 1, i);
      if l.about[n - 1] == Some(i) && !KeepAlive(l.wire[n - 1]) then before + [l.wire[n - 1]] else before
  }

  ghost predicate MayGo(l: Log, p: Packet, i: Option<nat>) {
    match i
    case None => Short(p)
    case Some(j) => OneAbout(l, j, p, 0) && j !in l.gone
  }

  /**
   Each accepted request is dispatched at most once, with the bytes it was accepted with; what
   goes out is an INIT or ERROR answer or is about a dispatched request; and nothing about a
   request goes out once the host has left it.
   */
  ghost predicate LogOk(l: Log) {
    && |l.about| == |l.wire| && |l.fate| <= |l.queued|
    && (forall i :: 0 <= i < |l.fate| && l.fate[i].Dispatched? ==> l.fate[i].request == l.queued[i])
    && (forall i :: i in l.gone ==> i < |l.queued| && l.gone[i] <= |l.wire|)
    && (forall k :: 0 <= k < |l.wire| && l.about[k] == None ==> Short(l.wire[k]))
    && (forall k :: 0 <= k < |l.wire| && l.about[k].Some? ==> OneAbout(l, l.about[k].value, l.wire[k], k))
  }

  ghost predicate OneAbout(l: Log, i: nat, p: Packet, k: nat)
  {
    && i < |l.fate| <= |l.queued| && l.fate[i].Dispatched? && CidOf(p) == l.queued[i].cid
    && (i in l.gone ==> k < l.gone[i]) && (KeepAlive(p) || i in l.answers)
  }

  ghost function Whole(l: Log, i: nat): seq<Packet>
    requires i in l.answers && i < |l.queued| && l.queued[i].cid <= BROADCAST && l.queued[i].cmd < 0x80
  {
    Packets(l.queued[i].cid, INIT_FLAG + l.queued[i].cmd, l.answers[i])
  }

  /** Answers go out whole and in order, unless the host left or the rest is still to come (`pending`). */
  ghost predicate Delivery(l: Log, pending: Option<nat>) {
    && |l.about| == |l.wire|
    && forall i :: i in l.answers ==>
         && i < |l.fate| <= |l.queued| && l.fate[i].Dispatched? && |l.answers[i]| <= MAX_PAYLOAD
         && l.queued[i].cid <= BROADCAST && l.queued[i].cmd in {CMD_PING, CMD_MSG, CMD_CBOR}
         && AnswerPackets(l, |l.wire|, i) <= Whole(l, i)
         && (AnswerPackets(l, |l.wire|, i) == Whole(l, i) || i in l.gone || pending == Some(i))
  }

  /** Only INIT and ERROR answers were added, and perhaps a request was accepted or left. */
  ghost predicate Grew(l: Log, m: Log) {
    && l.wire <= m.wire && l.about <= m.about && l.queued <= m.queued && m.fate == l.fate && m.answers == l.answers
    && |m.about| - |l.about| == |m.wire| - |l.wire|
    && (forall k :: |l.about| <= k < |m.about| ==> m.about[k] == None)
    && (forall i :: i in l.gone ==> i in m.gone && m.gone[i] == l.gone[i])
  }

  lemma {:induction false} PrefixAnswers(l: Log, m: Log, n: nat, i: nat)
    requires n <= |l.wire| == |l.about| && |m.wire| == |m.about| && l.wire <= m.wire && l.about <= m.about
    ensures AnswerPackets(m, n, i) == AnswerPackets(l, n, i)
    decreases n
  {
    if n > 0 { PrefixAnswers(l, m, n - 1, i); }
  }

  lemma {:induction false} NoAnswerYet(l: Log, n: nat, i: nat)
    requires LogOk(l) && n <= |l.wire| && i !in l.answers
    ensures AnswerPackets(l, n, i) == []
    decreases n
  {
    hide CidOf, Short, KeepAlive;
    if n > 0 {
      NoAnswerYet(l, n - 1, i);
      if l.about[n - 1] == Some(i) { assert OneAbout(l, i, l.wire[n - 1], n - 1); }
    }
  }

  /** One more packet on the wire. */
  function Took(l: Log, p: Packet, i: Option<nat>): Log {
    l.(wire := l.wire + [p], about := l.about + [i])
  }

  lemma TookKeeps(l: Log, p: Packet, i: Option<nat>)
    requires LogOk(l) && MayGo(l, p, i)
    ensures LogOk(Took(l, p, i))
  {
    hide CidOf, Short;
    var m := Took(l, p, i);
    forall k | 0 <= k < |m.wire| && m.about[k].Some? ensures OneAbout(m, m.about[k].value, m.wire[k], k) {
      if k < |l.wire| { assert OneAbout(l, l.about[k].value, l.wire[k], k); }
    }
  }

  lemma TookAnswers(l: Log, p: Packet, i: Option<nat>, j: nat)
    requires |l.wire| == |l.about|
    ensures var m := Took(l, p, i); var before := AnswerPackets(l, |l.wire|, j);
      AnswerPackets(m, |m.wire|, j) == if i == Some(j) && !KeepAlive(p) then before + [p] else before
  {
    PrefixAnswers(l, Took(l, p, i), |l.wire|, j);
  }

  lemma SameWhole(l: Log, m: Log)
    requires l.queued <= m.queued && m.answers == l.answers
    ensures forall j :: j in l.answers && j < |l.queued| && l.queued[j].cid <= BROADCAST && l.queued[j].cmd < 0x80 ==>
      j < |m.queued| && Whole(m, j) == Whole(l, j)
  {
  }

  lemma TookDelivers(l: Log, p: Packet, i: Option<nat>, pending: Option<nat>)
    requires Delivery(l, pending) && (i == None || KeepAlive(p))
    ensures Delivery(Took(l, p, i), pending)
  {
    hide Packets, KeepAlive, AnswerPackets, Whole;
    var m := Took(l, p, i);
    SameWhole(l, m);
    forall j | j in m.answers ensures AnswerPackets(m, |m.wire|, j) == AnswerPackets(l, |l.wire|, j) {
      TookAnswers(l, p, i, j);
    }
  }

  /** The host leaves request `i`; the first time counts. */
  function Left(l: Log, i: nat): (m: Log)
    ensures m == l.(gone := m.gone)
  {
    l.(gone := if i in l.gone then l.gone else l.gone[i := |l.wire|])
  }

  lemma LeftBehind(l: Log, i: nat, pending: Option<nat>)
    requires LogOk(l) && Delivery(l, pending) && i < |l.queued|
    ensures LogOk(Left(l, i)) && Delivery(Left(l, i), pending) && Grew(l, Left(l, i))
    ensures pending == Some(i) ==> Delivery(Left(l, i), None)
  {
    hide CidOf, Short, Packets, KeepAlive;
    var m := Left(l, i);
    forall j: nat ensures AnswerPackets(m, |m.wire|, j) == AnswerPackets(l, |l.wire|, j) {
      PrefixAnswers(l, m, |l.wire|, j);
    }
    SameWhole(l, m);
    hide AnswerPackets, Whole;
    forall k | 0 <= k < |m.wire| && m.about[k].Some? ensures OneAbout(m, m.about[k].value, m.wire[k], k) {
      assert OneAbout(l, l.about[k].value, l.wire[k], k);
    }
  }

  /** Nothing but INIT and ERROR answers went out. */
  ghost predicate Quietly(l: Log, m: Log) {
    Grew(l, m) && m.queued == l.queued && m.gone == l.gone
  }

  ghost predicate WentOut(l: Log, m: Log, p: Packet) {
    |m.wire| > |l.wire| && m.wire[|m.wire| - 1] == p
  }

  lemma GrewFrom(l: Log)
    ensures Grew(l, l)
  {
  }

  lemma QuietFrom(l: Log)
    ensures Quietly(l, l)
  {
  }

  lemma TookQuietly(l: Log, p: Packet)
    ensures Quietly(l, Took(l, p, None)) && WentOut(l, Took(l, p, None), p)
  {
  }

  lemma QuietTrans(l: Log, m: Log, n: Log)
    requires Quietly(l, m) && Quietly(m, n)
    ensures Quietly(l, n) && |l.wire| <= |m.wire|
  {
  }

  lemma GrewTrans(l: Log, m: Log, n: Log)
    requires Grew(l, m) && Grew(m, n)
    ensures Grew(l, n) && |l.wire| <= |m.wire|
  {
  }

  /** What a request's run does to the history: more may be out, nothing else is accepted or answered. */
  ghost predicate Ran(l: Log, m: Log) {
    && l.wire <= m.wire && l.about <= m.about && m.queued == l.queued && m.fate == l.fate && m.answers == l.answers
    && (forall i :: i in l.gone ==> i in m.gone && m.gone[i] == l.gone[i])
  }

  lemma RanFrom(l: Log)
    ensures Ran(l, l)
  {
  }

  lemma RanTrans(l: Log, m: Log, n: Log)
    requires Ran(l, m) && Ran(m, n)
    ensures Ran(l, n)
  {
  }

  lemma GrewRan(l: Log, m: Log)
    requires Grew(l, m) && m.queued == l.queued
    ensures Ran(l, m)
  {
  }

  lemma TookRan(l: Log, p: Packet, i: Option<nat>)
    ensures Ran(l, Took(l, p, i))
  {
  }
}

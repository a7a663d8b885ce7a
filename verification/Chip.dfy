/**
 The secure element as the firmware sees it, with every fault it may show.

 Each call that changes the chip may run, be refused, run with its answer lost
 or (R-mem only) be torn.  A power cut is the special case where one call
 fails in one of these ways and every later call is refused, so what a method
 ensures for every outcome also holds at every point where power can fail.
 While `calm` is set no fault happens; while `honest` is set no torn call claims success.
 */
module ChipModel {
  import opened Values

  const RMEM_SLOTS: nat := 512
  const MAD_SLOTS: nat := 128
  const ECC_SLOTS: nat := 32

  /** `masked`: the slot holds data but reads as empty (a failed decrypt). */
  datatype Cell = Blank | Held(blob: Blob, masked: bool)

  datatype ReadResult = Got(blob: Blob) | SlotEmpty | Failed

  datatype Outcome = Done | Refused | Lost | TornGarbled(claimed: bool) | TornMasked(claimed: bool)

  /** A key is named by the number it was generated under. */
  datatype EccSlot = NoKey | Key(id: nat)

  type Rmem = r: seq<Cell> | |r| == RMEM_SLOTS witness seq(RMEM_SLOTS, _ => Blank)
  type Mad = m: seq<Term> | |m| == MAD_SLOTS witness seq(MAD_SLOTS, i => Factory(i))
  type Ecc = e: seq<EccSlot> | |e| == ECC_SLOTS witness seq(ECC_SLOTS, _ => NoKey)

  /** What a torn write or erase makes of a cell. */
  predicate Damaged(c: Cell, d: Cell) {
    if c.Blank? then d == Held(Garbage, false) || d == Blank
    else d == Held(Garbage, c.masked) || d == Held(c.blob, true)
  }

  predicate EraseOutcome(c: Cell, d: Cell, ok: bool) {
    d == Blank || (!ok && d == c) || Damaged(c, d)
  }

  predicate WriteOutcome(c: Cell, blob: Blob, d: Cell, ok: bool) {
    if c.Held? then !ok && d == c
    else d == Held(blob, false) || (!ok && d == Blank) || Damaged(Held(blob, false), d)
  }

  /** What a key makes of a message. */
  datatype Signature = Signature(key: nat, msg: seq<byte>)

  function CountOf(signed: map<nat, nat>, key: nat): nat { if key in signed then signed[key] else 0 }

  function OneMore(signed: map<nat, nat>, key: nat): map<nat, nat> { signed[key := CountOf(signed, key) + 1] }

  function ReadCell(c: Cell): ReadResult {
    if c.Blank? || c.masked then SlotEmpty else Got(c.blob)
  }

  class Chip {
    var rmem: Rmem
    var mad: Mad
    var ecc: Ecc
    var counter: Option<nat>  // monotonic counter 0
    var rng: nat              // outputs and keys drawn so far
    var calm: bool
    var honest: bool
    ghost var signed: map<nat, nat>   // signatures made, by key

    constructor ()
      ensures rmem == seq(RMEM_SLOTS, _ => Blank) && mad == seq(MAD_SLOTS, i => Factory(i))
      ensures ecc == seq(ECC_SLOTS, _ => NoKey) && counter == None && rng == 0 && !calm && !honest
      ensures signed == map[]
    {
      rmem := seq(RMEM_SLOTS, _ => Blank);
      mad := seq(MAD_SLOTS, i => Factory(i));
      ecc := seq(ECC_SLOTS, _ => NoKey);
      counter, rng, calm, honest, signed := None, 0, false, false, map[];
    }

    method Fault() returns (o: Outcome)
      ensures calm ==> o == Done
      ensures honest ==> o !in {TornGarbled(true), TornMasked(true)}
    {
      o := *;
      if calm || (honest && o in {TornGarbled(true), TornMasked(true)}) { o := Done; }
    }

    method RandomTerm() returns (ok: bool, t: Term)
      modifies `rng
      ensures rng >= old(rng)
      ensures ok ==> t == Random(old(rng)) && rng == old(rng) + 1
      ensures calm ==> ok
    {
      var o := Fault();
      ok := o.Done?;
      t := Random(rng);
      if !o.Refused? { rng := rng + 1; }
    }

    method RmemRead(slot: nat) returns (r: ReadResult)
      requires slot < RMEM_SLOTS
      ensures r == Failed || r == ReadCell(rmem[slot])
      ensures calm ==> r != Failed
    {
      var o := Fault();
      r := if o.Done? then ReadCell(rmem[slot]) else Failed;
    }

    method RmemErase(slot: nat) returns (ok: bool)
      requires slot < RMEM_SLOTS
      modifies `rmem
      ensures rmem == old(rmem)[slot := rmem[slot]]
      ensures EraseOutcome(old(rmem[slot]), rmem[slot], ok)
      ensures calm || (honest && ok) ==> ok && rmem[slot] == Blank
    {
      var o := Fault();
      var c := rmem[slot];
      match o {
        case Done => ok := true; rmem := rmem[slot := Blank];
        case Refused => ok := false;
        case Lost => ok := false; rmem := rmem[slot := Blank];
        case TornGarbled(claimed) =>
          ok := claimed;
          rmem := rmem[slot := Held(Garbage, c.Held? && c.masked)];
        case TornMasked(claimed) =>
          ok := claimed;
          rmem := rmem[slot := if c.Held? then Held(c.blob, true) else Blank];
      }
    }

    method RmemWrite(slot: nat, blob: Blob) returns (ok: bool)
      requires slot < RMEM_SLOTS
      modifies `rmem
      ensures rmem == old(rmem)[slot := rmem[slot]]
      ensures WriteOutcome(old(rmem[slot]), blob, rmem[slot], ok)
      ensures (calm && old(rmem[slot]) == Blank) || (honest && ok) ==> ok && rmem[slot] == Held(blob, false)
    {
      if rmem[slot].Held? {
        ok := false;              // write-once until erased
        return;
      }
      var o := Fault();
      match o {
        case Done => ok := true; rmem := rmem[slot := Held(blob, false)];
        case Refused => ok := false;
        case Lost => ok := false; rmem := rmem[slot := Held(blob, false)];
        case TornGarbled(claimed) => ok := claimed; rmem := rmem[slot := Held(Garbage, false)];
        case TornMasked(claimed) => ok := claimed; rmem := rmem[slot := Held(blob, true)];
      }
    }

    /** MAC-and-Destroy: the slot becomes F1(input, slot), the answer is F2(old, new, slot). */
    method MacAndDestroy(slot: nat, input: Term) returns (ok: bool, out: Term)
      requires slot < MAD_SLOTS
      modifies `mad
      ensures mad == old(mad)[slot := mad[slot]]
      ensures mad[slot] == F1(input, slot) || (!ok && mad[slot] == old(mad[slot]))
      ensures ok ==> out == F2(old(mad[slot]), F1(input, slot), slot)
      ensures calm ==> ok
    {
      var o := Fault();
      ok := o.Done?;
      out := Random(0);
      if !o.Refused? {
        if ok { out := F2(mad[slot], F1(input, slot), slot); }
        mad := mad[slot := F1(input, slot)];
      }
    }

    method EccErase(slot: nat) returns (ok: bool)
      requires slot < ECC_SLOTS
      modifies `ecc
      ensures ecc == old(ecc)[slot := ecc[slot]]
      ensures ecc[slot] == NoKey || (!ok && ecc[slot] == old(ecc[slot]))
      ensures calm ==> ok
    {
      var o := Fault();
      ok := o.Done?;
      if !o.Refused? { ecc := ecc[slot := NoKey]; }
    }

    /** The chip refuses to generate over a key. */
    method EccGenerate(slot: nat) returns (ok: bool)
      requires slot < ECC_SLOTS
      modifies `ecc, `rng
      ensures ecc == old(ecc)[slot := ecc[slot]] && rng >= old(rng)
      ensures ecc[slot] == old(ecc[slot]) || (ecc[slot] == Key(old(rng)) && rng > old(rng))
      ensures ok ==> ecc[slot] == Key(old(rng)) && rng > old(rng)
      ensures calm && old(ecc[slot]) == NoKey ==> ok
    {
      var o := Fault();
      ok := o.Done? && ecc[slot] == NoKey;
      if !o.Refused? && ecc[slot] == NoKey {
        ecc := ecc[slot := Key(rng)];
        rng := rng + 1;
      }
    }

    method EccHasKey(slot: nat) returns (present: bool)
      requires slot < ECC_SLOTS
      ensures present ==> ecc[slot].Key?
      ensures calm ==> present == ecc[slot].Key?
    {
      var o := Fault();
      present := o.Done? && ecc[slot].Key?;
    }

    /** A signature is made unless the call is refused or the slot is empty, even if its answer is lost. */
    method EccSign(slot: nat, msg: seq<byte>) returns (ok: bool, sig: Signature)
      requires slot < ECC_SLOTS
      modifies `signed
      ensures ok ==> ecc[slot].Key? && sig == Signature(ecc[slot].id, msg) && signed != old(signed)
      ensures signed == old(signed) || (ecc[slot].Key? && signed == OneMore(old(signed), ecc[slot].id))
      ensures calm ==> ok == ecc[slot].Key?
    {
      var o := Fault();
      ok, sig := o.Done? && ecc[slot].Key?, Signature(0, msg);
      if !o.Refused? && ecc[slot].Key? {
        sig := Signature(ecc[slot].id, msg);
        signed := OneMore(signed, ecc[slot].id);
      }
    }

    method CounterInit(value: nat) returns (ok: bool)
      modifies `counter
      ensures counter == Some(value) || (!ok && counter == old(counter))
      ensures calm ==> ok
    {
      var o := Fault();
      ok := o.Done?;
      if !o.Refused? { counter := Some(value); }
    }

    method CounterGet() returns (ok: bool, value: nat)
      ensures ok ==> counter == Some(value)
      ensures calm && counter.Some? ==> ok
    {
      var o := Fault();
      ok := o.Done? && counter.Some?;
      value := if counter.Some? then counter.value else 0;
    }
  }
}

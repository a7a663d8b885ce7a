/**
 Record pairs.  Each operation is described by what it may make of the pair of
 copies, whatever fails; RecPairRuns puts these descriptions together.
 */
module RecPairs {
  import opened Values
  import opened ChipModel

  datatype Status = Ok | Absent | Corrupt | Error

  datatype Copy = Valid(gen: nat, payload: Payload) | Empty | Bad

  datatype Pair = Pair(a: Copy, b: Copy)

  /** A cell reads as this record of object `obj` under schema `schema`. */
  predicate Holds(c: Cell, obj: nat, schema: nat, gen: nat, payload: Payload) {
    c == Held(Record(obj, schema, gen, payload), false) && 1 <= gen <= U32_MAX
  }

  predicate ReadsEmpty(c: Cell) { c.Blank? || c.masked }

  /** A cell that reads as something, but as no record of this object and schema. */
  ghost predicate Foreign(c: Cell, obj: nat, schema: nat) {
    !ReadsEmpty(c) && forall g, x :: !Holds(c, obj, schema, g, x)
  }

  ghost predicate Useless(c: Cell, obj: nat, schema: nat) { ReadsEmpty(c) || Foreign(c, obj, schema) }

  /** Where a pair lives and which object it is. */
  datatype Place = Place(a: nat, b: nat, obj: nat, schema: nat) {
    predicate Ok() { a < RMEM_SLOTS && b < RMEM_SLOTS && a != b }
  }

  function CopyOf(c: Cell, obj: nat, schema: nat): Copy {
    match ReadCell(c)
    case SlotEmpty => Empty
    case Failed => Bad
    case Got(blob) =>
      if blob.Record? && blob.obj == obj && blob.schema == schema && 1 <= blob.gen <= U32_MAX
      then Valid(blob.gen, blob.payload)
      else Bad
  }

  /** A copy is valid exactly for the record it holds, empty exactly when nothing can be read, and bad otherwise. */
  lemma CopyIs(c: Cell, obj: nat, schema: nat)
    ensures forall g, x :: CopyOf(c, obj, schema) == Valid(g, x) <==> Holds(c, obj, schema, g, x)
    ensures CopyOf(c, obj, schema) == Empty <==> ReadsEmpty(c)
    ensures CopyOf(c, obj, schema) == Bad <==> Foreign(c, obj, schema)
  {
    var d := CopyOf(c, obj, schema);
    if d.Valid? { assert Holds(c, obj, schema, d.gen, d.payload); }
  }

  function View(m: Rmem, p: Place): Pair
    requires p.Ok()
  {
    Pair(CopyOf(m[p.a], p.obj, p.schema), CopyOf(m[p.b], p.obj, p.schema))
  }

  /** uint32_t successor. */
  function Succ32(g: nat): nat { (g + 1) % 0x1_0000_0000 }

  datatype Repair = NoRepair | RepairA | RepairB

  datatype Decision = Win(gen: nat, payload: Payload, repair: Repair) | NoObject | NoValidCopy | Contradiction

  /** The read rule: which copy wins and which one is rewritten from it. */
  function Decide(v: Pair): Decision {
    if v.a.Valid? && v.b.Valid? then
      if v.a.gen == v.b.gen then
        if v.a.payload == v.b.payload then Win(v.a.gen, v.a.payload, NoRepair) else Contradiction
      else if v.a.gen == Succ32(v.b.gen) then Win(v.a.gen, v.a.payload, RepairB)
      else if v.b.gen == Succ32(v.a.gen) then Win(v.b.gen, v.b.payload, RepairA)
      else Contradiction
    else if v.a.Valid? then Win(v.a.gen, v.a.payload, RepairB)
    else if v.b.Valid? then Win(v.b.gen, v.b.payload, RepairA)
    else if v.a.Empty? && v.b.Empty? then NoObject
    else NoValidCopy
  }

  /** The decision in terms of what the two cells hold. */
  lemma CellsDecide(a: Cell, b: Cell, obj: nat, schema: nat)
    ensures match Decide(Pair(CopyOf(a, obj, schema), CopyOf(b, obj, schema)))
            case Win(g, x, _) => Holds(a, obj, schema, g, x) || Holds(b, obj, schema, g, x)
            case NoObject => ReadsEmpty(a) && ReadsEmpty(b)
            case NoValidCopy => Useless(a, obj, schema) && Useless(b, obj, schema) && !(ReadsEmpty(a) && ReadsEmpty(b))
            case Contradiction => !Useless(a, obj, schema) && !Useless(b, obj, schema)
    ensures Useless(a, obj, schema) && Useless(b, obj, schema) ==>
              !Decide(Pair(CopyOf(a, obj, schema), CopyOf(b, obj, schema))).Win?
  {
    CopyIs(a, obj, schema);
    CopyIs(b, obj, schema);
    hide CopyOf;
  }

  /** What faults alone can leave: A is never behind B, and at most one write ahead of it. */
  predicate Consistent(v: Pair) {
    && (v.a.Valid? ==> 1 <= v.a.gen <= U32_MAX)
    && (v.b.Valid? ==> 1 <= v.b.gen <= U32_MAX)
    && (v.a.Valid? && v.b.Valid? ==> v.a == v.b || v.a.gen == v.b.gen + 1)
  }

  /** The object as it is now: copy A if it can be read, else copy B. */
  function Value(v: Pair): Option<(nat, Payload)> {
    if v.a.Valid? then Some((v.a.gen, v.a.payload))
    else if v.b.Valid? then Some((v.b.gen, v.b.payload))
    else None
  }

  /** What `commit_copy` of `rec` may leave in a slot whose copy was `c`. */
  predicate CommitOutcome(c: Copy, rec: Copy, d: Copy, ok: bool) {
    if ok then d == rec else d == c || d == rec || !d.Valid?
  }

  /** Every record found after was there before, or carries the payload being written. */
  predicate Among(v: Pair, w: Pair, written: Option<Payload>) {
    && (w.a.Valid? ==> w.a == v.a || w.a == v.b || written == Some(w.a.payload))
    && (w.b.Valid? ==> w.b == v.a || w.b == v.b || written == Some(w.b.payload))
  }

  predicate Others(m: Rmem, n: Rmem, p: Place) {
    forall i :: 0 <= i < RMEM_SLOTS && i != p.a && i != p.b ==> n[i] == m[i]
  }

  class RecPair {
    const chip: Chip
    const place: Place
    var uncertain: bool    // RAM only

    constructor (chip: Chip, place: Place)
      ensures this.chip == chip && this.place == place && !uncertain
    {
      this.chip, this.place, this.uncertain := chip, place, false;
    }

    ghost function Now(): Pair
      requires place.Ok()
      reads this, chip`rmem
    {
      View(chip.rmem, place)
    }

    predicate HeldBy(slot: nat, gen: nat, payload: Payload)
      requires slot < RMEM_SLOTS
      reads chip`rmem
    {
      Holds(chip.rmem[slot], place.obj, place.schema, gen, payload)
    }

    predicate BothEmpty()
      requires place.Ok()
      reads chip`rmem
    {
      ReadsEmpty(chip.rmem[place.a]) && ReadsEmpty(chip.rmem[place.b])
    }

    ghost predicate NothingToRead()
      requires place.Ok()
      reads chip`rmem
    {
      && Useless(chip.rmem[place.a], place.obj, place.schema)
      && Useless(chip.rmem[place.b], place.obj, place.schema)
    }

    method ReadCopy(slot: nat) returns (err: bool, c: Copy)
      requires slot < RMEM_SLOTS
      ensures !err ==> c == CopyOf(chip.rmem[slot], place.obj, place.schema)
      ensures chip.calm ==> !err
    {
      hide Holds, ReadsEmpty;
      var r := chip.RmemRead(slot);
      err := r.Failed?;
      match r {
        case Got(blob) =>
          c := if blob.Record? && blob.obj == place.obj && blob.schema == place.schema && 1 <= blob.gen <= U32_MAX
          then Valid(blob.gen, blob.payload) else Bad;
        case _ => c := Empty;
      }
    }

    /** Erase, write, read back: ok only when the slot holds exactly the record. */
    method CommitCopy(slot: nat, gen: nat, payload: Payload) returns (ok: bool)
      requires slot < RMEM_SLOTS && 1 <= gen <= U32_MAX
      modifies chip`rmem
      ensures chip.rmem == old(chip.rmem)[slot := chip.rmem[slot]]
      ensures CommitOutcome(old(CopyOf(chip.rmem[slot], place.obj, place.schema)), Valid(gen, payload),
                            CopyOf(chip.rmem[slot], place.obj, place.schema), ok)
      ensures chip.calm ==> ok
    {
      var blob := Record(place.obj, place.schema, gen, payload);
      ok := chip.RmemErase(slot);
      if !ok { return; }
      ok := chip.RmemWrite(slot, blob);
      if !ok { return; }
      var r := chip.RmemRead(slot);
      ok := r == Got(blob);
    }

    /** Erase, then prove that the slot reads empty. */
    method EraseChecked(slot: nat) returns (ok: bool)
      requires slot < RMEM_SLOTS
      modifies chip`rmem
      ensures chip.rmem == old(chip.rmem)[slot := chip.rmem[slot]]
      ensures var c, d := old(CopyOf(chip.rmem[slot], place.obj, place.schema)),
                CopyOf(chip.rmem[slot], place.obj, place.schema);
              if ok then d == Empty else d == c || !d.Valid?
      ensures chip.calm ==> ok
    {
      ok := chip.RmemErase(slot);
      if !ok { return; }
      var r := chip.RmemRead(slot);
      ok := r == SlotEmpty;
    }

    /** Both copies, and what the read rule makes of them. */
    method ReadBoth() returns (err: bool, d: Decision)
      requires place.Ok()
      ensures !err ==> d == Decide(Now())
      ensures match Decide(Now())
              case Win(g, x, _) => 1 <= g <= U32_MAX && (HeldBy(place.a, g, x) || HeldBy(place.b, g, x))
              case NoObject => BothEmpty()
              case NoValidCopy => NothingToRead() && !BothEmpty()
              case Contradiction => !NothingToRead()
      ensures BothEmpty() ==> NothingToRead()
      ensures NothingToRead() ==> !Decide(Now()).Win?
      ensures chip.calm ==> !err
    {
      d := NoObject;
      CellsDecide(chip.rmem[place.a], chip.rmem[place.b], place.obj, place.schema);
      hide CopyOf, ReadsEmpty, Foreign, Decide;
      var a, b;
      err, a := ReadCopy(place.a);
      if err { return; }
      err, b := ReadCopy(place.b);
      d := Decide(Pair(a, b));
    }

    method Read() returns (st: Status, gen: nat, payload: Option<Payload>)
      requires place.Ok()
      modifies chip`rmem, `uncertain
      ensures Others(old(chip.rmem), chip.rmem, place)
      ensures old(uncertain) ==> uncertain && st == Error && chip.rmem == old(chip.rmem)
      ensures uncertain ==> st == Error
      // What each answer says about the chip.
      ensures st == Ok ==> Decide(old(Now())).Win? && payload == Some(Decide(old(Now())).payload)
                           && gen == Decide(old(Now())).gen
                           && Now() == Pair(Valid(gen, payload.value), Valid(gen, payload.value))
      ensures st == Absent ==> Decide(old(Now())) == NoObject && chip.rmem == old(chip.rmem)
      ensures st == Corrupt ==> Decide(old(Now())) == NoValidCopy && chip.rmem == old(chip.rmem)
      ensures !uncertain && st != Ok ==> chip.rmem == old(chip.rmem)
      ensures Among(old(Now()), Now(), None)
      // A repair, complete or cut, never changes the object.
      ensures old(Consistent(Now())) ==> Consistent(Now()) && Value(Now()) == old(Value(Now()))
      ensures chip.calm && !old(uncertain) ==>
                !uncertain && st == match Decide(old(Now())) case Win(_, _, _) => Ok case NoObject => Absent
                                                             case NoValidCopy => Corrupt case Contradiction => Error
      // The same on the cells themselves: only a record of this object and schema is ever read.
      ensures st == Ok ==>
                payload.Some? && old(HeldBy(place.a, gen, payload.value) || HeldBy(place.b, gen, payload.value))
      ensures st == Absent ==> old(BothEmpty())
      ensures chip.calm && !old(uncertain) ==>
                && (old(BothEmpty()) ==> st == Absent)
                && (old(NothingToRead()) && !old(BothEmpty())
                    ==> st == Corrupt && chip.rmem == old(chip.rmem))
    {
      hide CopyOf, HeldBy, BothEmpty, NothingToRead;
      st, gen, payload := Error, 0, None;
      if uncertain { return; }
      var err, d := ReadBoth();
      if err { return; }
      match d {
        case NoObject => st := Absent;
        case NoValidCopy => st := Corrupt;
        case Contradiction => st := Error;
        case Win(g, p, repair) =>
          var ok := true;
          if repair == RepairA { ok := CommitCopy(place.a, g, p); }
          if repair == RepairB { ok := CommitCopy(place.b, g, p); }
          if !ok {
            uncertain := true;
            return;
          }
          st, gen, payload := Ok, g, Some(p);
      }
    }

    method CommitBoth(gen: nat, payload: Payload) returns (st: Status)
      requires place.Ok() && 1 <= gen <= U32_MAX
      modifies chip`rmem, `uncertain
      ensures Others(old(chip.rmem), chip.rmem, place)
      ensures st == Ok || st == Error
      ensures uncertain == (old(uncertain) || st != Ok)
      ensures st == Ok ==> Now() == Pair(Valid(gen, payload), Valid(gen, payload))
      ensures var v, w, rec := old(Now()), Now(), Valid(gen, payload);
              || (CommitOutcome(v.a, rec, w.a, false) && w.b == v.b)
              || (w.a == rec && CommitOutcome(v.b, rec, w.b, false))
      ensures chip.calm ==> st == Ok
    {
      var ok := CommitCopy(place.a, gen, payload);
      if ok { ok := CommitCopy(place.b, gen, payload); }
      if ok { st := Ok; } else { uncertain := true; st := Error; }
    }

    /** The next generation, unless there is none or nothing to follow. */
    method Write(payload: Payload) returns (st: Status)
      requires place.Ok()
      modifies chip`rmem, `uncertain
      ensures Others(old(chip.rmem), chip.rmem, place)
      ensures old(uncertain) ==> uncertain && st == Error && chip.rmem == old(chip.rmem)
      ensures uncertain ==> st == Error
      // Acknowledged: both copies hold the next generation.
      ensures st == Ok ==> Decide(old(Now())).Win? && Decide(old(Now())).gen < U32_MAX
                           && Now() == Pair(Valid(Decide(old(Now())).gen + 1, payload),
                                Valid(Decide(old(Now())).gen + 1, payload))
      ensures Among(old(Now()), Now(), Some(payload))
      // Cut anywhere: the old object or the new one.
      ensures old(Consistent(Now())) ==> Consistent(Now()) && WroteOrNot(old(Value(Now())), Value(Now()), payload)
      ensures old(Consistent(Now())) && !uncertain && st != Ok ==> Value(Now()) == old(Value(Now()))
      ensures old(Now().a == Now().b) && !uncertain && st != Ok ==> Now() == old(Now())
      ensures chip.calm && !old(uncertain) && Decide(old(Now())).Win? && Decide(old(Now())).gen < U32_MAX ==> st == Ok
    {
      var gen, was;
      st, gen, was := Read();
      if st != Ok { return; }
      if gen == U32_MAX {
        st := Error;
        return;
      }
      st := CommitBoth(gen + 1, payload);
    }

    method Clear() returns (st: Status)
      requires place.Ok()
      modifies chip`rmem, `uncertain
      ensures Others(old(chip.rmem), chip.rmem, place)
      ensures old(uncertain) ==> uncertain && st == Error && chip.rmem == old(chip.rmem)
      ensures uncertain == (st != Ok) && (st == Ok || st == Error)
      ensures st == Ok ==> Now() == Pair(Empty, Empty)
      ensures var v, w := old(Now()), Now(); (w.a == v.a || !w.a.Valid?) && (w.b == v.b || !w.b.Valid?)
      ensures old(Consistent(Now())) ==>
                Consistent(Now()) && (Value(Now()) == old(Value(Now())) || Value(Now()) == None)
      ensures chip.calm && !old(uncertain) ==> st == Ok
    {
      if uncertain { return Error; }
      var ok := EraseChecked(place.b);
      if ok { ok := EraseChecked(place.a); }
      if ok { st := Ok; } else { uncertain := true; st := Error; }
    }

    /** (Re)initialise at generation 1. */
    method Init(payload: Payload) returns (st: Status)
      requires place.Ok()
      modifies chip`rmem, `uncertain
      ensures Others(old(chip.rmem), chip.rmem, place)
      ensures old(uncertain) ==> uncertain && st == Error && chip.rmem == old(chip.rmem)
      ensures uncertain == (st != Ok) && (st == Ok || st == Error)
      ensures st == Ok ==> Now() == Pair(Valid(1, payload), Valid(1, payload))
      ensures var v, w := old(Now()), Now();
              (w.a == v.a || !w.a.Valid? || w.a == Valid(1, payload))
                && (w.b == v.b || !w.b.Valid? || w.b == Valid(1, payload))
      ensures old(Consistent(Now())) ==>
                Consistent(Now()) && (Value(Now()) == old(Value(Now())) || Value(Now()) in {None, Some((1, payload))})
      ensures chip.calm && !old(uncertain) ==> st == Ok
    {
      st := Clear();
      if st == Ok { st := CommitBoth(1, payload); }
    }
  }

  predicate WroteOrNot(before: Option<(nat, Payload)>, after: Option<(nat, Payload)>, payload: Payload) {
    after == before || (before.Some? && before.value.0 < U32_MAX && after == Some((before.value.0 + 1, payload)))
  }
}

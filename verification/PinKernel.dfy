/**
 The PIN kernel: one binding record plus one or two ranges of MAC-and-Destroy
 slots.  A guess is only ever evaluated by consuming a slot.
 */
module PinKernel {
  import opened Values
  import opened ChipModel
  import opened RecPairs

  const ROUNDS_MAX: nat := 8

  datatype Layout = Layout(base0: nat, base1: nat, ranges: nat, rounds: nat) {
    function Base(range: nat): nat { if range == 0 then base0 else base1 }

    predicate Valid() {
      && 1 <= rounds <= ROUNDS_MAX
      && (ranges == 1 || ranges == 2)
      && base0 + rounds <= MAD_SLOTS
      && (ranges == 2 ==> base1 + rounds <= MAD_SLOTS)
      && !(ranges == 2 && base0 < base1 + rounds && base1 < base0 + rounds)
    }

    function Slot(range: nat, i: nat): nat { Base(range) + i }

    predicate InRange(range: nat, slot: nat) { Base(range) <= slot < Base(range) + rounds }

    predicate Owns(slot: nat) { InRange(0, slot) || (ranges == 2 && InRange(1, slot)) }
  }

  datatype Code = PmdOk | PmdErr | PmdBlocked | PmdAbsent

  datatype State = StAbsent | StActive | StBlocked | StError

  // ----- what a record says -----

  /** The answer of an intact slot to the right PIN. */
  function Answer(s: Term, mat: Material, slot: nat): Term {
    F2(F1(Kdf(s, U_USE), slot), F1(PinV(mat), slot), slot)
  }

  function Share(s: Term, mat: Material, slot: nat): Term {
    Xor(s, SlotKey(Answer(s, mat, slot), mat))
  }

  /** What `load` checks. */
  predicate FieldsOk(L: Layout, b: Binding) {
    && |b.ci| == L.rounds
    && b.range < L.ranges
    && b.retirePending <= 1
    && (b.retirePending == 0 || L.ranges == 2)
    && b.next <= L.rounds
  }

  predicate BoundTo(L: Layout, b: Binding, s: Term, mat: Material) {
    && |b.ci| == L.rounds
    && b.tag == Kdf(s, TAG_USE)
    && forall i :: 0 <= i < L.rounds ==> b.ci[i] == Share(s, mat, L.Slot(b.range, i))
  }

  function SecretOf(b: Binding): Term { if b.tag.Kdf? then b.tag.key else b.tag }

  function PinOf(b: Binding): Material {
    if |b.ci| > 0 && b.ci[0].Masked? && b.ci[0].pad.SlotKey? then b.ci[0].pad.pin else []
  }

  /** A TRNG output that was already drawn. */
  predicate Drawn(s: Term, rng: nat) { s.Random? && s.n < rng }

  /** A record some setup wrote: every share belongs to its one secret and its one PIN. */
  predicate Genuine(L: Layout, b: Binding, rng: nat) {
    && FieldsOk(L, b)
    && Drawn(SecretOf(b), rng)
    && BoundTo(L, b, SecretOf(b), PinOf(b))
  }

  predicate Intact(L: Layout, range: nat, s: Term, mad: Mad, i: nat)
    requires L.Valid() && range < L.ranges && i < L.rounds
  {
    mad[L.Slot(range, i)] == F1(Kdf(s, U_USE), L.Slot(range, i))
  }

  /** Every slot the record still counts on is intact. */
  predicate Armed(L: Layout, b: Binding, mad: Mad)
    requires L.Valid() && FieldsOk(L, b)
  {
    forall i :: b.next <= i < L.rounds ==> Intact(L, b.range, SecretOf(b), mad, i)
  }

  /** Every slot of the range was overwritten with an output drawn when `since` had been drawn. */
  predicate Retired(L: Layout, range: nat, mad: Mad, since: nat)
    requires L.Valid() && range < L.ranges
  {
    forall i :: 0 <= i < L.rounds ==> var x := mad[L.Slot(range, i)]; x.F1? && x.input.Random? && x.input.n >= since
  }

  /** At most `n` generations have passed. */
  predicate Older(v: Pair, w: Pair, n: nat) {
    Value(v).Some? ==> Value(w).Some? && Value(w).value.0 <= Value(v).value.0 + n
  }

  predicate Writable(v: Pair) { Value(v).Some? && Value(v).value.0 < U32_MAX }

  predicate Room10(v: Pair) { Value(v).Some? && Value(v).value.0 + 10 <= U32_MAX }

  predicate Spare(v: Pair) { Value(v).Some? && Value(v).value.0 + 20 <= U32_MAX }

  predicate Room3(v: Pair) { Value(v).Some? && Value(v).value.0 + 3 <= U32_MAX }

  predicate Room(v: Pair) { Value(v).Some? ==> Value(v).value.0 + 4 <= U32_MAX }

  /** Same PIN, same secret, same slots. */
  predicate SameBinding(b: Binding, c: Binding) {
    b.range == c.range && b.tag == c.tag && b.ci == c.ci && b.pinLen == c.pinLen
  }

  /** The binding in a pair; none if its value is not a binding. */
  function BindingIn(v: Pair): Option<Binding> {
    match Value(v)
    case None => None
    case Some(r) => if r.1.Pin? then Some(r.1.binding) else None
  }

  /** Whatever the pair holds is a genuine binding, with no more probes than attempts taken. */
  predicate Sound(L: Layout, v: Pair, rng: nat, probes: nat) {
    && Consistent(v)
    && (Value(v).Some? ==>
         BindingIn(v).Some? && Genuine(L, BindingIn(v).value, rng) && probes <= BindingIn(v).value.next)
  }

  predicate PairArmed(L: Layout, v: Pair, mad: Mad)
    requires L.Valid()
  {
    BindingIn(v).Some? && FieldsOk(L, BindingIn(v).value) ==> Armed(L, BindingIn(v).value, mad)
  }

  /** A step of `settle`: nothing, or a pending retirement recorded as done. */
  predicate SettleStep(L: Layout, o: Option<Binding>, since: nat, o': Option<Binding>, mad: Mad)
    requires L.Valid()
  {
    || o' == o
    || (o.Some? && o.value.retirePending == 1 && L.ranges == 2 && o.value.range < 2
        && o' == Some(o.value.(retirePending := 0)) && Retired(L, 1 - o.value.range, mad, since))
  }

  predicate SettledOrNot(o: Option<Binding>, o': Option<Binding>) {
    o' == o || (o.Some? && o.value.retirePending == 1 && o' == Some(o.value.(retirePending := 0)))
  }

  /** Only slots of `range` changed. */
  predicate OnlyRange(L: Layout, range: nat, mad: Mad, mad': Mad) {
    forall j :: 0 <= j < MAD_SLOTS && !L.InRange(range, j) ==> mad'[j] == mad[j]
  }

  predicate OnlyOwned(L: Layout, mad: Mad, mad': Mad) {
    forall j :: 0 <= j < MAD_SLOTS && !L.Owns(j) ==> mad'[j] == mad[j]
  }

  /** Work on the other range, and giving up slots, leave a binding as armed as it was. */
  lemma ArmedFrame(L: Layout, b: Binding, c: Binding, mad: Mad, mad': Mad)
    requires L.Valid() && FieldsOk(L, b) && FieldsOk(L, c) && SameBinding(b, c) && b.next <= c.next
    requires if L.ranges == 2 then OnlyRange(L, 1 - b.range, mad, mad') else mad' == mad
    requires Armed(L, b, mad)
    ensures Armed(L, c, mad')
  {
    forall i | c.next <= i < L.rounds
      ensures Intact(L, c.range, SecretOf(c), mad', i)
    {
      assert L.ranges == 2 ==> !L.InRange(1 - b.range, L.Slot(b.range, i));
      assert Intact(L, b.range, SecretOf(b), mad, i);
    }
  }

  lemma RetiredFrame(L: Layout, mad: Mad, mad': Mad, since: nat)
    requires L.Valid() && L.ranges == 2 && OnlyRange(L, 1, mad, mad') && Retired(L, 0, mad, since)
    ensures Retired(L, 0, mad', since)
  {
    assert forall i :: 0 <= i < L.rounds ==> !L.InRange(1, L.Slot(0, i));
  }

  lemma RetiredEarlier(L: Layout, range: nat, mad: Mad, since: nat, earlier: nat)
    requires L.Valid() && range < L.ranges && Retired(L, range, mad, since) && earlier <= since
    ensures Retired(L, range, mad, earlier)
  {
  }

  /** Progress bits of a record do not make it less genuine, and neither do later draws. */
  lemma GenuineFrame(L: Layout, b: Binding, c: Binding, rng: nat, rng': nat)
    requires Genuine(L, b, rng) && FieldsOk(L, c) && SameBinding(b, c) && rng <= rng'
    ensures Genuine(L, c, rng') && SecretOf(c) == SecretOf(b) && PinOf(c) == PinOf(b)
  {
  }

  /** A slot given up may hold anything. */
  lemma SpentArmed(L: Layout, b: Binding, c: Binding, mad: Mad, mad': Mad)
    requires L.Valid() && FieldsOk(L, b) && FieldsOk(L, c) && SameBinding(b, c) && b.next < L.rounds
    requires c.next == b.next + 1
    requires forall j :: 0 <= j < MAD_SLOTS && j != L.Slot(b.range, b.next) ==> mad'[j] == mad[j]
    requires Armed(L, b, mad)
    ensures Armed(L, c, mad')
  {
    forall i | c.next <= i < L.rounds ensures Intact(L, c.range, SecretOf(c), mad', i) {
      assert Intact(L, b.range, SecretOf(b), mad, i);
    }
  }

  lemma RekeyedArmed(L: Layout, b: Binding, mad: Mad, mad': Mad)
    requires L.Valid() && FieldsOk(L, b) && Armed(L, b, mad)
    requires forall k :: 0 <= k < L.rounds && Intact(L, b.range, SecretOf(b), mad, k) ==>
              Intact(L, b.range, SecretOf(b), mad', k)
    ensures Armed(L, b, mad')
  {
  }

  lemma ArmedAt(L: Layout, b: Binding, mad: Mad, i: nat)
    requires L.Valid() && FieldsOk(L, b) && Armed(L, b, mad) && b.next <= i < L.rounds
    ensures Intact(L, b.range, SecretOf(b), mad, i)
  {
  }

  lemma KeyedIsArmed(L: Layout, b: Binding, s: Term, mad: Mad)
    requires L.Valid() && FieldsOk(L, b) && b.tag == Kdf(s, TAG_USE)
    requires forall k :: 0 <= k < L.rounds ==> Intact(L, b.range, s, mad, k)
    ensures Armed(L, b, mad)
  {
  }

  // ----- one evaluated guess -----

  /** One M&D answer opens the share exactly when the slot was intact and the PIN is the bound one. */
  lemma ProbeExact(L: Layout, b: Binding, rng: nat, i: nat, x: Term, mat: Material)
    requires L.Valid() && Genuine(L, b, rng) && i < L.rounds
    ensures var slot := L.Slot(b.range, i);
            var s := Xor(b.ci[i], SlotKey(F2(x, F1(PinV(mat), slot), slot), mat));
            && (Kdf(s, TAG_USE) == b.tag <==> x == F1(Kdf(SecretOf(b), U_USE), slot) && mat == PinOf(b))
            && (Kdf(s, TAG_USE) == b.tag ==> s == SecretOf(b))
  {
    var slot := L.Slot(b.range, i);
    var s, pin := SecretOf(b), PinOf(b);
    assert b.ci[i] == Masked(SlotKey(Answer(s, pin, slot), pin), s);
  }

  /** A retired slot opens no record and no PIN, a replayed old record included. */
  lemma RetiredOpensNothing(L: Layout, b: Binding, rng: nat, mad: Mad, since: nat, i: nat, mat: Material)
    requires L.Valid() && Genuine(L, b, rng) && i < L.rounds && Retired(L, b.range, mad, since)
    ensures var slot := L.Slot(b.range, i);
            Kdf(Xor(b.ci[i], SlotKey(F2(mad[slot], F1(PinV(mat), slot), slot), mat)), TAG_USE) != b.tag
  {
    ProbeExact(L, b, rng, i, mad[L.Slot(b.range, i)], mat);
  }

  /** What setup writes is genuine, and it is bound to what setup was given. */
  lemma KeyedIsGenuine(L: Layout, b: Binding, s: Term, mat: Material, rng: nat)
    requires L.Valid() && FieldsOk(L, b) && b.tag == Kdf(s, TAG_USE)
    requires forall k :: 0 <= k < L.rounds ==> b.ci[k] == Share(s, mat, L.Slot(b.range, k))
    ensures BoundTo(L, b, s, mat)
    ensures Drawn(s, rng) ==> Genuine(L, b, rng) && SecretOf(b) == s && PinOf(b) == mat
  {
    if Drawn(s, rng) {
      assert b.ci[0] == Masked(SlotKey(Answer(s, mat, L.Slot(b.range, 0)), mat), s);
    }
  }

  /** What a binding is bound to can be read off it. */
  lemma BoundPin(L: Layout, b: Binding, s: Term, mat: Material)
    requires L.Valid() && BoundTo(L, b, s, mat) && s.Random?
    ensures PinOf(b) == mat && SecretOf(b) == s
  {
    assert b.ci[0] == Masked(SlotKey(Answer(s, mat, L.Slot(b.range, 0)), mat), s);
  }

  class Kernel {
    const chip: Chip
    const rec: RecPair
    const L: Layout
    /** M&D calls with a PIN-derived input on the live range since a record with next = 0 was committed. */
    ghost var probes: nat

    constructor (rec: RecPair, L: Layout)
      ensures this.rec == rec && this.chip == rec.chip && this.L == L && probes == 0
    {
      this.chip, this.rec, this.L := rec.chip, rec, L;
      probes := 0;
    }

    ghost predicate Wired() { rec.chip == chip && rec.place.Ok() }

    ghost function Current(): Option<Binding>
      requires Wired()
      reads rec, chip`rmem
    {
      BindingIn(rec.Now())
    }

    /** Holds after every chip call of every operation. */
    ghost predicate Inv()
      requires Wired()
      reads this, rec, chip`rmem, chip`rng
    {
      Sound(L, rec.Now(), chip.rng, probes)
    }

    /** Nothing damaged, no generation about to run out: without faults every call must succeed. */
    ghost predicate Usable()
      requires Wired()
      reads this, rec, chip`rmem, chip`rng
    {
      Inv() && !rec.uncertain && (if Current().Some? then Room(rec.Now()) else rec.Now() == Pair(Empty, Empty))
    }

    ghost function Attempts(): nat
      requires Wired()
      reads rec, chip`rmem
    {
      if Current().Some? && Current().value.next <= L.rounds then L.rounds - Current().value.next else 0
    }

    ghost predicate IsArmed()
      requires Wired() && L.Valid()
      reads this, rec, chip`rmem, chip`mad
    {
      PairArmed(L, rec.Now(), chip.mad)
    }

    method Load() returns (st: Status, b: Binding)
      requires Wired()
      modifies chip`rmem, rec`uncertain
      ensures Others(old(chip.rmem), chip.rmem, rec.place)
      ensures old(Consistent(rec.Now())) ==> Consistent(rec.Now()) && Value(rec.Now()) == old(Value(rec.Now()))
      ensures st == Ok ==> FieldsOk(L, b) && rec.Now().a == rec.Now().b && Current() == Some(b) && !rec.uncertain
      ensures st == Ok ==> |b.ci| == L.rounds && b.range < L.ranges && b.next <= L.rounds
      ensures st == Ok ==> b.retirePending == 0 || (b.retirePending == 1 && L.ranges == 2)
      ensures st == Absent ==> rec.Now() == Pair(Empty, Empty) && !rec.uncertain
      ensures st != Corrupt && (old(rec.uncertain) ==> rec.uncertain && st == Error && chip.rmem == old(chip.rmem))
      ensures chip.calm && old(Usable()) ==> !rec.uncertain && st == (if old(Current()).Some? then Ok else Absent)
    {
      var gen, p;
      st, gen, p := rec.Read();
      if st == Corrupt { st := Error; }
      b := Binding(0, 0, 0, 0, Random(0), []);
      if st == Ok {
        if p.value.Pin? && FieldsOk(L, p.value.binding) {
          b := p.value.binding;
        } else {
          st := Error;
        }
      }
    }

    /** `b` is the binding if acknowledged, otherwise it or the old one. */
    method Store(b: Binding, first: bool) returns (ok: bool)
      requires Wired()
      modifies chip`rmem, rec`uncertain
      ensures Others(old(chip.rmem), chip.rmem, rec.place)
      ensures ok ==> rec.Now().a == rec.Now().b && Current() == Some(b) && !rec.uncertain
      ensures old(Consistent(rec.Now())) ==> Consistent(rec.Now())
      ensures old(Consistent(rec.Now())) && !first ==> WroteOrNot(old(Value(rec.Now())), Value(rec.Now()), Pin(b))
      ensures old(Consistent(rec.Now())) && first ==>
                Value(rec.Now()) == old(Value(rec.Now())) || Value(rec.Now()) in {None, Some((1, Pin(b)))}
      ensures old(rec.uncertain) ==> !ok && rec.uncertain && chip.rmem == old(chip.rmem)
      ensures chip.calm && !old(rec.uncertain) && old(Consistent(rec.Now())) && (first || old(Writable(rec.Now()))) ==>
                ok
    {
      var st;
      if first { st := rec.Init(Pin(b)); } else { st := rec.Write(Pin(b)); }
      ok := st == Ok;
    }

    /** Acknowledged only when no slot of the range is left as it was. */
    method Retire(range: nat) returns (ok: bool)
      requires Wired() && L.Valid() && range < L.ranges
      modifies chip`mad, chip`rng
      ensures OnlyRange(L, range, old(chip.mad), chip.mad) && chip.rng >= old(chip.rng)
      ensures ok ==> Retired(L, range, chip.mad, old(chip.rng))
      ensures chip.calm ==> ok
    {
      ok := true;
      var i := 0;
      while i < L.rounds && ok
        invariant 0 <= i <= L.rounds && chip.rng >= old(chip.rng)
        invariant OnlyRange(L, range, old(chip.mad), chip.mad)
        invariant ok ==> forall k :: 0 <= k < i ==>
                    var x := chip.mad[L.Slot(range, k)]; x.F1? && x.input.Random? && x.input.n >= old(chip.rng)
        invariant chip.calm ==> ok
      {
        var got, rnd := chip.RandomTerm();
        ok := got;
        if ok {
          var out;
          ok, out := chip.MacAndDestroy(L.Slot(range, i), rnd);
        }
        i := i + 1;
      }
    }

    /** The binding, with no retirement left pending in it. */
    method Settle() returns (st: Status, b: Binding)
      requires Wired() && L.Valid()
      modifies chip`rmem, chip`mad, chip`rng, rec`uncertain
      ensures Others(old(chip.rmem), chip.rmem, rec.place)
      ensures OnlyOwned(L, old(chip.mad), chip.mad) && chip.rng >= old(chip.rng)
      ensures st == Ok ==> FieldsOk(L, b) && Current() == Some(b) && b.retirePending == 0 && !rec.uncertain
      ensures st == Absent ==> rec.Now() == Pair(Empty, Empty) && !rec.uncertain && chip.mad == old(chip.mad)
      ensures st != Corrupt && (old(rec.uncertain) ==> rec.uncertain && st == Error && chip.rmem == old(chip.rmem))
      ensures old(Inv()) ==> Inv() && SettleStep(L, old(Current()), old(chip.rng), Current(), chip.mad)
      ensures old(Inv()) && Current().Some? ==>
                if L.ranges == 2 then OnlyRange(L, 1 - Current().value.range, old(chip.mad), chip.mad)
                  else chip.mad == old(chip.mad)
      ensures old(Inv() && IsArmed()) ==> IsArmed()
      ensures chip.calm && old(Usable()) ==> !rec.uncertain && st == (if old(Current()).Some? then Ok else Absent)
      ensures old(Inv()) ==> Older(old(rec.Now()), rec.Now(), 1)
      ensures old(Inv()) && Current() == old(Current()) ==> Older(old(rec.Now()), rec.Now(), 0)
    {
      hide Armed, Genuine, BoundTo, Share, SecretOf, PinOf, Retired;
      st, b := Load();
      if st != Ok || b.retirePending == 0 { return; }
      var ok := FinishRetirement(b);
      b := b.(retirePending := 0);
      st := if ok then Ok else Error;
    }

    /** The range not in use is retired, and then the record says so. */
    method FinishRetirement(b: Binding) returns (ok: bool)
      requires Wired() && L.Valid() && FieldsOk(L, b) && b.retirePending == 1 && Current() == Some(b)
      modifies chip`rmem, chip`mad, chip`rng, rec`uncertain
      ensures Others(old(chip.rmem), chip.rmem, rec.place)
      ensures OnlyRange(L, 1 - b.range, old(chip.mad), chip.mad) && chip.rng >= old(chip.rng)
      ensures ok ==> rec.Now().a == rec.Now().b && Current() == Some(b.(retirePending := 0)) && !rec.uncertain
      ensures ok || Current() == Some(b.(retirePending := 0)) ==> Retired(L, 1 - b.range, chip.mad, old(chip.rng))
      ensures old(rec.uncertain) ==> !ok && rec.uncertain && chip.rmem == old(chip.rmem)
      ensures old(Inv()) ==> Inv()
      ensures old(Consistent(rec.Now())) ==>
                Current() in {Some(b), Some(b.(retirePending := 0))} && Older(old(rec.Now()), rec.Now(), 1)
                && (Current() == Some(b) ==> Older(old(rec.Now()), rec.Now(), 0))
      ensures old(Armed(L, b, chip.mad)) ==> Armed(L, b, chip.mad) && Armed(L, b.(retirePending := 0), chip.mad)
      ensures chip.calm && !old(rec.uncertain) && old(Consistent(rec.Now()) && Writable(rec.Now())) ==> ok
    {
      hide Armed, Genuine, BoundTo, Share, SecretOf, PinOf, Retired;
      var done := b.(retirePending := 0);
      ok := Retire(1 - b.range);
      if old(Inv()) {
        GenuineFrame(L, b, b, old(chip.rng), chip.rng);
        GenuineFrame(L, b, done, old(chip.rng), chip.rng);
      }
      if old(Armed(L, b, chip.mad)) {
        ArmedFrame(L, b, b, old(chip.mad), chip.mad);
        ArmedFrame(L, b, done, old(chip.mad), chip.mad);
      }
      if ok { ok := Store(done, false); }
    }

    /** Key every slot of a range for (s, mat) and collect the shares. */
    method KeyRange(range: nat, mat: Material, s: Term) returns (ok: bool, ci: seq<Term>)
      requires Wired() && L.Valid() && range < L.ranges
      modifies chip`mad
      ensures OnlyRange(L, range, old(chip.mad), chip.mad)
      ensures ok ==> |ci| == L.rounds
      ensures ok ==>
                forall k :: 0 <= k < L.rounds ==>
                  ci[k] == Share(s, mat, L.Slot(range, k)) && Intact(L, range, s, chip.mad, k)
      ensures chip.calm ==> ok
    {
      ok, ci := true, [];
      var u, v := Kdf(s, U_USE), PinV(mat);
      var i := 0;
      while i < L.rounds
        invariant 0 <= i <= L.rounds && ok && |ci| == i
        invariant OnlyRange(L, range, old(chip.mad), chip.mad)
        invariant forall k :: 0 <= k < i ==>
                  ci[k] == Share(s, mat, L.Slot(range, k)) && Intact(L, range, s, chip.mad, k)
      {
        var slot := L.Slot(range, i);
        var ignore, w;
        ok, ignore := chip.MacAndDestroy(slot, u);
        if !ok { return; }
        ok, w := chip.MacAndDestroy(slot, v);
        if !ok { return; }
        ok, ignore := chip.MacAndDestroy(slot, u);
        if !ok { return; }
        ci := ci + [Xor(s, SlotKey(w, mat))];
        i := i + 1;
      }
    }

    /** Up to the commit the old binding lives untouched, from then on the new one. */
    method SetupS(mat: Material, pinLen: nat, s: Term) returns (ok: bool)
      requires Wired() && L.Valid()
      modifies chip`rmem, chip`mad, chip`rng, rec`uncertain, `probes
      ensures Others(old(chip.rmem), chip.rmem, rec.place)
      ensures OnlyOwned(L, old(chip.mad), chip.mad) && chip.rng >= old(chip.rng)
      ensures old(rec.uncertain) ==> !ok && rec.uncertain && chip.rmem == old(chip.rmem)
      ensures old(Inv() && Drawn(s, chip.rng)) ==>
                Inv() && SetupOrNot(L, old(Current()), old(probes), Current(), probes, mat, pinLen, s)
      ensures old(Inv() && IsArmed() && Drawn(s, chip.rng)) ==> IsArmed()
      ensures old(Inv()) ==> Older(old(rec.Now()), rec.Now(), 3)
      ensures ok ==> rec.Now().a == rec.Now().b && Current().Some? && Current().value.retirePending == 0
                     && BoundTo(L, Current().value, s, mat) && FieldsOk(L, Current().value) && Current().value.next == 0
                     && Current().value.pinLen == pinLen && Armed(L, Current().value, chip.mad) && !rec.uncertain
      ensures ok && old(Current()).Some? && old(Inv()) ==>
                Current().value.range == 1 - old(Current()).value.range
                  && Retired(L, old(Current()).value.range, chip.mad, old(chip.rng))
      ensures chip.calm && old(Usable()) && (old(Current()).Some? ==> L.ranges == 2) ==> ok
    {
      hide Armed, Genuine, BoundTo, Retired, CopyOf, Share, SecretOf, PinOf;
      var st, cur := Settle();
      var have := st == Ok;
      if (st != Ok && st != Absent) || (have && L.ranges < 2) { return false; }
      ghost var settled := chip.rng;
      ok := KeyAndPublish(have, cur, mat, pinLen, s);
      if ok && have { RetiredEarlier(L, cur.range, chip.mad, settled, old(chip.rng)); }
    }

    /** Key the range not in use, or the first one, and publish a record of it. */
    method KeyAndPublish(have: bool, cur: Binding, mat: Material, pinLen: nat, s: Term) returns (ok: bool)
      requires Wired() && L.Valid()
      requires (if have then L.ranges == 2 && Current() == Some(cur) && FieldsOk(L, cur) else Current() == None)
      modifies chip`rmem, chip`mad, chip`rng, rec`uncertain, `probes
      ensures Others(old(chip.rmem), chip.rmem, rec.place)
      ensures OnlyOwned(L, old(chip.mad), chip.mad) && chip.rng >= old(chip.rng)
      ensures old(rec.uncertain) ==> !ok && rec.uncertain && chip.rmem == old(chip.rmem)
      ensures old(Inv() && Drawn(s, chip.rng)) ==>
                Inv() && (if Current() == old(Current()) then probes == old(probes)
                          else SetupStep(L, old(Current()), Current(), mat, pinLen, s) && probes == 0)
      ensures old(Inv() && IsArmed() && Drawn(s, chip.rng)) ==> IsArmed()
      ensures have && old(Inv()) ==> Older(old(rec.Now()), rec.Now(), 2)
      ensures ok ==> rec.Now().a == rec.Now().b && Current().Some? && Current().value.retirePending == 0
                     && BoundTo(L, Current().value, s, mat) && FieldsOk(L, Current().value) && Current().value.next == 0
                     && Current().value.pinLen == pinLen && Armed(L, Current().value, chip.mad) && !rec.uncertain
      ensures ok && have ==> Current().value.range == 1 - cur.range && Retired(L, cur.range, chip.mad, old(chip.rng))
      ensures chip.calm && old(Consistent(rec.Now())) && !old(rec.uncertain) && (have ==> old(Room3(rec.Now()))) ==> ok
    {
      hide Armed, Genuine, BoundTo, Retired, CopyOf, Share, SecretOf, PinOf;
      ghost var settled := chip.mad;
      var range := if have then 1 - cur.range else 0;
      var keyed, ci := KeyRange(range, mat, s);
      if have && old(Inv() && IsArmed()) { ArmedFrame(L, cur, cur, settled, chip.mad); }
      if !keyed { return false; }
      var nb := Binding(range, if have then 1 else 0, 0, pinLen, Kdf(s, TAG_USE), ci);
      KeyedIsGenuine(L, nb, s, mat, chip.rng);
      KeyedIsGenuine(L, nb.(retirePending := 0), s, mat, chip.rng);
      KeyedIsArmed(L, nb, s, chip.mad);
      ok := Publish(nb, have);
    }

    /** The record decides which range is live, and only the other one is destroyed. */
    method Publish(nb: Binding, have: bool) returns (ok: bool)
      requires Wired() && L.Valid() && FieldsOk(L, nb) && nb.next == 0
      requires nb.retirePending == (if have then 1 else 0) && Armed(L, nb, chip.mad)
      modifies chip`rmem, chip`mad, chip`rng, rec`uncertain, `probes
      ensures Others(old(chip.rmem), chip.rmem, rec.place)
      ensures OnlyRange(L, 1 - nb.range, old(chip.mad), chip.mad) && chip.rng >= old(chip.rng)
      // The old range is touched only once the new record is live.
      ensures chip.mad != old(chip.mad) ==> have && Current().Some? && Current().value.range == nb.range
      ensures old(rec.uncertain) ==> !ok && rec.uncertain && chip.rmem == old(chip.rmem)
      ensures var done := nb.(retirePending := 0);
              old(Inv() && Genuine(L, nb, chip.rng) && Genuine(L, done, chip.rng))
                && (old(Current().Some?) <==> have) ==>
                Inv() && (Current() == old(Current()) || Current() == Some(nb) || Current() == Some(done)
                  || (!have && Current() == None))
      ensures probes == old(probes) || (probes == 0 && Current() in {Some(nb), Some(nb.(retirePending := 0))})
      ensures Armed(L, nb, chip.mad) && Armed(L, nb.(retirePending := 0), chip.mad)
      ensures ok ==> rec.Now().a == rec.Now().b && Current() == Some(nb.(retirePending := 0)) && !rec.uncertain
      ensures have && old(Inv()) ==> Older(old(rec.Now()), rec.Now(), 2)
      ensures ok && have ==> Retired(L, 1 - nb.range, chip.mad, old(chip.rng))
      ensures chip.calm && old(Consistent(rec.Now())) && !old(rec.uncertain) && (have ==> old(Room3(rec.Now()))) ==> ok
    {
      hide Armed, Genuine, BoundTo, Retired, Share, SecretOf, PinOf;
      var done := nb.(retirePending := 0);
      if !have { assert nb == done; }
      ok := Store(nb, !have);
      if Current() == Some(nb) { probes := 0; }
      ArmedFrame(L, nb, done, old(chip.mad), chip.mad);
      if ok && have { ok := FinishRetirement(nb); }
    }

    /** Settle, then take one attempt in the record: before any M&D call, and acknowledged. */
    method Reserve() returns (rc: Code, b: Binding)
      requires Wired() && L.Valid()
      modifies chip`rmem, chip`mad, chip`rng, rec`uncertain
      ensures Others(old(chip.rmem), chip.rmem, rec.place)
      ensures OnlyOwned(L, old(chip.mad), chip.mad) && chip.rng >= old(chip.rng)
      ensures old(rec.uncertain) ==> rc == PmdErr && rec.uncertain && chip.rmem == old(chip.rmem)
      ensures old(Inv()) ==> Inv() && ReserveStep(L, old(Current()), Current())
      ensures old(Inv() && IsArmed()) ==> IsArmed()
      ensures rc == PmdOk ==>
                && FieldsOk(L, b) && b.retirePending == 0 && b.next < L.rounds
                && Current() == Some(b.(next := b.next + 1)) && rec.Now().a == rec.Now().b && !rec.uncertain
      ensures old(Inv()) && rc == PmdOk ==>
                && old(Current()).Some? && b == old(Current()).value.(retirePending := 0)
                && probes <= b.next && Genuine(L, b, chip.rng)
      ensures old(Inv() && IsArmed()) && rc == PmdOk ==> Armed(L, b, chip.mad)
      ensures old(Inv()) && rc == PmdBlocked ==> old(Current()).Some? && old(Current()).value.next == L.rounds
      ensures old(Inv()) && rc == PmdAbsent ==> old(Current()) == None
      ensures chip.calm && old(Usable()) ==>
                rc == match old(Current()) case None => PmdAbsent
                                           case Some(b) => if b.next == L.rounds then PmdBlocked else PmdOk
      ensures old(Inv()) ==> Older(old(rec.Now()), rec.Now(), 2)
    {
      hide Armed, Genuine, BoundTo, Retired;
      var st;
      st, b := Settle();
      if st == Absent { return PmdAbsent, b; }
      if st != Ok { return PmdErr, b; }
      if b.next >= L.rounds { return PmdBlocked, b; }
      var reserved := b.(next := b.next + 1);
      if old(Inv()) { GenuineFrame(L, b, reserved, chip.rng, chip.rng); }
      if old(Inv() && IsArmed()) { SpentArmed(L, b, reserved, chip.mad, chip.mad); }
      var ok := Store(reserved, false);
      rc := if ok then PmdOk else PmdErr;
    }

    /** One evaluated guess through the reserved slot. */
    method Guess(b: Binding, mat: Material) returns (ok: bool, correct: bool, s: Term)
      requires Wired() && L.Valid() && FieldsOk(L, b) && b.next < L.rounds
      modifies chip`mad, `probes
      ensures OnlyOwned(L, old(chip.mad), chip.mad) && probes == old(probes) + 1
      ensures correct ==> ok && b.tag == Kdf(s, TAG_USE)
      ensures Genuine(L, b, chip.rng) && ok ==>
                (correct <==> old(Intact(L, b.range, SecretOf(b), chip.mad, b.next)) && mat == PinOf(b))
      ensures Genuine(L, b, chip.rng) && correct ==> s == SecretOf(b)
      ensures old(Armed(L, b, chip.mad)) ==> Armed(L, b.(next := b.next + 1), chip.mad)
      ensures chip.calm ==> ok
    {
      correct, s := false, Random(0);
      var slot := L.Slot(b.range, b.next);
      ghost var before := chip.mad;
      probes := probes + 1;
      var w;
      ok, w := chip.MacAndDestroy(slot, PinV(mat));
      if Armed(L, b, before) { SpentArmed(L, b, b.(next := b.next + 1), before, chip.mad); }
      if !ok { return; }
      s := Xor(b.ci[b.next], SlotKey(w, mat));
      if Genuine(L, b, chip.rng) { ProbeExact(L, b, chip.rng, b.next, before[slot], mat); }
      correct := Kdf(s, TAG_USE) == b.tag;
    }

    /** After a right PIN: every live slot put back, then next = 0. */
    method Restore(b: Binding, s: Term) returns (ok: bool)
      requires Wired() && L.Valid() && FieldsOk(L, b) && b.tag == Kdf(s, TAG_USE)
      modifies chip`rmem, chip`mad, rec`uncertain, `probes
      ensures Others(old(chip.rmem), chip.rmem, rec.place)
      ensures OnlyOwned(L, old(chip.mad), chip.mad)
      ensures old(Inv() && Current() == Some(b)) ==>
                Inv() && (Current() == old(Current()) || Current() == Some(b.(next := 0)))
      ensures old(Inv() && IsArmed() && Current() == Some(b)) ==> IsArmed()
      ensures probes == old(probes) || (probes == 0 && Current() == Some(b.(next := 0)))
      ensures ok ==> Current() == Some(b.(next := 0)) && rec.Now().a == rec.Now().b && !rec.uncertain
                     && Armed(L, b.(next := 0), chip.mad)
      ensures old(Inv()) ==> Older(old(rec.Now()), rec.Now(), 1)
      ensures chip.calm && !old(rec.uncertain) && old(Consistent(rec.Now()) && Writable(rec.Now())) ==> ok
    {
      hide Armed, Genuine, BoundTo, Retired;
      var restored := b.(next := 0);
      if old(Inv() && Current() == Some(b)) { GenuineFrame(L, b, restored, chip.rng, chip.rng); }
      ok := Rekey(b, s);
      if Armed(L, b, old(chip.mad)) { RekeyedArmed(L, b, old(chip.mad), chip.mad); }
      if !ok { return; }
      KeyedIsArmed(L, restored, s, chip.mad);
      ok := Store(restored, false);
      if Current() == Some(restored) { probes := 0; }
    }

    /** Reserve, one M&D call, compare; right: restore every slot, next 0. */
    method VerifyS(mat: Material) returns (rc: Code, correct: bool, s: Term)
      requires Wired() && L.Valid()
      modifies chip`rmem, chip`mad, chip`rng, rec`uncertain, `probes
      ensures Others(old(chip.rmem), chip.rmem, rec.place)
      ensures OnlyOwned(L, old(chip.mad), chip.mad) && chip.rng >= old(chip.rng)
      ensures old(rec.uncertain) ==> rc == PmdErr && rec.uncertain && chip.rmem == old(chip.rmem)
      ensures correct ==> rc == PmdOk
      ensures old(Inv()) ==>
                Inv() && VerifyStep(L, old(Current()), Current(), mat) && Older(old(rec.Now()), rec.Now(), 3)
      ensures old(Inv() && IsArmed()) ==> IsArmed()
      ensures old(Inv()) ==> CountStep(old(Current()), old(probes), Current(), probes, mat)
      ensures old(Inv()) && rc == PmdOk ==>
                && old(Current()).Some? && Current().Some? && Current().value.retirePending == 0
                && rec.Now().a == rec.Now().b && !rec.uncertain
                && (correct ==> mat == PinOf(old(Current()).value) && s == SecretOf(old(Current()).value)
                                && Current().value.next == 0 && Armed(L, Current().value, chip.mad))
                && (!correct ==> Current().value.next == old(Current()).value.next + 1)
      // Exact: right if and only if it is the bound PIN.
      ensures old(Inv() && IsArmed()) && rc == PmdOk ==> (correct <==> mat == PinOf(old(Current()).value))
      ensures old(Inv()) && rc == PmdBlocked ==> old(Current()).Some? && old(Current()).value.next == L.rounds
      ensures old(Inv()) && rc == PmdAbsent ==> old(Current()) == None
      ensures chip.calm && old(Usable()) ==>
                rc == match old(Current()) case None => PmdAbsent
                                           case Some(b) => if b.next == L.rounds then PmdBlocked else PmdOk
    {
      hide Armed, Genuine, BoundTo, Retired;
      correct, s := false, Random(0);
      var b;
      rc, b := Reserve();
      if rc != PmdOk { return; }
      if old(Inv() && IsArmed()) { ArmedAt(L, b, chip.mad, b.next); }
      var ok, right;
      ok, right, s := Guess(b, mat);
      if !ok { return PmdErr, false, s; }
      if !right { return PmdOk, false, s; }
      ok := Restore(b.(next := b.next + 1), s);
      if !ok { return PmdErr, false, s; }
      return PmdOk, true, s;
    }

    /** Put every slot of the live range back. */
    method Rekey(b: Binding, s: Term) returns (ok: bool)
      requires Wired() && L.Valid() && FieldsOk(L, b)
      modifies chip`mad
      ensures OnlyRange(L, b.range, old(chip.mad), chip.mad)
      ensures forall k :: 0 <= k < L.rounds && old(Intact(L, b.range, s, chip.mad, k)) ==>
                Intact(L, b.range, s, chip.mad, k)
      ensures ok ==> forall k :: 0 <= k < L.rounds ==> Intact(L, b.range, s, chip.mad, k)
      ensures chip.calm ==> ok
    {
      ok := true;
      var i := 0;
      while i < L.rounds
        invariant 0 <= i <= L.rounds && ok
        invariant OnlyRange(L, b.range, old(chip.mad), chip.mad)
        invariant forall k :: 0 <= k < L.rounds && (k < i || old(Intact(L, b.range, s, chip.mad, k))) ==>
                  Intact(L, b.range, s, chip.mad, k)
      {
        var ignore;
        ghost var before := chip.mad;
        ok, ignore := chip.MacAndDestroy(L.Slot(b.range, i), Kdf(s, U_USE));
        forall k | 0 <= k < L.rounds && (Intact(L, b.range, s, before, k) || (ok && k == i))
          ensures Intact(L, b.range, s, chip.mad, k)
        {
        }
        if !ok { return; }
        i := i + 1;
      }
    }

    // ----- public calls -----

    method Status() returns (st: State, attempts: nat, pinLen: nat)
      requires Wired()
      modifies chip`rmem, chip`mad, chip`rng, rec`uncertain
      ensures Others(old(chip.rmem), chip.rmem, rec.place)
      ensures OnlyOwned(L, old(chip.mad), chip.mad) && chip.rng >= old(chip.rng)
      ensures old(rec.uncertain) ==> st == StError && rec.uncertain && chip.rmem == old(chip.rmem)
      ensures L.Valid() && old(Inv()) ==>
                Inv() && SettledOrNot(old(Current()), Current()) && Older(old(rec.Now()), rec.Now(), 1)
                && (Current() == old(Current()) ==> Older(old(rec.Now()), rec.Now(), 0))
      ensures L.Valid() && old(Inv() && IsArmed()) ==> IsArmed()
      ensures st == StAbsent ==> rec.Now() == Pair(Empty, Empty) && attempts == 0 && !rec.uncertain
      ensures st in {StActive, StBlocked} ==>
                && L.Valid() && Current().Some? && FieldsOk(L, Current().value) && Current().value.retirePending == 0
                && !rec.uncertain
                && attempts == L.rounds - Current().value.next && pinLen == Current().value.pinLen
                && (st == StBlocked <==> attempts == 0)
      ensures st == StError ==> attempts == 0
      ensures chip.calm && L.Valid() && old(Usable()) ==> st != StError
    {
      st, attempts, pinLen := StError, 0, 0;
      if !L.Valid() { return; }
      hide Armed, Genuine, BoundTo, Retired;
      var r, b := Settle();
      if r == Absent {
        st := StAbsent;
      } else if r == Ok {
        st := if b.next >= L.rounds then StBlocked else StActive;
        attempts := L.rounds - b.next;
        pinLen := b.pinLen;
      }
    }

    /** A binding with a fresh secret. */
    method Setup(mat: Material, pinLen: nat) returns (rc: Code, k: Option<Term>)
      requires Wired()
      modifies chip`rmem, chip`mad, chip`rng, rec`uncertain, `probes
      ensures Others(old(chip.rmem), chip.rmem, rec.place)
      ensures OnlyOwned(L, old(chip.mad), chip.mad) && chip.rng >= old(chip.rng)
      ensures old(rec.uncertain) ==> rc == PmdErr && rec.uncertain && chip.rmem == old(chip.rmem)
      ensures L.Valid() && old(Inv()) ==>
                Inv() && Older(old(rec.Now()), rec.Now(), 3)
                && SetupOrNot(L, old(Current()), old(probes), Current(), probes, mat, pinLen, Random(old(chip.rng)))
      ensures L.Valid() && old(Inv() && IsArmed()) ==> IsArmed()
      ensures (rc == PmdOk || rc == PmdErr) && (k.Some? <==> rc == PmdOk)
      ensures rc == PmdOk ==>
                && rec.Now().a == rec.Now().b && Current().Some? && Current().value.retirePending == 0 && !rec.uncertain
                && BoundTo(L, Current().value, Random(old(chip.rng)), mat) && Current().value.next == 0
                && k == Some(Kdf(Random(old(chip.rng)), K_USE)) && Current().value.pinLen == pinLen
                && L.Valid() && IsArmed()
      ensures rc == PmdOk && old(Inv()) && old(Current()).Some? ==>
                Current().value.range == 1 - old(Current()).value.range && old(Current()).value.range < L.ranges
                && L.Valid() && Retired(L, old(Current()).value.range, chip.mad, old(chip.rng))
      ensures chip.calm && L.Valid() && old(Usable()) && (old(Current()).Some? ==> L.ranges == 2) ==> rc == PmdOk
    {
      rc, k := PmdErr, None;
      if !L.Valid() { return; }
      hide Armed, BoundTo, Retired;
      var got, s := chip.RandomTerm();
      if !got { return; }
      var ok := SetupS(mat, pinLen, s);
      if ok { rc, k := PmdOk, Some(Kdf(s, K_USE)); }
    }

    method Verify(mat: Material) returns (rc: Code, correct: bool, k: Option<Term>)
      requires Wired()
      modifies chip`rmem, chip`mad, chip`rng, rec`uncertain, `probes
      ensures Others(old(chip.rmem), chip.rmem, rec.place)
      ensures OnlyOwned(L, old(chip.mad), chip.mad) && chip.rng >= old(chip.rng)
      ensures old(rec.uncertain) ==> rc == PmdErr && rec.uncertain && chip.rmem == old(chip.rmem)
      ensures k.Some? <==> correct
      ensures correct ==> rc == PmdOk
      ensures L.Valid() && old(Inv()) ==>
                Inv() && VerifyStep(L, old(Current()), Current(), mat) && Older(old(rec.Now()), rec.Now(), 3)
      ensures L.Valid() && old(Inv() && IsArmed()) ==> IsArmed()
      ensures old(Inv()) ==> CountStep(old(Current()), old(probes), Current(), probes, mat)
      ensures L.Valid() && old(Inv()) && rc == PmdOk ==>
                && old(Current()).Some? && Current().Some? && Current().value.retirePending == 0
                && rec.Now().a == rec.Now().b && !rec.uncertain
                && (correct ==>
                     mat == PinOf(old(Current()).value) && k == Some(Kdf(SecretOf(old(Current()).value), K_USE))
                                && Current().value.next == 0)
                && (!correct ==> Current().value.next == old(Current()).value.next + 1)
      ensures L.Valid() && old(Inv() && IsArmed()) && rc == PmdOk ==> (correct <==> mat == PinOf(old(Current()).value))
      ensures L.Valid() && chip.calm && old(Usable()) ==>
                rc == match old(Current()) case None => PmdAbsent
                                           case Some(b) => if b.next == L.rounds then PmdBlocked else PmdOk
    {
      rc, correct, k := PmdErr, false, None;
      if !L.Valid() { return; }
      hide Armed, Genuine, BoundTo, Retired;
      var s;
      rc, correct, s := VerifyS(mat);
      if correct { k := Some(Kdf(s, K_USE)); }
    }

    /** Verify the old PIN, then set up the new one with the same secret. */
    method Change(oldMat: Material, newMat: Material, newLen: nat) returns (rc: Code, correct: bool, k: Option<Term>)
      requires Wired()
      modifies chip`rmem, chip`mad, chip`rng, rec`uncertain, `probes
      ensures Others(old(chip.rmem), chip.rmem, rec.place)
      ensures OnlyOwned(L, old(chip.mad), chip.mad) && chip.rng >= old(chip.rng)
      ensures old(rec.uncertain) ==> rc == PmdErr && rec.uncertain && chip.rmem == old(chip.rmem)
      ensures (k.Some? <==> correct) && (correct ==> rc == PmdOk)
      ensures L.Valid() && old(Inv()) ==>
                Inv() && ChangeStep(L, old(Current()), Current(), oldMat, newMat, newLen)
                  && Older(old(rec.Now()), rec.Now(), 6)
      ensures old(Inv()) && (old(Current()).Some? ==> oldMat != PinOf(old(Current()).value)) ==>
                CountStep(old(Current()), old(probes), Current(), probes, oldMat)
      ensures L.Valid() && old(Inv() && IsArmed()) ==> IsArmed()
      ensures L.Valid() && old(Inv()) && rc == PmdOk ==>
                && old(Current()).Some? && Current().Some? && Current().value.retirePending == 0 && !rec.uncertain
                && (correct ==> Changed(L, old(Current()), Current(), oldMat, newMat, newLen)
                                && Retired(L, old(Current()).value.range, chip.mad, old(chip.rng))
                                && k == Some(Kdf(SecretOf(old(Current()).value), K_USE)))
                && (!correct ==> SameBinding(old(Current()).value, Current().value)
                                 && Current().value.next == old(Current()).value.next + 1)
      ensures L.Valid() && chip.calm && L.ranges == 2
                && old(Usable() && IsArmed() && Room10(rec.Now()) && Attempts() > 0) ==>
                rc == PmdOk && (correct <==> oldMat == PinOf(old(Current()).value))
    {
      rc, correct, k := PmdErr, false, None;
      if !L.Valid() || L.ranges < 2 { return; }
      hide Armed, Retired;
      var s;
      rc, correct, s := VerifyS(oldMat);
      if !correct { return; }

      var ok := SetupS(newMat, newLen, s);
      if ok {
        k := Some(Kdf(s, K_USE));
      } else {
        rc, correct := PmdErr, false;
      }
    }

    /** Works whatever the record holds; it goes only after every slot. */
    method Clear() returns (ok: bool)
      requires Wired()
      modifies chip`rmem, chip`mad, chip`rng, rec`uncertain
      ensures Others(old(chip.rmem), chip.rmem, rec.place)
      ensures OnlyOwned(L, old(chip.mad), chip.mad) && chip.rng >= old(chip.rng)
      ensures old(rec.uncertain) ==> !ok && rec.uncertain && chip.rmem == old(chip.rmem)
      ensures old(Inv()) ==> Inv() && Current() in {old(Current()), None}
      ensures ok ==> L.Valid() && rec.Now() == Pair(Empty, Empty) && !rec.uncertain
                     && forall r :: 0 <= r < L.ranges ==> Retired(L, r, chip.mad, old(chip.rng))
      ensures var v, w := old(rec.Now()), rec.Now(); (w.a == v.a || !w.a.Valid?) && (w.b == v.b || !w.b.Valid?)
      // The record goes only after every range was retired.
      ensures rec.Now() != old(rec.Now()) ==>
                L.Valid() && forall r :: 0 <= r < L.ranges ==> Retired(L, r, chip.mad, old(chip.rng))
      ensures chip.calm && L.Valid() && !old(rec.uncertain) ==> ok
    {
      if !L.Valid() { return false; }
      hide Armed, BoundTo;
      var r := 0;
      while r < L.ranges
        invariant 0 <= r <= L.ranges && chip.rmem == old(chip.rmem) && rec.uncertain == old(rec.uncertain)
        invariant OnlyOwned(L, old(chip.mad), chip.mad) && chip.rng >= old(chip.rng)
        invariant forall q :: 0 <= q < r ==> Retired(L, q, chip.mad, old(chip.rng))
      {
        ghost var before := chip.mad;
        ok := Retire(r);
        if r == 1 { RetiredFrame(L, before, chip.mad, old(chip.rng)); }
        if !ok { return; }
        r := r + 1;
      }
      var st := rec.Clear();
      ok := st == Ok;
    }
  }

  /** A wrong guess costs a slot before it is evaluated; only the bound PIN gives attempts back. */
  predicate CountStep(o: Option<Binding>, n: nat, o': Option<Binding>, n': nat, mat: Material) {
    if o.Some? && o'.Some? && mat == PinOf(o.value) then n <= n' <= n + 1 || (n' == 0 && o'.value.next == 0)
    else if o.Some? && o'.Some? then n <= n' && n' + o.value.next <= n + o'.value.next
    else n' == n
  }

  predicate ReserveStep(L: Layout, o: Option<Binding>, o': Option<Binding>) {
    || SettledOrNot(o, o')
    || (o.Some? && o.value.next < L.rounds && o' == Some(o.value.(retirePending := 0, next := o.value.next + 1)))
  }

  /** What a verification may do to the binding, finished or cut. */
  predicate VerifyStep(L: Layout, o: Option<Binding>, o': Option<Binding>, mat: Material) {
    match o
    case None => o' == None
    case Some(b) =>
      && o'.Some?
      && SameBinding(b, o'.value)
      && o'.value.retirePending <= b.retirePending
      && (o'.value.next == b.next
          || (b.next < L.rounds && o'.value.next == b.next + 1)
          || (o'.value.next == 0 && mat == PinOf(b)))
  }

  /** What a setup that got as far as its commit leaves. */
  predicate SetupStep(L: Layout, o: Option<Binding>, o': Option<Binding>, mat: Material, pinLen: nat, s: Term) {
    && o'.Some?
    && BoundTo(L, o'.value, s, mat) && FieldsOk(L, o'.value) && o'.value.next == 0 && o'.value.pinLen == pinLen
    && (if o.Some? then o.value.range < 2 && o'.value.range == 1 - o.value.range
        else o'.value.range == 0 && o'.value.retirePending == 0)
  }

  /** A setup, finished or cut; a new binding starts without probes. */
  predicate SetupOrNot(L: Layout, o: Option<Binding>, n: nat, o': Option<Binding>, n': nat, mat: Material, pinLen: nat,
          s: Term) {
    (SettledOrNot(o, o') && n' == n) || (SetupStep(L, o, o', mat, pinLen, s) && n' == 0)
  }

  /** A setup for the new PIN with the secret that the old one guarded. */
  predicate Changed(L: Layout, o: Option<Binding>, o': Option<Binding>, oldMat: Material, newMat: Material,
          newLen: nat) {
    o.Some? && oldMat == PinOf(o.value) && SetupStep(L, o, o', newMat, newLen, SecretOf(o.value))
  }

  predicate ChangeStep(L: Layout, o: Option<Binding>, o': Option<Binding>, oldMat: Material, newMat: Material,
          newLen: nat) {
    VerifyStep(L, o, o', oldMat) || Changed(L, o, o', oldMat, newMat, newLen)
  }
}

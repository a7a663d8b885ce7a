/**
 The OpenPGP state record O3, and what its copies, the keys and the PW1 binding
 must agree on.
 */
module OpenPgpState {
  import opened Values
  import opened ChipModel
  import opened RecPairs
  import opened PinKernel
  import opened Layouts

  const LC_ERROR := 0
  const LC_OPERATIONAL := 1
  const LC_TERMINATED := 2

  const SIG_SLOT := 29
  const DEC_SLOT := 30
  const AUT_SLOT := 31

  /** The key-encryption key of a PIN secret. */
  function Kek(s: Term): Term { Kdf(Kdf(s, K_USE), KEK_USE) }

  predicate StateOk(st: CardState) { st.lifecycle in {LC_OPERATIONAL, LC_TERMINATED} && st.rcSet <= 1 }

  function Defaults(lc: nat): CardState { CardState(lc, 0, 0, None, 0, 0) }

  /** The DEC key goes with its fingerprint and its time. */
  function WithoutDec(st: CardState): CardState { st.(dec := None, decFpr := 0, decTime := 0) }

  predicate HasDec(c: Copy) { c.Valid? && c.payload.Card? && c.payload.state.dec.Some? }

  predicate IsTerminated(c: Copy) { c.Valid? && c.payload.Card? && c.payload.state.lifecycle == LC_TERMINATED }

  predicate NoKeys(ecc: Ecc) { ecc[SIG_SLOT] == ecc[DEC_SLOT] == ecc[AUT_SLOT] == NoKey }

  predicate NoDec(v: Pair) { !HasDec(v.a) && !HasDec(v.b) }

  /** A stored wrap opens under the KEK of the PW1 secret. */
  predicate SealedFor(c: Copy, pw1: Option<Binding>) {
    HasDec(c) && pw1.Some? ==> c.payload.state.dec.value.kek == Kek(SecretOf(pw1.value))
  }

  /** What holds in every reachable state, cuts included. */
  predicate CardInv(v: Pair, ecc: Ecc, pw1: Option<Binding>) {
    && SealedFor(v.a, pw1) && SealedFor(v.b, pw1)
    && (IsTerminated(v.a) || IsTerminated(v.b) ==> NoKeys(ecc) && NoDec(v))
  }

  /** Same secret behind PW1, or no PW1 at all. */
  predicate SecretKept(o: Option<Binding>, o': Option<Binding>) {
    o'.Some? ==> o.Some? && SecretOf(o'.value) == SecretOf(o.value)
  }

  lemma CardInvKept(v: Pair, v': Pair, ecc: Ecc, ecc': Ecc, o: Option<Binding>, o': Option<Binding>,
          written: Option<Payload>)
    requires CardInv(v, ecc, o) && Among(v, v', written) && SecretKept(o, o')
    requires NoKeys(ecc) ==> NoKeys(ecc')
    requires written.Some? && written.value.Card? ==>
               var st := written.value.state;
               && (st.dec.Some? && o.Some? ==> st.dec.value.kek == Kek(SecretOf(o.value)))
               && (st.dec.Some? ==> !IsTerminated(v.a) && !IsTerminated(v.b) && st.lifecycle != LC_TERMINATED)
               && (st.lifecycle == LC_TERMINATED ==> NoKeys(ecc') && NoDec(v))
    ensures CardInv(v', ecc', o')
  {
  }

  // ----- the PINs beside it -----

  const PW1_MIN := 6
  const PW3_MIN := 8
  const RC_MIN := 8
  const PIN_MAX := 64

  datatype Which = PW1 | PW3 | RC

  function MinLen(w: Which): nat {
    match w case PW1 => PW1_MIN case PW3 => PW3_MIN case RC => RC_MIN
  }

  predicate LenOk(w: Which, pin: Material) { MinLen(w) <= |pin| <= PIN_MAX }

  function PlaceOf(w: Which): Place {
    match w case PW1 => O4_PLACE case PW3 => O5_PLACE case RC => O6_PLACE
  }

  function LayoutOf(w: Which): Layout {
    match w case PW1 => PW1_LAYOUT case PW3 => PW3_LAYOUT case RC => RC_LAYOUT
  }

  /** The signatures that the key in the signature slot has made. */
  function Made(ecc: Ecc, signed: map<nat, nat>): nat {
    if ecc[SIG_SLOT].Key? then CountOf(signed, ecc[SIG_SLOT].id) else 0
  }

  predicate Counts(c: Copy, n: nat) { c.Valid? && c.payload.Card? ==> n <= c.payload.state.sigCount }

  /** The signature counter shows no fewer signatures than the key made; keys to come have made none. */
  predicate Counted(v: Pair, ecc: Ecc, rng: nat, signed: map<nat, nat>, wrapped: bool) {
    && (forall id :: id in signed ==> id < rng) && (ecc[SIG_SLOT].Key? ==> ecc[SIG_SLOT].id < rng)
    && (wrapped || (Counts(v.a, Made(ecc, signed)) && Counts(v.b, Made(ecc, signed))))
  }

  /**
   The chip as the card sees it, with the probe counts of the three PINs; `wrapped`: the 24-bit signature counter
   has gone back to 0.
   */
  datatype Snap = Snap(rmem: Rmem, ecc: Ecc, mad: Mad, rng: nat, pw1: nat, pw3: nat, rc: nat,
                       signed: map<nat, nat>, wrapped: bool) {
    function Probes(w: Which): nat { match w case PW1 => pw1 case PW3 => pw3 case RC => rc }

    function O3(): Pair { View(rmem, O3_PLACE) }

    function Rec(w: Which): Pair { View(rmem, PlaceOf(w)) }

    function Bound(w: Which): Option<Binding> { BindingIn(Rec(w)) }
  }

  /** A bound PIN keeps to the length limits, and its record says how long it is. */
  predicate Fits(w: Which, o: Option<Binding>) {
    o.Some? ==> LenOk(w, PinOf(o.value)) && o.value.pinLen == |PinOf(o.value)|
  }

  predicate PinFine(w: Which, s: Snap) { Sound(LayoutOf(w), s.Rec(w), s.rng, s.Probes(w)) && Fits(w, s.Bound(w)) }

  /** There is a PIN, and every attempt it has left works. */
  predicate PinWorks(w: Which, s: Snap) { s.Bound(w).Some? && PairArmed(LayoutOf(w), s.Rec(w), s.mad) }

  predicate IsOperational(c: Copy) { c.Valid? && c.payload.Card? && c.payload.state.lifecycle == LC_OPERATIONAL }

  predicate HasOperational(v: Pair) { IsOperational(v.a) || IsOperational(v.b) }

  /** What holds of the chip in every reachable state: an OPERATIONAL record only over working PINs. */
  predicate Good(s: Snap) {
    && Consistent(s.O3()) && CardInv(s.O3(), s.ecc, s.Bound(PW1))
    && PinFine(PW1, s) && PinFine(PW3, s) && PinFine(RC, s)
    && (HasOperational(s.O3()) ==> PinWorks(PW1, s) && PinWorks(PW3, s))
    && Counted(s.O3(), s.ecc, s.rng, s.signed, s.wrapped)
  }

  /** Nothing but one PIN changed. */
  predicate PinOnly(w: Which, s: Snap, t: Snap) {
    t.O3() == s.O3() && t.ecc == s.ecc && s.rng <= t.rng && forall x: Which :: x != w ==> t.Rec(x) == s.Rec(x)
  }

  /** Nothing but O3 changed. */
  predicate StateOnly(s: Snap, t: Snap) {
    t == s.(rmem := t.rmem) && Others(s.rmem, t.rmem, O3_PLACE) && forall x: Which :: t.Rec(x) == s.Rec(x)
  }

  /** A written state without a DEC key leaves none. */
  predicate NoDecIn(st: CardState, v: Pair) { st.dec == None ==> NoDec(v) }

  predicate OtherProbes(w: Which, s: Snap, t: Snap) { forall x: Which :: x != w ==> t.Probes(x) == s.Probes(x) }

  lemma PlacesApart(w: Which, x: Which)
    requires w != x
    ensures Apart(PinSite(PlaceOf(w), LayoutOf(w)), PinSite(PlaceOf(x), LayoutOf(x)))
  {
    ListedAreApart(PinSite(PlaceOf(w), LayoutOf(w)), PinSite(PlaceOf(x), LayoutOf(x)));
  }

  lemma OtherPin(w: Which, x: Which, s: Snap, t: Snap)
    requires w != x && PinFine(x, s) && t.Probes(x) == s.Probes(x)
    requires Others(s.rmem, t.rmem, PlaceOf(w)) && OnlyOwned(LayoutOf(w), s.mad, t.mad) && s.rng <= t.rng
    ensures PinFine(x, t) && t.Rec(x) == s.Rec(x) && (PinWorks(x, s) ==> PinWorks(x, t))
  {
    hide Sound, PairArmed, Fits, LayoutOf, PlaceOf;
    PlacesApart(w, x);
    Elsewhere(PinSite(PlaceOf(w), LayoutOf(w)), PinSite(PlaceOf(x), LayoutOf(x)),
              s.rmem, t.rmem, s.mad, t.mad, s.rng, t.rng, s.Probes(x));
  }

  /** An operation on one PIN. */
  lemma PinStep(w: Which, s: Snap, t: Snap)
    requires Good(s) && OtherProbes(w, s, t) && t.ecc == s.ecc && t.signed == s.signed && t.wrapped == s.wrapped
    requires Others(s.rmem, t.rmem, PlaceOf(w)) && OnlyOwned(LayoutOf(w), s.mad, t.mad) && s.rng <= t.rng
    requires PinFine(w, t) && (HasOperational(s.O3()) && w != RC ==> PinWorks(w, t))
    requires w == PW1 ==> SecretKept(s.Bound(PW1), t.Bound(PW1)) || NoDec(s.O3())
    ensures Good(t) && PinOnly(w, s, t)
    ensures forall x: Which :: x != w && PinWorks(x, s) ==> PinWorks(x, t)
  {
    hide Sound, PairArmed, Fits, PinFine, PinWorks, LayoutOf, OnlyOwned, Consistent;
    assert t.O3() == s.O3();
    forall x: Which | x != w ensures PinFine(x, t) && t.Rec(x) == s.Rec(x) && (PinWorks(x, s) ==> PinWorks(x, t)) {
      assert PinFine(x, s) by { match x case PW1 => case PW3 => case RC => }
      OtherPin(w, x, s, t);
    }
  }

  /** A write to O3, and keys that go. */
  lemma StateStep(s: Snap, t: Snap, written: Option<Payload>)
    requires Good(s) && t == s.(rmem := t.rmem, ecc := t.ecc, rng := t.rng) && s.rng <= t.rng
    requires Others(s.rmem, t.rmem, O3_PLACE) && Consistent(t.O3()) && Among(s.O3(), t.O3(), written)
    requires (NoKeys(s.ecc) ==> NoKeys(t.ecc)) && t.ecc[SIG_SLOT] == s.ecc[SIG_SLOT]
    requires written.Some? ==> Permitted(written.value, s, t.ecc)
    ensures Good(t) && forall x: Which :: t.Rec(x) == s.Rec(x)
  {
    hide PairArmed, Fits, LayoutOf, SecretOf, PinOf, BoundTo, Counted, CardInv;
    forall x: Which ensures t.Rec(x) == s.Rec(x) {}
    CardInvKept(s.O3(), t.O3(), s.ecc, t.ecc, s.Bound(PW1), t.Bound(PW1), written);
    StillCounted(s.O3(), t.O3(), s, t, written);
  }

  lemma StillCounted(v: Pair, v': Pair, s: Snap, t: Snap, written: Option<Payload>)
    requires Counted(v, s.ecc, s.rng, s.signed, s.wrapped) && Among(v, v', written) && s.rng <= t.rng
    requires t.ecc[SIG_SLOT] == s.ecc[SIG_SLOT] && t.signed == s.signed && t.wrapped == s.wrapped
    requires written.Some? && written.value.Card? ==> s.wrapped || Made(s.ecc, s.signed) <= written.value.state.sigCount
    ensures Counted(v', t.ecc, t.rng, t.signed, t.wrapped)
  {
  }

  /**
   What may be written into O3: a DEC key sealed for the live PW1, TERMINATED only over an empty
   card, OPERATIONAL only over working PINs, and a signature counter that is not behind.
   */
  predicate Permitted(p: Payload, s: Snap, ecc: Ecc) {
    p.Card? ==>
      && (p.state.dec.Some? && s.Bound(PW1).Some? ==> p.state.dec.value.kek == Kek(SecretOf(s.Bound(PW1).value)))
      && (p.state.dec.Some? ==>
            !IsTerminated(s.O3().a) && !IsTerminated(s.O3().b) && p.state.lifecycle != LC_TERMINATED)
      && (p.state.lifecycle == LC_TERMINATED ==> NoKeys(ecc) && NoDec(s.O3()))
      && (p.state.lifecycle == LC_OPERATIONAL ==> PinWorks(PW1, s) && PinWorks(PW3, s))
      && (s.wrapped || Made(s.ecc, s.signed) <= p.state.sigCount)
  }

  /** Keys that change while no TERMINATED record is there, or that go. */
  lemma KeyStep(s: Snap, t: Snap)
    requires Good(s) && t == s.(ecc := t.ecc, rng := t.rng) && s.rng <= t.rng
    requires (NoKeys(s.ecc) ==> NoKeys(t.ecc)) || (!IsTerminated(s.O3().a) && !IsTerminated(s.O3().b))
    requires t.ecc[SIG_SLOT] in {s.ecc[SIG_SLOT], NoKey} || s.rng <= t.ecc[SIG_SLOT].id < t.rng
    ensures Good(t)
  {
    hide PairArmed, Fits, LayoutOf, SecretOf, PinOf, BoundTo, Consistent;
  }

  /** A signature by the key in the signature slot, counted beforehand, or a counter about to go back to 0. */
  lemma SignStep(s: Snap, t: Snap)
    requires Good(s) && t == s.(signed := t.signed, wrapped := t.wrapped) && (s.wrapped ==> t.wrapped)
    requires
      || t.signed == s.signed
      || (&& s.ecc[SIG_SLOT].Key? && t.signed == OneMore(s.signed, s.ecc[SIG_SLOT].id)
          && var n := Made(s.ecc, s.signed) + 1; t.wrapped || (Counts(s.O3().a, n) && Counts(s.O3().b, n)))
    ensures Good(t)
  {
    hide PairArmed, Fits, LayoutOf, SecretOf, PinOf, BoundTo, Consistent, CardInv, HasOperational;
  }

  /** A state that a clean read accepts. */
  predicate Readable(v: Pair) {
    Consistent(v) && Value(v).Some? && Value(v).value.1.Card? && StateOk(Value(v).value.1.state)
  }

  class StateStore {
    const chip: Chip
    const o3: RecPair
    var cur: CardState      // the committed record, meaningful while loaded
    var loaded: bool

    constructor (chip: Chip)
      ensures this.chip == chip && o3.chip == chip && o3.place == O3_PLACE && !loaded && !o3.uncertain && fresh(o3)
    {
      this.chip := chip;
      o3 := new RecPair(chip, O3_PLACE);
      cur, loaded := Defaults(LC_ERROR), false;
    }

    ghost predicate Wired() { o3.chip == chip && o3.place == O3_PLACE }

    predicate Usable()
      reads this, o3
    {
      loaded && !o3.uncertain
    }

    /** The RAM copy is what both slots hold. */
    ghost predicate Cached()
      requires Wired()
      reads this, o3, chip`rmem
    {
      CachedIn(o3.Now())
    }

    ghost predicate CachedIn(v: Pair)
      reads this, o3
    {
      Usable() ==> v.a == v.b && v.a.Valid? && v.a.payload == Card(cur) && StateOk(cur)
    }

    function Lifecycle(): nat
      reads this, o3
    {
      if Usable() then cur.lifecycle else LC_ERROR
    }

    /** 0 loaded, 1 absent, 2 damaged or unreadable. */
    method Load() returns (r: nat)
      requires Wired()
      modifies chip`rmem, o3`uncertain, `cur, `loaded
      ensures Others(old(chip.rmem), chip.rmem, O3_PLACE) && Among(old(o3.Now()), o3.Now(), None)
      ensures old(Consistent(o3.Now())) ==> Consistent(o3.Now()) && Value(o3.Now()) == old(Value(o3.Now()))
      ensures r <= 2 && (loaded <==> r == 0) && Cached()
      ensures r == 0 ==> Usable()
      ensures r == 1 ==> o3.Now() == Pair(Empty, Empty) && !o3.uncertain && chip.rmem == old(chip.rmem)
      ensures r == 0 ==> cur.lifecycle in {1, 2} && cur.rcSet <= 1
      ensures chip.calm && !old(o3.uncertain) && old(Readable(o3.Now())) ==> r == 0
      ensures chip.calm && !old(o3.uncertain) && old(o3.Now()) == Pair(Empty, Empty) ==> r == 1
    {
      loaded := false;
      var st, gen, payload := o3.Read();
      if st == Absent { return 1; }
      if st == Ok && payload.value.Card? && StateOk(payload.value.state) {
        cur, loaded := payload.value.state, true;
        return 0;
      }
      r := 2;
    }

    /** RAM follows an acknowledged write; outside OPERATIONAL nothing is written. */
    method Commit(next: CardState) returns (ok: bool)
      requires Wired()
      modifies chip`rmem, o3`uncertain, `cur
      ensures Others(old(chip.rmem), chip.rmem, O3_PLACE)
      ensures !old(Usable() && cur.lifecycle == LC_OPERATIONAL) ==>
                !ok && chip.rmem == old(chip.rmem) && o3.uncertain == old(o3.uncertain)
      ensures Among(old(o3.Now()), o3.Now(), Some(Card(next)))
      ensures old(Consistent(o3.Now())) ==> Consistent(o3.Now())
      ensures old(Cached()) && StateOk(next) ==> Cached()
      ensures old(o3.uncertain) ==> o3.uncertain
      ensures ok ==> Usable() && cur == next && old(Usable() && cur.lifecycle == LC_OPERATIONAL)
      ensures !ok ==> cur == old(cur)
      ensures ok ==> o3.Now().a == o3.Now().b && o3.Now().a.Valid? && o3.Now().a.payload == Card(next)
      ensures old(Consistent(o3.Now())) ==> Older(old(o3.Now()), o3.Now(), 1)
      ensures chip.calm && old(Cached() && Lifecycle() == LC_OPERATIONAL && Writable(o3.Now())) ==> ok
    {
      ok := false;
      if Usable() && cur.lifecycle == LC_OPERATIONAL {
        var st := o3.Write(Card(next));
        ok := st == Ok;
        if ok { cur := next; }
      }
    }

    method Clear() returns (ok: bool)
      requires Wired()
      modifies chip`rmem, o3`uncertain, `cur, `loaded
      ensures Others(old(chip.rmem), chip.rmem, O3_PLACE) && Among(old(o3.Now()), o3.Now(), None)
      ensures old(Consistent(o3.Now())) ==> Consistent(o3.Now())
      ensures !loaded && Cached()
      ensures ok ==> o3.Now() == Pair(Empty, Empty)
      ensures chip.calm ==> ok
    {
      loaded, cur := false, Defaults(LC_ERROR);
      o3.uncertain := false;
      var st := o3.Clear();
      ok := st == Ok;
    }

    method Init(lc: nat) returns (ok: bool)
      requires Wired()
      modifies chip`rmem, o3`uncertain, `cur, `loaded
      ensures Others(old(chip.rmem), chip.rmem, O3_PLACE) && Among(old(o3.Now()), o3.Now(), Some(Card(Defaults(lc))))
      ensures old(Consistent(o3.Now())) ==> Consistent(o3.Now())
      ensures (loaded <==> ok) && Cached()
      ensures ok ==> lc in {LC_OPERATIONAL, LC_TERMINATED} && cur == Defaults(lc) && Usable()
      ensures chip.calm && lc in {LC_OPERATIONAL, LC_TERMINATED} ==> ok
    {
      loaded, ok := false, false;
      o3.uncertain := false;
      if lc != LC_OPERATIONAL && lc != LC_TERMINATED { return; }
      var st := o3.Init(Card(Defaults(lc)));
      if st == Ok { cur, loaded, ok := Defaults(lc), true, true; }
    }

    /** TERMINATED to OPERATIONAL, in one pair write. */
    method Activate() returns (ok: bool)
      requires Wired()
      modifies chip`rmem, o3`uncertain, `cur
      ensures Others(old(chip.rmem), chip.rmem, O3_PLACE)
      ensures Among(old(o3.Now()), o3.Now(), Some(Card(Defaults(LC_OPERATIONAL))))
      ensures old(Consistent(o3.Now())) ==> Consistent(o3.Now())
      ensures old(Cached()) ==> Cached()
      ensures ok ==> Usable() && cur == Defaults(LC_OPERATIONAL) && old(Usable() && cur.lifecycle == LC_TERMINATED)
      ensures chip.rmem != old(chip.rmem) ==> old(Usable() && cur.lifecycle == LC_TERMINATED)
      ensures chip.calm && old(Cached() && Usable() && cur.lifecycle == LC_TERMINATED && Writable(o3.Now())) ==> ok
    {
      ok := false;
      if Usable() && cur.lifecycle == LC_TERMINATED {
        var st := o3.Write(Card(Defaults(LC_OPERATIONAL)));
        ok := st == Ok;
        if ok { cur := Defaults(LC_OPERATIONAL); }
      }
    }

    /** No DEC key in either copy afterwards; no write when there is none. */
    method DecDestroy() returns (ok: bool)
      requires Wired()
      modifies chip`rmem, o3`uncertain, `cur
      ensures Others(old(chip.rmem), chip.rmem, O3_PLACE)
      ensures Among(old(o3.Now()), o3.Now(), Some(Card(WithoutDec(old(cur)))))
      ensures old(Consistent(o3.Now())) ==> Consistent(o3.Now())
      ensures old(Cached()) ==> Cached()
      ensures old(Cached()) && ok ==> Usable() && cur == WithoutDec(old(cur)) && NoDec(o3.Now())
      ensures !ok ==> cur == old(cur)
      ensures chip.rmem != old(chip.rmem) ==> old(Usable() && cur.lifecycle == LC_OPERATIONAL)
      ensures chip.calm && old(Cached() && Lifecycle() == LC_OPERATIONAL && Writable(o3.Now())) ==> ok
    {
      if !Usable() { return false; }
      if cur == WithoutDec(cur) { return true; }
      ok := Commit(WithoutDec(cur));
    }
  }
}

/**
 The OpenPGP card: PINs, lifecycle and the commands that touch keys.
 */
module OpenPgpCard {
  import opened Values
  import opened ChipModel
  import opened RecPairs
  import opened PinKernel
  import opened Layouts
  import opened OpenPgpState

  const BOOT_TRIES := 3
  const SIG_COUNTS: nat := 0x100_0000

  const FACTORY_PW1: Material := [49, 50, 51, 52, 53, 54]
  const FACTORY_PW3: Material := [49, 50, 51, 52, 53, 54, 55, 56]

  datatype PinState = PinActive | PinBlocked | PinNotSet | PinError

  datatype PinRc = PinOk | PinWrong | PinBlk | PinUnset | PinBadLen | PinErr

  datatype Sw =
    | SwOk | SwRetries | SwBlocked | SwConditions | SwLength | SwSecurity | SwError | SwTerminated | SwParams | SwNoKey

  datatype Shared = Shared(priv: nat, peer: nat)     // X25519

  function PinSw(rc: PinRc): Sw {
    match rc
    case PinOk => SwOk
    case PinWrong => SwRetries
    case PinBlk => SwBlocked
    case PinUnset => SwConditions
    case PinBadLen => SwLength
    case PinErr => SwError
  }

  function MapRc(rc: Code, correct: bool): PinRc {
    if rc == PmdOk then (if correct then PinOk else PinWrong) else if rc == PmdBlocked then PinBlk else PinErr
  }

  /** What a PIN's record says of it, under a given lifecycle. */
  function StatusOf(w: Which, lc: nat, o: Option<Binding>): PinState {
    match o
    case None => if w != RC && lc == LC_TERMINATED then PinNotSet else PinError
    case Some(b) => if b.next >= LayoutOf(w).rounds then PinBlocked else PinActive
  }

  lemma SettledKeeps(w: Which, o: Option<Binding>, o': Option<Binding>)
    requires SettledOrNot(o, o') && Fits(w, o)
    ensures Fits(w, o') && SecretKept(o, o') && (o'.Some? <==> o.Some?)
  {
  }

  lemma UnsettledIs(o: Option<Binding>)
    ensures SettledOrNot(o, o)
  {
  }

  lemma VerifyKeeps(w: Which, o: Option<Binding>, o': Option<Binding>, pin: Material)
    requires VerifyStep(LayoutOf(w), o, o', pin) && Fits(w, o)
    ensures Fits(w, o') && SecretKept(o, o') && (o'.Some? <==> o.Some?)
    ensures o.Some? ==> SecretOf(o'.value) == SecretOf(o.value) && PinOf(o'.value) == PinOf(o.value)
  {
  }

  lemma ChangedIs(w: Which, o: Option<Binding>, o': Option<Binding>, oldPin: Material, newPin: Material)
    requires Changed(LayoutOf(w), o, o', oldPin, newPin, |newPin|) && SecretOf(o.value).Random?
    ensures Is(o, oldPin) && Is(o', newPin) && SecretOf(o'.value) == SecretOf(o.value)
  {
    BoundPin(LayoutOf(w), o'.value, SecretOf(o.value), newPin);
  }

  lemma ChangeKeeps(w: Which, o: Option<Binding>, o': Option<Binding>, oldPin: Material, newPin: Material)
    requires ChangeStep(LayoutOf(w), o, o', oldPin, newPin, |newPin|) && Fits(w, o) && LenOk(w, newPin)
    requires o.Some? ==> SecretOf(o.value).Random?
    ensures Fits(w, o') && SecretKept(o, o') && (o'.Some? <==> o.Some?) && ChangedOrNot(o, o', oldPin + newPin)
  {
    if Changed(LayoutOf(w), o, o', oldPin, newPin, |newPin|) {
      ChangedIs(w, o, o', oldPin, newPin);
    } else {
      VerifyKeeps(w, o, o', oldPin);
    }
  }

  lemma UnchangedIs(w: Which, s: Snap, body: Material)
    ensures ChangedOrNot(s.Bound(w), s.Bound(w), body) && Older(s.Rec(w), s.Rec(w), 6)
  {
  }

  lemma SetupKeeps(w: Which, o: Option<Binding>, o': Option<Binding>, pin: Material, s: Term)
    requires SettledOrNot(o, o') || SetupStep(LayoutOf(w), o, o', pin, |pin|, s)
    requires Fits(w, o) && LenOk(w, pin) && s.Random?
    ensures Fits(w, o') && (o.Some? ==> o'.Some?)
    ensures PinKept(o, o') || Is(o', pin)
  {
    if SettledOrNot(o, o') {
      SettledKeeps(w, o, o');
      SettledIsKept(o, o');
    } else {
      BoundPin(LayoutOf(w), o'.value, s, pin);
    }
  }

  /** The PIN behind a VERIFY reference. */
  function PinRef(ref: nat): Which { if ref == 0x83 then PW3 else PW1 }

  /** A card that can be read, or a blank one. */
  predicate CanLoad(v: Pair) { Readable(v) || v == Pair(Empty, Empty) }

  predicate Is(o: Option<Binding>, pin: Material) { o.Some? && PinOf(o.value) == pin }

  /** The bound PIN, and behind it one fit for `w`. */
  predicate Follows(o: Option<Binding>, w: Which, body: Material) {
    o.Some? && var n := |PinOf(o.value)|; n <= |body| && body[..n] == PinOf(o.value) && LenOk(w, body[n..])
  }

  /** The same PIN with the same secret, or none as before. */
  predicate PinKept(o: Option<Binding>, o': Option<Binding>) {
    && (o.Some? <==> o'.Some?)
    && (o.Some? ==> PinOf(o'.value) == PinOf(o.value) && SecretOf(o'.value) == SecretOf(o.value))
  }

  predicate PinsKept(s: Snap, t: Snap) { forall w: Which :: PinKept(s.Bound(w), t.Bound(w)) }

  lemma SettledIsKept(o: Option<Binding>, o': Option<Binding>)
    requires SettledOrNot(o, o')
    ensures PinKept(o, o')
  {
  }

  lemma OneKept(w: Which, s: Snap, t: Snap)
    requires PinOnly(w, s, t) && PinKept(s.Bound(w), t.Bound(w))
    ensures PinsKept(s, t)
  {
    forall x: Which ensures PinKept(s.Bound(x), t.Bound(x)) {
      if x != w { assert t.Rec(x) == s.Rec(x); }
    }
  }

  lemma SameRecsKept(s: Snap, t: Snap)
    requires forall w: Which :: t.Rec(w) == s.Rec(w)
    ensures PinsKept(s, t)
  {
  }

  lemma KeptThrough(s: Snap, m: Snap, t: Snap)
    requires PinsKept(s, m) && PinsKept(m, t)
    ensures PinsKept(s, t)
  {
    forall w: Which ensures PinKept(s.Bound(w), t.Bound(w)) {
      assert PinKept(s.Bound(w), m.Bound(w)) && PinKept(m.Bound(w), t.Bound(w));
    }
  }

  predicate IsFactory(w: Which, o: Option<Binding>) {
    (w == PW1 && Is(o, FACTORY_PW1)) || (w == PW3 && Is(o, FACTORY_PW3))
  }

  /** Each PIN is the one before or gone, and each key slot as before or empty. */
  predicate Gone(s: Snap, t: Snap) {
    && (forall w: Which :: PinKept(s.Bound(w), t.Bound(w)) || t.Bound(w) == None)
    && forall i :: 0 <= i < ECC_SLOTS ==> t.ecc[i] in {s.ecc[i], NoKey}
  }

  /** The same, or a factory PIN. */
  predicate Reborn(s: Snap, t: Snap) {
    && (forall w: Which :: PinKept(s.Bound(w), t.Bound(w)) || t.Bound(w) == None || IsFactory(w, t.Bound(w)))
    && forall i :: 0 <= i < ECC_SLOTS ==> t.ecc[i] in {s.ecc[i], NoKey}
  }

  lemma KeptIsGone(s: Snap, t: Snap)
    requires PinsKept(s, t) && t.ecc == s.ecc
    ensures Gone(s, t)
  {
  }

  lemma SameIsGone(s: Snap, t: Snap)
    requires forall w: Which :: t.Rec(w) == s.Rec(w)
    requires forall i :: 0 <= i < ECC_SLOTS ==> t.ecc[i] in {s.ecc[i], NoKey}
    ensures Gone(s, t)
  {
  }

  lemma OneGone(w: Which, s: Snap, t: Snap)
    requires PinOnly(w, s, t) && t.Bound(w) in {s.Bound(w), None}
    ensures Gone(s, t)
  {
    forall x: Which ensures PinKept(s.Bound(x), t.Bound(x)) || t.Bound(x) == None {
      if x != w { assert t.Rec(x) == s.Rec(x); }
    }
  }

  lemma GoneTrans(s: Snap, m: Snap, t: Snap)
    requires Gone(s, m) && Gone(m, t)
    ensures Gone(s, t)
  {
    forall w: Which ensures PinKept(s.Bound(w), t.Bound(w)) || t.Bound(w) == None {
      assert PinKept(s.Bound(w), m.Bound(w)) || m.Bound(w) == None;
    }
  }

  lemma GoneIsReborn(s: Snap, t: Snap)
    requires Gone(s, t)
    ensures Reborn(s, t)
  {
    forall w: Which ensures PinKept(s.Bound(w), t.Bound(w)) || t.Bound(w) == None {}
  }

  lemma OneReborn(w: Which, s: Snap, t: Snap)
    requires PinOnly(w, s, t) && (PinKept(s.Bound(w), t.Bound(w)) || IsFactory(w, t.Bound(w)))
    ensures Reborn(s, t)
  {
    forall x: Which
      ensures PinKept(s.Bound(x), t.Bound(x)) || t.Bound(x) == None || IsFactory(x, t.Bound(x))
    {
      if x != w { assert t.Rec(x) == s.Rec(x); }
    }
  }

  lemma RebornTrans(s: Snap, m: Snap, t: Snap)
    requires Reborn(s, m) && Reborn(m, t)
    ensures Reborn(s, t)
  {
    forall w: Which ensures PinKept(s.Bound(w), t.Bound(w)) || t.Bound(w) == None || IsFactory(w, t.Bound(w)) {
      assert PinKept(s.Bound(w), m.Bound(w)) || m.Bound(w) == None || IsFactory(w, m.Bound(w));
    }
  }

  /** PW1 is the PIN behind the bound reset code, or the whole body under a verified PW3. */
  predicate ResetTo(byRc: bool, body: Material, admin: bool, s: Snap, t: Snap) {
    t.Bound(PW1).Some? &&
      if byRc then s.Bound(RC).Some? && body == PinOf(s.Bound(RC).value) + PinOf(t.Bound(PW1).value)
      else admin && body == PinOf(t.Bound(PW1).value)
  }

  /** The other PIN behind `o` and `o'`, or the same one with at most one attempt less. */
  predicate ChangedOrNot(o: Option<Binding>, o': Option<Binding>, body: Material) {
    o.Some? ==>
      && o'.Some? && SecretOf(o'.value) == SecretOf(o.value)
      && (|| (SameBinding(o.value, o'.value) && o'.value.next <= o.value.next + 1)
          || (body == PinOf(o.value) + PinOf(o'.value) && o'.value.next == 0))
  }

  /** One guess at a PIN, by its kernel. */
  method VerifyOn(k: Kernel, w: Which, pin: Material) returns (code: Code, correct: bool, key: Option<Term>)
    requires k.Wired() && k.L == LayoutOf(w) && k.L.Valid() && k.Inv() && Fits(w, k.Current())
    modifies k.chip`rmem, k.chip`mad, k.chip`rng, k.rec`uncertain, k`probes
    ensures k.Inv() && Fits(w, k.Current()) && SecretKept(old(k.Current()), k.Current())
    ensures Others(old(k.chip.rmem), k.chip.rmem, k.rec.place) && OnlyOwned(k.L, old(k.chip.mad), k.chip.mad)
    ensures k.chip.rng >= old(k.chip.rng) && (old(k.IsArmed()) ==> k.IsArmed())
    ensures old(k.Current()).Some? ==> k.Current().Some?
    ensures VerifyStep(k.L, old(k.Current()), k.Current(), pin) && Older(old(k.rec.Now()), k.rec.Now(), 3)
    ensures (key.Some? <==> correct) && (correct ==> code == PmdOk)
    ensures code == PmdOk ==> old(k.Current()).Some? && k.Current().Some?
    ensures code == PmdOk && correct ==>
              Is(old(k.Current()), pin) && key == Some(Kdf(SecretOf(k.Current().value), K_USE))
    ensures code == PmdOk && !correct ==> k.Current().value.next == old(k.Current()).value.next + 1
    ensures code == PmdOk && old(k.IsArmed()) ==> (correct <==> Is(old(k.Current()), pin))
    ensures k.chip.calm && old(k.Usable() && k.Attempts() > 0) ==> code == PmdOk
    ensures k.chip.calm && old(k.Usable()) && old(k.Current()).Some? && old(k.Attempts()) == 0 ==> code == PmdBlocked
    ensures PinKept(old(k.Current()), k.Current())
  {
    ghost var b := k.Current();
    hide Sound, PairArmed, Fits, VerifyStep, SecretKept, Others, OnlyOwned, CountStep, Armed, BoundTo;
    code, correct, key := k.Verify(pin);
    VerifyKeeps(w, b, k.Current(), pin);
  }

  /** CHANGE by one kernel: the old PIN, then the new one under the same secret. */
  method ChangeOn(k: Kernel, w: Which, oldPin: Material, newPin: Material) returns (code: Code, correct: bool)
    requires k.Wired() && k.L == LayoutOf(w) && k.L.Valid() && k.Inv() && Fits(w, k.Current()) && LenOk(w, newPin)
    modifies k.chip`rmem, k.chip`mad, k.chip`rng, k.rec`uncertain, k`probes
    ensures k.Inv() && Fits(w, k.Current()) && SecretKept(old(k.Current()), k.Current())
    ensures Others(old(k.chip.rmem), k.chip.rmem, k.rec.place) && OnlyOwned(k.L, old(k.chip.mad), k.chip.mad)
    ensures k.chip.rng >= old(k.chip.rng) && (old(k.IsArmed()) ==> k.IsArmed())
    ensures old(k.Current()).Some? ==> k.Current().Some?
    ensures ChangedOrNot(old(k.Current()), k.Current(), oldPin + newPin) && Older(old(k.rec.Now()), k.rec.Now(), 6)
    ensures correct ==> code == PmdOk && Is(old(k.Current()), oldPin) && Is(k.Current(), newPin)
    ensures k.chip.calm && k.L.ranges == 2
              && old(k.Usable() && k.IsArmed() && Room10(k.rec.Now()) && k.Attempts() > 0) ==>
              code == PmdOk && (correct <==> Is(old(k.Current()), oldPin))
  {
    ghost var b := k.Current();
    assert b.Some? ==> SecretOf(b.value).Random?;
    hide Sound, PairArmed, Fits, ChangeStep, Changed, SecretKept, Others, OnlyOwned, Retired, CountStep, SameBinding;
    hide ChangedOrNot, Armed, BoundTo;
    var key;
    code, correct, key := k.Change(oldPin, newPin, |newPin|);
    ChangeKeeps(w, b, k.Current(), oldPin, newPin);
    if correct { ChangedIs(w, b, k.Current(), oldPin, newPin); }
  }

  class PgpCard {
    const chip: Chip
    const store: StateStore
    const pw1: Kernel
    const pw3: Kernel
    const rc: Kernel
    var a81: bool            // session access, RAM only
    var a82: bool
    var a83: bool
    var kek: Option<Term>    // present only while PW1 is verified
    var tries: nat
    ghost var wrapped: bool  // the signature counter has gone back to 0

    constructor (chip: Chip)
      ensures this.chip == chip && Wired()
      ensures !store.loaded && !a81 && !a82 && !a83 && kek == None && tries == 0 && !wrapped
      ensures pw1.probes == pw3.probes == rc.probes == 0
    {
      this.chip := chip;
      var s := new StateStore(chip);
      var r4 := new RecPair(chip, O4_PLACE);
      var r5 := new RecPair(chip, O5_PLACE);
      var r6 := new RecPair(chip, O6_PLACE);
      store := s;
      pw1 := new Kernel(r4, PW1_LAYOUT);
      pw3 := new Kernel(r5, PW3_LAYOUT);
      rc := new Kernel(r6, RC_LAYOUT);
      a81, a82, a83, kek, tries, wrapped := false, false, false, None, 0, false;
    }

    ghost predicate Wired() {
      && store.Wired() && store.chip == chip
      && pw1.Wired() && pw1.chip == chip && pw1.rec.place == O4_PLACE && pw1.L == PW1_LAYOUT
      && pw3.Wired() && pw3.chip == chip && pw3.rec.place == O5_PLACE && pw3.L == PW3_LAYOUT
      && rc.Wired() && rc.chip == chip && rc.rec.place == O6_PLACE && rc.L == RC_LAYOUT
      && pw1 != pw3 && pw1 != rc && pw3 != rc
      && pw1.rec != pw3.rec && pw1.rec != rc.rec && pw3.rec != rc.rec
      && store.o3 != pw1.rec && store.o3 != pw3.rec && store.o3 != rc.rec
    }

    ghost function S(): Snap
      reads chip`rmem, chip`ecc, chip`mad, chip`rng, chip`signed, pw1, pw3, rc, `wrapped
    {
      Snap(chip.rmem, chip.ecc, chip.mad, chip.rng, pw1.probes, pw3.probes, rc.probes, chip.signed, wrapped)
    }

    /** Everything but the session. */
    ghost predicate Base()
      requires Wired()
      reads chip`rmem, chip`ecc, chip`mad, chip`rng, chip`signed, store, store.o3, pw1, pw3, rc, `wrapped
    {
      Good(S()) && store.Cached()
    }

    /** The KEK in RAM belongs to the live PW1 binding and never outlives the access flags. */
    ghost predicate Session()
      requires Wired()
      reads this, chip`rmem, pw1.rec, store
    {
      if a81 || a82 then
        store.loaded && pw1.Current().Some? && kek == Some(Kek(SecretOf(pw1.Current().value)))
      else kek == None
    }

    ghost predicate Inv()
      requires Wired()
      reads this, chip`rmem, chip`ecc, chip`mad, chip`rng, chip`signed, store, store.o3, pw1, pw1.rec, pw3, rc
    {
      Base() && Session()
    }

    ghost function O3(): Pair
      requires Wired()
      reads store.o3, chip`rmem
    {
      store.o3.Now()
    }

    function KernelOf(w: Which): Kernel {
      match w case PW1 => pw1 case PW3 => pw3 case RC => rc
    }

    lemma OfKernel(w: Which)
      requires Wired()
      ensures var k := KernelOf(w);
        && k.Wired() && k.chip == chip && k.L == LayoutOf(w) && k.L.Valid() && k.rec.place == PlaceOf(w)
        && S().Rec(w) == k.rec.Now() && S().Probes(w) == k.probes && S().Bound(w) == k.Current() && S().O3() == O3()
    {
    }

    lemma PinIsFine(w: Which)
      requires Wired() && Base()
      ensures KernelOf(w).Wired() && KernelOf(w).L.Valid() && KernelOf(w).Inv() && PinFine(w, S())
      ensures Fits(w, KernelOf(w).Current())
      ensures HasOperational(O3()) && w != RC ==>
                PinWorks(w, S()) && KernelOf(w).Current().Some? && KernelOf(w).IsArmed()
    {
      hide Sound, PairArmed, Fits;
      OfKernel(w);
    }

    /** A card that serves key commands has no TERMINATED copy. */
    lemma OperationalCopies()
      requires Wired() && Base() && store.Lifecycle() == LC_OPERATIONAL
      ensures !IsTerminated(O3().a) && !IsTerminated(O3().b) && HasOperational(O3()) && O3().a == O3().b
      ensures O3().a.Valid? && O3().a.payload == Card(store.cur) && PinWorks(PW1, S()) && PinWorks(PW3, S())
    {
      hide Sound, PairArmed, Fits;
    }

    /** One kernel did what kernels do. */
    ghost predicate Did(w: Which, s: Snap)
      requires Wired()
      reads chip, pw1, pw3, rc, pw1.rec, pw3.rec, rc.rec, `wrapped
    {
      && OtherProbes(w, s, S()) && chip.ecc == s.ecc && chip.signed == s.signed && wrapped == s.wrapped
      && Others(s.rmem, chip.rmem, PlaceOf(w)) && OnlyOwned(LayoutOf(w), s.mad, chip.mad) && s.rng <= chip.rng
      && KernelOf(w).Wired() && KernelOf(w).Inv() && Fits(w, KernelOf(w).Current())
      && (HasOperational(s.O3()) && w != RC ==>
            KernelOf(w).L.Valid() && KernelOf(w).Current().Some? && KernelOf(w).IsArmed())
      && (w == PW1 ==> SecretKept(s.Bound(PW1), KernelOf(PW1).Current()) || NoDec(s.O3()))
    }

    lemma PinDone(w: Which, s: Snap)
      requires Wired() && Good(s) && store.CachedIn(s.O3()) && Did(w, s)
      ensures Base() && PinOnly(w, s, S())
      ensures forall x: Which :: x != w && PinWorks(x, s) ==> PinWorks(x, S())
    {
      hide Sound, PairArmed, Fits, Good, PinOnly;
      OfKernel(w);
      PinStep(w, s, S());
    }

    lemma O3Facts(s: Snap)
      requires Wired() && Base() && s == S()
      ensures Consistent(O3()) && StateOnly(s, S())
    {
    }

    lemma Untouched(w: Which, s: Snap)
      requires s == S()
      ensures PinOnly(w, s, S())
    {
    }

    /** Nothing fails, the record is in order and an attempt is left. */
    ghost predicate CanTry(w: Which)
      requires Wired()
      reads chip, pw1, pw3, rc, pw1.rec, pw3.rec, rc.rec, `wrapped
    {
      && chip.calm && KernelOf(w).Wired() && KernelOf(w).Usable()
      && S().Bound(w).Some? && S().Bound(w).value.next < LayoutOf(w).rounds
    }

    /** As CanTry, where every attempt left works and a few more record writes are possible. */
    ghost predicate Able(w: Which)
      requires Wired()
      reads chip, pw1, pw3, rc, pw1.rec, pw3.rec, rc.rec, `wrapped
    {
      CanTry(w) && PinWorks(w, S()) && Spare(S().Rec(w))
    }

    lemma AbleFacts(w: Which)
      requires Wired() && Base() && Able(w)
      ensures chip.calm && KernelOf(w).Wired() && KernelOf(w).Usable() && PinWorks(w, S()) && Spare(S().Rec(w))
      ensures S().Bound(w).Some? && S().Bound(w).value.next < LayoutOf(w).rounds
    {
    }

    /** Settling takes at most one write of them, and the PIN is where the body says it is, or not. */
    lemma StillAble(w: Which, next: Which, s: Snap, body: Material)
      requires Wired() && Base() && chip.calm && !KernelOf(w).rec.uncertain && PinWorks(w, S())
      requires SettledOrNot(s.Bound(w), S().Bound(w)) && Older(s.Rec(w), S().Rec(w), 1)
      requires s.Bound(w).Some? && s.Bound(w).value.next < LayoutOf(w).rounds && Spare(s.Rec(w))
      ensures CanTry(w) && Room10(S().Rec(w)) && S().Bound(w).Some?
      ensures StatusOf(w, store.Lifecycle(), S().Bound(w)) == PinActive
      ensures var n := S().Bound(w).value.pinLen;
        if |body| <= n then !Follows(s.Bound(w), next, body)
        else
          && LenOk(w, body[..n])
          && (Follows(s.Bound(w), next, body) <==> Is(S().Bound(w), body[..n]) && LenOk(next, body[n..]))
    {
      OfKernel(w);
      PinIsFine(w);
      hide Sound, PairArmed, Good, SameBinding;
      SettledSame(s.Bound(w), S().Bound(w));
    }

    /** Nothing fails, and PW1 can be replaced. */
    ghost predicate CanReplace()
      requires Wired()
      reads chip, pw1, pw3, rc, pw1.rec, pw3.rec, rc.rec, store, store.o3, `wrapped
    {
      chip.calm && store.Lifecycle() == LC_OPERATIONAL && Writable(O3()) && pw1.Usable()
    }

    /** As CanReplace, with a few more record writes possible. */
    ghost predicate Steady()
      requires Wired()
      reads chip, pw1, pw3, rc, pw1.rec, pw3.rec, rc.rec, store, store.o3, `wrapped
    {
      CanReplace() && Spare(S().Rec(PW1))
    }

    /** What others do leaves it possible, and settling takes at most one write. */
    lemma StillReplaceable(s: Snap)
      requires Wired() && Base() && chip.calm && store.Lifecycle() == LC_OPERATIONAL && O3() == s.O3()
      requires Writable(s.O3()) && !pw1.rec.uncertain
      ensures Older(s.Rec(PW1), S().Rec(PW1), 1) && Spare(s.Rec(PW1)) ==> CanReplace()
      ensures S().Rec(PW1) == s.Rec(PW1) && Room(s.Rec(PW1)) ==> CanReplace()
      ensures S().Rec(PW1) == s.Rec(PW1) && Spare(s.Rec(PW1)) ==> Steady()
    {
      hide Sound, PairArmed, Fits, Good;
      OfKernel(PW1);
      PinIsFine(PW1);
      OperationalCopies();
    }

    lemma ReplaceFacts()
      requires Wired() && Base() && CanReplace()
      ensures chip.calm && store.Lifecycle() == LC_OPERATIONAL && Writable(O3()) && KernelOf(PW1).Wired()
      ensures KernelOf(PW1).Usable() && !pw1.rec.uncertain && Room(S().Rec(PW1)) && S().Bound(PW1).Some?
    {
      hide Sound, PairArmed, Fits, Good;
      OfKernel(PW1);
      OperationalCopies();
    }

    /** Nothing fails, the record is in order and no attempt is left. */
    ghost predicate IsBlocked(w: Which)
      requires Wired()
      reads chip, pw1, pw3, rc, pw1.rec, pw3.rec, rc.rec, `wrapped
    {
      && chip.calm && KernelOf(w).Wired() && KernelOf(w).Usable()
      && S().Bound(w).Some? && S().Bound(w).value.next >= LayoutOf(w).rounds
    }

    lemma BlockedFacts(w: Which)
      requires Wired() && IsBlocked(w)
      ensures chip.calm && KernelOf(w).Wired() && KernelOf(w).Usable() && KernelOf(w).Attempts() == 0
      ensures KernelOf(w).Current().Some?
    {
      OfKernel(w);
    }

    lemma TryFacts(w: Which)
      requires Wired() && CanTry(w)
      ensures chip.calm && KernelOf(w).Wired() && KernelOf(w).Usable() && KernelOf(w).Attempts() > 0
      ensures S().Bound(w).Some? && S().Bound(w).value.next < LayoutOf(w).rounds
      ensures !KernelOf(w).rec.uncertain && Room(S().Rec(w))
    {
      OfKernel(w);
    }

    // ----- session -----

    method AuthDrop(m81: bool, m82: bool, m83: bool)
      modifies `a81, `a82, `a83, `kek
      ensures a81 == (old(a81) && !m81) && a82 == (old(a82) && !m82) && a83 == (old(a83) && !m83)
      ensures kek == if a81 || a82 then old(kek) else None
    {
      a81, a82, a83 := a81 && !m81, a82 && !m82, a83 && !m83;
      if !a81 && !a82 { kek := None; }
    }

    // ----- PINs behind their guards -----

    /** The guard of the reset code: only an OPERATIONAL card has one, and only if its state says so. */
    predicate Guarded(w: Which)
      reads store, store.o3
    {
      w == RC ==> store.Lifecycle() == LC_OPERATIONAL && store.cur.rcSet != 0
    }

    /** What the kernel of a PIN says of it. */
    method KernelStatus(w: Which) returns (k: State, attempts: nat, pinLen: nat)
      requires Wired() && Base()
      modifies chip`rmem, chip`mad, chip`rng, KernelOf(w).rec`uncertain
      ensures Base() && PinOnly(w, old(S()), S()) && KernelOf(w).Wired()
      ensures SettledOrNot(old(S()).Bound(w), S().Bound(w)) && Older(old(S()).Rec(w), S().Rec(w), 1)
      ensures k == StAbsent ==> S().Bound(w) == None
      ensures k in {StActive, StBlocked} ==>
                S().Bound(w).Some? && pinLen == S().Bound(w).value.pinLen
                && attempts == LayoutOf(w).rounds - S().Bound(w).value.next && (k == StBlocked <==> attempts == 0)
      ensures chip.calm && old(KernelOf(w).Usable()) ==> k != StError && !KernelOf(w).rec.uncertain
      ensures forall x: Which :: old(PinWorks(x, S())) ==> PinWorks(x, S())
    {
      hide Good, Sound, PairArmed, Fits, SettledOrNot, SecretKept, HasOperational, PinWorks, PinOnly, Others, OnlyOwned;
      hide store.CachedIn, Older, Room;
      PinIsFine(w);
      OfKernel(w);
      WorksIs(w);
      ghost var s := S();
      k, attempts, pinLen := KernelOf(w).Status();
      SettledKeeps(w, s.Bound(w), KernelOf(w).Current());
      PinDone(w, s);
      OfKernel(w);
      WorksIs(w);
    }

    method PinStatus(w: Which) returns (st: PinState, attempts: nat, pinLen: nat)
      requires Wired() && Base()
      modifies chip`rmem, chip`mad, chip`rng, KernelOf(w).rec`uncertain
      ensures Base() && PinOnly(w, old(S()), S()) && KernelOf(w).Wired()
      ensures SettledOrNot(old(S()).Bound(w), S().Bound(w)) && Older(old(S()).Rec(w), S().Rec(w), 1)
      ensures st in {PinActive, PinBlocked} ==>
                S().Bound(w).Some? && pinLen == S().Bound(w).value.pinLen
                && attempts == LayoutOf(w).rounds - S().Bound(w).value.next
      ensures if Guarded(w) then st in {StatusOf(w, store.Lifecycle(), S().Bound(w)), PinError}
              else st == if store.Lifecycle() == LC_OPERATIONAL then PinNotSet else PinError
      ensures chip.calm && Guarded(w) && old(KernelOf(w).Usable()) ==>
                st == StatusOf(w, store.Lifecycle(), S().Bound(w)) && !KernelOf(w).rec.uncertain
      ensures forall x: Which :: old(PinWorks(x, S())) ==> PinWorks(x, S())
    {
      hide Base, SettledOrNot, PinOnly, PinWorks;
      st, attempts, pinLen := PinError, 0, 0;
      OfKernel(w);
      UnsettledIs(S().Bound(w));
      Untouched(w, S());
      var lc := store.Lifecycle();
      if w == RC {
        if lc != LC_OPERATIONAL { return; }
        if store.cur.rcSet == 0 { return PinNotSet, 0, 0; }
      }
      var k, att, len := KernelStatus(w);
      match k {
        case StActive => st, attempts, pinLen := PinActive, att, len;
        case StBlocked => st, attempts, pinLen := PinBlocked, att, len;
        case StAbsent => st := if w != RC && lc == LC_TERMINATED then PinNotSet else PinError;
        case StError => st := PinError;
      }
    }

    /** One guess at a PIN, by its kernel. */
    method KernelVerify(w: Which, pin: Material) returns (code: Code, correct: bool, k: Option<Term>)
      requires Wired() && Base()
      modifies chip`rmem, chip`mad, chip`rng, KernelOf(w).rec`uncertain, KernelOf(w)`probes
      ensures Base() && PinOnly(w, old(S()), S())
      ensures VerifyStep(LayoutOf(w), old(S()).Bound(w), S().Bound(w), pin) && Older(old(S()).Rec(w), S().Rec(w), 3)
      ensures (k.Some? <==> correct) && (correct ==> code == PmdOk)
      ensures code == PmdOk ==> old(S()).Bound(w).Some? && S().Bound(w).Some?
      ensures code == PmdOk && correct ==>
                Is(old(S()).Bound(w), pin) && k == Some(Kdf(SecretOf(S().Bound(w).value), K_USE))
      ensures code == PmdOk && !correct ==> S().Bound(w).value.next == old(S()).Bound(w).value.next + 1
      ensures code == PmdOk && old(PinWorks(w, S())) ==> (correct <==> Is(old(S()).Bound(w), pin))
      ensures old(CanTry(w)) ==> code == PmdOk
      ensures old(IsBlocked(w)) ==> code == PmdBlocked
      ensures PinKept(old(S()).Bound(w), S().Bound(w))
    {
      hide CanTry, IsBlocked, Good, Sound, PairArmed, Fits, VerifyStep, SecretKept, HasOperational;
      hide PinOnly, Others, OnlyOwned;
      hide PinWorks, BindingIn, Older, Is, PinKept, store.CachedIn;
      if CanTry(w) { TryFacts(w); }
      if IsBlocked(w) { BlockedFacts(w); }
      PinIsFine(w);
      OfKernel(w);
      ghost var s := S();
      WorksIs(w);
      code, correct, k := VerifyOn(KernelOf(w), w, pin);
      PinDone(w, s);
      OfKernel(w);
    }

    lemma WorksIs(w: Which)
      requires Wired()
      ensures KernelOf(w).L.Valid() && KernelOf(w).Wired()
      ensures PinWorks(w, S()) == (KernelOf(w).Current().Some? && KernelOf(w).IsArmed())
    {
      OfKernel(w);
    }

    method PinVerify(w: Which, pin: Material) returns (r: PinRc, k: Option<Term>)
      requires Wired() && Base()
      modifies chip`rmem, chip`mad, chip`rng, KernelOf(w).rec`uncertain, KernelOf(w)`probes
      ensures Base() && PinOnly(w, old(S()), S())
      ensures VerifyStep(LayoutOf(w), old(S()).Bound(w), S().Bound(w), pin) && Older(old(S()).Rec(w), S().Rec(w), 3)
      ensures k.Some? <==> r == PinOk
      ensures r == PinOk ==>
                Is(old(S()).Bound(w), pin) && S().Bound(w).Some? && k == Some(Kdf(SecretOf(S().Bound(w).value), K_USE))
      ensures r == PinWrong ==>
                old(S()).Bound(w).Some? && S().Bound(w).Some?
                  && S().Bound(w).value.next == old(S()).Bound(w).value.next + 1
                && (old(PinWorks(w, S())) ==> !Is(old(S()).Bound(w), pin))
      ensures r in {PinBadLen, PinUnset} ==> chip.rmem == old(chip.rmem) && chip.mad == old(chip.mad)
      ensures LenOk(w, pin) && Guarded(w) && old(CanTry(w)) ==> r in {PinOk, PinWrong}
      ensures LenOk(w, pin) && Guarded(w) && old(IsBlocked(w)) ==> r == PinBlk
      ensures PinKept(old(S()).Bound(w), S().Bound(w))
    {
      hide Base, VerifyStep, PinOnly, PinWorks, PinKept, CanTry, IsBlocked;
      NoGuess(w, pin);
      Untouched(w, S());
      k := None;
      if !LenOk(w, pin) { return PinBadLen, None; }
      if w == RC {
        if store.Lifecycle() != LC_OPERATIONAL { return PinErr, None; }
        if store.cur.rcSet == 0 { return PinUnset, None; }
      }
      var code, correct;
      code, correct, k := KernelVerify(w, pin);
      r := MapRc(code, correct);
    }

    lemma NoGuess(w: Which, pin: Material)
      requires Wired() && Base()
      ensures VerifyStep(LayoutOf(w), S().Bound(w), S().Bound(w), pin) && Older(S().Rec(w), S().Rec(w), 3)
      ensures PinKept(S().Bound(w), S().Bound(w))
    {
    }

    method KernelChange(w: Which, oldPin: Material, newPin: Material) returns (code: Code, correct: bool)
      requires Wired() && Base() && LenOk(w, newPin) && w != RC
      modifies chip`rmem, chip`mad, chip`rng, KernelOf(w).rec`uncertain, KernelOf(w)`probes
      ensures Base() && PinOnly(w, old(S()), S()) && Older(old(S()).Rec(w), S().Rec(w), 6)
      ensures ChangedOrNot(old(S()).Bound(w), S().Bound(w), oldPin + newPin)
      ensures code == PmdOk && correct ==> Is(old(S()).Bound(w), oldPin) && Is(S().Bound(w), newPin)
      ensures correct ==> code == PmdOk
      ensures old(CanTry(w) && PinWorks(w, S()) && Room10(S().Rec(w))) ==>
                code == PmdOk && (correct <==> Is(old(S()).Bound(w), oldPin))
    {
      hide Good, Sound, PairArmed, Fits, SecretKept, HasOperational, Others, OnlyOwned, PinOnly;
      hide ChangedOrNot, PinWorks, BindingIn, Is, Older, Room10, CanTry, LenOk, View, store.CachedIn, Room;
      PinIsFine(w);
      OfKernel(w);
      WorksIs(w);
      ghost var s := S();
      ghost var sure := CanTry(w) && PinWorks(w, s) && Room10(s.Rec(w));
      if sure { TryFacts(w); }
      if w == PW1 {
        code, correct := ChangeOn(pw1, w, oldPin, newPin);
      } else {
        code, correct := ChangeOn(pw3, w, oldPin, newPin);
      }
      PinDone(w, s);
      OfKernel(w);
    }

    /** CHANGE: only PW1 and PW3. */
    method PinChange(w: Which, oldPin: Material, newPin: Material) returns (r: PinRc)
      requires Wired() && Base()
      modifies chip`rmem, chip`mad, chip`rng, KernelOf(w).rec`uncertain, KernelOf(w)`probes
      ensures Base() && PinOnly(w, old(S()), S()) && Older(old(S()).Rec(w), S().Rec(w), 6)
      ensures ChangedOrNot(old(S()).Bound(w), S().Bound(w), oldPin + newPin)
      ensures r == PinOk ==> Is(old(S()).Bound(w), oldPin) && Is(S().Bound(w), newPin) && LenOk(w, newPin)
      ensures w != RC && LenOk(w, oldPin) && LenOk(w, newPin)
                && old(CanTry(w) && PinWorks(w, S()) && Room10(S().Rec(w))) ==>
                (r == PinOk <==> Is(old(S()).Bound(w), oldPin))
    {
      hide Base, ChangedOrNot, PinOnly, PinWorks;
      UnchangedIs(w, S(), oldPin + newPin);
      Untouched(w, S());
      if w == RC { return PinErr; }
      if !LenOk(w, oldPin) || !LenOk(w, newPin) { return PinBadLen; }
      var code, correct := KernelChange(w, oldPin, newPin);
      r := MapRc(code, correct);
    }

    /** A binding with a fresh secret.  For PW1 the caller has made sure that no wrap is left. */
    method Bind(w: Which, pin: Material) returns (r: PinRc)
      requires Wired() && Base() && LenOk(w, pin) && (w == PW1 ==> NoDec(O3()))
      modifies chip`rmem, chip`mad, chip`rng, KernelOf(w).rec`uncertain, KernelOf(w)`probes
      ensures Base() && PinOnly(w, old(S()), S())
      ensures forall x: Which :: x != w && old(PinWorks(x, S())) ==> PinWorks(x, S())
      ensures PinKept(old(S()).Bound(w), S().Bound(w)) || Is(S().Bound(w), pin)
      ensures r == PinOk ==>
                PinWorks(w, S()) && Is(S().Bound(w), pin) && SecretOf(S().Bound(w).value) == Random(old(chip.rng))
      ensures chip.calm && old(KernelOf(w).Usable()) && (old(S()).Bound(w).Some? ==> w != RC) ==> r == PinOk
    {
      hide Good, Sound, PairArmed, Fits, SettledOrNot, SetupStep, HasOperational, PinOnly, Others, OnlyOwned, Retired;
      hide NoDec;
      PinIsFine(w);
      OfKernel(w);
      ghost var s := S();
      WorksIs(w);
      var code, k := KernelOf(w).Setup(pin, |pin|);
      SetupKeeps(w, s.Bound(w), KernelOf(w).Current(), pin, Random(old(chip.rng)));
      PinDone(w, s);
      OfKernel(w);
      WorksIs(w);
      r := if code == PmdOk then PinOk else PinErr;
      if r == PinOk { BoundPin(KernelOf(w).L, KernelOf(w).Current().value, Random(old(chip.rng)), pin); }
    }

    method ResetPw1Check(pin: Material) returns (r: PinRc)
      requires Wired() && Base()
      modifies chip`rmem, chip`mad, chip`rng, pw1.rec`uncertain
      ensures Base() && PinOnly(PW1, old(S()), S()) && SettledOrNot(old(S()).Bound(PW1), S().Bound(PW1))
      ensures r == PinOk ==> LenOk(PW1, pin) && store.Lifecycle() == LC_OPERATIONAL
      ensures Older(old(S()).Rec(PW1), S().Rec(PW1), 1)
      ensures forall x: Which :: old(PinWorks(x, S())) ==> PinWorks(x, S())
      ensures old(CanReplace()) ==> (r == PinOk <==> LenOk(PW1, pin)) && !pw1.rec.uncertain
    {
      hide Base, SettledOrNot, PinOnly, PinWorks, CanReplace, StatusOf, Older;
      UnsettledIs(S().Bound(PW1));
      Untouched(PW1, S());
      OlderOne(S().Rec(PW1));
      ghost var s := S();
      ghost var can := CanReplace();
      if can { ReplaceFacts(); }
      if !LenOk(PW1, pin) { return PinBadLen; }
      if store.Lifecycle() != LC_OPERATIONAL { return PinErr; }
      var st, a, l := PinStatus(PW1);
      if can {
        SettledSame(s.Bound(PW1), S().Bound(PW1));
        BoundIsNoError(PW1, store.Lifecycle(), S().Bound(PW1));
      }
      r := if st == PinError then PinErr else PinOk;
    }

    lemma OlderOne(v: Pair)
      ensures Older(v, v, 1)
    {
    }

    lemma BoundIsNoError(w: Which, lc: nat, o: Option<Binding>)
      requires o.Some?
      ensures StatusOf(w, lc, o) != PinError
    {
    }

    method ResetPw1(pin: Material) returns (r: PinRc)
      requires Wired() && Base() && NoDec(O3()) && KernelOf(PW1).Wired()
      modifies chip`rmem, chip`mad, chip`rng, pw1.rec`uncertain, pw1`probes
      ensures Base() && PinOnly(PW1, old(S()), S())
      ensures r == PinOk ==> Is(pw1.Current(), pin)
      ensures PinKept(old(S()).Bound(PW1), S().Bound(PW1)) || Is(S().Bound(PW1), pin)
      ensures chip.calm && old(store.Lifecycle() == LC_OPERATIONAL && KernelOf(PW1).Usable()) && LenOk(PW1, pin) ==>
                r == PinOk
    {
      hide Base, PinOnly;
      OfKernel(PW1);
      Untouched(PW1, S());
      if !LenOk(PW1, pin) { return PinBadLen; }
      if store.Lifecycle() != LC_OPERATIONAL { return PinErr; }
      r := Bind(PW1, pin);
      OfKernel(PW1);
    }

    /** A write of an OPERATIONAL card's state. */
    method CommitState(next: CardState) returns (ok: bool)
      requires Wired() && Base()
      requires store.Lifecycle() == LC_OPERATIONAL ==> StateOk(next) && Permitted(Card(next), S(), chip.ecc)
      modifies chip`rmem, store`cur, store.o3`uncertain
      ensures Base() && StateOnly(old(S()), S())
      ensures ok ==> store.Usable() && store.cur == next && NoDecIn(next, O3())
      ensures !ok ==> store.cur == old(store.cur)
      ensures Older(old(O3()), O3(), 1)
      ensures chip.calm && old(store.Lifecycle() == LC_OPERATIONAL && Writable(O3())) ==> ok
    {
      hide Good, Permitted, CardInv, Sound, PairArmed, Fits, PinFine, PinWorks;
      ghost var s := S();
      ghost var p := Some(Card(next));
      O3Facts(s);
      ok := store.Commit(next);
      if chip.rmem != s.rmem { StateStep(s, S(), p); }
    }

    /** Any edit of the committed state that leaves the DEC key and the lifecycle alone. */
    method Edit(rcSet: nat, sigCount: nat) returns (ok: bool)
      requires Wired() && Base() && (rcSet <= 1 || rcSet == store.cur.rcSet) && store.Lifecycle() == LC_OPERATIONAL
      requires wrapped || sigCount >= store.cur.sigCount
      modifies chip`rmem, store`cur, store.o3`uncertain
      ensures store.cur.lifecycle == old(store.cur.lifecycle)
      ensures Base() && StateOnly(old(S()), S())
      ensures ok ==> store.Usable() && store.cur == old(store.cur).(rcSet := rcSet, sigCount := sigCount)
      ensures !ok ==> store.cur == old(store.cur)
      ensures Older(old(O3()), O3(), 1)
      ensures chip.calm && old(Writable(O3())) ==> ok
    {
      var next := store.cur.(rcSet := rcSet, sigCount := sigCount);
      EditPermitted(next);
      CurIsOk();
      hide Base, Permitted, StateOnly;
      ok := CommitState(next);
    }

    lemma CurIsOk()
      requires Wired() && Base() && store.Usable()
      ensures StateOk(store.cur)
    {
    }

    lemma EditPermitted(next: CardState)
      requires Wired() && Base() && store.Lifecycle() == LC_OPERATIONAL
      requires next.lifecycle == LC_OPERATIONAL && (next.dec == None || next.dec == store.cur.dec)
      requires wrapped || next.sigCount >= store.cur.sigCount
      ensures Permitted(Card(next), S(), chip.ecc)
    {
      hide Sound, PairArmed, Fits;
      OperationalCopies();
    }

    method ClearOne(w: Which) returns (ok: bool)
      requires Wired() && Base() && (w == RC || !HasOperational(O3()))
      modifies chip`rmem, chip`mad, chip`rng, KernelOf(w).rec`uncertain
      ensures Base() && PinOnly(w, old(S()), S())
      ensures S().Bound(w) in {old(S()).Bound(w), None}
      ensures S().Rec(w) != old(S()).Rec(w) ==> !HasOperational(O3()) || w == RC
      ensures ok ==> S().Rec(w) == Pair(Empty, Empty) && !KernelOf(w).rec.uncertain
      ensures chip.calm ==> ok
    {
      hide Good, Sound, PairArmed, Fits, HasOperational, Others, OnlyOwned, Retired;
      PinIsFine(w);
      OfKernel(w);
      ghost var s := S();
      KernelOf(w).rec.uncertain := false;
      ok := KernelOf(w).Clear();
      NoneFits(w);
      PinDone(w, s);
      OfKernel(w);
    }

    lemma NoneFits(w: Which)
      ensures Fits(w, None)
    {
    }

    /** PUT DATA D3: clear the object, then its guard; set the object, then its guard. */
    method SetRc(pin: Material) returns (r: PinRc)
      requires Wired() && Base()
      modifies chip`rmem, chip`mad, chip`rng, rc.rec`uncertain, rc`probes, store`cur, store.o3`uncertain
      ensures Base() && S().Bound(PW1) == old(S()).Bound(PW1) && S().Bound(PW3) == old(S()).Bound(PW3)
      ensures r == PinOk ==> store.Usable() && (store.cur.rcSet == 1 <==> pin != [])
      ensures r == PinOk && pin != [] ==> Is(rc.Current(), pin)
      ensures r == PinOk && pin == [] ==> rc.Current() == None
      ensures store.cur.dec == old(store.cur.dec) && store.cur.lifecycle == old(store.cur.lifecycle)
      // Whatever is cut: the RC before, none, or this one; and O3 as before but for its guard.
      ensures PinKept(old(S()).Bound(RC), S().Bound(RC)) || S().Bound(RC) == None || Is(S().Bound(RC), pin)
      ensures store.cur == old(store.cur).(rcSet := store.cur.rcSet)
      // Without faults it succeeds exactly for a fit reset code or none, whatever the old object was.
      ensures chip.calm && old(store.Lifecycle() == LC_OPERATIONAL && Room3(O3())) ==>
                (r == PinOk <==> pin == [] || LenOk(RC, pin))
    {
      hide Base, Older, Writable, Room3, PinKept, Is, BindingIn, View;
      SameKept(S().Bound(RC));
      ghost var v := O3();
      RoomForTwo(v);
      if pin != [] && !LenOk(RC, pin) { return PinBadLen; }
      if store.Lifecycle() != LC_OPERATIONAL { return PinErr; }
      var dropped := DropRc();
      if !dropped { return PinErr; }
      RoomAfter(v, O3());
      OfKernel(RC);
      if pin == [] { return PinOk; }
      BlankUsable(RC);
      r := Bind(RC, pin);
      NoneKept(S().Bound(RC));
      OfKernel(RC);
      if r != PinOk { return PinErr; }
      var ok := Edit(1, store.cur.sigCount);
      OfKernel(RC);
      r := if ok then PinOk else PinErr;
    }

    /** The object goes, then its guard. */
    method DropRc() returns (ok: bool)
      requires Wired() && Base() && store.Lifecycle() == LC_OPERATIONAL
      modifies chip`rmem, chip`mad, chip`rng, rc.rec`uncertain, store`cur, store.o3`uncertain
      ensures Base() && S().Rec(PW1) == old(S()).Rec(PW1) && S().Rec(PW3) == old(S()).Rec(PW3)
      ensures S().Bound(RC) in {old(S()).Bound(RC), None} && Older(old(O3()), O3(), 1)
      ensures store.cur == old(store.cur).(rcSet := store.cur.rcSet)
      ensures ok ==>
                && S().Rec(RC) == Pair(Empty, Empty) && S().Bound(RC) == None && !KernelOf(RC).rec.uncertain
                && store.Usable() && store.cur.rcSet == 0
      ensures chip.calm && old(Writable(O3())) ==> ok
    {
      hide Base, Older, Writable;
      OlderOne(O3());
      OfKernel(RC);
      ok := ClearOne(RC);
      OfKernel(RC);
      if !ok { return; }
      GuardIsABit();
      if store.cur.rcSet != 0 {
        ok := Edit(0, store.cur.sigCount);
        OfKernel(RC);
      }
    }

    lemma SameKept(o: Option<Binding>)
      ensures PinKept(o, o)
    {
    }

    lemma NoneKept(o: Option<Binding>)
      ensures PinKept(None, o) ==> o == None
    {
    }

    lemma RoomForTwo(v: Pair)
      ensures Room3(v) ==> Writable(v)
    {
    }

    lemma RoomAfter(v: Pair, w: Pair)
      requires Older(v, w, 1)
      ensures Room3(v) ==> Writable(w)
    {
    }

    lemma GuardIsABit()
      requires Wired() && Base() && store.Usable()
      ensures store.cur.rcSet <= 1
    {
    }

    /** The known PINs are never bound where a key could be reached with them. */
    method BindFactory() returns (r: PinRc)
      requires Wired() && Base() && NoKeys(chip.ecc) && NoDec(O3())
      modifies chip`rmem, chip`mad, chip`rng, pw1.rec`uncertain, pw1`probes, pw3.rec`uncertain, pw3`probes
      ensures Base() && O3() == old(O3()) && S().Rec(RC) == old(S()).Rec(RC)
      ensures r == PinOk ==> Is(S().Bound(PW1), FACTORY_PW1) && Is(S().Bound(PW3), FACTORY_PW3)
      ensures r == PinOk ==> PinWorks(PW1, S()) && PinWorks(PW3, S())
      ensures chip.calm && old(pw1.Usable() && pw3.Usable()) ==> r == PinOk
      ensures Reborn(old(S()), S())
    {
      hide Base, PinWorks, NoKeys, NoDec, Reborn, PinKept;
      ghost var p := pw3.rec.Now();
      ghost var s := S();
      OfKernel(PW1);
      OfKernel(PW3);
      r := Bind(PW1, FACTORY_PW1);
      OfKernel(PW1);
      OfKernel(PW3);
      OneReborn(PW1, s, S());
      if r != PinOk { return PinErr; }
      if old(pw3.Usable()) { StillUsable(p); }
      ghost var m := S();
      r := Bind(PW3, FACTORY_PW3);
      OfKernel(PW3);
      OneReborn(PW3, m, S());
      RebornTrans(s, m, S());
    }

    lemma StillUsable(p: Pair)
      requires Wired() && Base() && pw3.rec.Now() == p && !pw3.rec.uncertain
      requires if BindingIn(p).Some? then Room(p) else p == Pair(Empty, Empty)
      ensures pw3.Usable()
    {
      PinIsFine(PW3);
    }

    /** No PIN is left, and no slot opens a copied record. */
    method ClearAll() returns (ok: bool)
      requires Wired() && Base() && !HasOperational(O3())
      modifies chip`rmem, chip`mad, chip`rng, pw1.rec`uncertain, pw3.rec`uncertain, rc.rec`uncertain
      ensures Base() && O3() == old(O3())
      ensures S().Bound(PW1) in {old(S()).Bound(PW1), None} && Gone(old(S()), S())
      ensures ok ==> forall w: Which :: S().Rec(w) == Pair(Empty, Empty) && !KernelOf(w).rec.uncertain
      ensures chip.calm ==> ok
    {
      hide Base, HasOperational, Gone;
      ghost var s := S();
      OfKernel(PW1);
      ok := ClearOne(PW1);
      OneGone(PW1, s, S());
      OfKernel(PW1);
      if !ok { return; }
      ghost var m := S();
      ok := ClearOne(PW3);
      OneGone(PW3, m, S());
      GoneTrans(s, m, S());
      OfKernel(PW3);
      if !ok { return; }
      ghost var n := S();
      ok := ClearOne(RC);
      OneGone(RC, n, S());
      GoneTrans(s, n, S());
      OfKernel(RC);
    }

    // ----- lifecycle -----

    /** Keys, then the state with the DEC key, then every PIN; each step checked. */
    method Wipe() returns (ok: bool)
      requires Wired() && Base()
      modifies chip`ecc, chip`rmem, chip`mad, chip`rng, store`cur, store`loaded, store.o3`uncertain
      modifies pw1.rec`uncertain, pw3.rec`uncertain, rc.rec`uncertain
      ensures Base() && S().Bound(PW1) in {old(S()).Bound(PW1), None}
      ensures ok ==> NoKeys(chip.ecc) && O3() == Pair(Empty, Empty)
      ensures ok ==> forall w: Which :: S().Rec(w) == Pair(Empty, Empty) && !KernelOf(w).rec.uncertain
      ensures O3() != old(O3()) ==> NoKeys(chip.ecc)       // the state goes only after every key
      ensures S().Rec(PW1) != old(S()).Rec(PW1) ==> NoKeys(chip.ecc) && O3() == Pair(Empty, Empty)
      ensures store.loaded ==> old(store.loaded)
      ensures Gone(old(S()), S())
      ensures chip.calm ==> ok
    {
      hide Base, NoKeys, Gone, StateOnly;
      ghost var s := S();
      ok := EraseKeys();
      SameIsGone(s, S());
      if !ok { return; }
      ghost var m := S();
      ok := ClearState();
      StateOnlyGives(m, S());
      SameIsGone(m, S());
      GoneTrans(s, m, S());
      if !ok { return; }
      ghost var n := S();
      ok := ClearAll();
      GoneTrans(s, n, S());
    }

    method EraseKeys() returns (ok: bool)
      requires Wired() && Base()
      modifies chip`ecc
      ensures Base() && forall i :: 0 <= i < ECC_SLOTS ==> chip.ecc[i] in {old(chip.ecc[i]), NoKey}
      ensures ok ==> NoKeys(chip.ecc)
      ensures chip.calm ==> ok
    {
      hide Base;
      ok := EraseKey(SIG_SLOT);
      if !ok { return; }
      ok := EraseKey(DEC_SLOT);
      if !ok { return; }
      ok := EraseKey(AUT_SLOT);
    }

    method EraseKey(slot: nat) returns (ok: bool)
      requires Wired() && Base() && slot in {SIG_SLOT, DEC_SLOT, AUT_SLOT}
      modifies chip`ecc
      ensures Base() && chip.ecc == old(chip.ecc)[slot := chip.ecc[slot]]
      ensures chip.ecc[slot] in {old(chip.ecc[slot]), NoKey} && (ok ==> chip.ecc[slot] == NoKey)
      ensures chip.calm ==> ok
    {
      hide Good;
      ghost var s := S();
      ok := chip.EccErase(slot);
      KeyStep(s, S());
    }

    method ClearState() returns (ok: bool)
      requires Wired() && Base()
      modifies chip`rmem, store`cur, store`loaded, store.o3`uncertain
      ensures Base() && StateOnly(old(S()), S()) && !store.loaded
      ensures ok ==> O3() == Pair(Empty, Empty)
      ensures chip.calm ==> ok
    {
      hide Good, Among;
      ghost var s := S();
      O3Facts(s);
      ok := store.Clear();
      StateStep(s, S(), None);
    }

    /** The first record of a lifecycle. */
    method InitState(lc: nat) returns (ok: bool)
      requires Wired() && Base() && Permitted(Card(Defaults(lc)), S(), chip.ecc)
      modifies chip`rmem, store`cur, store`loaded, store.o3`uncertain
      ensures Base() && StateOnly(old(S()), S())
      ensures ok ==> store.Usable() && store.cur == Defaults(lc)
      ensures store.loaded <==> ok
      ensures old(NoDec(O3())) ==> NoDec(O3())
      ensures chip.calm && lc in {LC_OPERATIONAL, LC_TERMINATED} ==> ok
    {
      hide Good, Permitted;
      ghost var s := S();
      O3Facts(s);
      ok := store.Init(lc);
      StateStep(s, S(), Some(Card(Defaults(lc))));
    }

    /** O3 is read, and repaired if one copy was damaged. */
    method LoadState() returns (r: nat)
      requires Wired() && Base()
      modifies chip`rmem, store`cur, store`loaded, store.o3`uncertain
      ensures Base() && StateOnly(old(S()), S()) && Value(O3()) == old(Value(O3()))
      ensures r <= 2 && (store.loaded <==> r == 0)
      ensures r == 0 ==> store.Usable() && Value(O3()).Some? && Value(O3()).value.1 == Card(store.cur)
      ensures r == 1 ==> O3() == Pair(Empty, Empty) && old(O3()) == Pair(Empty, Empty)
      ensures chip.calm && !old(store.o3.uncertain) && old(Readable(O3())) ==> r == 0
      ensures chip.calm && !old(store.o3.uncertain) && old(O3()) == Pair(Empty, Empty) ==> r == 1
    {
      hide Good, Among;
      ghost var s := S();
      O3Facts(s);
      r := store.Load();
      StateStep(s, S(), None);
    }

    method Boot() returns (ok: bool)
      requires Wired() && Base()
      modifies chip`ecc, chip`rmem, chip`mad, chip`rng, store`cur, store`loaded, store.o3`uncertain
      modifies pw1.rec`uncertain, pw1`probes, pw3.rec`uncertain, pw3`probes, rc.rec`uncertain
      ensures Base()
      ensures ok <==> store.loaded
      ensures ok ==> store.Usable()
      // A card whose state can be read is never wiped.
      ensures old(Value(O3())).Some? ==>
                Value(O3()) == old(Value(O3())) && chip.ecc == old(chip.ecc) && S().Rec(PW1) == old(S()).Rec(PW1)
                && pw1.rec.uncertain == old(pw1.rec.uncertain) && (ok ==> Value(O3()).value.1 == Card(store.cur))
      // A bootstrap (factory PINs) needs a wipe that completed; a loaded card is left alone.
      ensures S().Bound(PW1) in {old(S()).Bound(PW1), None} || (NoKeys(chip.ecc) && NoDec(O3()))
      // Nothing but O3 changes unless there is none.
      ensures old(O3()) != Pair(Empty, Empty) ==>
                chip.ecc == old(chip.ecc) && forall w: Which :: S().Rec(w) == old(S()).Rec(w)
      ensures Reborn(old(S()), S())
      // Without faults a card that can be read, and a blank one, come up.
      ensures chip.calm && !old(store.o3.uncertain) && old(CanLoad(O3())) ==> ok
    {
      hide Base, NoKeys, NoDec, PinWorks, StateOnly, Readable, Permitted, Reborn, Gone;
      StateOnlyIs();
      ghost var s := S();
      var r := LoadState();
      StateOnlyGives(s, S());
      SameIsGone(s, S());
      GoneIsReborn(s, S());
      if r == 0 { return true; }
      if r == 2 { return false; }
      ghost var m := S();
      ok := Bootstrap();
      RebornTrans(s, m, S());
    }

    lemma StateOnlyIs()
      ensures StateOnly(S(), S())
    {
    }

    lemma StateOnlyGives(s: Snap, t: Snap)
      requires StateOnly(s, t)
      ensures t.ecc == s.ecc && forall w: Which :: t.Rec(w) == s.Rec(w)
    {
    }

    /** A card whose state is gone comes up empty: OPERATIONAL is written last, over working factory PINs. */
    method Bootstrap() returns (ok: bool)
      requires Wired() && Base() && !store.loaded
      modifies chip`ecc, chip`rmem, chip`mad, chip`rng, store`cur, store`loaded, store.o3`uncertain
      modifies pw1.rec`uncertain, pw1`probes, pw3.rec`uncertain, pw3`probes, rc.rec`uncertain
      ensures Base() && (ok <==> store.loaded) && (ok ==> store.Usable())
      ensures S().Bound(PW1) in {old(S()).Bound(PW1), None} || (NoKeys(chip.ecc) && NoDec(O3()))
      ensures Reborn(old(S()), S())
      ensures chip.calm ==> ok
    {
      hide Base, NoKeys, PinWorks, StateOnly, Permitted, Reborn, Gone;
      ghost var v := S();
      ok := Wipe();
      GoneIsReborn(v, S());
      if !ok { return; }
      BlankUsable(PW1);
      BlankUsable(PW3);
      ghost var m := S();
      var b := BindFactory();
      RebornTrans(v, m, S());
      if b != PinOk { return false; }
      DefaultsPermitted(LC_OPERATIONAL);
      ghost var s := S();
      ok := InitState(LC_OPERATIONAL);
      StateOnlyGives(s, S());
      SameIsGone(s, S());
      GoneIsReborn(s, S());
      RebornTrans(v, s, S());
    }

    lemma DefaultsPermitted(lc: nat)
      requires Wired() && Base() && NoKeys(chip.ecc)
      requires lc == LC_OPERATIONAL ==> PinWorks(PW1, S()) && PinWorks(PW3, S())
      requires lc == LC_TERMINATED ==> NoDec(O3())
      ensures Permitted(Card(Defaults(lc)), S(), chip.ecc)
    {
    }

    lemma BlankUsable(w: Which)
      requires Wired() && Base() && S().Rec(w) == Pair(Empty, Empty) && !KernelOf(w).rec.uncertain
      ensures KernelOf(w).Wired() && KernelOf(w).Usable()
    {
      OfKernel(w);
    }

    method Terminate() returns (ok: bool)
      requires Wired() && Base()
      modifies chip`ecc, chip`rmem, chip`mad, chip`rng, store`cur, store`loaded, store.o3`uncertain
      modifies pw1.rec`uncertain, pw3.rec`uncertain, rc.rec`uncertain
      ensures Base() && S().Bound(PW1) in {old(S()).Bound(PW1), None}
      ensures ok ==> NoKeys(chip.ecc) && store.Lifecycle() == LC_TERMINATED && NoDec(O3())
      ensures ok ==> forall w: Which :: S().Bound(w) == None
      ensures Gone(old(S()), S())
      ensures chip.calm ==> ok
    {
      hide Base, NoKeys, StateOnly, Permitted, Gone;
      ghost var v := S();
      ok := Wipe();
      if !ok { return; }
      DefaultsPermitted(LC_TERMINATED);
      ghost var s := S();
      ok := InitState(LC_TERMINATED);
      StateOnlyGives(s, S());
      SameIsGone(s, S());
      GoneTrans(v, s, S());
    }

    method ActivateState() returns (ok: bool)
      requires Wired() && Base() && PinWorks(PW1, S()) && PinWorks(PW3, S()) && NoKeys(chip.ecc)
      modifies chip`rmem, store`cur, store.o3`uncertain
      ensures Base() && StateOnly(old(S()), S())
      ensures ok ==> store.Usable() && store.cur == Defaults(LC_OPERATIONAL)
      ensures chip.calm && old(store.Lifecycle() == LC_TERMINATED && Writable(O3())) ==> ok
    {
      hide Good, Permitted, PinWorks, NoKeys;
      ghost var s := S();
      O3Facts(s);
      DefaultsPermitted(LC_OPERATIONAL);
      ok := store.Activate();
      if chip.rmem != s.rmem { StateStep(s, S(), Some(Card(Defaults(LC_OPERATIONAL)))); }
    }

    /** A clean TERMINATED record means that no key exists. */
    lemma TerminatedIsEmpty()
      requires Wired() && Base() && store.Lifecycle() == LC_TERMINATED
      ensures NoKeys(chip.ecc) && NoDec(O3()) && !HasOperational(O3())
    {
      hide Sound, PairArmed, Fits;
      assert IsTerminated(O3().a);
    }

    /** 0 done, 1 not TERMINATED, 2 failed. */
    method Activate() returns (r: nat)
      requires Wired() && Base()
      modifies chip`rmem, chip`mad, chip`rng, store`cur, store.o3`uncertain
      modifies pw1.rec`uncertain, pw1`probes, pw3.rec`uncertain, pw3`probes, rc.rec`uncertain
      ensures Base() && r <= 2 && (r == 1 <==> old(store.Lifecycle()) != LC_TERMINATED)
      ensures r == 0 ==>
                store.Lifecycle() == LC_OPERATIONAL && store.cur == Defaults(LC_OPERATIONAL) && NoKeys(chip.ecc)
      ensures r == 0 ==> Is(S().Bound(PW1), FACTORY_PW1) && Is(S().Bound(PW3), FACTORY_PW3) && S().Bound(RC) == None
      ensures chip.calm && old(store.Lifecycle() == LC_TERMINATED && Writable(O3())) ==> r == 0
      ensures Reborn(old(S()), S()) && (r == 1 ==> S() == old(S()) && store.cur == old(store.cur))
    {
      hide Base, NoKeys, NoDec, HasOperational, PinWorks, StateOnly, Writable, Reborn, Gone;
      ghost var v := S();
      SameIsGone(v, v);
      GoneIsReborn(v, v);
      if store.Lifecycle() != LC_TERMINATED { return 1; }
      TerminatedIsEmpty();
      var ok := ClearAll();
      GoneIsReborn(v, S());
      if !ok { return 2; }
      BlankUsable(PW1);
      BlankUsable(PW3);
      ghost var m := S();
      var b := BindFactory();
      RebornTrans(v, m, S());
      if b != PinOk { return 2; }
      ghost var s := S();
      ok := ActivateState();
      StateOnlyGives(s, S());
      SameIsGone(s, S());
      GoneIsReborn(s, S());
      RebornTrans(v, s, S());
      r := if ok then 0 else 2;
    }

    method Ensure()
      requires Wired() && Inv()
      modifies `tries, chip`ecc, chip`rmem, chip`mad, chip`rng, store`cur, store`loaded, store.o3`uncertain
      modifies pw1.rec`uncertain, pw1`probes, pw3.rec`uncertain, pw3`probes, rc.rec`uncertain
      ensures Inv()
      ensures old(store.loaded) ==>
                unchanged(this, chip, store, store.o3, pw1, pw3, rc, pw1.rec, pw3.rec, rc.rec) && S() == old(S())
      ensures old(tries) >= BOOT_TRIES && !old(store.loaded) ==> !store.loaded && chip.rmem == old(chip.rmem)
      ensures a81 == old(a81) && a82 == old(a82) && a83 == old(a83) && kek == old(kek)
      ensures old(Value(O3())).Some? ==>
                Value(O3()) == old(Value(O3())) && chip.ecc == old(chip.ecc) && S().Rec(PW1) == old(S()).Rec(PW1)
                && pw1.rec.uncertain == old(pw1.rec.uncertain)
      ensures old(O3()) != Pair(Empty, Empty) ==>
                chip.ecc == old(chip.ecc) && forall w: Which :: S().Rec(w) == old(S()).Rec(w)
      ensures Reborn(old(S()), S())
      ensures chip.calm && old(tries < BOOT_TRIES && !store.o3.uncertain && CanLoad(O3())) ==> store.loaded
      ensures old(Value(O3())).Some? && !old(store.loaded) && store.loaded ==>
                store.Usable() && old(Value(O3())).value.1 == Card(store.cur)
    {
      hide Base, Reborn, Gone;
      SameIsGone(S(), S());
      GoneIsReborn(S(), S());
      if store.loaded || tries >= BOOT_TRIES { return; }
      tries := tries + 1;
      var ok := Boot();
    }

    // ----- commands -----

    /** One PIN attempt: access for this reference alone, or none left for this PIN. */
    method TryPin(ref: nat, pin: Material) returns (r: PinRc)
      requires Wired() && Inv() && ref in {0x81, 0x82, 0x83} && (store.Lifecycle() == LC_OPERATIONAL || ref == 0x83)
      modifies `a81, `a82, `a83, `kek, chip`rmem, chip`mad, chip`rng
      modifies pw1.rec`uncertain, pw1`probes, pw3.rec`uncertain, pw3`probes
      ensures Inv() && PinOnly(PinRef(ref), old(S()), S())
      ensures r == PinOk ==>
                a81 == (old(a81) || ref == 0x81) && a82 == (old(a82) || ref == 0x82) && a83 == (old(a83) || ref == 0x83)
      ensures r != PinOk ==>
                if ref == 0x83 then a81 == old(a81) && a82 == old(a82) && !a83 else !a81 && !a82 && a83 == old(a83)
      ensures PinsKept(old(S()), S())
      // Right exactly when it is the bound PIN.
      ensures r == PinOk ==> Is(old(S()).Bound(PinRef(ref)), pin)
      ensures LenOk(PinRef(ref), pin) && old(CanTry(PinRef(ref)) && PinWorks(PinRef(ref), S())) ==>
                r == if Is(old(S()).Bound(PinRef(ref)), pin) then PinOk else PinWrong
      ensures LenOk(PinRef(ref), pin) && old(IsBlocked(PinRef(ref))) ==> r == PinBlk
    {
      hide Base, PinOnly, CanTry, IsBlocked, PinWorks, PinKept, Is;
      OfKernel(PW1);
      if ref != 0x83 {
        r := TryPw1(ref, pin);
        return;
      }
      var k;
      r, k := PinVerify(PW3, pin);
      a83 := r == PinOk;
      OneKept(PW3, old(S()), S());
      PinOnlyGives(PW3, old(S()), S());
      OfKernel(PW1);
    }

    method TryPw1(ref: nat, pin: Material) returns (r: PinRc)
      requires Wired() && Inv() && ref in {0x81, 0x82} && store.Lifecycle() == LC_OPERATIONAL
      modifies `a81, `a82, `a83, `kek, chip`rmem, chip`mad, chip`rng
      modifies pw1.rec`uncertain, pw1`probes
      ensures Inv() && PinOnly(PW1, old(S()), S()) && a83 == old(a83)
      ensures r == PinOk ==> a81 == (old(a81) || ref == 0x81) && a82 == (old(a82) || ref == 0x82)
      ensures r != PinOk ==> !a81 && !a82
      ensures r == PinOk ==> Is(old(S()).Bound(PW1), pin)
      ensures PinsKept(old(S()), S())
      ensures LenOk(PW1, pin) && old(CanTry(PW1) && PinWorks(PW1, S())) ==>
                r == if Is(old(S()).Bound(PW1), pin) then PinOk else PinWrong
      ensures LenOk(PW1, pin) && old(IsBlocked(PW1)) ==> r == PinBlk
    {
      hide Base, PinOnly, CanTry, IsBlocked, PinWorks, PinKept, Is;
      var k;
      r, k := PinVerify(PW1, pin);
      OneKept(PW1, old(S()), S());
      OfKernel(PW1);
      if r == PinOk {
        kek := Some(Kdf(k.value, KEK_USE));
        a81, a82 := a81 || ref == 0x81, a82 || ref == 0x82;
      } else {
        AuthDrop(true, true, false);
      }
    }

    lemma PinOnlyGives(w: Which, s: Snap, t: Snap)
      requires PinOnly(w, s, t)
      ensures t.O3() == s.O3() && t.ecc == s.ecc && forall x: Which :: x != w ==> t.Rec(x) == s.Rec(x)
    {
    }

    /** As TryPin, with the answer to the host. */
    method Attempt(ref: nat, pin: Material) returns (sw: Sw)
      requires Wired() && Inv() && ref in {0x81, 0x82, 0x83} && (store.Lifecycle() == LC_OPERATIONAL || ref == 0x83)
      modifies `a81, `a82, `a83, `kek, chip`rmem, chip`mad, chip`rng
      modifies pw1.rec`uncertain, pw1`probes, pw3.rec`uncertain, pw3`probes
      ensures Inv() && O3() == old(O3())
      ensures sw == SwOk ==>
                && Is(old(S()).Bound(PinRef(ref)), pin)
                && a81 == (old(a81) || ref == 0x81) && a82 == (old(a82) || ref == 0x82)
                && a83 == (old(a83) || ref == 0x83)
      ensures sw != SwOk ==>
                if ref == 0x83 then a81 == old(a81) && a82 == old(a82) && !a83 else !a81 && !a82 && a83 == old(a83)
      ensures LenOk(PinRef(ref), pin) && old(CanTry(PinRef(ref)) && PinWorks(PinRef(ref), S())) ==>
                sw == if Is(old(S()).Bound(PinRef(ref)), pin) then SwOk else SwRetries
      ensures LenOk(PinRef(ref), pin) && old(IsBlocked(PinRef(ref))) ==> sw == SwBlocked
      ensures PinsKept(old(S()), S()) && chip.ecc == old(chip.ecc)
    {
      hide Base, PinOnly, CanTry, IsBlocked, PinWorks, Is, LenOk, PinsKept;
      var r := TryPin(ref, pin);
      PinOnlyGives(PinRef(ref), old(S()), S());
      sw := PinSw(r);
      ghost var m := S();
      if sw == SwRetries {     // the X of 63CX
        var ignore := Retries(PinRef(ref));
        KeptThrough(old(S()), m, S());
      }
    }

    method HandleVerify(ref: nat, reset: bool, body: Material) returns (sw: Sw)
      requires Wired() && Inv() && (store.Lifecycle() == LC_OPERATIONAL || ref == 0x83)
      modifies `a81, `a82, `a83, `kek, chip`rmem, chip`mad, chip`rng
      modifies pw1.rec`uncertain, pw1`probes, pw3.rec`uncertain, pw3`probes
      ensures Inv() && O3() == old(O3())
      ensures sw == SwOk ==> ref in {0x81, 0x82, 0x83}
      ensures sw == SwOk ==> (if ref == 0x81 then a81 else if ref == 0x82 then a82 else a83) == !reset
      ensures sw == SwOk && reset ==> body == []
      ensures sw == SwOk && body != [] ==> Is(old(S()).Bound(PinRef(ref)), body)
      // Access comes only from the right PIN, for that reference alone.
      ensures (a81 && !old(a81) ==> ref == 0x81) && (a82 && !old(a82) ==> ref == 0x82)
      ensures (a83 && !old(a83) ==> ref == 0x83)
      ensures (a81 && !old(a81)) || (a82 && !old(a82)) || (a83 && !old(a83)) ==>
                sw == SwOk && Is(old(S()).Bound(PinRef(ref)), body)
      // Without faults and with an attempt left the right PIN is accepted, and no other.
      ensures ref in {0x81, 0x82, 0x83} && !reset && body != [] && LenOk(PinRef(ref), body)
              && old(CanTry(PinRef(ref)) && PinWorks(PinRef(ref), S()))
              ==> sw == if Is(old(S()).Bound(PinRef(ref)), body) then SwOk else SwRetries
      ensures ref in {0x81, 0x82, 0x83} && !reset && body != [] && LenOk(PinRef(ref), body)
              && old(IsBlocked(PinRef(ref)))
              ==> sw == SwBlocked
      ensures sw in {SwRetries, SwBlocked, SwError} && body != [] && !reset ==>
                if ref == 0x83 then !a83 else !a81 && !a82
      ensures PinsKept(old(S()), S()) && chip.ecc == old(chip.ecc)
    {
      SameRecsKept(S(), S());
      if ref != 0x81 && ref != 0x82 && ref != 0x83 { return SwParams; }
      hide Base, CanTry, IsBlocked, PinWorks, Is, LenOk, PinsKept;
      OfKernel(PW1);
      if reset {
        if body != [] { return SwLength; }
        AuthDrop(ref == 0x81, ref == 0x82, ref == 0x83);
        return SwOk;
      }
      if body == [] {
        if (ref == 0x81 && a81) || (ref == 0x82 && a82) || (ref == 0x83 && a83) { return SwOk; }
        var ignore := Retries(PinRef(ref));
        return SwRetries;
      }
      sw := Attempt(ref, body);
    }

    /** The attempts left, which an open session survives. */
    method Retries(w: Which) returns (attempts: nat)
      requires Wired() && Inv()
      modifies chip`rmem, chip`mad, chip`rng, KernelOf(w).rec`uncertain
      ensures Inv() && O3() == old(O3()) && PinsKept(old(S()), S()) && chip.ecc == old(chip.ecc)
    {
      OfKernel(PW1);
      hide Base, PinOnly, SettledOrNot, PinKept;
      ghost var s := S();
      var st, len;
      st, attempts, len := PinStatus(w);
      PinOnlyGives(w, s, S());
      OfKernel(PW1);
      SettledIsKept(s.Bound(w), S().Bound(w));
      OneKept(w, s, S());
      if w == PW1 { SettledSame(s.Bound(PW1), S().Bound(PW1)); }
    }

    lemma SettledSame(o: Option<Binding>, o': Option<Binding>)
      requires SettledOrNot(o, o')
      ensures o.Some? <==> o'.Some?
      ensures o.Some? ==>
                SameBinding(o.value, o'.value) && SecretOf(o'.value) == SecretOf(o.value)
                  && PinOf(o'.value) == PinOf(o.value)
                && o'.value.next == o.value.next
    {
    }

    /** Body = old PIN then new PIN, split at the length in the binding. */
    method HandleChange(ref: nat, body: Material) returns (sw: Sw)
      requires Wired() && Inv()
      modifies `a81, `a82, `a83, `kek, chip`rmem, chip`mad, chip`rng
      modifies pw1.rec`uncertain, pw1`probes, pw3.rec`uncertain, pw3`probes
      ensures Inv() && O3() == old(O3()) && chip.ecc == old(chip.ecc)
      // Cut anywhere: the old PIN or the new one, under the same secret.
      ensures ChangedOrNot(old(S()).Bound(PW1), S().Bound(PW1), body)
      ensures ChangedOrNot(old(S()).Bound(PW3), S().Bound(PW3), body)
      ensures Older(old(S()).Rec(PW1), S().Rec(PW1), 7)
      ensures sw == SwOk ==>
                && ref in {0x81, 0x83} && old(S()).Bound(PinRef(ref)).Some? && S().Bound(PinRef(ref)).Some?
                && body == PinOf(old(S()).Bound(PinRef(ref)).value) + PinOf(S().Bound(PinRef(ref)).value)
                && (if ref == 0x81 then !a81 && !a82 && a83 == old(a83) else !a83 && a81 == old(a81) && a82 == old(a82))
      ensures forall w: Which :: ref !in {0x81, 0x83} || w != PinRef(ref) ==>
                PinKept(old(S()).Bound(w), S().Bound(w))
      ensures a81 ==> old(a81)
      ensures a82 ==> old(a82)
      ensures a83 ==> old(a83)
      // Without faults and with an attempt left it succeeds exactly for the bound PIN with a fit one behind it.
      ensures ref in {0x81, 0x83} && old(Able(PinRef(ref))) ==>
                (sw == SwOk <==> Follows(old(S()).Bound(PinRef(ref)), PinRef(ref), body))
    {
      hide Base, PinOnly, ChangedOrNot, Older, Able, Follows;
      ghost var s := S();
      OfKernel(PW1);
      UnchangedIs(PW1, s, body);
      UnchangedIs(PW3, s, body);
      OlderSelf(s.Rec(PW1));
      if ref != 0x81 && ref != 0x83 { return SwParams; }
      sw := SplitAndChange(PinRef(ref), body);
      PinOnlyGives(PinRef(ref), s, S());
      OfKernel(PW1);
      KeptSecret(s.Bound(PW1), S().Bound(PW1), body);
    }

    method SplitAndChange(w: Which, body: Material) returns (sw: Sw)
      requires Wired() && Base() && w != RC
      modifies `a81, `a82, `a83, `kek, chip`rmem, chip`mad, chip`rng, KernelOf(w).rec`uncertain, KernelOf(w)`probes
      ensures Base() && PinOnly(w, old(S()), S())
      ensures ChangedOrNot(old(S()).Bound(w), S().Bound(w), body) && Older(old(S()).Rec(w), S().Rec(w), 7)
      ensures sw == SwOk ==>
                && old(S()).Bound(w).Some? && S().Bound(w).Some?
                && body == PinOf(old(S()).Bound(w).value) + PinOf(S().Bound(w).value)
                && (if w == PW1 then !a81 && !a82 else !a83)
      ensures a81 == old(a81) || (w == PW1 && !a81)
      ensures a82 == old(a82) || (w == PW1 && !a82)
      ensures a83 == old(a83) || (w == PW3 && !a83)
      ensures kek == (if a81 || a82 then old(kek) else None) || (kek == old(kek) && a81 == old(a81) && a82 == old(a82))
      ensures old(Able(w)) ==> (sw == SwOk <==> Follows(old(S()).Bound(w), w, body))
    {
      hide Base, PinOnly, SettledOrNot, ChangedOrNot, Older, CanTry, PinWorks, Room10, Follows, LenOk, Able;
      hide KernelOf(w).Usable, BindingIn, View, LayoutOf, PlaceOf;
      ghost var s := S();
      var oldLen;
      sw, oldLen := OldLength(w, body);
      ghost var m := S();
      SettledChange(s.Bound(w), m.Bound(w), body);
      OlderMore(s.Rec(w), m.Rec(w));
      if sw != SwOk { return; }
      AuthDrop(w == PW1, w == PW1, w == PW3);
      var r := PinChange(w, body[..oldLen], body[oldLen..]);
      SettledSame(s.Bound(w), m.Bound(w));
      SplitDone(w, s, m, S(), body, oldLen);
      sw := PinSw(r);
    }

    /** How long the old PIN in front of the new one is, if it can be tried. */
    method OldLength(w: Which, body: Material) returns (sw: Sw, oldLen: nat)
      requires Wired() && Base() && w != RC
      modifies chip`rmem, chip`mad, chip`rng, KernelOf(w).rec`uncertain
      ensures Base() && PinOnly(w, old(S()), S()) && KernelOf(w).Wired()
      ensures SettledOrNot(old(S()).Bound(w), S().Bound(w)) && Older(old(S()).Rec(w), S().Rec(w), 1)
      ensures sw == SwOk ==> S().Bound(w).Some? && oldLen < |body|
      ensures old(Able(w)) ==>
                && CanTry(w) && PinWorks(w, S()) && Room10(S().Rec(w))
                && (if sw != SwOk then !Follows(old(S()).Bound(w), w, body)
                    else
                      && LenOk(w, body[..oldLen])
                      && (Follows(old(S()).Bound(w), w, body) <==>
                            Is(S().Bound(w), body[..oldLen]) && LenOk(w, body[oldLen..])))
    {
      hide Base, PinOnly, SettledOrNot, Older, CanTry, PinWorks, Spare, Room10, Follows, LenOk, Is;
      hide KernelOf(w).Usable, StatusOf, SameBinding, BindingIn, View, LayoutOf, PlaceOf;
      ghost var s := S();
      ghost var able := Able(w);
      if able { AbleFacts(w); }
      var st, attempts;
      st, attempts, oldLen := PinStatus(w);
      if able { StillAble(w, w, s, body); }
      if st == PinBlocked { return SwBlocked, oldLen; }
      if st != PinActive { return SwError, oldLen; }
      if |body| <= oldLen { return SwLength, oldLen; }
      sw := SwOk;
    }

    lemma SplitDone(w: Which, s: Snap, m: Snap, t: Snap, body: Material, n: nat)
      requires n <= |body| && SettledOrNot(s.Bound(w), m.Bound(w)) && Older(s.Rec(w), m.Rec(w), 1) && PinOnly(w, s, m)
      requires ChangedOrNot(m.Bound(w), t.Bound(w), body[..n] + body[n..]) && Older(m.Rec(w), t.Rec(w), 6)
      requires PinOnly(w, m, t)
      ensures ChangedOrNot(s.Bound(w), t.Bound(w), body) && Older(s.Rec(w), t.Rec(w), 7) && PinOnly(w, s, t)
      ensures body == body[..n] + body[n..]
    {
      hide SettledOrNot, ChangedOrNot, Older, PinOnly;
      assert body == body[..n] + body[n..];
      ChangeSince(s.Bound(w), m.Bound(w), t.Bound(w), body);
      OlderTrans(s.Rec(w), m.Rec(w), t.Rec(w));
      PinOnlyTrans(w, s, m, t);
    }

    lemma PinOnlyTrans(w: Which, s: Snap, m: Snap, t: Snap)
      requires PinOnly(w, s, m) && PinOnly(w, m, t)
      ensures PinOnly(w, s, t)
    {
    }

    lemma OlderMore(u: Pair, v: Pair)
      requires Older(u, v, 1)
      ensures Older(u, v, 7)
    {
    }

    lemma KeptSecret(o: Option<Binding>, o': Option<Binding>, body: Material)
      requires ChangedOrNot(o, o', body)
      ensures o.Some? ==> o'.Some? && SecretOf(o'.value) == SecretOf(o.value)
    {
    }

    lemma OlderSelf(v: Pair)
      ensures Older(v, v, 7)
    {
    }

    lemma OlderTrans(u: Pair, v: Pair, w: Pair)
      requires Older(u, v, 1) && Older(v, w, 6)
      ensures Older(u, w, 7)
    {
    }

    lemma SettledChange(o: Option<Binding>, o': Option<Binding>, body: Material)
      requires SettledOrNot(o, o')
      ensures ChangedOrNot(o, o', body)
    {
    }

    lemma ChangeSince(o: Option<Binding>, m: Option<Binding>, o': Option<Binding>, body: Material)
      requires SettledOrNot(o, m) && ChangedOrNot(m, o', body)
      ensures ChangedOrNot(o, o', body)
    {
    }

    /** A new PW1 by the reset code or by PW3: the DEC key goes first. */
    method HandleReset(byRc: bool, body: Material) returns (sw: Sw)
      requires Wired() && Inv()
      modifies `a81, `a82, `a83, `kek, chip`rmem, chip`mad, chip`rng, store`cur, store.o3`uncertain
      modifies pw1.rec`uncertain, pw1`probes, rc.rec`uncertain, rc`probes
      ensures store.cur.lifecycle == old(store.cur.lifecycle) && a83 == old(a83)
      ensures Inv()
      ensures sw == SwOk ==> NoDec(O3()) && store.cur == WithoutDec(store.cur) && S().Bound(PW1).Some? && !a81 && !a82
      // The new PIN behind the right reset code, or alone under a verified PW3.
      ensures sw == SwOk ==>
                if byRc then
                  old(S()).Bound(RC).Some? && body == PinOf(old(S()).Bound(RC).value) + PinOf(S().Bound(PW1).value)
                else old(a83) && body == PinOf(S().Bound(PW1).value)
      // Whatever was cut: PW1 has a new secret only if no DEC key is left.
      ensures SecretKept(old(S()).Bound(PW1), S().Bound(PW1)) || NoDec(O3())
      // And it is the one before, or the one that the body gave with the right to.
      ensures PinKept(old(S()).Bound(PW1), S().Bound(PW1)) || ResetTo(byRc, body, old(a83), old(S()), S())
      ensures PinKept(old(S()).Bound(PW3), S().Bound(PW3)) && PinKept(old(S()).Bound(RC), S().Bound(RC))
      ensures chip.ecc == old(chip.ecc) && store.cur in {old(store.cur), WithoutDec(old(store.cur))}
      ensures (a81 ==> old(a81)) && (a82 ==> old(a82))
      // Without faults it succeeds exactly for a fit PIN, behind the bound reset code or under a verified PW3.
      ensures !byRc && old(Steady()) ==> (sw == SwOk <==> old(a83) && LenOk(PW1, body))
      ensures byRc && old(Steady() && Able(RC) && Guarded(RC)) ==>
                (sw == SwOk <==> Follows(old(S()).Bound(RC), PW1, body))
    {
      hide Base, SecretKept, Steady, Able, CanReplace, Follows, NoDec, LenOk, PinKept;
      SameRecsKept(S(), S());
      KeptFrom(S().Bound(PW1));
      var pin := body;
      ghost var s := S();
      if byRc {
        sw, pin := CheckRc(body);
        if sw != SwOk { return; }
      } else {
        if !a83 { return SwSecurity; }
        var c := CheckNew(pin);
        if c != PinOk { return PinSw(c); }
      }
      ghost var m := S();
      sw := ReplacePw1(pin);
      KeptOrGiven(s.Bound(PW1), m.Bound(PW1), S().Bound(PW1), pin);
      if SecretKept(m.Bound(PW1), S().Bound(PW1)) { KeptTrans(s.Bound(PW1), m.Bound(PW1), S().Bound(PW1)); }
    }

    lemma KeptOrGiven(o: Option<Binding>, m: Option<Binding>, o': Option<Binding>, pin: Material)
      requires PinKept(o, m) && (PinKept(m, o') || Is(o', pin))
      ensures PinKept(o, o') || Is(o', pin)
    {
    }

    lemma KeptFrom(o: Option<Binding>)
      ensures SecretKept(o, o)
    {
    }

    lemma KeptTrans(o: Option<Binding>, m: Option<Binding>, o': Option<Binding>)
      requires SecretKept(o, m) && SecretKept(m, o')
      ensures SecretKept(o, o')
    {
    }

    /** Whether a new PW1 could be set at all, with the session open. */
    method CheckNew(pin: Material) returns (r: PinRc)
      requires Wired() && Inv()
      modifies chip`rmem, chip`mad, chip`rng, pw1.rec`uncertain
      ensures Inv() && O3() == old(O3()) && SecretKept(old(S()).Bound(PW1), S().Bound(PW1))
      ensures S().Rec(RC) == old(S()).Rec(RC) && PinsKept(old(S()), S()) && chip.ecc == old(chip.ecc)
      ensures r == PinOk ==> LenOk(PW1, pin) && store.Lifecycle() == LC_OPERATIONAL
      ensures forall x: Which :: old(PinWorks(x, S())) ==> PinWorks(x, S())
      ensures old(Steady()) ==> (r == PinOk <==> LenOk(PW1, pin)) && CanReplace()
    {
      hide Base, PinOnly, SettledOrNot, PinWorks, CanReplace, Spare, Writable, Older;
      ghost var s := S();
      ghost var steady := Steady();
      if steady { ReplaceFacts(); }
      OfKernel(PW1);
      r := ResetPw1Check(pin);
      PinOnlyGives(PW1, s, S());
      OfKernel(PW1);
      if steady { StillReplaceable(s); }
      SettledSame(s.Bound(PW1), S().Bound(PW1));
      SettledIsKept(s.Bound(PW1), S().Bound(PW1));
      OneKept(PW1, s, S());
    }

    /** How long the RC in front of the new PIN is, if there is one to try. */
    method RcLength(body: Material) returns (sw: Sw, rcLen: nat)
      requires Wired() && Inv()
      modifies chip`rmem, chip`mad, chip`rng, rc.rec`uncertain
      ensures Inv() && PinOnly(RC, old(S()), S()) && KernelOf(RC).Wired()
      ensures SettledOrNot(old(S()).Bound(RC), S().Bound(RC)) && Older(old(S()).Rec(RC), S().Rec(RC), 1)
      ensures sw == SwOk ==>
                && S().Bound(RC).Some? && rcLen == S().Bound(RC).value.pinLen && rcLen <= |body|
                && LenOk(PW1, body[rcLen..])
      ensures forall x: Which :: old(PinWorks(x, S())) ==> PinWorks(x, S())
      ensures old(Steady() && Able(RC) && Guarded(RC)) ==>
                Steady() && !rc.rec.uncertain && (sw != SwOk ==> !Follows(old(S()).Bound(RC), PW1, body))
    {
      hide Base, PinOnly, SettledOrNot, PinWorks, CanReplace, Spare, Writable, Older, Follows, CanTry, Room10, Room;
      hide SameBinding, Is, BindingIn, View, SecretOf, LayoutOf;
      ghost var s := S();
      ghost var sure := Steady() && Able(RC) && Guarded(RC);
      if sure {
        ReplaceFacts();
        AbleFacts(RC);
      }
      OfKernel(PW1);
      OfKernel(RC);
      var st, attempts;
      st, attempts, rcLen := PinStatus(RC);
      PinOnlyGives(RC, s, S());
      OfKernel(PW1);
      if sure {
        StillAble(RC, PW1, s, body);
        StillReplaceable(s);
      }
      if st == PinNotSet { return SwConditions, rcLen; }
      if st == PinBlocked { return SwBlocked, rcLen; }
      if st != PinActive { return SwError, rcLen; }
      if |body| < rcLen + PW1_MIN || |body| - rcLen > PIN_MAX { return SwLength, rcLen; }
      return SwOk, rcLen;
    }

    /** The RC in front of the new PIN: checked, and one attempt of it spent, before anything is given up. */
    method CheckRc(body: Material) returns (sw: Sw, pin: Material)
      requires Wired() && Inv()
      modifies chip`rmem, chip`mad, chip`rng
      modifies pw1.rec`uncertain, rc.rec`uncertain, rc`probes
      ensures Inv() && SecretKept(old(S()).Bound(PW1), S().Bound(PW1))
      ensures PinsKept(old(S()), S()) && chip.ecc == old(chip.ecc)
      ensures sw == SwOk ==> old(S()).Bound(RC).Some? && body == PinOf(old(S()).Bound(RC).value) + pin
      ensures sw == SwOk ==> LenOk(PW1, pin)
      ensures old(Steady() && Able(RC) && Guarded(RC)) ==>
                (sw == SwOk <==> Follows(old(S()).Bound(RC), PW1, body)) && (sw == SwOk ==> CanReplace())
    {
      hide Base, Session, PinOnly, SettledOrNot, SecretKept, PinWorks, Steady, CanReplace, Spare, Older, Follows;
      hide CanTry, Room10, SameBinding, BindingIn, View, PinsKept;
      pin := body;
      ghost var s := S();
      ghost var sure := Steady() && Able(RC) && Guarded(RC);
      if sure { AbleFacts(RC); }
      KeptFrom(s.Bound(PW1));
      var rcLen;
      sw, rcLen := RcLength(body);
      PinOnlyGives(RC, s, S());
      SettledSame(s.Bound(RC), S().Bound(RC));
      SettledIsKept(s.Bound(RC), S().Bound(RC));
      OneKept(RC, s, S());
      if sw != SwOk { return; }
      if sure { StillAble(RC, PW1, s, body); }
      pin := body[rcLen..];
      assert body == body[..rcLen] + pin;
      ghost var m := S();
      sw := CheckThenTry(pin, body[..rcLen]);
      KeptThrough(s, m, S());
    }

    method CheckThenTry(pin: Material, rcPin: Material) returns (sw: Sw)
      requires Wired() && Inv()
      modifies chip`rmem, chip`mad, chip`rng
      modifies pw1.rec`uncertain, rc.rec`uncertain, rc`probes
      ensures Inv() && SecretKept(old(S()).Bound(PW1), S().Bound(PW1))
      ensures PinsKept(old(S()), S()) && chip.ecc == old(chip.ecc)
      ensures sw == SwOk ==> Is(old(S()).Bound(RC), rcPin) && LenOk(PW1, pin)
      ensures old(Steady() && CanTry(RC) && PinWorks(RC, S()) && Guarded(RC)) && LenOk(RC, rcPin) ==>
                (sw == SwOk <==> Is(old(S()).Bound(RC), rcPin) && LenOk(PW1, pin)) && (sw == SwOk ==> CanReplace())
    {
      hide Base, Session, PinOnly, SecretKept, PinWorks, Steady, CanReplace, CanTry, LenOk, Is, Room, BindingIn, View;
      hide PinsKept;
      ghost var s := S();
      if CanTry(RC) { TryFacts(RC); }
      ghost var can := CanTry(RC);
      var c := CheckNew(pin);
      if c != PinOk { return PinSw(c); }
      ghost var m := S();
      if can { TryElsewhere(RC, s); }
      sw := TryRc(rcPin);
      PinOnlyGives(RC, m, S());
      KeptThrough(s, m, S());
    }

    /** What others do leaves an attempt possible. */
    lemma TryElsewhere(w: Which, s: Snap)
      requires Wired() && Base() && chip.calm && !KernelOf(w).rec.uncertain && S().Rec(w) == s.Rec(w)
      requires s.Bound(w).Some? && s.Bound(w).value.next < LayoutOf(w).rounds && Room(s.Rec(w))
      ensures CanTry(w)
    {
      hide Sound, PairArmed, Fits, Good;
      OfKernel(w);
      PinIsFine(w);
    }

    method TryRc(rcPin: Material) returns (sw: Sw)
      requires Wired() && Inv()
      modifies chip`rmem, chip`mad, chip`rng, rc.rec`uncertain, rc`probes
      ensures Inv() && PinOnly(RC, old(S()), S())
      ensures sw == SwOk ==> Is(old(S()).Bound(RC), rcPin)
      ensures PinsKept(old(S()), S())
      ensures LenOk(RC, rcPin) && Guarded(RC) && old(CanTry(RC) && PinWorks(RC, S())) ==>
                (sw == SwOk <==> Is(old(S()).Bound(RC), rcPin))
      ensures old(CanReplace()) ==> CanReplace()
    {
      hide Base, PinOnly, VerifyStep, PinWorks, CanReplace, Writable, Older, CanTry, Room, Is, LenOk, Guarded;
      ghost var s := S();
      ghost var can := CanReplace();
      if can { ReplaceFacts(); }
      OfKernel(PW1);
      var r, k := PinVerify(RC, rcPin);
      PinOnlyGives(RC, s, S());
      OneKept(RC, s, S());
      OfKernel(PW1);
      if can { StillReplaceable(s); }
      sw := PinSw(r);
    }

    /** The DEC key goes before the new PIN comes. */
    method ReplacePw1(pin: Material) returns (sw: Sw)
      requires Wired() && Inv()
      modifies `a81, `a82, `a83, `kek, chip`rmem, chip`mad, chip`rng, store`cur, store.o3`uncertain
      modifies pw1.rec`uncertain, pw1`probes
      ensures store.cur.lifecycle == old(store.cur.lifecycle) && a83 == old(a83)
      ensures Inv()
      ensures sw == SwOk ==> NoDec(O3()) && store.cur == WithoutDec(store.cur) && Is(S().Bound(PW1), pin)
      ensures sw == SwOk ==> !a81 && !a82
      ensures SecretKept(old(S()).Bound(PW1), S().Bound(PW1)) || NoDec(O3())
      ensures PinKept(old(S()).Bound(PW1), S().Bound(PW1)) || Is(S().Bound(PW1), pin)
      ensures S().Rec(PW3) == old(S()).Rec(PW3) && S().Rec(RC) == old(S()).Rec(RC) && chip.ecc == old(chip.ecc)
      ensures store.cur in {old(store.cur), WithoutDec(old(store.cur))} && !a81 && !a82
      ensures old(CanReplace()) && LenOk(PW1, pin) ==> sw == SwOk
    {
      hide Base, SecretKept, StateOnly, PinOnly, NoDec, CanReplace, Writable, Room, BindingIn, View, LayoutOf;
      ghost var s := S();
      ghost var can := CanReplace();
      if can { ReplaceFacts(); }
      KeptFrom(s.Bound(PW1));
      AuthDrop(true, true, false);
      var gone := DestroyDec();
      StateOnlyGives(s, S());
      if !gone { return SwError; }
      ghost var m := S();
      OfKernel(PW1);
      if can { PinStillUsable(s); }
      var r := ResetPw1(pin);
      PinOnlyGives(PW1, m, S());
      OfKernel(PW1);
      sw := PinSw(r);
    }

    lemma PinStillUsable(s: Snap)
      requires Wired() && Base() && !pw1.rec.uncertain && S().Rec(PW1) == s.Rec(PW1) && Room(s.Rec(PW1))
      requires s.Bound(PW1).Some?
      ensures KernelOf(PW1).Wired() && KernelOf(PW1).Usable()
    {
      hide Sound, PairArmed, Fits, Good;
      OfKernel(PW1);
      PinIsFine(PW1);
    }

    method DestroyDec() returns (ok: bool)
      requires Wired() && Base()
      modifies chip`rmem, store`cur, store.o3`uncertain
      ensures store.cur.lifecycle == old(store.cur.lifecycle)
      ensures Base() && StateOnly(old(S()), S())
      ensures ok ==> NoDec(O3()) && store.cur == WithoutDec(old(store.cur)) && store.Usable()
      ensures !ok ==> store.cur == old(store.cur)
      ensures chip.calm && old(store.Lifecycle() == LC_OPERATIONAL && Writable(O3())) ==> ok
    {
      hide Good, Permitted, NoDec;
      ghost var s := S();
      ghost var next := WithoutDec(store.cur);
      O3Facts(s);
      if store.Lifecycle() == LC_OPERATIONAL { EditPermitted(next); }
      ok := store.DecDestroy();
      if chip.rmem != s.rmem { StateStep(s, S(), Some(Card(next))); }
    }

    /** X25519 key: drawn, sealed under the session's KEK, committed in O3. */
    method GenerateDec() returns (sw: Sw)
      requires Wired() && Inv()
      modifies `a81, `a82, `a83, `kek, chip`rmem, chip`rng, store`cur, store.o3`uncertain
      ensures store.cur.lifecycle == old(store.cur.lifecycle) && a83 == old(a83)
      ensures Inv() && S().Bound(PW1) == old(S()).Bound(PW1)
      ensures sw == SwOk ==>
                && old(a83) && (old(a81) || old(a82)) && S().Bound(PW1).Some?
                && store.cur.dec == Some(Wrap(Kek(SecretOf(S().Bound(PW1).value)), old(chip.rng)))
      ensures sw != SwOk && sw != SwSecurity ==> !a81 && !a82
      ensures (a81 ==> old(a81)) && (a82 ==> old(a82)) && forall w: Which :: S().Rec(w) == old(S()).Rec(w)
      ensures store.cur == old(store.cur).(dec := store.cur.dec)
      ensures store.cur != old(store.cur) ==> old(a83) && (old(a81) || old(a82))
      // Without faults a key is stored exactly with both accesses.
      ensures chip.calm && old(store.Lifecycle() == LC_OPERATIONAL && Writable(O3())) ==>
                (sw == SwOk <==> old(a83) && (old(a81) || old(a82)))
    {
      hide Base, Writable;
      if !a83 { return SwSecurity; }
      if !a81 && !a82 { return SwSecurity; }
      OfKernel(PW1);
      var ok := SealAndStore(kek.value);
      OfKernel(PW1);
      if !ok {
        AuthDrop(true, true, false);
        return SwError;
      }
      sw := SwOk;
    }

    method SealAndStore(key: Term) returns (ok: bool)
      requires Wired() && Base() && (S().Bound(PW1).Some? ==> key == Kek(SecretOf(S().Bound(PW1).value)))
      modifies chip`rmem, chip`rng, store`cur, store.o3`uncertain
      ensures store.cur.lifecycle == old(store.cur.lifecycle)
      ensures Base() && forall w: Which :: S().Rec(w) == old(S()).Rec(w)
      ensures ok ==> store.cur.dec == Some(Wrap(key, old(chip.rng)))
      ensures store.cur == old(store.cur).(dec := store.cur.dec)
      ensures chip.calm && old(store.Lifecycle() == LC_OPERATIONAL && Writable(O3())) ==> ok
    {
      hide Base, Permitted, StateOnly, Writable;
      ghost var s := S();
      var got, priv := Draw();
      if !got { return false; }
      var next := store.cur.(dec := Some(Wrap(key, priv)));
      if store.Usable() { CurIsOk(); }
      if store.Lifecycle() == LC_OPERATIONAL { SealPermitted(next); }
      ghost var m := S();
      ok := CommitState(next);
      StateOnlyGives(m, S());
    }

    method Draw() returns (got: bool, n: nat)
      requires Wired() && Base()
      modifies chip`rng
      ensures Base() && (got ==> n == old(chip.rng)) && (chip.calm ==> got)
      ensures forall w: Which :: S().Rec(w) == old(S()).Rec(w)
    {
      hide Good;
      ghost var s := S();
      var t;
      got, t := chip.RandomTerm();
      n := if t.Random? then t.n else 0;
      KeyStep(s, S());
    }

    lemma SealPermitted(next: CardState)
      requires Wired() && Base() && store.Lifecycle() == LC_OPERATIONAL && next.lifecycle == LC_OPERATIONAL
      requires next.dec.Some? && next.sigCount == store.cur.sigCount
      requires S().Bound(PW1).Some? ==> next.dec.value.kek == Kek(SecretOf(S().Bound(PW1).value))
      ensures Permitted(Card(next), S(), chip.ecc)
    {
      hide Sound, PairArmed, Fits;
      OperationalCopies();
    }

    /** Ed25519 key on the chip, for signature or authentication. */
    method GenerateEcc(slot: nat) returns (sw: Sw)
      requires Wired() && Inv() && slot in {SIG_SLOT, AUT_SLOT} && store.Lifecycle() == LC_OPERATIONAL
      modifies chip`ecc, chip`rng
      ensures Inv()
      ensures sw == SwOk ==> a83 && chip.ecc[slot].Key? && chip.ecc[slot].id >= old(chip.rng)
      ensures forall i :: 0 <= i < ECC_SLOTS && chip.ecc[i] != old(chip.ecc[i]) ==> i == slot && a83
      ensures chip.calm && a83 ==> sw == SwOk
    {
      if !a83 { return SwSecurity; }
      hide Base;
      var ok := RenewKey(slot);
      sw := if ok then SwOk else SwError;
    }

    method RenewKey(slot: nat) returns (ok: bool)
      requires Wired() && Base() && slot in {SIG_SLOT, AUT_SLOT} && store.Lifecycle() == LC_OPERATIONAL
      modifies chip`ecc, chip`rng
      ensures Base() && chip.ecc == old(chip.ecc)[slot := chip.ecc[slot]]
      ensures ok ==> chip.ecc[slot].Key? && chip.ecc[slot].id >= old(chip.rng)
      ensures chip.calm ==> ok
    {
      hide Base;
      ok := EraseKey(slot);
      if !ok { return; }
      ok := MakeKey(slot);
      if !ok { return; }
      ok := chip.EccHasKey(slot);
    }

    method MakeKey(slot: nat) returns (ok: bool)
      requires Wired() && Base() && slot in {SIG_SLOT, AUT_SLOT} && store.Lifecycle() == LC_OPERATIONAL
      modifies chip`ecc, chip`rng
      ensures Base() && chip.ecc == old(chip.ecc)[slot := chip.ecc[slot]]
      ensures ok ==> chip.ecc[slot] == Key(old(chip.rng))
      ensures chip.calm && old(chip.ecc[slot]) == NoKey ==> ok
    {
      OperationalCopies();
      hide Good;
      ghost var s := S();
      ok := chip.EccGenerate(slot);
      KeyStep(s, S());
    }

    /** PSO:DEC.  A wrap that does not open ends the PW1 session; it cannot happen. */
    method PsoDec(peer: nat, touched: bool) returns (sw: Sw, shared: Option<Shared>)
      requires Wired()
      modifies `a81, `a82, `a83, `kek
      ensures old(Inv()) ==> Inv()
      ensures shared.Some? ==> sw == SwOk && old(a82)
      ensures old(Inv()) ==>
                sw == if !old(a82) || !touched then SwSecurity
                      else if store.Usable() && store.cur.dec.Some? then SwOk else SwNoKey
      ensures sw == SwOk ==> store.cur.dec.Some? && shared == Some(Shared(store.cur.dec.value.priv, peer))
      ensures old(Inv()) ==> a81 == old(a81) && a82 == old(a82)
      ensures a83 == old(a83)
    {
      shared := None;
      if !a82 { return SwSecurity, None; }
      if !touched { return SwSecurity, None; }
      if !store.Usable() || store.cur.dec == None { return SwNoKey, None; }
      var wrap := store.cur.dec.value;
      if old(Inv()) { WrapOpens(); }
      if kek == Some(wrap.kek) { return SwOk, Some(Shared(wrap.priv, peer)); }
      AuthDrop(true, true, false);
      sw := SwError;
    }

    lemma WrapOpens()
      requires Wired() && Inv() && a82 && store.Usable() && store.cur.dec.Some?
      ensures kek == Some(store.cur.dec.value.kek)
    {
      hide Sound, PairArmed, Fits;
      assert HasDec(O3().a);
    }

    /** PSO:CDS: the counter is committed before the chip signs. */
    method PsoCds(body: Material, touched: bool, multi: bool) returns (sw: Sw, sig: Option<Signature>)
      requires Wired() && Inv() && store.Lifecycle() == LC_OPERATIONAL
      modifies `a81, `a82, `a83, `kek, `wrapped, chip`rmem, chip`signed, store`cur, store.o3`uncertain
      ensures store.cur.lifecycle == old(store.cur.lifecycle)
      ensures Inv()
      ensures sig.Some? <==> sw == SwOk
      ensures sig.Some? ==> chip.ecc[SIG_SLOT].Key? && sig == Some(Signature(chip.ecc[SIG_SLOT].id, body))
      ensures sig.Some? ==> chip.signed == OneMore(old(chip.signed), sig.value.key)
      // No signature, not even one whose answer is lost, without access, touch and a counter that both copies hold.
      ensures chip.signed != old(chip.signed) || sw == SwOk ==>
                && old(a81) && touched && body != [] && store.Usable()
                && store.cur == old(store.cur).(sigCount := (old(store.cur.sigCount) + 1) % SIG_COUNTS)
      ensures wrapped == old(wrapped) || old(store.cur.sigCount) + 1 >= SIG_COUNTS
      ensures forall w: Which :: S().Rec(w) == old(S()).Rec(w)
      ensures store.cur == old(store.cur).(sigCount := store.cur.sigCount)
      // With DO C4 at 00 one verification covers one signature.
      ensures a81 == (old(a81) && multi) && a82 == old(a82) && a83 == old(a83)
      ensures sw == SwSecurity ==> store.cur == old(store.cur) && chip.rmem == old(chip.rmem)
      // Without faults a signature is made exactly with access, touch, a message and a key.
      ensures chip.calm && old(Writable(O3())) ==>
                (sw == SwOk <==> old(a81) && touched && body != [] && chip.ecc[SIG_SLOT].Key?)
    {
      hide Base, Writable, BindingIn, View, LayoutOf, PlaceOf, SecretOf, OneMore;
      OfKernel(PW1);
      if !a81 { return SwSecurity, None; }
      if !multi { AuthDrop(true, false, false); }
      if !touched { return SwSecurity, None; }
      if body == [] { return SwLength, None; }
      sw, sig := CountAndSign(body);
      OfKernel(PW1);
    }

    method CountAndSign(body: Material) returns (sw: Sw, sig: Option<Signature>)
      requires Wired() && Base() && store.Lifecycle() == LC_OPERATIONAL
      modifies `wrapped, chip`rmem, chip`signed, store`cur, store.o3`uncertain
      ensures Base() && forall w: Which :: S().Rec(w) == old(S()).Rec(w)
      ensures store.cur.lifecycle == old(store.cur.lifecycle)
      ensures (sig.Some? <==> sw == SwOk) && sw in {SwOk, SwError}
      ensures sig.Some? ==> chip.ecc[SIG_SLOT].Key? && sig == Some(Signature(chip.ecc[SIG_SLOT].id, body))
      ensures sig.Some? ==> chip.signed == OneMore(old(chip.signed), sig.value.key)
      ensures chip.signed != old(chip.signed) || sw == SwOk ==>
                store.Usable() && store.cur == old(store.cur).(sigCount := (old(store.cur.sigCount) + 1) % SIG_COUNTS)
      ensures wrapped == old(wrapped) || old(store.cur.sigCount) + 1 >= SIG_COUNTS
      ensures store.cur == old(store.cur).(sigCount := store.cur.sigCount)
      ensures chip.calm && old(Writable(O3())) ==> (sw == SwOk <==> chip.ecc[SIG_SLOT].Key?)
    {
      hide Base, Writable, CountedAhead;
      var ok := CountUp();
      if !ok { return SwError, None; }
      sw, sig := Sign(body);
    }

    /** The signature count is kept modulo 2^24. */
    method CountUp() returns (ok: bool)
      requires Wired() && Base() && store.Lifecycle() == LC_OPERATIONAL
      modifies `wrapped, chip`rmem, store`cur, store.o3`uncertain
      ensures Base() && forall w: Which :: S().Rec(w) == old(S()).Rec(w)
      ensures store.cur.lifecycle == old(store.cur.lifecycle)
      ensures wrapped == old(wrapped) || old(store.cur.sigCount) + 1 >= SIG_COUNTS
      ensures ok ==>
                store.Usable() && store.cur == old(store.cur).(sigCount := (old(store.cur.sigCount) + 1) % SIG_COUNTS)
                && (wrapped || CountedAhead())
      ensures !ok ==> store.cur == old(store.cur)
      ensures chip.calm && old(Writable(O3())) ==> ok
    {
      hide Base, StateOnly, Writable;
      GuardIsABit();
      IsCounted();
      ghost var made := Made(chip.ecc, chip.signed);
      ghost var n := store.cur.sigCount;
      var next := (store.cur.sigCount + 1) % SIG_COUNTS;
      if next != n + 1 { GoesBack(); }
      ghost var s := S();
      ok := Edit(store.cur.rcSet, next);
      StateOnlyGives(s, S());
      if ok && !wrapped { CountsAhead(made); }
    }

    ghost method GoesBack()
      requires Wired() && Base()
      modifies `wrapped
      ensures Base() && wrapped && S() == old(S()).(wrapped := true)
    {
      hide Good;
      wrapped := true;
      SignStep(old(S()), S());
    }

    lemma CountsAhead(made: nat)
      requires Wired() && Base() && store.Usable()
      requires made == Made(chip.ecc, chip.signed) && made + 1 <= store.cur.sigCount
      ensures CountedAhead()
    {
      hide Good;
    }

    /** One more signature, and the counter is still right. */
    ghost predicate CountedAhead()
      requires Wired()
      reads chip`rmem, chip`ecc, chip`signed, store.o3
    {
      Counts(O3().a, Made(chip.ecc, chip.signed) + 1) && Counts(O3().b, Made(chip.ecc, chip.signed) + 1)
    }

    lemma IsCounted()
      requires Wired() && Base() && store.Lifecycle() == LC_OPERATIONAL
      ensures wrapped || Made(chip.ecc, chip.signed) <= store.cur.sigCount
    {
    }

    method Sign(body: Material) returns (sw: Sw, sig: Option<Signature>)
      requires Wired() && Base() && (wrapped || CountedAhead())
      modifies chip`signed
      ensures Base() && (sig.Some? <==> sw == SwOk) && sw in {SwOk, SwError}
      ensures sig.Some? ==> chip.ecc[SIG_SLOT].Key? && sig == Some(Signature(chip.ecc[SIG_SLOT].id, body))
      ensures sig.Some? ==> chip.signed == OneMore(old(chip.signed), sig.value.key)
      ensures chip.calm ==> (sw == SwOk <==> chip.ecc[SIG_SLOT].Key?)
    {
      hide Good;
      ghost var s := S();
      var ok, made := chip.EccSign(SIG_SLOT, body);
      SignStep(s, S());
      return if ok then SwOk else SwError, if ok then Some(made) else None;
    }

    /** Without PW3 access only if that PIN is blocked, missing or cannot be read. */
    method MayTerminate() returns (may: bool)
      requires Wired() && Inv()
      modifies chip`rmem, chip`mad, chip`rng, pw3.rec`uncertain
      ensures Inv() && O3() == old(O3()) && chip.ecc == old(chip.ecc) && S().Rec(PW1) == old(S()).Rec(PW1)
      ensures Gone(old(S()), S()) && (a83 ==> may)
      ensures (old(CanTry(PW3)) && !a83 ==> !may) && (old(IsBlocked(PW3)) ==> may)
    {
      hide Base, PinOnly, SettledOrNot, BindingIn, View, Gone, PinsKept, PinKept, IsBlocked, CanTry;
      ghost var s := S();
      if CanTry(PW3) { TryFacts(PW3); }
      if IsBlocked(PW3) { BlockedFacts(PW3); }
      OfKernel(PW1);
      OfKernel(PW3);
      var st, attempts, len := PinStatus(PW3);
      PinOnlyGives(PW3, s, S());
      SettledSame(s.Bound(PW3), S().Bound(PW3));
      SettledIsKept(s.Bound(PW3), S().Bound(PW3));
      OneKept(PW3, s, S());
      KeptIsGone(s, S());
      OfKernel(PW1);
      may := a83 || st == PinBlocked || st == PinError;
    }

    method HandleTerminate() returns (sw: Sw)
      requires Wired() && Inv()
      modifies `a81, `a82, `a83, `kek, chip`ecc, chip`rmem, chip`mad, chip`rng, store`cur, store`loaded
      modifies store.o3`uncertain
      modifies pw1.rec`uncertain, pw3.rec`uncertain, rc.rec`uncertain
      ensures Inv()
      ensures sw == SwOk ==> NoKeys(chip.ecc) && store.Lifecycle() == LC_TERMINATED && NoDec(O3())
      // Without a verified PW3 only if that PIN is blocked, missing or cannot be read.
      ensures old(CanTry(PW3) && !a83) ==> sw == SwSecurity
      ensures sw == SwSecurity ==> chip.ecc == old(chip.ecc) && O3() == old(O3()) && S().Rec(PW1) == old(S()).Rec(PW1)
      ensures a83 ==> old(a83) && sw == SwSecurity
      ensures chip.calm && old(a83) ==> sw == SwOk
      // A blocked PW3 is as good as a verified one.
      ensures old(IsBlocked(PW3)) ==> sw == SwOk
      // A refusal leaves the card as it was, and nothing but emptying it is ever done.
      ensures sw == SwSecurity ==> a81 == old(a81) && a82 == old(a82) && store.cur == old(store.cur)
      ensures Gone(old(S()), S()) && (a81 ==> old(a81)) && (a82 ==> old(a82))
    {
      hide Base, Gone, IsBlocked, CanTry, NoKeys, NoDec;
      ghost var s := S();
      Calmly();
      var may := MayTerminate();
      if !may { return SwSecurity; }
      AuthDrop(true, true, true);
      ghost var m := S();
      var ok := Terminate();
      GoneTrans(s, m, S());
      sw := if ok then SwOk else SwError;
    }

    lemma Calmly()
      requires Wired()
      ensures IsBlocked(PW3) ==> chip.calm
    {
    }

    method HandleActivate() returns (sw: Sw)
      requires Wired() && Inv()
      modifies `a81, `a82, `a83, `kek, chip`rmem, chip`mad, chip`rng, store`cur, store.o3`uncertain
      modifies pw1.rec`uncertain, pw1`probes, pw3.rec`uncertain, pw3`probes, rc.rec`uncertain
      ensures Inv()
      ensures sw == SwOk ==> store.Lifecycle() == LC_OPERATIONAL
      ensures sw == SwOk && old(store.Lifecycle()) != LC_OPERATIONAL ==>
                NoKeys(chip.ecc) && Is(S().Bound(PW1), FACTORY_PW1) && Is(S().Bound(PW3), FACTORY_PW3) && !a81
                  && !a82 && !a83
      ensures old(store.Lifecycle()) == LC_OPERATIONAL ==> sw == SwOk && S() == old(S())
      ensures a83 ==> old(a83)
      // Anything else happens only to a TERMINATED card, which has no keys, and leaves no PIN but a factory one.
      ensures old(store.Lifecycle()) != LC_TERMINATED ==> S() == old(S()) && store.cur == old(store.cur)
      ensures Reborn(old(S()), S()) && (a81 ==> old(a81)) && (a82 ==> old(a82))
    {
      hide Base, NoKeys, Reborn, Gone;
      SameIsGone(S(), S());
      GoneIsReborn(S(), S());
      if store.Lifecycle() == LC_OPERATIONAL { return SwOk; }
      AuthDrop(true, true, true);
      var r := Activate();
      sw := if r == 0 then SwOk else if r == 1 then SwConditions else SwError;
    }

    /** RAM after a power cycle. */
    method PowerCycle()
      requires Wired() && Base()
      modifies `a81, `a82, `a83, `kek, `tries, store`loaded, store.o3`uncertain
      modifies pw1.rec`uncertain, pw3.rec`uncertain, rc.rec`uncertain
      ensures Inv() && !store.loaded && !a81 && !a82 && !a83 && tries == 0 && S() == old(S())
      ensures !store.o3.uncertain && !pw1.rec.uncertain && !pw3.rec.uncertain && !rc.rec.uncertain
    {
      hide Good, BindingIn, View, SecretOf;
      a81, a82, a83, kek, tries := false, false, false, None, 0;
      store.loaded := false;
      store.o3.uncertain, pw1.rec.uncertain, pw3.rec.uncertain, rc.rec.uncertain := false, false, false, false;
    }

    /** All of the card that a command can move. */
    ghost function Now(): Moment
      reads this, chip`rmem, chip`ecc, chip`mad, chip`rng, chip`signed, store, store.o3, pw1, pw3, rc
    {
      Moment(S(), a81, a82, a83, store.cur, store.Lifecycle())
    }

    /**
     A state that is not loaded is loaded or bootstrapped first; `mid` is the card after that.  What the command then
     does follows from its own fields.
     */
    method Dispatch(c: Apdu) returns (sw: Sw, shared: Option<Shared>, ghost mid: Moment)
      requires Wired() && Inv()
      modifies this, chip`ecc, chip`rmem, chip`mad, chip`rng, chip`signed, store`cur, store`loaded, store.o3`uncertain
      modifies pw1.rec`uncertain, pw1`probes, pw3.rec`uncertain, pw3`probes, rc.rec`uncertain, rc`probes
      ensures Inv()
      ensures Booted(old(Now()), mid) && (old(store.loaded) ==> mid == old(Now()))
      ensures Allowed(c, sw, mid, Now())
      ensures sw == SwOk ==> Gate(c, mid.lc) && Succeeded(c, mid, Now())
      ensures wrapped != old(wrapped) ==> c.ACds?
      ensures shared.Some? ==> c.ADec? && sw == SwOk && old(a82)
      ensures c.ADec? && sw == SwOk ==>
                && Value(O3()).Some? && Value(O3()).value.1.Card? && Value(O3()).value.1.state.dec.Some?
                && shared == Some(Shared(Value(O3()).value.1.state.dec.value.priv, c.peer))
      // With PW1.82 verified and the touch given, a stored key always decrypts.
      ensures c.ADec? && c.touched && old(a82) && old(store.Lifecycle()) == LC_OPERATIONAL ==>
                sw == (if old(store.cur.dec).Some? then SwOk else SwNoKey)
      // Without faults an OPERATIONAL card answers each command exactly.
      ensures old(store.Lifecycle()) == LC_OPERATIONAL && IsPinCommand(c) ==> old(PinAnswers(c)).Holds(sw)
      ensures old(store.Lifecycle()) == LC_OPERATIONAL && !IsPinCommand(c) ==> old(KeyAnswers(c)).Holds(sw)
    {
      shared := None;
      hide Inv, Booted, Allowed, Succeeded, PinAnswers, KeyAnswers;
      Ensure();
      mid := Now();
      BootedBy(old(Now()), old(store.loaded));
      if !Gate(c, store.Lifecycle()) {
        NothingMoved(c, mid);
        return if store.Lifecycle() == LC_TERMINATED then SwTerminated else SwError, None, mid;
      }
      sw, shared := Execute(c);
    }
    lemma BootedBy(m: Moment, loaded: bool)
      requires Reborn(m.s, S()) && (m.s.O3() != Pair(Empty, Empty) ==>
                                      chip.ecc == m.s.ecc && forall w: Which :: S().Rec(w) == m.s.Rec(w))
      requires a81 == m.a81 && a82 == m.a82 && a83 == m.a83 && chip.signed == m.s.signed && wrapped == m.s.wrapped
      ensures Booted(m, Now())
    {
      hide Reborn;
    }

    lemma NothingMoved(c: Apdu, m: Moment)
      requires m == Now() && !Gate(c, m.lc)
      ensures Allowed(c, SwError, m, m) && Allowed(c, SwTerminated, m, m)
    {
      SameRecsKept(m.s, m.s);
    }

    /** A command that the lifecycle lets through. */
    method Execute(c: Apdu) returns (sw: Sw, shared: Option<Shared>)
      requires Wired() && Inv() && Gate(c, store.Lifecycle())
      modifies this, chip`ecc, chip`rmem, chip`mad, chip`rng, chip`signed, store`cur, store`loaded, store.o3`uncertain
      modifies pw1.rec`uncertain, pw1`probes, pw3.rec`uncertain, pw3`probes, rc.rec`uncertain, rc`probes
      ensures Inv() && Allowed(c, sw, old(Now()), Now()) && (sw == SwOk ==> Succeeded(c, old(Now()), Now()))
      ensures wrapped != old(wrapped) ==> c.ACds?
      ensures shared.Some? ==> c.ADec? && sw == SwOk && old(a82)
      ensures c.ADec? && sw == SwOk ==>
                && Value(O3()).Some? && Value(O3()).value.1.Card? && Value(O3()).value.1.state.dec.Some?
                && shared == Some(Shared(Value(O3()).value.1.state.dec.value.priv, c.peer))
      ensures c.ADec? && c.touched && old(a82) && old(store.Lifecycle()) == LC_OPERATIONAL ==>
                sw == (if old(store.cur.dec).Some? then SwOk else SwNoKey)
      ensures old(store.Lifecycle()) == LC_OPERATIONAL && IsPinCommand(c) ==> old(PinAnswers(c)).Holds(sw)
      ensures old(store.Lifecycle()) == LC_OPERATIONAL && !IsPinCommand(c) ==> old(KeyAnswers(c)).Holds(sw)
    {
      shared := None;
      hide Inv, Allowed, Succeeded, PinAnswers, KeyAnswers;
      if IsPinCommand(c) {
        sw := ExecutePin(c);
      } else if c.ADec? {
        sw, shared := ExecuteDec(c);
      } else if c.ATerminate? || c.AActivate? {
        sw := ExecuteLifecycle(c);
      } else {
        sw := ExecuteKey(c);
      }
    }

    method ExecutePin(c: Apdu) returns (sw: Sw)
      requires Wired() && Inv() && IsPinCommand(c) && Gate(c, store.Lifecycle())
      modifies `a81, `a82, `a83, `kek, chip`rmem, chip`mad, chip`rng, store`cur, store.o3`uncertain
      modifies pw1.rec`uncertain, pw1`probes, pw3.rec`uncertain, pw3`probes, rc.rec`uncertain, rc`probes
      ensures Inv() && Allowed(c, sw, old(Now()), Now()) && (sw == SwOk ==> Succeeded(c, old(Now()), Now()))
      ensures old(store.Lifecycle()) == LC_OPERATIONAL ==> old(PinAnswers(c)).Holds(sw)
    {
      hide Inv, Allowed, Succeeded, PinAnswers;
      match c {
        case AVerify(ref, reset, body) => sw := ExecuteVerify(c);
        case AChange(ref, body) => sw := ExecuteChange(c);
        case AReset(byRc, body) => sw := ExecuteReset(c);
        case APutRc(body) => sw := ExecutePut(c);
        case APutInfo(time, value) => sw := ExecutePut(c);
      }
    }

    method ExecuteVerify(c: Apdu) returns (sw: Sw)
      requires Wired() && Inv() && c.AVerify? && Gate(c, store.Lifecycle())
      modifies `a81, `a82, `a83, `kek, chip`rmem, chip`mad, chip`rng
      modifies pw1.rec`uncertain, pw1`probes, pw3.rec`uncertain, pw3`probes
      ensures Inv() && Allowed(c, sw, old(Now()), Now()) && (sw == SwOk ==> Succeeded(c, old(Now()), Now()))
      ensures old(store.Lifecycle()) == LC_OPERATIONAL ==> old(PinAnswers(c)).Holds(sw)
    {
      hide Inv, CanTry, IsBlocked, PinWorks, Is, BindingIn, View, PinKept;
      ghost var m := Now();
      sw := HandleVerify(c.ref, c.reset, c.body);
      KeptIs(m.s.Bound(PinRef(c.ref)), S().Bound(PinRef(c.ref)), c.body);
    }

    method ExecuteChange(c: Apdu) returns (sw: Sw)
      requires Wired() && Inv() && c.AChange? && Gate(c, store.Lifecycle())
      modifies `a81, `a82, `a83, `kek, chip`rmem, chip`mad, chip`rng
      modifies pw1.rec`uncertain, pw1`probes, pw3.rec`uncertain, pw3`probes
      ensures Inv() && Allowed(c, sw, old(Now()), Now()) && (sw == SwOk ==> Succeeded(c, old(Now()), Now()))
      ensures old(store.Lifecycle()) == LC_OPERATIONAL ==> old(PinAnswers(c)).Holds(sw)
    {
      hide Inv, Able, Follows, ChangedOrNot, BindingIn, View, PinKept, Older;
      ghost var m := Now();
      OperationalPins();
      sw := HandleChange(c.ref, c.body);
      if c.ref in {0x81, 0x83} { ChangedMoves(PinRef(c.ref), c, m, Now()); }
    }

    method ExecuteReset(c: Apdu) returns (sw: Sw)
      requires Wired() && Inv() && c.AReset? && Gate(c, store.Lifecycle())
      modifies `a81, `a82, `a83, `kek, chip`rmem, chip`mad, chip`rng, store`cur, store.o3`uncertain
      modifies pw1.rec`uncertain, pw1`probes, rc.rec`uncertain, rc`probes
      ensures Inv() && Allowed(c, sw, old(Now()), Now()) && (sw == SwOk ==> Succeeded(c, old(Now()), Now()))
      ensures old(store.Lifecycle()) == LC_OPERATIONAL ==> old(PinAnswers(c)).Holds(sw)
    {
      hide Inv, Able, Steady, Guarded, Follows, SecretKept, NoDec, LenOk, BindingIn, View, PinKept;
      sw := HandleReset(c.byRc, c.body);
      OfKernel(PW1);
    }

    method ExecutePut(c: Apdu) returns (sw: Sw)
      requires Wired() && Inv() && (c.APutRc? || c.APutInfo?) && Gate(c, store.Lifecycle())
      modifies chip`rmem, chip`mad, chip`rng, rc.rec`uncertain, rc`probes, store`cur, store.o3`uncertain
      ensures Inv() && Allowed(c, sw, old(Now()), Now()) && (sw == SwOk ==> Succeeded(c, old(Now()), Now()))
      ensures old(store.Lifecycle()) == LC_OPERATIONAL ==> old(PinAnswers(c)).Holds(sw)
    {
      hide Inv, Is, LenOk, Room3, Writable, BindingIn, View;
      ghost var m := Now();
      if c.APutRc? {
        sw := PutRc(c.body);
        OfKernel(RC);
      } else {
        hide PinKept;
        sw := PutInfo(c.time, c.value);
        SameRecsKept(m.s, S());
      }
    }

    lemma OperationalPins()
      requires Wired() && Inv() && store.Lifecycle() == LC_OPERATIONAL
      ensures S().Bound(PW1).Some? && S().Bound(PW3).Some?
    {
      OperationalCopies();
      hide Base;
    }

    lemma KeptIs(o: Option<Binding>, o': Option<Binding>, pin: Material)
      ensures PinKept(o, o') && Is(o, pin) ==> Is(o', pin)
    {
    }

    lemma ChangedMoves(w: Which, c: Apdu, m: Moment, n: Moment)
      requires c.AChange? && c.ref in {0x81, 0x83} && w == PinRef(c.ref)
      requires ChangedOrNot(m.s.Bound(w), n.s.Bound(w), c.body) && (n.s.Bound(w).Some? ==> m.s.Bound(w).Some?)
      ensures PinMoves(w, c, m, n)
    {
    }

    method ExecuteKey(c: Apdu) returns (sw: Sw)
      requires Wired() && Inv() && (c.AGenDec? || c.AGenEcc? || c.ACds?) && Gate(c, store.Lifecycle())
      modifies `a81, `a82, `a83, `kek, `wrapped, chip`ecc, chip`rmem, chip`rng, chip`signed
      modifies store`cur, store.o3`uncertain
      ensures Inv() && Allowed(c, sw, old(Now()), Now()) && (sw == SwOk ==> Succeeded(c, old(Now()), Now()))
      ensures wrapped != old(wrapped) ==> c.ACds?
      ensures old(KeyAnswers(c)).Holds(sw)
    {
      hide Inv, Allowed, Succeeded, KeyAnswers;
      if c.ACds? { sw := ExecuteSign(c); } else { sw := ExecuteGenerate(c); }
    }

    method ExecuteGenerate(c: Apdu) returns (sw: Sw)
      requires Wired() && Inv() && (c.AGenDec? || c.AGenEcc?) && Gate(c, store.Lifecycle())
      modifies `a81, `a82, `a83, `kek, chip`ecc, chip`rmem, chip`rng, store`cur, store.o3`uncertain
      ensures Inv() && Allowed(c, sw, old(Now()), Now()) && (sw == SwOk ==> Succeeded(c, old(Now()), Now()))
      ensures old(KeyAnswers(c)).Holds(sw)
    {
      hide CanTry, IsBlocked, PinWorks, Writable, Inv, NoDec, NoKeys, Is, BindingIn, View, PinKept, PinsKept;
      match c {
        case AGenDec => sw := GenerateDec();
        case AGenEcc(aut) => sw := GenerateEcc(if aut then AUT_SLOT else SIG_SLOT);
      }
      SameRecsKept(old(S()), S());
    }

    method ExecuteSign(c: Apdu) returns (sw: Sw)
      requires Wired() && Inv() && c.ACds? && Gate(c, store.Lifecycle())
      modifies `a81, `a82, `a83, `kek, `wrapped, chip`rmem, chip`signed
      modifies store`cur, store.o3`uncertain
      ensures Inv() && Allowed(c, sw, old(Now()), Now()) && (sw == SwOk ==> Succeeded(c, old(Now()), Now()))
      ensures old(KeyAnswers(c)).Holds(sw)
    {
      hide CanTry, IsBlocked, PinWorks, Writable, Inv, NoDec, NoKeys, Is, BindingIn, View, PinKept, PinsKept;
      var sig;
      sw, sig := PsoCds(c.body, c.touched, c.multi);
      SameRecsKept(old(S()), S());
    }

    method ExecuteDec(c: Apdu) returns (sw: Sw, shared: Option<Shared>)
      requires Wired() && Inv() && c.ADec? && Gate(c, store.Lifecycle())
      modifies `a81, `a82, `a83, `kek
      ensures Inv() && Allowed(c, sw, old(Now()), Now()) && (sw == SwOk ==> Succeeded(c, old(Now()), Now()))
      ensures old(KeyAnswers(c)).Holds(sw)
      ensures shared.Some? ==> sw == SwOk && old(a82)
      ensures sw == SwOk ==>
                && Value(O3()).Some? && Value(O3()).value.1.Card? && Value(O3()).value.1.state.dec.Some?
                && shared == Some(Shared(Value(O3()).value.1.state.dec.value.priv, c.peer))
      ensures c.touched && old(a82) ==> sw == (if old(store.cur.dec).Some? then SwOk else SwNoKey)
    {
      hide Inv, NoDec, NoKeys, BindingIn, View, PinKept, PinsKept;
      SameRecsKept(S(), S());
      CachedValue();
      sw, shared := PsoDec(c.peer, c.touched);
    }

    method ExecuteLifecycle(c: Apdu) returns (sw: Sw)
      requires Wired() && Inv() && (c.ATerminate? || c.AActivate?) && Gate(c, store.Lifecycle())
      modifies `a81, `a82, `a83, `kek, chip`ecc, chip`rmem, chip`mad, chip`rng, store`cur, store`loaded
      modifies store.o3`uncertain
      modifies pw1.rec`uncertain, pw1`probes, pw3.rec`uncertain, pw3`probes, rc.rec`uncertain
      ensures Inv() && Allowed(c, sw, old(Now()), Now()) && (sw == SwOk ==> Succeeded(c, old(Now()), Now()))
      ensures old(store.Lifecycle()) == LC_OPERATIONAL ==> old(KeyAnswers(c)).Holds(sw)
    {
      hide Inv, Allowed, Succeeded, KeyAnswers;
      if c.ATerminate? { sw := ExecuteTerminate(c); } else { sw := ExecuteActivate(c); }
    }

    method ExecuteTerminate(c: Apdu) returns (sw: Sw)
      requires Wired() && Inv() && c.ATerminate?
      modifies `a81, `a82, `a83, `kek, chip`ecc, chip`rmem, chip`mad, chip`rng, store`cur, store`loaded
      modifies store.o3`uncertain
      modifies pw1.rec`uncertain, pw3.rec`uncertain, rc.rec`uncertain
      ensures Inv() && Allowed(c, sw, old(Now()), Now()) && (sw == SwOk ==> Succeeded(c, old(Now()), Now()))
      ensures old(KeyAnswers(c)).Holds(sw)
    {
      hide CanTry, IsBlocked, Inv, NoDec, NoKeys, BindingIn, View, PinKept;
      if CanTry(PW3) { TryFacts(PW3); }
      sw := HandleTerminate();
      OfKernel(PW1);
    }

    method ExecuteActivate(c: Apdu) returns (sw: Sw)
      requires Wired() && Inv() && c.AActivate? && Gate(c, store.Lifecycle())
      modifies `a81, `a82, `a83, `kek, chip`rmem, chip`mad, chip`rng, store`cur, store.o3`uncertain
      modifies pw1.rec`uncertain, pw1`probes, pw3.rec`uncertain, pw3`probes, rc.rec`uncertain
      ensures Inv() && Allowed(c, sw, old(Now()), Now()) && (sw == SwOk ==> Succeeded(c, old(Now()), Now()))
      ensures old(store.Lifecycle()) == LC_OPERATIONAL ==> old(KeyAnswers(c)).Holds(sw)
    {
      hide Inv, NoDec, NoKeys, BindingIn, View, PinKept, Is;
      ghost var m := Now();
      SameRecsKept(m.s, m.s);
      sw := HandleActivate();
    }

    /** What an OPERATIONAL card that nothing fails answers to a PIN command. */
    ghost function PinAnswers(c: Apdu): Answer
      requires Wired() && IsPinCommand(c)
      reads this, chip, pw1, pw3, rc, pw1.rec, pw3.rec, rc.rec, store, store.o3
    {
      match c
      case AVerify(ref, reset, body) =>
        if ref !in {0x81, 0x82, 0x83} || reset || !LenOk(PinRef(ref), body) then AnySw
        else if IsBlocked(PinRef(ref)) then Only(SwBlocked)
        else if !CanTry(PinRef(ref)) || !PinWorks(PinRef(ref), S()) then AnySw
        else if Is(S().Bound(PinRef(ref)), body) then Only(SwOk) else Only(SwRetries)
      case AChange(ref, body) =>
        if ref !in {0x81, 0x83} || !Able(PinRef(ref)) then AnySw
        else OkIff(Follows(S().Bound(PinRef(ref)), PinRef(ref), body))
      case AReset(byRc, body) =>
        if !Steady() || (byRc && !(Able(RC) && Guarded(RC))) then AnySw
        else OkIff(if byRc then Follows(S().Bound(RC), PW1, body) else a83 && LenOk(PW1, body))
      case APutRc(body) =>
        if !chip.calm || !Room3(O3()) then AnySw else OkIff(a83 && (body == [] || LenOk(RC, body)))
      case APutInfo(time, value) => if !chip.calm || !Writable(O3()) then AnySw else OkIff(a83)
    }

    /** The same for the commands on keys and lifecycle. */
    ghost function KeyAnswers(c: Apdu): Answer
      requires Wired() && !IsPinCommand(c)
      reads this, chip, pw1, pw3, rc, pw1.rec, pw3.rec, rc.rec, store, store.o3
    {
      match c
      case AGenDec => if !chip.calm || !Writable(O3()) then AnySw else OkIff(a83 && (a81 || a82))
      case AGenEcc(aut) => if !chip.calm then AnySw else OkIff(a83)
      case ACds(body, touched, multi) =>
        if !chip.calm || !Writable(O3()) then AnySw
        else OkIff(a81 && touched && body != [] && chip.ecc[SIG_SLOT].Key?)
      case ATerminate =>
        if (chip.calm && a83) || IsBlocked(PW3) then Only(SwOk)
        else if CanTry(PW3) then Only(SwSecurity) else AnySw
      case AActivate => Only(SwOk)
      case ADec(peer, touched) => AnySw
    }

    /** PUT DATA C8 and CF: the fingerprint or the time of the DEC key. */
    method PutInfo(time: bool, value: nat) returns (sw: Sw)
      requires Wired() && Inv() && store.Lifecycle() == LC_OPERATIONAL
      modifies chip`rmem, store`cur, store.o3`uncertain
      ensures Inv() && (sw == SwOk ==> a83 && store.Usable())
      ensures store.cur == if sw != SwOk then old(store.cur)
                           else if time then old(store.cur).(decTime := value) else old(store.cur).(decFpr := value)
      ensures forall w: Which :: S().Rec(w) == old(S()).Rec(w)
      ensures chip.calm && old(Writable(O3())) ==> (sw == SwOk <==> a83)
    {
      hide Base, StateOnly, Writable, Permitted;
      if !a83 { return SwSecurity; }
      OfKernel(PW1);
      ghost var s := S();
      var next := if time then store.cur.(decTime := value) else store.cur.(decFpr := value);
      CurIsOk();
      EditPermitted(next);
      var ok := CommitState(next);
      StateOnlyGives(s, S());
      OfKernel(PW1);
      sw := if ok then SwOk else SwError;
    }

    method PutRc(body: Material) returns (sw: Sw)
      requires Wired() && Inv() && store.Lifecycle() == LC_OPERATIONAL
      modifies chip`rmem, chip`mad, chip`rng, rc.rec`uncertain, rc`probes, store`cur, store.o3`uncertain
      ensures Inv()
      ensures sw == SwOk ==>
                a83 && store.Usable() && store.cur.lifecycle == LC_OPERATIONAL && (store.cur.rcSet == 1 <==> body != [])
      ensures sw == SwOk ==> if body == [] then rc.Current() == None else Is(rc.Current(), body)
      ensures !a83 ==> chip.rmem == old(chip.rmem) && chip.mad == old(chip.mad)
      ensures S().Bound(PW1) == old(S()).Bound(PW1) && S().Bound(PW3) == old(S()).Bound(PW3)
      ensures PinKept(old(S()).Bound(RC), S().Bound(RC))
              || (a83 && (S().Bound(RC) == None || Is(S().Bound(RC), body)))
      ensures store.cur == old(store.cur).(rcSet := store.cur.rcSet) && (store.cur != old(store.cur) ==> a83)
      // Without faults it succeeds exactly under a verified PW3, for a fit reset code or none.
      ensures chip.calm && old(Room3(O3())) ==> (sw == SwOk <==> a83 && (body == [] || LenOk(RC, body)))
    {
      hide Base, Room3, PinKept;
      SameKept(S().Bound(RC));
      if !a83 { return SwSecurity; }
      OfKernel(PW1);
      var r := SetRc(body);
      OfKernel(PW1);
      sw := PinSw(r);
    }

    lemma CachedValue()
      requires Wired() && Inv() && store.Usable()
      ensures Value(O3()).Some? && Value(O3()).value.1 == Card(store.cur)
    {
    }
  }

  /** All of a card that a command can move. */
  datatype Moment = Moment(s: Snap, a81: bool, a82: bool, a83: bool, cur: CardState, lc: nat)

  /** What is known of an answer beforehand. */
  datatype Answer = AnySw | Only(sw: Sw) | NotOk {
    predicate Holds(x: Sw) { match this case AnySw => true case Only(y) => x == y case NotOk => x != SwOk }
  }

  function OkIff(b: bool): Answer { if b then Only(SwOk) else NotOk }

  /** A TERMINATED card only activates; an unreadable one only verifies PW3 or terminates. */
  predicate Gate(c: Apdu, lc: nat) {
    if lc == LC_OPERATIONAL then true
    else if lc == LC_TERMINATED then c == AActivate
    else c == ATerminate || (c.AVerify? && c.ref == 0x83)
  }

  /** Loading the state: nothing else changes unless there is none, and then nothing is left but factory PINs. */
  ghost predicate Booted(m: Moment, n: Moment) {
    && Reborn(m.s, n.s) && n.a81 == m.a81 && n.a82 == m.a82 && n.a83 == m.a83
    && n.s.signed == m.s.signed && n.s.wrapped == m.s.wrapped
    && (m.s.O3() != Pair(Empty, Empty) ==> n.s.ecc == m.s.ecc && forall w: Which :: n.s.Rec(w) == m.s.Rec(w))
  }

  function SlotOf(aut: bool): nat { if aut then AUT_SLOT else SIG_SLOT }

  /** Access comes only from VERIFY of that reference with its bound PIN, and a single-use signature access goes. */
  predicate AccessMoves(c: Apdu, sw: Sw, m: Moment, n: Moment) {
    && (n.a81 && !m.a81 ==> c.AVerify? && c.ref == 0x81 && !c.reset && sw == SwOk && Is(n.s.Bound(PW1), c.body))
    && (n.a82 && !m.a82 ==> c.AVerify? && c.ref == 0x82 && !c.reset && sw == SwOk && Is(n.s.Bound(PW1), c.body))
    && (n.a83 && !m.a83 ==> c.AVerify? && c.ref == 0x83 && !c.reset && sw == SwOk && Is(n.s.Bound(PW3), c.body))
    && (c.ACds? && !c.multi && Gate(c, m.lc) ==> !n.a81)
  }

  /** A key changes only by GENERATE in its own slot under PW3, or goes when the card is terminated. */
  predicate KeysMove(c: Apdu, m: Moment, n: Moment) {
    forall i :: 0 <= i < ECC_SLOTS && n.s.ecc[i] != m.s.ecc[i] ==>
      || (c.AGenEcc? && m.a83 && i == SlotOf(c.aut))
      || (c.ATerminate? && n.s.ecc[i] == NoKey)
  }

  /** A signature is made only by PSO:CDS, with access, the touch and a message, and it was counted before. */
  predicate SignsMove(c: Apdu, m: Moment, n: Moment) {
    n.s.signed != m.s.signed ==>
      c.ACds? && c.touched && c.body != [] && m.a81 && n.cur.sigCount == (m.cur.sigCount + 1) % SIG_COUNTS
  }

  /** What may become of one PIN. */
  predicate PinMoves(w: Which, c: Apdu, m: Moment, n: Moment) {
    var o, o' := m.s.Bound(w), n.s.Bound(w);
    PinKept(o, o') || match c
      case AChange(ref, body) =>
        && ref in {0x81, 0x83} && w == PinRef(ref) && o.Some? && o'.Some?
        && body == PinOf(o.value) + PinOf(o'.value) && SecretOf(o'.value) == SecretOf(o.value)
      case AReset(byRc, body) => w == PW1 && ResetTo(byRc, body, m.a83, m.s, n.s)
      case APutRc(body) => w == RC && m.a83 && (o' == None || Is(o', body))
      case ATerminate => o' == None
      case AActivate => m.lc == LC_TERMINATED && (o' == None || IsFactory(w, o'))
      case _ => false
  }

  /** What may become of the committed state of a card that stays OPERATIONAL. */
  predicate StateMoves(c: Apdu, m: Moment, n: Moment) {
    m.lc == LC_OPERATIONAL ==>
      match c
      case AGenDec => n.cur == m.cur.(dec := n.cur.dec) && (n.cur != m.cur ==> m.a83 && (m.a81 || m.a82))
      case AReset(byRc, body) => n.cur in {m.cur, WithoutDec(m.cur)}
      case APutRc(body) => n.cur == m.cur.(rcSet := n.cur.rcSet) && (n.cur != m.cur ==> m.a83)
      case APutInfo(time, value) =>
        n.cur == m.cur || (m.a83 && n.cur == if time then m.cur.(decTime := value) else m.cur.(decFpr := value))
      case ACds(body, touched, multi) => n.cur == m.cur.(sigCount := n.cur.sigCount)
      case ATerminate => true
      case _ => n.cur == m.cur
  }

  predicate Allowed(c: Apdu, sw: Sw, m: Moment, n: Moment) {
    && AccessMoves(c, sw, m, n) && KeysMove(c, m, n) && SignsMove(c, m, n) && StateMoves(c, m, n)
    && forall w: Which :: PinMoves(w, c, m, n)
  }

  /** What an answer of 9000 says. */
  predicate Succeeded(c: Apdu, m: Moment, n: Moment) {
    match c
    case AVerify(ref, reset, body) =>
      && ref in {0x81, 0x82, 0x83}
      && (if reset then body == [] && !(if ref == 0x81 then n.a81 else if ref == 0x82 then n.a82 else n.a83)
          else if ref == 0x81 then n.a81 else if ref == 0x82 then n.a82 else n.a83)
      && (!reset && body != [] ==> Is(n.s.Bound(PinRef(ref)), body))
    case AChange(ref, body) =>
      && ref in {0x81, 0x83} && m.s.Bound(PinRef(ref)).Some? && n.s.Bound(PinRef(ref)).Some?
      && body == PinOf(m.s.Bound(PinRef(ref)).value) + PinOf(n.s.Bound(PinRef(ref)).value)
      && (if ref == 0x81 then !n.a81 && !n.a82 else !n.a83)
    case AReset(byRc, body) =>
      ResetTo(byRc, body, m.a83, m.s, n.s) && NoDec(n.s.O3()) && n.cur == WithoutDec(m.cur) && !n.a81 && !n.a82
    case APutRc(body) =>
      && m.a83 && (n.cur.rcSet == 1 <==> body != [])
      && (if body == [] then n.s.Bound(RC) == None else Is(n.s.Bound(RC), body))
    case APutInfo(time, value) => m.a83 && n.cur == if time then m.cur.(decTime := value) else m.cur.(decFpr := value)
    case AGenDec =>
      && m.a83 && (m.a81 || m.a82) && n.cur.dec.Some? && n.s.Bound(PW1).Some?
      && n.cur.dec.value.kek == Kek(SecretOf(n.s.Bound(PW1).value))
    case AGenEcc(aut) => m.a83 && n.s.ecc[SlotOf(aut)].Key? && n.s.ecc[SlotOf(aut)].id >= m.s.rng
    case ADec(peer, touched) => m.a82 && touched
    case ACds(body, touched, multi) =>
      m.a81 && touched && m.s.ecc[SIG_SLOT].Key? && n.s.signed == OneMore(m.s.signed, m.s.ecc[SIG_SLOT].id)
    case ATerminate => n.lc == LC_TERMINATED && NoKeys(n.s.ecc) && NoDec(n.s.O3())
    case AActivate =>
      n.lc == LC_OPERATIONAL
        && (m.lc == LC_TERMINATED ==>
              NoKeys(n.s.ecc) && IsFactory(PW1, n.s.Bound(PW1)) && IsFactory(PW3, n.s.Bound(PW3)))
  }

  predicate IsPinCommand(c: Apdu) {
    c.AVerify? || c.AChange? || c.AReset? || c.APutRc? || c.APutInfo?
  }

  datatype Apdu =
    | AVerify(ref: nat, reset: bool, body: Material)
    | AChange(ref: nat, body: Material)
    | AReset(byRc: bool, body: Material)
    | APutRc(body: Material)
    | APutInfo(time: bool, value: nat)
    | AGenDec
    | AGenEcc(aut: bool)
    | ADec(peer: nat, touched: bool)
    | ACds(body: Material, touched: bool, multi: bool)
    | ATerminate
    | AActivate
}

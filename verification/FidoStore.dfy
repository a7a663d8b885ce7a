/**
 What the FIDO application keeps on the chip.  A credential resolves when its bit
 in O1 is set and its metadata slot can be read; O1 also says whether O2 must hold
 a PIN.
 */
module FidoStore {
  import opened Values
  import opened ChipModel
  import opened RecPairs
  import opened PinKernel
  import opened Layouts

  const FIDO_SLOTS: nat := 29
  const COUNTER_MAX: nat := 0xFFFF_FFFE

  datatype CredRead = Found(meta: Meta) | BadMagic | ChipError | NoData

  /** The allocation bitmap as it is on the chip. */
  function Bits(v: Pair): set<nat> {
    match Value(v)
    case None => {}
    case Some(r) => if r.1.Global? then r.1.bitmap else {}
  }

  function MetaAt(m: Rmem, i: nat): Option<Meta>
    requires i < FIDO_SLOTS
  {
    match ReadCell(m[i + 1])
    case Got(blob) => if blob.Credential? then Some(blob.meta) else None
    case _ => None
  }

  /** The credential that an ID naming slot `i` resolves to. */
  function Resolved(m: Rmem, i: nat): Option<Meta>
    requires i < FIDO_SLOTS
  {
    if i in Bits(View(m, O1_PLACE)) then MetaAt(m, i) else None
  }

  ghost predicate SameCredentials(m: Rmem, n: Rmem) {
    forall i :: 0 <= i < FIDO_SLOTS ==> Resolved(n, i) == Resolved(m, i)
  }

  ghost predicate FewerCredentials(m: Rmem, n: Rmem) {
    forall i :: 0 <= i < FIDO_SLOTS ==> Resolved(n, i) in {Resolved(m, i), None}
  }

  /** One step: the replaced credentials gone and the new one in; it resolves if its metadata reads back. */
  ghost predicate Published(m: Rmem, n: Rmem, idx: nat, meta: Meta, replaced: set<nat>) {
    && idx < FIDO_SLOTS
    && Resolved(m, idx) == None
    && MetaAt(n, idx) in {Some(meta), None}
    && forall i :: 0 <= i < FIDO_SLOTS ==>
         Resolved(n, i) == if i in replaced then None else if i == idx then MetaAt(n, idx) else Resolved(m, i)
  }

  /** The new credential resolves, too. */
  ghost predicate Whole(m: Rmem, n: Rmem, idx: nat, meta: Meta, replaced: set<nat>) {
    Published(m, n, idx, meta, replaced) && (idx !in replaced ==> Resolved(n, idx) == Some(meta))
  }

  /** Nothing of any credential is left. */
  ghost predicate Clean(m: Rmem, ecc: Ecc) {
    forall i :: 0 <= i < FIDO_SLOTS ==> ecc[i] == NoKey && MetaAt(m, i) == None
  }

  /** A readable credential's key slot holds no key but the one made for it. */
  ghost predicate KeysMatch(m: Rmem, ecc: Ecc, made: map<nat, nat>) {
    forall i :: 0 <= i < FIDO_SLOTS && Resolved(m, i).Some? ==>
      Resolved(m, i).value.nonce in made && (ecc[i].Key? ==> ecc[i].id == made[Resolved(m, i).value.nonce])
  }

  /** No key is recorded twice, and none that was not drawn. */
  ghost predicate KeysDrawn(made: map<nat, nat>, rng: nat) {
    && (forall n :: n in made ==> n < rng && made[n] < rng)
    && (forall n, o :: n in made && o in made && made[n] == made[o] ==> n == o)
  }

  predicate SameAccount(a: Meta, b: Meta) { a.resident && b.resident && a.rp == b.rp && a.user == b.user }

  /** At most one resident credential per account, and creation numbers that tell all credentials apart. */
  ghost predicate Accounts(m: Rmem) {
    forall i, j :: 0 <= i < j < FIDO_SLOTS && Resolved(m, i).Some? && Resolved(m, j).Some? ==>
      !SameAccount(Resolved(m, i).value, Resolved(m, j).value)
        && Resolved(m, i).value.created != Resolved(m, j).value.created
  }

  /** The credentials that a new one of this account replaces. */
  ghost function AccountSlots(m: Rmem, rk: bool, rp: nat, user: nat): set<nat> {
    set i | 0 <= i < FIDO_SLOTS && rk && Resolved(m, i).Some?
      && SameAccount(Resolved(m, i).value, Meta(0, true, rp, user, 0, 0))
  }

  /** Every listed credential can be read. */
  ghost predicate AllReadable(m: Rmem) {
    forall i :: i in Bits(View(m, O1_PLACE)) && i < FIDO_SLOTS ==> MetaAt(m, i).Some?
  }

  /** The creation numbers in use are among 1, ..., n. */
  ghost predicate Numbered(m: Rmem, n: nat) {
    forall i :: 0 <= i < FIDO_SLOTS && Resolved(m, i).Some? ==> 1 <= Resolved(m, i).value.created <= n
  }

  /** The number after the highest in use, which is 1 if none is. */
  ghost predicate Next(m: Rmem, created: nat) {
    && (forall i :: 0 <= i < FIDO_SLOTS && Resolved(m, i).Some? ==> Resolved(m, i).value.created < created)
    && (created == 1
        || exists i :: 0 <= i < FIDO_SLOTS && Resolved(m, i).Some? && Resolved(m, i).value.created + 1 == created)
    && ((forall i :: 0 <= i < FIDO_SLOTS ==> Resolved(m, i) == None) ==> created == 1)
  }

  /** Then 1 is next exactly when nothing resolves. */
  lemma NextNumber(m: Rmem, n: nat, created: nat)
    requires Numbered(m, n) && Next(m, created)
    ensures 1 <= created <= n + 1
    ensures created == 1 <==> forall i :: 0 <= i < FIDO_SLOTS ==> Resolved(m, i) == None
  {
  }

  lemma FewerNumbered(m: Rmem, m': Rmem, n: nat, n': nat)
    requires Numbered(m, n) && FewerCredentials(m, m') && n <= n'
    ensures Numbered(m', n')
  {
    forall i | 0 <= i < FIDO_SLOTS && Resolved(m', i).Some? ensures 1 <= Resolved(m', i).value.created <= n' {
      assert Resolved(m', i) in {Resolved(m, i), None};
    }
  }

  /** A registration uses one number more. */
  lemma PublishedNumbered(m: Rmem, m': Rmem, n: nat, idx: nat, meta: Meta, replaced: set<nat>)
    requires Numbered(m, n) && Published(m, m', idx, meta, replaced) && Next(m, meta.created)
    ensures Numbered(m', n + 1)
  {
    NextNumber(m, n, meta.created);
  }

  predicate GlobalOk(p: Payload) {
    p.Global? && p.forceUv <= 1 && p.pinBound <= 1 && forall i :: i in p.bitmap ==> i < FIDO_SLOTS
  }

  /** A changed metadata slot of a free credential changes nothing that resolves. */
  lemma FreeSlotChanges(m: Rmem, n: Rmem, i: nat)
    requires i < FIDO_SLOTS && n == m[i + 1 := n[i + 1]] && i !in Bits(View(m, O1_PLACE))
    ensures SameCredentials(m, n) && View(n, O1_PLACE) == View(m, O1_PLACE)
  {
  }

  lemma FreeKeyChanges(m: Rmem, ecc: Ecc, ecc': Ecc, made: map<nat, nat>, idx: nat)
    requires idx < FIDO_SLOTS && idx !in Bits(View(m, O1_PLACE)) && KeysMatch(m, ecc, made)
    requires forall i :: 0 <= i < FIDO_SLOTS && i != idx ==> ecc'[i] == ecc[i]
    ensures KeysMatch(m, ecc', made)
  {
    assert Resolved(m, idx) == None;
  }

  lemma FewerIsFine(m: Rmem, n: Rmem, ecc: Ecc, ecc': Ecc, made: map<nat, nat>)
    requires FewerCredentials(m, n) && KeysMatch(m, ecc, made) && Accounts(m)
    requires forall i :: 0 <= i < FIDO_SLOTS ==> ecc'[i] in {ecc[i], NoKey}
    ensures KeysMatch(n, ecc', made) && Accounts(n)
  {
    forall i | 0 <= i < FIDO_SLOTS && Resolved(n, i).Some?
      ensures Resolved(n, i) == Resolved(m, i) && ecc'[i] in {ecc[i], NoKey}
    {
      assert Resolved(n, i) in {Resolved(m, i), None};
    }
  }

  lemma MetaFrame(m: Rmem, n: Rmem)
    requires forall j :: 1 <= j <= FIDO_SLOTS ==> n[j] == m[j]
    ensures forall i :: 0 <= i < FIDO_SLOTS ==> MetaAt(n, i) == MetaAt(m, i)
  {
    forall i | 0 <= i < FIDO_SLOTS ensures MetaAt(n, i) == MetaAt(m, i) {
      assert n[i + 1] == m[i + 1];
    }
  }

  lemma NothingLeft(m: Rmem, ecc: Ecc, made: map<nat, nat>)
    requires Clean(m, ecc)
    ensures KeysMatch(m, ecc, made) && Accounts(m) && forall i :: 0 <= i < FIDO_SLOTS ==> Resolved(m, i) == None
  {
  }

  class Store {
    const chip: Chip
    const o1: RecPair
    const pin: Kernel
    var initted: bool          // RAM copy of O1
    var bitmap: set<nat>
    var forceUv: nat
    var pinBound: nat
    var ready: bool            // the boot rules or a reset have been gone through to the end
    ghost var made: map<nat, nat>   // nonce of a credential -> the key generated for it

    constructor (chip: Chip)
      ensures this.chip == chip && Wired() && !initted && !ready && made == map[] && pin.probes == 0
    {
      this.chip := chip;
      o1 := new RecPair(chip, O1_PLACE);
      var r2 := new RecPair(chip, O2_PLACE);
      pin := new Kernel(r2, FIDO_LAYOUT);
      initted, bitmap, forceUv, pinBound, ready, made := false, {}, 0, 0, false, map[];
    }

    ghost predicate Wired() {
      && o1.chip == chip && o1.place == O1_PLACE
      && pin.Wired() && pin.chip == chip && pin.rec.place == O2_PLACE && pin.L == FIDO_LAYOUT
      && pin.rec != o1
    }

    predicate Usable()
      reads this`initted, o1
    {
      initted && !o1.uncertain
    }

    /** The dispatcher serves nothing but GetInfo and reset unless this holds. */
    predicate Ready()
      reads this`ready, this`initted, o1, pin, pin.rec
    {
      ready && Usable() && !pin.rec.uncertain
    }

    ghost predicate Cached()
      requires Wired()
      reads this`initted, this`bitmap, this`forceUv, this`pinBound, o1, chip`rmem
    {
      && (Value(o1.Now()).Some? ==> GlobalOk(Value(o1.Now()).value.1))
      && (Usable() ==>
            && o1.Now().a == o1.Now().b && o1.Now().a.Valid?
            && o1.Now().a.payload == Global(bitmap, forceUv, pinBound))
    }

    ghost predicate Creds()
      reads this`made, chip`rmem, chip`ecc, chip`rng
    {
      KeysMatch(chip.rmem, chip.ecc, made) && Accounts(chip.rmem) && KeysDrawn(made, chip.rng)
    }

    ghost predicate Base()
      requires Wired()
      reads this`initted, this`bitmap, this`forceUv, this`pinBound, o1, chip`rmem, chip`rng, pin, pin.rec
    {
      Consistent(o1.Now()) && pin.Inv() && Cached() && Founded()
    }

    /** There is no PIN without O1. */
    ghost predicate Founded()
      requires Wired()
      reads o1, pin.rec, chip`rmem
    {
      pin.Current().Some? ==> Value(o1.Now()).Some?
    }

    ghost predicate Inv()
      requires Wired()
      reads this, o1, chip`rmem, chip`rng, chip`ecc, pin, pin.rec
    {
      Base() && Creds()
    }

    // ----- slots -----

    /** RAM never runs ahead of O1: it follows an acknowledged write and no other. */
    method WriteGlobal(bm: set<nat>, uv: nat, bound: nat) returns (ok: bool)
      requires Wired() && Base() && uv <= 1 && bound <= 1 && forall i :: i in bm ==> i < FIDO_SLOTS
      modifies chip`rmem, o1`uncertain, `bitmap, `forceUv, `pinBound
      ensures Others(old(chip.rmem), chip.rmem, O1_PLACE) && Base()
      ensures ok ==> Usable() && bitmap == bm && forceUv == uv && pinBound == bound && Value(o1.Now()).Some?
                     && Value(o1.Now()).value.1 == Global(bm, uv, bound)
      ensures !old(Usable()) ==> !ok && chip.rmem == old(chip.rmem)
      ensures WroteOrNot(old(Value(o1.Now())), Value(o1.Now()), Global(bm, uv, bound))
      ensures !ok ==> bitmap == old(bitmap) && forceUv == old(forceUv) && pinBound == old(pinBound)
      ensures old(o1.uncertain) ==> o1.uncertain
      ensures !ok && Usable() ==> Value(o1.Now()) == old(Value(o1.Now()))
      ensures Older(old(o1.Now()), o1.Now(), 1)
      ensures chip.calm && old(Usable() && Writable(o1.Now())) ==> ok
    {
      ok := false;
      if !Usable() { return; }
      hide Genuine, BoundTo;
      var st := o1.Write(Global(bm, uv, bound));
      if st != Ok { return; }
      bitmap, forceUv, pinBound := bm, uv, bound;
      ok := true;
    }

    method ReadCred(i: nat) returns (r: CredRead)
      requires i < FIDO_SLOTS
      ensures r == ChipError || r == match ReadCell(chip.rmem[i + 1])
                                     case SlotEmpty => NoData
                                     case Got(blob) => if blob.Credential? then Found(blob.meta) else BadMagic
                                     case Failed => ChipError
      ensures r.Found? ==> MetaAt(chip.rmem, i) == Some(r.meta)
      ensures r == NoData ==> MetaAt(chip.rmem, i) == None
      ensures chip.calm ==> r != ChipError
    {
      var d := chip.RmemRead(i + 1);
      match d {
        case SlotEmpty => r := NoData;
        case Failed => r := ChipError;
        case Got(blob) => r := if blob.Credential? then Found(blob.meta) else BadMagic;
      }
    }

    /**
     Bits of slots that read empty are taken out; a slot that cannot be read, or holds something else, keeps its bit.
     */
    method OrphanScrub() returns (bm: set<nat>)
      requires forall i :: i in bitmap ==> i < FIDO_SLOTS
      ensures bm <= bitmap
      ensures forall i :: i in bitmap && i !in bm ==> i < FIDO_SLOTS && ReadCell(chip.rmem[i + 1]) == SlotEmpty
      ensures chip.calm ==> forall i :: i in bm ==> i < FIDO_SLOTS && ReadCell(chip.rmem[i + 1]) != SlotEmpty
    {
      bm := bitmap;
      for i := 0 to FIDO_SLOTS
        invariant bm <= bitmap
        invariant forall j :: j in bitmap && j !in bm ==> j < FIDO_SLOTS && ReadCell(chip.rmem[j + 1]) == SlotEmpty
        invariant chip.calm ==> forall j :: j in bm && j < i ==> ReadCell(chip.rmem[j + 1]) != SlotEmpty
      {
        if i in bm {
          var r := ReadCred(i);
          if r == NoData { bm := bm - {i}; }
        }
      }
    }

    /** 0 ok, 1 O1 absent, 2 refused. */
    method SlotsInit() returns (r: nat)
      requires Wired() && Base()
      modifies chip`rmem, o1`uncertain, `bitmap, `forceUv, `pinBound, `initted
      ensures Base() && Others(old(chip.rmem), chip.rmem, O1_PLACE) && r <= 2
      ensures SameCredentials(old(chip.rmem), chip.rmem)
      ensures r == 0 ==> Usable() && forceUv <= 1 && pinBound <= 1 && forall i :: i in bitmap ==> i < FIDO_SLOTS
      ensures r == 1 ==> o1.Now() == Pair(Empty, Empty) && chip.rmem == old(chip.rmem) && !old(initted)
      ensures SameGuard(old(Value(o1.Now())), Value(o1.Now())) && Older(old(o1.Now()), o1.Now(), 1)
      ensures chip.calm && !old(initted) && !old(o1.uncertain) ==>
                (old(Writable(o1.Now())) ==> r == 0) && (old(o1.Now()) == Pair(Empty, Empty) ==> r == 1)
    {
      if initted { return if o1.uncertain then 2 else 0; }
      hide Genuine, BoundTo;
      var st, gen, payload := o1.Read();
      assert Bits(o1.Now()) == old(Bits(o1.Now()));
      MetaFrame(old(chip.rmem), chip.rmem);
      if st == Absent { return 1; }
      if st != Ok || !payload.value.Global? || payload.value.forceUv > 1 || payload.value.pinBound > 1
         || exists i | i in payload.value.bitmap :: i >= FIDO_SLOTS { return 2; }
      bitmap, forceUv, pinBound, initted := payload.value.bitmap, payload.value.forceUv, payload.value.pinBound, true;
      ghost var m := chip.rmem;
      r := ScrubInto();
      SameTrans(old(chip.rmem), m, chip.rmem);
    }

    /** The scrubbed bitmap goes back into O1; if that fails the RAM copy is not used. */
    method ScrubInto() returns (r: nat)
      requires Wired() && Base() && Usable()
      modifies chip`rmem, o1`uncertain, `bitmap, `forceUv, `pinBound, `initted
      ensures Base() && Others(old(chip.rmem), chip.rmem, O1_PLACE) && r in {0, 2}
      ensures SameCredentials(old(chip.rmem), chip.rmem)
      ensures r == 0 ==> Usable() && forceUv == old(forceUv) && pinBound == old(pinBound) && bitmap <= old(bitmap)
      ensures SameGuard(old(Value(o1.Now())), Value(o1.Now())) && Older(old(o1.Now()), o1.Now(), 1)
      ensures chip.calm && old(Writable(o1.Now())) ==> r == 0
    {
      hide Genuine, BoundTo, Sound;
      ghost var m := chip.rmem;
      BitsInRange();
      var scrubbed := OrphanScrub();
      if scrubbed == bitmap { return 0; }
      assert scrubbed == bitmap - (bitmap - scrubbed);
      var ok := WriteGlobal(scrubbed, forceUv, pinBound);
      Scrubbed(m, chip.rmem, old(bitmap) - scrubbed);
      if !ok {
        initted := false;
        return 2;
      }
      r := 0;
    }

    /** Fresh O1: only after a completed wipe. */
    method SlotsInitFresh() returns (ok: bool)
      requires Wired() && Base() && pin.Current() == None
      modifies chip`rmem, o1`uncertain, `bitmap, `forceUv, `pinBound, `initted
      ensures Base() && Others(old(chip.rmem), chip.rmem, O1_PLACE)
      ensures ok ==>
                Usable() && o1.Now() == Pair(Valid(1, Global({}, 0, 0)), Valid(1, Global({}, 0, 0))) && pinBound == 0
      ensures Value(o1.Now()) in {old(Value(o1.Now())), None, Some((1, Global({}, 0, 0)))}
      ensures chip.calm ==> ok
    {
      hide Genuine, BoundTo;
      initted := false;
      o1.uncertain := false;
      var st := o1.Init(Global({}, 0, 0));
      ok := st == Ok;
      if ok { bitmap, forceUv, pinBound, initted := {}, 0, 0, true; }
    }

    method WipeMeta() returns (ok: bool)
      requires Wired() && Base()
      modifies chip`rmem
      ensures Base() && OnlyMeta(old(chip.rmem), chip.rmem)
      ensures forall i :: 0 <= i < FIDO_SLOTS ==> MetaAt(chip.rmem, i) in {old(MetaAt(chip.rmem, i)), None}
      ensures ok ==> forall i :: 0 <= i < FIDO_SLOTS ==> MetaAt(chip.rmem, i) == None
      ensures chip.calm ==> ok
    {
      hide Genuine, BoundTo;
      ok := true;
      for i := 0 to FIDO_SLOTS
        invariant ok && OnlyMeta(old(chip.rmem), chip.rmem)
        invariant forall j :: 0 <= j < FIDO_SLOTS ==> MetaAt(chip.rmem, j) in {old(MetaAt(chip.rmem, j)), None}
        invariant forall j :: 0 <= j < i ==> MetaAt(chip.rmem, j) == None
      {
        ok := chip.RmemErase(i + 1);
        if !ok { return; }
        var r := chip.RmemRead(i + 1);
        ok := r == SlotEmpty;
        if !ok { return; }
      }
    }

    /** A metadata slot is written once: erase, then write (not read back). */
    method WriteCred(i: nat, meta: Meta) returns (ok: bool)
      requires i < FIDO_SLOTS
      modifies chip`rmem
      ensures chip.rmem == old(chip.rmem)[i + 1 := chip.rmem[i + 1]]
      ensures ok ==> MetaAt(chip.rmem, i) in {Some(meta), None}
      ensures ok && chip.honest ==> MetaAt(chip.rmem, i) == Some(meta)
      ensures chip.calm ==> ok && MetaAt(chip.rmem, i) == Some(meta)
    {
      ok := chip.RmemErase(i + 1);
      if !ok { return; }
      ok := chip.RmemWrite(i + 1, Credential(meta));
    }

    method FirstFree() returns (i: nat)
      ensures i <= FIDO_SLOTS && (i < FIDO_SLOTS ==> i !in bitmap)
      ensures forall j :: 0 <= j < i ==> j in bitmap
    {
      i := 0;
      while i < FIDO_SLOTS && i in bitmap
        invariant 0 <= i <= FIDO_SLOTS && forall j :: 0 <= j < i ==> j in bitmap
      {
        i := i + 1;
      }
    }

    // ----- the PIN behind its guard -----

    ghost predicate PinAbsent()
      requires Wired()
      reads chip`rmem, pin.rec
    {
      pin.rec.Now() == Pair(Empty, Empty) && !pin.rec.uncertain
    }

    lemma AbsentUsable()
      requires Wired() && Base() && PinAbsent()
      ensures pin.Usable() && pin.Current() == None
    {
    }

    method PinState() returns (st: FidoPin, attempts: nat)
      requires Wired() && Base()
      modifies chip`rmem, chip`mad, chip`rng, pin.rec`uncertain
      ensures chip.rng >= old(chip.rng)
      ensures Base() && Others(old(chip.rmem), chip.rmem, O2_PLACE)
      ensures st == FpNotSet ==> Usable() && pinBound == 0 && pin.rec.Now() == Pair(Empty, Empty) && !pin.rec.uncertain
      ensures st in {FpSet, FpBlocked} ==> Usable() && pin.Current().Some? && (st == FpSet <==> attempts > 0)
      ensures st in {FpSet, FpBlocked} ==> attempts == pin.Attempts()
      ensures SettledOrNot(old(pin.Current()), pin.Current())
      ensures old(pin.IsArmed()) ==> pin.IsArmed()
      ensures Older(old(pin.rec.Now()), pin.rec.Now(), 1)
      ensures chip.calm && old(Usable() && pin.Usable()) && pin.Current().Some? ==>
                !pin.rec.uncertain && st == if pin.Attempts() > 0 then FpSet else FpBlocked
      ensures chip.calm && old(Usable() && PinAbsent()) ==>
                st == (if pinBound == 0 then FpNotSet else FpError) && PinAbsent()
    {
      attempts := 0;
      if !Usable() { return FpError, 0; }
      hide Genuine, BoundTo, Armed;
      var k, att, len := pin.Status();
      match k {
        case StAbsent => st := if pinBound != 0 then FpError else FpNotSet;
        case StActive => st, attempts := FpSet, att;
        case StBlocked => st := FpBlocked;
        case StError => st := FpError;
      }
    }

    /** The first PIN: O2 is bound before O1 says so, and a cut in between is for the boot to finish. */
    method PinSet(mat: Material, pinLen: nat) returns (ok: bool)
      requires Wired() && Base()
      modifies chip`rmem, chip`mad, chip`rng, pin.rec`uncertain, pin`probes, o1`uncertain, `bitmap, `forceUv, `pinBound
      ensures chip.rng >= old(chip.rng)
      ensures Base()
      ensures SamePlaces(old(chip.rmem), chip.rmem)
      ensures ok ==>
                pin.Current().Some? && PinOf(pin.Current().value) == mat && pinBound == 1 && forceUv == 1 && Usable()
      ensures bitmap == old(bitmap) && Bits(o1.Now()) == old(Bits(o1.Now()))
      // A PIN that is set stays; otherwise there is none, or this one.
      ensures old(pin.Current()).Some? ==> !ok && SettledOrNot(old(pin.Current()), pin.Current())
      ensures old(pin.Current()) == None && pin.Current().Some? ==> PinOf(pin.Current().value) == mat
      ensures old(pin.IsArmed()) ==> pin.IsArmed()
      ensures chip.calm && old(Usable() && pinBound == 0 && Writable(o1.Now()) && PinAbsent()) ==> ok
    {
      if PinAbsent() { AbsentUsable(); }
      hide Base;
      var st, attempts := PinState();
      if st != FpNotSet { return false; }
      ok := PinSetup(mat, pinLen);
      if !ok { return; }
      BitsInRange();
      ghost var m := chip.rmem;
      ok := WriteGlobal(bitmap, 1, 1);
      StillArmed(m, chip.rmem);
    }

    lemma StillArmed(m: Rmem, n: Rmem)
      requires Wired() && Others(m, n, O1_PLACE)
      ensures View(n, O2_PLACE) == View(m, O2_PLACE)
    {
    }

    lemma BitsInRange()
      requires Wired() && Base() && Usable()
      ensures GlobalOk(Global(bitmap, forceUv, pinBound)) && Bits(o1.Now()) == bitmap
    {
    }

    method PinSetup(mat: Material, pinLen: nat) returns (ok: bool)
      requires Wired() && Base() && Usable()
      modifies chip`rmem, chip`mad, chip`rng, pin.rec`uncertain, pin`probes
      ensures chip.rng >= old(chip.rng)
      ensures Base() && Others(old(chip.rmem), chip.rmem, O2_PLACE)
      ensures ok ==> pin.Current().Some? && PinOf(pin.Current().value) == mat
      ensures old(pin.Current()) == None && pin.Current().Some? ==> PinOf(pin.Current().value) == mat
      ensures old(pin.IsArmed()) ==> pin.IsArmed()
      ensures chip.calm && old(PinAbsent()) ==> ok
    {
      hide Armed, Retired;
      var rc, k := pin.Setup(mat, pinLen);
      ok := rc == PmdOk;
      if ok || !SettledOrNot(old(pin.Current()), pin.Current()) {
        BoundPin(FIDO_LAYOUT, pin.Current().value, Random(old(chip.rng)), mat);
      }
    }

    /** changePin on the binding. */
    method PinChange(oldMat: Material, newMat: Material, newLen: nat) returns (rc: Code, correct: bool)
      requires Wired() && Base()
      modifies chip`rmem, chip`mad, chip`rng, pin.rec`uncertain, pin`probes
      ensures Base() && Others(old(chip.rmem), chip.rmem, O2_PLACE) && chip.rng >= old(chip.rng)
      ensures correct ==> rc == PmdOk && IsPin(old(pin.Current()), oldMat) && IsPin(pin.Current(), newMat)
      // Whatever is cut: the PIN before, or the new one under the same secret.
      ensures Kept(old(pin.Current()), pin.Current())
              || (IsPin(old(pin.Current()), oldMat) && IsPin(pin.Current(), newMat)
                  && SecretOf(pin.Current().value) == SecretOf(old(pin.Current()).value))
      ensures rc == PmdOk ==> old(pin.Current()).Some? && pin.Current().Some? && !pin.rec.uncertain
      ensures rc == PmdOk && !correct ==> pin.Current().value.next == old(pin.Current()).value.next + 1
      ensures (old(pin.IsArmed()) ==> pin.IsArmed()) && Older(old(pin.rec.Now()), pin.rec.Now(), 6)
      ensures chip.calm && old(pin.Usable() && pin.IsArmed() && Room10(pin.rec.Now()) && pin.Attempts() > 0) ==>
                rc == PmdOk && (correct <==> IsPin(old(pin.Current()), oldMat))
    {
      hide Genuine, BoundTo, Armed, Retired, PairArmed, Room, Room10, Older;
      if pin.Current().Some? { SecretIsDrawn(); }
      var k;
      rc, correct, k := pin.Change(oldMat, newMat, newLen);
      ghost var b := old(pin.Current());
      if Changed(FIDO_LAYOUT, b, pin.Current(), oldMat, newMat, newLen) {
        BoundPin(FIDO_LAYOUT, pin.Current().value, SecretOf(b.value), newMat);
      }
    }

    /** The secret of a binding in the store is a TRNG output. */
    lemma SecretIsDrawn()
      requires Wired() && Base() && pin.Current().Some?
      ensures SecretOf(pin.Current().value).Random?
    {
    }

    /** A guard in RAM has its binding. */
    ghost predicate GuardFits()
      requires Wired()
      reads `pinBound, chip`rmem, pin.rec
    {
      pinBound == 1 ==> pin.Current().Some?
    }

    /** Boot: a committed binding without its guard gets it; a guard without a binding is an error. */
    method PinBoot() returns (ok: bool)
      requires Wired() && Base()
      modifies chip`rmem, chip`mad, chip`rng, pin.rec`uncertain, o1`uncertain, `bitmap, `forceUv, `pinBound
      ensures chip.rng >= old(chip.rng)
      ensures Base() && SamePlaces(old(chip.rmem), chip.rmem) && bitmap == old(bitmap)
      ensures ok ==> Usable() && !pin.rec.uncertain && (pinBound == 1 <==> pin.Current().Some?)
      ensures GuardKept(old(Value(o1.Now())), Value(o1.Now()))
      ensures Bits(o1.Now()) == old(Bits(o1.Now()))
      ensures SettledOrNot(old(pin.Current()), pin.Current()) && (old(pin.IsArmed()) ==> pin.IsArmed())
      ensures chip.calm && old(Usable() && pin.Usable() && Writable(o1.Now()) && GuardFits()) ==> ok
    {
      if !Usable() { return false; }
      hide Genuine, BoundTo, Armed, PairArmed;
      var st, attempts, len := pin.Status();
      if st == StError { return false; }
      if st == StAbsent { return pinBound == 0; }
      if pinBound != 0 { return true; }
      ghost var m := chip.rmem;
      ok := WriteGlobal(bitmap, 1, 1);
      StillArmed(m, chip.rmem);
    }

    method PinClear() returns (ok: bool)
      requires Wired() && Base()
      modifies chip`rmem, chip`mad, chip`rng, pin.rec`uncertain
      ensures chip.rng >= old(chip.rng)
      ensures Base() && Others(old(chip.rmem), chip.rmem, O2_PLACE)
      ensures ok ==> pin.rec.Now() == Pair(Empty, Empty) && !pin.rec.uncertain
      ensures ok ==>
                Retired(FIDO_LAYOUT, 0, chip.mad, old(chip.rng)) && Retired(FIDO_LAYOUT, 1, chip.mad, old(chip.rng))
      ensures pin.Current() in {old(pin.Current()), None}
      ensures chip.calm ==> ok
    {
      hide Genuine, BoundTo, Armed;
      pin.rec.uncertain := false;
      ok := pin.Clear();
    }

    // ----- reset and boot -----

    method EraseKeys() returns (ok: bool)
      requires Wired() && Inv()
      modifies chip`ecc
      ensures Inv()
      ensures forall i :: 0 <= i < ECC_SLOTS ==> chip.ecc[i] in {old(chip.ecc[i]), NoKey}
      ensures ok ==> forall i :: 0 <= i < FIDO_SLOTS ==> chip.ecc[i] == NoKey
      ensures chip.calm ==> ok
    {
      hide Genuine, BoundTo;
      ok := true;
      for i := 0 to FIDO_SLOTS
        invariant ok && forall j :: 0 <= j < ECC_SLOTS ==> chip.ecc[j] in {old(chip.ecc[j]), NoKey}
        invariant forall j :: 0 <= j < i ==> chip.ecc[j] == NoKey
      {
        ok := chip.EccErase(i);
        if !ok { break; }
      }
      FewerIsFine(chip.rmem, chip.rmem, old(chip.ecc), chip.ecc, made);
    }

    method WipeCreds() returns (ok: bool)
      requires Wired() && Inv()
      modifies chip`rmem
      ensures Inv() && FewerCredentials(old(chip.rmem), chip.rmem) && o1.Now() == old(o1.Now())
      ensures pin.rec.Now() == old(pin.rec.Now())
      ensures forall i :: 0 <= i < FIDO_SLOTS ==> MetaAt(chip.rmem, i) in {old(MetaAt(chip.rmem, i)), None}
      ensures ok ==> forall i :: 0 <= i < FIDO_SLOTS ==> MetaAt(chip.rmem, i) == None
      ensures chip.calm ==> ok
    {
      hide Base;
      ok := WipeMeta();
      FewerIsFine(old(chip.rmem), chip.rmem, chip.ecc, chip.ecc, made);
    }

    /** Keys, metadata, PIN, fresh O1, counter: in this order, each step checked. */
    method Wipe() returns (ok: bool)
      requires Wired() && Inv()
      modifies chip`ecc, chip`rmem, chip`mad, chip`rng, chip`counter, pin.rec`uncertain, o1`uncertain, `bitmap
      modifies `forceUv, `pinBound, `initted
      ensures Inv() && FewerCredentials(old(chip.rmem), chip.rmem)
      ensures old(Clean(chip.rmem, chip.ecc)) ==> Clean(chip.rmem, chip.ecc)
      // Until everything is gone, O1 with its PIN guard stays as it was.
      ensures Clean(chip.rmem, chip.ecc) || Value(o1.Now()) == old(Value(o1.Now()))
      ensures ok ==> Clean(chip.rmem, chip.ecc) && Usable() && pinBound == 0 && chip.counter == Some(COUNTER_MAX)
      ensures ok ==> pin.rec.Now() == Pair(Empty, Empty) && !pin.rec.uncertain
      ensures pin.Current() in {old(pin.Current()), None}
      // Whoever sees a new counter sees an empty store.
      ensures chip.counter != old(chip.counter) ==>
                Clean(chip.rmem, chip.ecc) && pin.rec.Now() == Pair(Empty, Empty)
                  && o1.Now().a == o1.Now().b == Valid(1, Global({}, 0, 0))
      ensures chip.calm ==> ok
    {
      hide Base;
      ok := EraseKeys();
      if !ok { return; }
      ok := WipeCreds();
      if !ok { return; }
      ghost var m := chip.rmem;
      ok := PinClear();
      MetaFrame(m, chip.rmem);
      NothingLeft(chip.rmem, chip.ecc, made);
      if !ok { return; }
      m := chip.rmem;
      ok := SlotsInitFresh();
      MetaFrame(m, chip.rmem);
      NothingLeft(chip.rmem, chip.ecc, made);
      if !ok { return; }
      ok := chip.CounterInit(COUNTER_MAX);
    }

    /** Credentials exist only under a PIN guard, or nothing exists at all. */
    ghost predicate Guarded()
      requires Wired()
      reads o1, chip`rmem, chip`ecc
    {
      Clean(chip.rmem, chip.ecc)
      || (Value(o1.Now()).Some? && Value(o1.Now()).value.1.Global? && Value(o1.Now()).value.1.pinBound == 1)
    }

    /** A blank chip, or O1 with the PIN that its guard tells of and a counter. */
    ghost predicate CanBoot()
      requires Wired()
      reads this`initted, o1, chip`rmem, chip`rng, chip`counter, pin, pin.rec
    {
      && !initted && !o1.uncertain
      && (o1.Now() == Pair(Empty, Empty)
          || (&& Room(o1.Now()) && Value(o1.Now()).Some? && Value(o1.Now()).value.1.Global?
              && pin.Usable() && (Value(o1.Now()).value.1.pinBound == 1 ==> pin.Current().Some?)
              && chip.counter.Some? && chip.counter.value <= COUNTER_MAX))
    }

    method Boot() returns (ok: bool)
      requires Wired() && Inv()
      modifies chip`ecc, chip`rmem, chip`mad, chip`rng, chip`counter
      modifies pin.rec`uncertain, o1`uncertain, `bitmap, `forceUv, `pinBound, `initted
      ensures Inv() && FewerCredentials(old(chip.rmem), chip.rmem)
      ensures old(Guarded()) ==> Guarded()
      ensures ok ==> Usable() && !pin.rec.uncertain && chip.counter.Some? && (pinBound == 1 <==> pin.Current().Some?)
      // With O1 there, or already read, nothing is wiped and the PIN stays.
      ensures old(initted) || old(o1.Now()) != Pair(Empty, Empty) ==>
                && SameCredentials(old(chip.rmem), chip.rmem) && chip.ecc == old(chip.ecc)
                && chip.counter == old(chip.counter) && (old(pin.IsArmed()) ==> pin.IsArmed())
      ensures SettledOrNot(old(pin.Current()), pin.Current())
      // The counter is written only on a chip that had no O1.
      ensures chip.counter != old(chip.counter) ==> Clean(chip.rmem, chip.ecc) && old(o1.Now()) == Pair(Empty, Empty)
      ensures chip.calm && old(CanBoot()) ==> ok
    {
      hide Base, FewerCredentials, SettledOrNot;
      UnsettledPin();
      SameIsFewer(chip.rmem, chip.rmem);
      ghost var m := chip.rmem;
      var r := ReadSlots();
      SameIsFewer(m, chip.rmem);
      if r == 1 {
        BlankHasNoPin();
        ok := Wipe();
        return;
      }
      if r != 0 { return false; }
      ghost var n := chip.rmem;
      ok := BootPin();
      SameTrans(m, n, chip.rmem);
      SameIsFewer(m, chip.rmem);
    }

    lemma BlankHasNoPin()
      requires Wired() && Base() && o1.Now() == Pair(Empty, Empty)
      ensures pin.Current() == None
    {
    }

    lemma UnsettledPin()
      requires Wired()
      ensures SettledOrNot(pin.Current(), pin.Current())
    {
    }

    /** O1 into RAM; nothing else changes. */
    method ReadSlots() returns (r: nat)
      requires Wired() && Inv()
      modifies chip`rmem, o1`uncertain, `bitmap, `forceUv, `pinBound, `initted
      ensures Inv() && SameCredentials(old(chip.rmem), chip.rmem) && pin.rec.Now() == old(pin.rec.Now()) && r <= 2
      ensures old(Guarded()) ==> Guarded()
      ensures r == 0 ==> Usable()
      ensures r == 1 ==> o1.Now() == old(o1.Now()) == Pair(Empty, Empty) && !old(initted) && chip.rmem == old(chip.rmem)
      ensures chip.calm && old(CanBoot()) ==>
                if old(o1.Now()) == Pair(Empty, Empty) then r == 1
                else r == 0 && CanBootPin()
    {
      ghost var m := chip.rmem;
      hide Sound, Room;
      RoomIsWritable(o1.Now());
      r := SlotsInit();
      MetaFrame(m, chip.rmem);
      StillArmed(m, chip.rmem);
      RoomLeft(old(o1.Now()), o1.Now());
      SameIsFewer(m, chip.rmem);
      FewerIsFine(m, chip.rmem, chip.ecc, chip.ecc, made);
    }

    ghost predicate CanBootPin()
      requires Wired()
      reads `pinBound, o1, chip`rmem, chip`rng, chip`counter, pin, pin.rec
    {
      && pin.Usable() && Writable(o1.Now()) && GuardFits()
      && chip.counter.Some? && chip.counter.value <= COUNTER_MAX
    }

    /** The PIN and its guard, then the counter. */
    method BootPin() returns (ok: bool)
      requires Wired() && Inv() && Usable()
      modifies chip`rmem, chip`mad, chip`rng, pin.rec`uncertain, o1`uncertain, `bitmap, `forceUv, `pinBound
      ensures Inv() && SameCredentials(old(chip.rmem), chip.rmem) && (old(Guarded()) ==> Guarded())
      ensures ok ==> Usable() && !pin.rec.uncertain && chip.counter.Some? && (pinBound == 1 <==> pin.Current().Some?)
      ensures SettledOrNot(old(pin.Current()), pin.Current()) && (old(pin.IsArmed()) ==> pin.IsArmed())
      ensures chip.calm && old(CanBootPin()) ==> ok
    {
      hide Base, SettledOrNot;
      ghost var m := chip.rmem;
      ok := PinBoot();
      MetaFrame(m, chip.rmem);
      SameBits(m, chip.rmem);
      SameIsFewer(m, chip.rmem);
      FewerIsFine(m, chip.rmem, chip.ecc, chip.ecc, made);
      if !ok { return; }
      var v;
      ok, v := chip.CounterGet();
      ok := ok && v <= COUNTER_MAX;
    }

    /** credstore_init: at most once a boot until it succeeds. */
    method Init() returns (ok: bool)
      requires Wired() && Inv()
      modifies chip`ecc, chip`rmem, chip`mad, chip`rng, chip`counter
      modifies pin.rec`uncertain, o1`uncertain, `bitmap, `forceUv, `pinBound, `initted, `ready
      ensures Inv() && FewerCredentials(old(chip.rmem), chip.rmem) && (old(Guarded()) ==> Guarded())
      ensures ok == ready && (old(ready) ==> ok && chip.rmem == old(chip.rmem) && chip.mad == old(chip.mad))
      ensures !old(ready) && ok ==> Ready() && (pinBound == 1 <==> pin.Current().Some?)
      ensures old(initted) || old(o1.Now()) != Pair(Empty, Empty) ==>
                && SameCredentials(old(chip.rmem), chip.rmem) && chip.ecc == old(chip.ecc)
                && (old(pin.IsArmed()) ==> pin.IsArmed())
      ensures SettledOrNot(old(pin.Current()), pin.Current())
      ensures chip.calm && old(CanBoot()) ==> ok
    {
      hide Base, SettledOrNot, FewerCredentials;
      UnsettledPin();
      SameIsFewer(chip.rmem, chip.rmem);
      if ready { return true; }
      ok := Boot();
      ready := ok;
    }

    /** The way out of every bad state: not ready unless the whole wipe got through. */
    method FactoryReset() returns (ok: bool)
      requires Wired() && Inv()
      modifies chip`ecc, chip`rmem, chip`mad, chip`rng, chip`counter
      modifies pin.rec`uncertain, o1`uncertain, `bitmap, `forceUv, `pinBound, `initted, `ready
      ensures Inv() && FewerCredentials(old(chip.rmem), chip.rmem) && (old(Guarded()) ==> Guarded())
      ensures ok == ready && (ok ==> Ready() && Clean(chip.rmem, chip.ecc) && pin.Current() == None)
      ensures pin.Current() in {old(pin.Current()), None}
      ensures chip.calm ==> ok
    {
      hide Base;
      ready := false;
      ok := Wipe();
      if ok { ready := true; }
    }

    // ----- credentials -----

    method DrawNonce() returns (ok: bool)
      requires Wired() && Inv()
      modifies chip`rng
      ensures Inv() && (if ok then chip.rng == old(chip.rng) + 1 else chip.rng >= old(chip.rng))
      ensures chip.calm ==> ok
    {
      hide BoundTo;
      var t;
      ok, t := chip.RandomTerm();
    }

    method WriteFreeCred(idx: nat, meta: Meta) returns (ok: bool)
      requires Wired() && Inv() && Usable() && idx < FIDO_SLOTS && idx !in bitmap
      modifies chip`rmem
      ensures Inv() && SameCredentials(old(chip.rmem), chip.rmem) && o1.Now() == old(o1.Now())
      ensures ok ==>
                MetaAt(chip.rmem, idx) in {Some(meta), None} && (chip.honest ==> MetaAt(chip.rmem, idx) == Some(meta))
      ensures chip.calm ==> ok && MetaAt(chip.rmem, idx) == Some(meta)
    {
      hide Genuine, BoundTo, Sound;
      BitsInRange();
      ok := WriteCred(idx, meta);
      FreeSlotChanges(old(chip.rmem), chip.rmem, idx);
      SameIsFewer(old(chip.rmem), chip.rmem);
      FewerIsFine(old(chip.rmem), chip.rmem, chip.ecc, chip.ecc, made);
    }

    /** The slot that an allocation takes. */
    predicate FirstFreeIs(slot: nat)
      reads `bitmap
    {
      slot <= FIDO_SLOTS && slot !in bitmap && forall j :: 0 <= j < slot ==> j in bitmap
    }

    /**
     Nothing resolves differently until the one write of O1, and then everything does at once.  `key` is
     what the caller generated in the slot: a number that no credential has.
     */
    method Alloc(meta0: Meta, replaced: set<nat>, ghost slot: nat, ghost key: nat)
      returns (rc: AllocRc, idx: nat, nonce: nat)
      requires Wired() && Inv() && NewAccount(chip.rmem, meta0, replaced) && FirstFreeIs(slot)
      requires slot < FIDO_SLOTS ==> chip.ecc[slot] == Key(key)
      requires key < chip.rng && forall n :: n in made ==> made[n] < key
      modifies chip`rmem, chip`rng, o1`uncertain, `bitmap, `forceUv, `pinBound, `made
      ensures Inv() && nonce >= old(chip.rng)
      ensures var m, n, meta := old(chip.rmem), chip.rmem, meta0.(nonce := nonce);
              || SameCredentials(m, n)
              || (Published(m, n, idx, meta, replaced) && idx == slot && nonce in made && made[nonce] == key
                  && (chip.honest ==> Whole(m, n, idx, meta, replaced)))
      ensures rc == AllocOk ==>
                && Published(old(chip.rmem), chip.rmem, idx, meta0.(nonce := nonce), replaced) && Usable()
                && idx == slot < FIDO_SLOTS && bitmap == (old(bitmap) + {idx}) - replaced && nonce in made
                && made[nonce] == key
                && (chip.honest ==> Whole(old(chip.rmem), chip.rmem, idx, meta0.(nonce := nonce), replaced))
      ensures rc in {AllocFull, AllocChip} ==>
                && SameCredentials(old(chip.rmem), chip.rmem) && o1.Now() == old(o1.Now())
                && bitmap == old(bitmap) && Usable() == old(Usable())
      ensures rc == AllocFull ==> forall i :: 0 <= i < FIDO_SLOTS ==> i in bitmap
      ensures made == old(made) || (made == old(made)[nonce := key] && slot < FIDO_SLOTS)
      ensures chip.calm && slot < FIDO_SLOTS && old(Usable() && Writable(o1.Now())) ==>
                rc == AllocOk && Whole(old(chip.rmem), chip.rmem, idx, meta0.(nonce := nonce), replaced)
    {
      hide Base;
      nonce, idx := chip.rng, FIDO_SLOTS;
      if !Usable() { return AllocChip, idx, nonce; }
      BitsInRange();
      idx := FirstFree();
      if idx == FIDO_SLOTS { return AllocFull, idx, nonce; }
      var got := DrawNonce();
      if !got { return AllocChip, idx, nonce; }
      var meta := meta0.(nonce := nonce);
      var ok := WriteFreeCred(idx, meta);
      if !ok { return AllocChip, idx, nonce; }
      ghost var m := chip.rmem;
      ok := Publish(idx, meta, replaced, key);
      if Published(m, chip.rmem, idx, meta, replaced) {
        PublishedSince(old(chip.rmem), m, chip.rmem, idx, meta, replaced);
      }
      if SameCredentials(m, chip.rmem) { SameTrans(old(chip.rmem), m, chip.rmem); }
      rc := if ok then AllocOk else AllocUnknown;
    }

    /** The one write that lists the new credential and delists the replaced ones. */
    method Publish(idx: nat, meta: Meta, replaced: set<nat>, ghost key: nat) returns (ok: bool)
      requires Wired() && Inv() && Usable() && NewAccount(chip.rmem, meta, replaced)
      requires idx < FIDO_SLOTS && idx !in bitmap && MetaAt(chip.rmem, idx) in {Some(meta), None}
      requires chip.ecc[idx] == Key(key)
      requires meta.nonce !in made && meta.nonce < chip.rng && key < chip.rng && forall n :: n in made ==> made[n] < key
      modifies chip`rmem, o1`uncertain, `bitmap, `forceUv, `pinBound, `made
      ensures Inv() && made == old(made)[meta.nonce := key]
      ensures SameCredentials(old(chip.rmem), chip.rmem) || Published(old(chip.rmem), chip.rmem, idx, meta, replaced)
      ensures MetaAt(chip.rmem, idx) == old(MetaAt(chip.rmem, idx))
      ensures ok ==>
                && Published(old(chip.rmem), chip.rmem, idx, meta, replaced) && Usable()
                && bitmap == (old(bitmap) + {idx}) - replaced
      ensures chip.calm && old(Writable(o1.Now())) ==> ok
    {
      ghost var m := chip.rmem;
      BitsInRange();
      hide Base;
      made := made[meta.nonce := key];
      ok := WriteGlobal((bitmap + {idx}) - replaced, forceUv, pinBound);
      MetaFrame(m, chip.rmem);
      PublishStep(m, chip.rmem, idx, meta, replaced, chip.ecc, key, old(made), made);
    }

    method FreshKey(idx: nat) returns (ok: bool, ghost key: nat)
      requires Wired() && Inv() && Usable() && idx < FIDO_SLOTS && idx !in bitmap
      modifies chip`ecc, chip`rng
      ensures Inv() && chip.rng >= old(chip.rng)
      ensures forall i :: 0 <= i < ECC_SLOTS && i != idx ==> chip.ecc[i] == old(chip.ecc[i])
      ensures ok ==> chip.ecc[idx] == Key(key) && old(chip.rng) <= key < chip.rng
      ensures chip.calm ==> ok
    {
      hide BoundTo;
      BitsInRange();
      key := chip.rng;
      ok := chip.EccErase(idx);
      if ok { ok := chip.EccGenerate(idx); }
      if ok { ok := chip.EccHasKey(idx); }
      if !ok { var ignore := chip.EccErase(idx); }
      FreeKeyChanges(chip.rmem, old(chip.ecc), chip.ecc, made, idx);
    }

    /** Generate in a free slot, then publish; a key that was surely not published is erased again. */
    method Make(meta0: Meta, replaced: set<nat>) returns (rc: MakeRc, idx: nat, nonce: nat)
      requires Wired() && Inv() && NewAccount(chip.rmem, meta0, replaced)
      modifies chip`ecc, chip`rmem, chip`rng, o1`uncertain, `bitmap, `forceUv, `pinBound, `made
      ensures Inv() && nonce >= old(chip.rng)
      // Nothing happened, or the new credential is listed with the key that this call generated for it.
      ensures SameCredentials(old(chip.rmem), chip.rmem)
                || Made(old(chip.rmem), old(chip.rng), idx, meta0.(nonce := nonce), replaced)
      ensures rc == MakeOk ==>
                && Made(old(chip.rmem), old(chip.rng), idx, meta0.(nonce := nonce), replaced)
                && Usable() && bitmap == (old(bitmap) + {idx}) - replaced
      // Keys of other credentials are not touched, whatever happens.
      ensures forall i :: 0 <= i < ECC_SLOTS && chip.ecc[i] != old(chip.ecc[i]) ==>
                i < FIDO_SLOTS && i !in old(bitmap) && old(Usable())
      ensures chip.calm && old(Usable() && Writable(o1.Now()) && HasFree()) ==>
                rc == MakeOk && Whole(old(chip.rmem), chip.rmem, idx, meta0.(nonce := nonce), replaced)
    {
      hide Base, Whole, Published;
      nonce, idx := chip.rng, FIDO_SLOTS;
      if !Usable() { return MakeFailed, idx, nonce; }
      BitsInRange();
      idx := FirstFree();
      if idx == FIDO_SLOTS { return MakeFull, idx, nonce; }
      var ok; ghost var key;
      ok, key := FreshKey(idx);
      if !ok { return MakeFailed, idx, nonce; }
      var a, got;
      a, got, nonce := Alloc(meta0, replaced, idx, key);
      if a == AllocUnknown { return MakeFailed, got, nonce; }
      if a != AllocOk || got != idx {
        DropKey(idx);
        return if a == AllocFull then MakeFull else MakeFailed, got, nonce;
      }
      return MakeOk, idx, nonce;
    }

    /** Published since `m`, under a key drawn since `since`; whole if no torn call claimed success. */
    ghost predicate Made(m: Rmem, since: nat, idx: nat, meta: Meta, replaced: set<nat>)
      reads chip, `made
    {
      && Published(m, chip.rmem, idx, meta, replaced)
      && meta.nonce in made && since <= made[meta.nonce] < chip.rng && chip.ecc[idx] == Key(made[meta.nonce])
      && (chip.honest ==> Whole(m, chip.rmem, idx, meta, replaced))
    }

    method DropKey(idx: nat)
      requires Wired() && Inv() && idx < FIDO_SLOTS
      modifies chip`ecc
      ensures Inv()
      ensures forall i :: 0 <= i < ECC_SLOTS && i != idx ==> chip.ecc[i] == old(chip.ecc[i])
      ensures chip.ecc[idx] in {old(chip.ecc[idx]), NoKey}
    {
      hide BoundTo;
      var ignore := chip.EccErase(idx);
      FewerIsFine(chip.rmem, chip.rmem, old(chip.ecc), chip.ecc, made);
    }

    /** Key first, then the bitmap bit, then the metadata. */
    method EraseSlot(i: nat) returns (ok: bool)
      requires Wired() && Inv() && i < FIDO_SLOTS
      modifies chip`ecc, chip`rmem, o1`uncertain, `bitmap, `forceUv, `pinBound
      ensures Inv() && (ok ==> chip.ecc[i] == NoKey && Resolved(chip.rmem, i) == None && i !in bitmap && Usable())
      ensures forall j :: 0 <= j < FIDO_SLOTS ==>
                Resolved(chip.rmem, j) == old(Resolved(chip.rmem, j)) || (j == i && Resolved(chip.rmem, j) == None)
      ensures forall j :: 0 <= j < ECC_SLOTS && j != i ==> chip.ecc[j] == old(chip.ecc[j])
      ensures Resolved(chip.rmem, i) != old(Resolved(chip.rmem, i)) ==> chip.ecc[i] == NoKey     // the key went first
      ensures chip.ecc[i] in {old(chip.ecc[i]), NoKey}
      ensures old(Usable() && i !in bitmap) ==> o1.Now() == old(o1.Now()) && Usable() && bitmap == old(bitmap)
      ensures bitmap == old(bitmap) || bitmap == old(bitmap) - {i}
      ensures forall j :: 0 <= j < FIDO_SLOTS && j != i ==> MetaAt(chip.rmem, j) == old(MetaAt(chip.rmem, j))
      ensures chip.calm && old(Usable() && (i in bitmap ==> Writable(o1.Now()))) ==> ok && MetaAt(chip.rmem, i) == None
    {
      hide Base;
      if !Usable() { return false; }
      BitsInRange();
      ok := EraseKey(i);
      if !ok { return; }
      if i in bitmap {
        ghost var m := chip.rmem;
        ok := WriteGlobal(bitmap - {i}, forceUv, pinBound);
        MetaFrame(m, chip.rmem);
        Unlisted(m, chip.rmem, i);
        FewerIsFine(m, chip.rmem, chip.ecc, chip.ecc, made);
        if !ok { return; }
        BitsInRange();
      }
      ok := EraseFreeMeta(i);
    }

    method EraseKey(i: nat) returns (ok: bool)
      requires Wired() && Inv() && i < FIDO_SLOTS
      modifies chip`ecc
      ensures Inv() && (ok ==> chip.ecc[i] == NoKey) && chip.ecc[i] in {old(chip.ecc[i]), NoKey} && (chip.calm ==> ok)
      ensures forall j :: 0 <= j < ECC_SLOTS && j != i ==> chip.ecc[j] == old(chip.ecc[j])
    {
      hide BoundTo;
      ok := chip.EccErase(i);
      FewerIsFine(chip.rmem, chip.rmem, old(chip.ecc), chip.ecc, made);
    }

    method EraseFreeMeta(i: nat) returns (ok: bool)
      requires Wired() && Inv() && Usable() && i < FIDO_SLOTS && i !in bitmap
      modifies chip`rmem
      ensures Inv() && SameCredentials(old(chip.rmem), chip.rmem) && o1.Now() == old(o1.Now())
      ensures Resolved(chip.rmem, i) == None && (chip.calm ==> ok && MetaAt(chip.rmem, i) == None)
      ensures forall j :: 0 <= j < FIDO_SLOTS && j != i ==> MetaAt(chip.rmem, j) == old(MetaAt(chip.rmem, j))
    {
      hide Genuine, BoundTo;
      ok := chip.RmemErase(i + 1);
      FreeSlotChanges(old(chip.rmem), chip.rmem, i);
      FewerIsFine(old(chip.rmem), chip.rmem, chip.ecc, chip.ecc, made);
    }

    /** An ID resolves exactly when its slot is listed and holds its nonce (a read error aside). */
    method Lookup(version: nat, i: nat, nonce: nat) returns (r: Option<Meta>)
      requires Wired() && Base()
      ensures r.Some? ==>
                version == 1 && i < FIDO_SLOTS && Resolved(chip.rmem, i) == r && r.value.nonce == nonce && i in bitmap
      ensures chip.calm && Usable() && version == 1 && i < FIDO_SLOTS ==>
                (r.Some? <==> Resolved(chip.rmem, i).Some? && Resolved(chip.rmem, i).value.nonce == nonce)
    {
      if !Usable() || version != 1 || i >= FIDO_SLOTS { return None; }
      BitsInRange();
      if i !in bitmap { return None; }
      var c := ReadCred(i);
      if c.Found? && c.meta.nonce == nonce { return Some(c.meta); }
      return None;
    }

    /** As Lookup, for the RP the credential was made for. */
    method Find(version: nat, i: nat, nonce: nat, rp: nat) returns (r: Option<Meta>)
      requires Wired() && Base()
      ensures r.Some? ==> i < FIDO_SLOTS && Resolved(chip.rmem, i) == r && r.value.nonce == nonce && r.value.rp == rp
    {
      r := Lookup(version, i, nonce);
      if r.Some? && r.value.rp != rp { r := None; }
    }

    // ----- accounts -----

    /** One pass: the next creation number and the credentials of the same account; any unreadable one refuses. */
    method Scan(rk: bool, rp: nat, user: nat) returns (ok: bool, created: nat, replaced: set<nat>)
      requires Wired() && Base() && Usable()
      ensures ok ==> created <= U32_MAX && Next(chip.rmem, created)
      ensures ok ==> forall i :: i in bitmap ==>
                i < FIDO_SLOTS && Resolved(chip.rmem, i).Some? && Resolved(chip.rmem, i).value.created < created
      ensures ok ==> forall i :: i in replaced <==>
                i in bitmap && i < FIDO_SLOTS && rk
                  && SameAccount(Resolved(chip.rmem, i).value, Meta(0, true, rp, user, 0, 0))
      ensures ok ==> replaced == AccountSlots(chip.rmem, rk, rp, user)
      ensures chip.calm && AllReadable(chip.rmem) && Numbered(chip.rmem, U32_MAX - 1) ==> ok
    {
      BitsInRange();
      ok, created, replaced := false, 0, {};
      var max: nat := 0;
      ghost var top: Option<nat> := None;
      for i := 0 to FIDO_SLOTS
        invariant forall j :: j in bitmap && j < i ==>
                  Resolved(chip.rmem, j).Some? && Resolved(chip.rmem, j).value.created <= max
        invariant if top == None then max == 0 && forall j :: j in bitmap ==> j >= i
                  else top.value in bitmap && top.value < i && Resolved(chip.rmem, top.value).Some?
                       && Resolved(chip.rmem, top.value).value.created == max
        invariant forall j :: j in replaced <==>
                    j in bitmap && j < i && rk && Resolved(chip.rmem, j).Some?
                      && SameAccount(Resolved(chip.rmem, j).value, Meta(0, true, rp, user, 0, 0))
      {
        if i in bitmap {
          var r := ReadCred(i);
          if !r.Found? { return; }
          if r.meta.created > max || top == None { top := Some(i); }
          if r.meta.created > max { max := r.meta.created; }
          if rk && r.meta.resident && r.meta.rp == rp && r.meta.user == user { replaced := replaced + {i}; }
        }
      }
      if max >= U32_MAX { return; }
      assert forall i :: i in replaced <==> i in AccountSlots(chip.rmem, rk, rp, user);
      ok, created := true, max + 1;
    }

    /** authenticatorMakeCredential, after its checks: scan, make, drop the replaced keys. */
    method MakeCredential(rk: bool, alg: nat, rp: nat, user: nat)
      returns (rc: MakeRc, idx: nat, nonce: nat, ghost created: nat)
      requires Wired() && Inv()
      modifies chip`ecc, chip`rmem, chip`rng, o1`uncertain, `bitmap, `forceUv, `pinBound, `made
      ensures Inv()
      // One step, whatever is cut: all as it was, or the account's credentials replaced by a new one.
      ensures SameCredentials(old(chip.rmem), chip.rmem)
              || Made(old(chip.rmem), old(chip.rng), idx, Meta(alg, rk, rp, user, nonce, created),
                      AccountSlots(old(chip.rmem), rk, rp, user))
      ensures rc == MakeOk ==>
                && Made(old(chip.rmem), old(chip.rng), idx, Meta(alg, rk, rp, user, nonce, created),
                        AccountSlots(old(chip.rmem), rk, rp, user))
                && Next(old(chip.rmem), created) && nonce >= old(chip.rng)
      ensures !SameCredentials(old(chip.rmem), chip.rmem) ==> Next(old(chip.rmem), created)
      ensures chip.calm && old(CanMake()) ==>
                rc == MakeOk && idx < FIDO_SLOTS
                  && Resolved(chip.rmem, idx) == Some(Meta(alg, rk, rp, user, nonce, created))
                  && Erased(AccountSlots(old(chip.rmem), rk, rp, user))
    {
      hide Base, Creds, AccountSlots, AllReadable, Whole, Next, Numbered, NewAccount;
      idx, nonce, created := FIDO_SLOTS, 0, 0;
      if !Usable() { return MakeFailed, idx, nonce, 0; }
      var ok, next, replaced := Scan(rk, rp, user);
      created := next;
      if !ok { return MakeFailed, idx, nonce, next; }
      var meta0 := Meta(alg, rk, rp, user, 0, next);
      IsNew(meta0, replaced);
      ghost var m := chip.rmem;
      rc, idx, nonce := Make(meta0, replaced);
      if rc != MakeOk { return; }
      if Whole(m, chip.rmem, idx, meta0.(nonce := nonce), replaced) {
        WholeResolves(m, chip.rmem, idx, meta0.(nonce := nonce), replaced);
      }
      DropReplaced(m, old(chip.rng), idx, meta0.(nonce := nonce), replaced);
    }

    lemma IsNew(meta: Meta, replaced: set<nat>)
      requires Wired() && Inv() && Usable() && Next(chip.rmem, meta.created)
      requires forall i :: i in bitmap ==> i < FIDO_SLOTS && Resolved(chip.rmem, i).Some?
      requires replaced == AccountSlots(chip.rmem, meta.resident, meta.rp, meta.user)
      ensures NewAccount(chip.rmem, meta, replaced)
    {
      BitsInRange();
      hide Base;
    }

    /** A slot is free, every listed credential can be read, and numbers are left. */
    ghost predicate CanMake()
      requires Wired()
      reads this, o1, chip`rmem
    {
      && Usable() && Writable(o1.Now()) && AllReadable(chip.rmem) && HasFree()
      && Numbered(chip.rmem, U32_MAX - 1)
    }

    predicate HasFree()
      reads `bitmap
    {
      exists i :: 0 <= i < FIDO_SLOTS && i !in bitmap
    }

    /** Neither key nor metadata is left in these slots. */
    ghost predicate Erased(slots: set<nat>)
      reads chip`ecc, chip`rmem
    {
      forall i :: i in slots && i < FIDO_SLOTS ==> chip.ecc[i] == NoKey && MetaAt(chip.rmem, i) == None
    }

    /** The replaced credentials no longer resolve; what is left of them goes now, and nothing else does. */
    method DropReplaced(ghost m: Rmem, ghost since: nat, idx: nat, ghost meta: Meta, replaced: set<nat>)
      requires Wired() && Inv() && Made(m, since, idx, meta, replaced) && idx !in replaced
      requires Usable() && replaced !! bitmap
      modifies chip`ecc, chip`rmem, o1`uncertain, `bitmap, `forceUv, `pinBound
      ensures Inv() && Made(m, since, idx, meta, replaced) && SameCredentials(old(chip.rmem), chip.rmem)
      ensures forall i :: 0 <= i < ECC_SLOTS && chip.ecc[i] != old(chip.ecc[i]) ==>
                i in replaced && chip.ecc[i] == NoKey
      ensures chip.calm ==> Erased(replaced)
    {
      hide Base;
      ghost var n := chip.rmem;
      for i := 0 to FIDO_SLOTS
        invariant Inv() && chip.ecc[idx] == old(chip.ecc)[idx] && MetaAt(chip.rmem, idx) == MetaAt(n, idx)
        invariant SameCredentials(n, chip.rmem) && Usable() && replaced !! bitmap
        invariant forall j :: 0 <= j < ECC_SLOTS && chip.ecc[j] != old(chip.ecc)[j] ==>
                    j in replaced && chip.ecc[j] == NoKey
        invariant chip.calm ==>
                    forall j :: j in replaced && j < i ==> chip.ecc[j] == NoKey && MetaAt(chip.rmem, j) == None
      {
        if i in replaced {
          ghost var was := chip.rmem;
          assert Resolved(n, i) == None;
          var gone := EraseSlot(i);
          SameTrans(n, was, chip.rmem);
        }
      }
    }
  }

  /**
   What an acknowledged metadata write is worth: published, the credential resolves if and only if that
   write was not torn.  After a torn one the replaced credentials are gone and nothing has come.
   */
  lemma TornExact(m: Rmem, n: Rmem, idx: nat, meta: Meta, replaced: set<nat>)
    requires idx < FIDO_SLOTS && idx !in replaced && idx !in Bits(View(m, O1_PLACE))
    requires forall j :: 1 <= j <= FIDO_SLOTS && j != idx + 1 ==> n[j] == m[j]
    requires WriteOutcome(Blank, Credential(meta), n[idx + 1], true)
    requires Bits(View(n, O1_PLACE)) == (Bits(View(m, O1_PLACE)) + {idx}) - replaced
    ensures Published(m, n, idx, meta, replaced)
    ensures Resolved(n, idx) == Some(meta) <==> n[idx + 1] == Held(Credential(meta), false)
    ensures n[idx + 1] != Held(Credential(meta), false) ==>
              forall i :: 0 <= i < FIDO_SLOTS ==> Resolved(n, i) == if i in replaced then None else Resolved(m, i)
  {
    forall i | 0 <= i < FIDO_SLOTS && i != idx ensures MetaAt(n, i) == MetaAt(m, i) {
      assert n[i + 1] == m[i + 1];
    }
  }

  /** Such a write exists, and it takes an account's only credential away. */
  lemma TornLosesAccount(was: Meta, meta: Meta) returns (m: Rmem, torn: Rmem, n: Rmem)
    requires was.resident && meta.resident && SameAccount(was, meta)
    ensures Resolved(m, 0) == Some(was) && AccountSlots(m, true, meta.rp, meta.user) == {0}
    ensures torn == m[2 := torn[2]] && WriteOutcome(m[2], Credential(meta), torn[2], true)
    ensures Others(torn, n, O1_PLACE)
    ensures WroteOrNot(Value(View(torn, O1_PLACE)), Value(View(n, O1_PLACE)), Global({1}, 0, 1))
    ensures Published(m, n, 1, meta, {0}) && forall i :: 0 <= i < FIDO_SLOTS ==> Resolved(n, i) == None
  {
    var o1 := Held(Record(1, 1, 1, Global({0}, 0, 1)), false);
    var next := Held(Record(1, 1, 2, Global({1}, 0, 1)), false);
    var blank: Rmem := seq(RMEM_SLOTS, _ => Blank);
    m := blank[0 := o1][40 := o1][1 := Held(Credential(was), false)];
    torn := m[2 := Held(Garbage, false)];
    n := torn[0 := next][40 := next];
    assert View(m, O1_PLACE).a == Valid(1, Global({0}, 0, 1)) && View(n, O1_PLACE).a == Valid(2, Global({1}, 0, 1));
    assert forall i :: i in AccountSlots(m, true, meta.rp, meta.user) <==> i == 0;
  }

  lemma WholeResolves(m: Rmem, n: Rmem, idx: nat, meta: Meta, replaced: set<nat>)
    requires Whole(m, n, idx, meta, replaced) && idx !in replaced
    ensures idx < FIDO_SLOTS && Resolved(n, idx) == Some(meta)
  {
  }

  predicate IsPin(b: Option<Binding>, mat: Material) { b.Some? && PinOf(b.value) == mat }

  /** The binding is still there, the same one. */
  predicate Kept(b: Option<Binding>, c: Option<Binding>) {
    (b.Some? <==> c.Some?) && (b.Some? ==> SameBinding(b.value, c.value))
  }

  datatype MakeRc = MakeOk | MakeFull | MakeFailed

  lemma SameIsFewer(m: Rmem, n: Rmem)
    requires SameCredentials(m, n)
    ensures FewerCredentials(m, n)
  {
  }

  lemma SameBits(m: Rmem, n: Rmem)
    requires Bits(View(n, O1_PLACE)) == Bits(View(m, O1_PLACE))
    requires forall i :: 0 <= i < FIDO_SLOTS ==> MetaAt(n, i) == MetaAt(m, i)
    ensures SameCredentials(m, n)
  {
  }

  lemma RoomIsWritable(v: Pair)
    ensures Room(v) && Value(v).Some? ==> Writable(v)
  {
  }

  lemma RoomLeft(v: Pair, w: Pair)
    ensures Older(v, w, 1) && Room(v) && Value(v).Some? ==> Writable(w)
  {
  }

  lemma SameTrans(m: Rmem, n: Rmem, o: Rmem)
    requires SameCredentials(m, n) && SameCredentials(n, o)
    ensures SameCredentials(m, o)
  {
  }

  /** A bitmap write that takes out bits of slots that read empty. */
  lemma Scrubbed(m: Rmem, n: Rmem, gone: set<nat>)
    requires Others(m, n, O1_PLACE)
    requires Bits(View(n, O1_PLACE)) in {Bits(View(m, O1_PLACE)), Bits(View(m, O1_PLACE)) - gone}
    requires forall i :: i in gone && i < FIDO_SLOTS ==> ReadCell(m[i + 1]) == SlotEmpty
    ensures SameCredentials(m, n)
  {
    MetaFrame(m, n);
  }

  /** A bitmap write that takes one bit away. */
  lemma Unlisted(m: Rmem, n: Rmem, i: nat)
    requires i < FIDO_SLOTS && Others(m, n, O1_PLACE)
    requires Bits(View(n, O1_PLACE)) in {Bits(View(m, O1_PLACE)), Bits(View(m, O1_PLACE)) - {i}}
    ensures forall j :: 0 <= j < FIDO_SLOTS ==> Resolved(n, j) == Resolved(m, j) || (j == i && Resolved(n, j) == None)
  {
    MetaFrame(m, n);
    forall j | 0 <= j < FIDO_SLOTS ensures Resolved(n, j) == Resolved(m, j) || (j == i && Resolved(n, j) == None) {
    }
  }

  datatype AllocRc = AllocOk | AllocFull | AllocChip | AllocUnknown

  /** What the caller of an allocation has made sure of. */
  ghost predicate NewAccount(m: Rmem, meta: Meta, replaced: set<nat>) {
    forall i :: 0 <= i < FIDO_SLOTS && i !in replaced && Resolved(m, i).Some? ==>
      !SameAccount(Resolved(m, i).value, meta) && Resolved(m, i).value.created != meta.created
  }

  lemma PublishedSince(l: Rmem, m: Rmem, n: Rmem, idx: nat, meta: Meta, replaced: set<nat>)
    requires SameCredentials(l, m) && Published(m, n, idx, meta, replaced)
    ensures Published(l, n, idx, meta, replaced)
    ensures MetaAt(n, idx) == Some(meta) ==> Whole(l, n, idx, meta, replaced)
  {
  }

  /** The bitmap write: before it nothing has changed, after it the new credential is in and the replaced are out. */
  lemma PublishStep(m: Rmem, n: Rmem, idx: nat, meta: Meta, replaced: set<nat>, ecc: Ecc, key: nat,
                    made: map<nat, nat>, made': map<nat, nat>)
    requires idx < FIDO_SLOTS && Others(m, n, O1_PLACE) && idx !in Bits(View(m, O1_PLACE))
    requires MetaAt(m, idx) in {Some(meta), None}
    requires Bits(View(n, O1_PLACE)) in {Bits(View(m, O1_PLACE)), (Bits(View(m, O1_PLACE)) + {idx}) - replaced}
    requires KeysMatch(m, ecc, made) && Accounts(m) && NewAccount(m, meta, replaced)
    requires meta.nonce !in made && made' == made[meta.nonce := key] && ecc[idx] == Key(key)
    ensures KeysMatch(n, ecc, made') && Accounts(n)
    ensures Bits(View(n, O1_PLACE)) == Bits(View(m, O1_PLACE)) ==> SameCredentials(m, n)
    ensures Bits(View(n, O1_PLACE)) == (Bits(View(m, O1_PLACE)) + {idx}) - replaced ==>
              Published(m, n, idx, meta, replaced)
  {
    MetaFrame(m, n);
    if Bits(View(n, O1_PLACE)) == (Bits(View(m, O1_PLACE)) + {idx}) - replaced {
      forall i | 0 <= i < FIDO_SLOTS
        ensures Resolved(n, i) == if i in replaced then None else if i == idx then MetaAt(n, idx) else Resolved(m, i)
      {
      }
    } else {
      forall i | 0 <= i < FIDO_SLOTS ensures Resolved(n, i) == Resolved(m, i) {
      }
    }
  }

  datatype FidoPin = FpNotSet | FpSet | FpBlocked | FpError

  ghost predicate OnlyMeta(m: Rmem, n: Rmem) {
    forall j :: 0 <= j < RMEM_SLOTS && !(1 <= j <= FIDO_SLOTS) ==> n[j] == m[j]
  }

  /** Metadata slots and the other application's slots are as they were. */
  ghost predicate SamePlaces(m: Rmem, n: Rmem) {
    forall j :: 0 <= j < RMEM_SLOTS && j !in {0, 40, 41, 42} ==> n[j] == m[j]
  }

  /** The guard is never taken back. */
  predicate GuardKept(o: Option<(nat, Payload)>, o': Option<(nat, Payload)>) {
    o'.Some? == o.Some?
      && (o.Some? && o.value.1.Global? && o.value.1.pinBound == 1 ==> o'.value.1.Global? && o'.value.1.pinBound == 1)
  }

  /** The PIN guard of O1 is what it was. */
  predicate SameGuard(o: Option<(nat, Payload)>, o': Option<(nat, Payload)>) {
    match (o, o')
    case (None, None) => true
    case (Some(p), Some(q)) => q.1 == p.1
      || (p.1.Global? && q.1.Global? && q.1.pinBound == p.1.pinBound && q.1.forceUv == p.1.forceUv)
    case _ => false
  }
}

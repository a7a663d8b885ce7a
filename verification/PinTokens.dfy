/**
 ClientPIN: the pinUvAuthToken and the wrong-PIN latch, on the FIDO PIN.
 */
module PinTokens {
  import opened Values
  import opened ChipModel
  import opened RecPairs
  import opened PinKernel
  import opened Layouts
  import opened FidoStore

  const PERM_MC: bv8 := 0x01
  const PERM_GA: bv8 := 0x02
  const NOT_OFFERED: bv64 := 0x18      // bioEnroll and largeBlobs
  const PERMS_KNOWN: bv8 := 0x3F
  const INITIAL_USE_MS: nat := 30000
  const MAX_LIFE_MS: nat := 600000
  const TICKS: nat := 0x1_0000_0000
  const MAX_CONSEC: nat := 3

  /** pinUvAuthParam: the MAC of a message under a token. */
  datatype Param = Param(token: Term, msg: seq<byte>)

  datatype Status =
    | Success | OtherError | InvalidParameter | PinNotSet | PinInvalid | PinBlocked | PinAuthInvalid | PinAuthBlocked
    | PolicyViolation | UnauthorizedPermission | MissingParameter | NotAllowed

  /** What becomes of the new PIN behind newPinEnc. */
  datatype NewPin = Accepted(mat: Material, len: nat) | Unfit | Undecipherable

  /** What a token request asks for, or why it cannot have it. */
  datatype Grant = Granted(perms: bv8) | Denied(status: Status)

  /** The 64-bit permissions of the request, cut to the token's byte. */
  function KnownOf(asked: bv64): bv8 { (asked & 0x3F) as bv8 }

  function Grants(withPerms: bool, asked: Option<bv64>, rp: Option<nat>): Grant {
    if !withPerms then
      if asked.Some? || rp.Some? then Denied(InvalidParameter) else Granted(PERM_MC | PERM_GA)
    else if asked == None then Denied(MissingParameter)
    else if asked.value == 0 then Denied(InvalidParameter)
    else if asked.value & NOT_OFFERED != 0 then Denied(UnauthorizedPermission)
    else Granted(KnownOf(asked.value))
  }

  /** No token permits what this authenticator does not offer, or more than was asked for. */
  lemma GrantsAreOffered(withPerms: bool, asked: Option<bv64>, rp: Option<nat>)
    ensures var g := Grants(withPerms, asked, rp);
      g.Granted? ==>
        && g.perms & PERMS_KNOWN == g.perms && g.perms & 0x18 == 0
        && (withPerms ==> asked.Some? && (g.perms as bv64) & asked.value == g.perms as bv64)
  {
    if withPerms && asked.Some? { BitsOf(asked.value); }
  }

  /** Which requests are granted, and with which permissions; and why the others are not. */
  lemma GrantsExact(withPerms: bool, asked: Option<bv64>, rp: Option<nat>)
    ensures var g := Grants(withPerms, asked, rp);
      if !withPerms then
        if asked == None && rp == None then g == Granted(0x03) else g == Denied(InvalidParameter)
      else match asked
        case None => g == Denied(MissingParameter)
        case Some(p) =>
          && (g.Granted? <==> p != 0 && p & 0x18 == 0)
          && (g.Granted? ==> g.perms as bv64 == p & 0x27)
          && (g.Denied? ==> g.status == if p == 0 then InvalidParameter else UnauthorizedPermission)
  {
    if asked.Some? {
      var p := asked.value;
      assert p & 0x18 == 0 ==> p & 0x3F == p & 0x27;
    }
  }

  lemma BitsOf(p: bv64)
    ensures KnownOf(p) & PERMS_KNOWN == KnownOf(p)
    ensures p & NOT_OFFERED == 0 ==> KnownOf(p) & 0x18 == 0
    ensures (KnownOf(p) as bv64) & p == KnownOf(p) as bv64
  {
    assert (p & 0x3F) & 0x3F == p & 0x3F;
    assert p & 0x18 == 0 ==> (p & 0x3F) & 0x18 == 0;
  }

  function Age(now: nat, issued: nat): nat { (now - issued) % TICKS }

  predicate Permits(perms: bv8, p: bv8) { perms & p == p && p != 0 }

  /** A permission is needed, and all of it was granted. */
  lemma PermitsExact(perms: bv8, p: bv8)
    ensures Permits(perms, p) <==> p != 0 && p & !perms == 0
  {
    assert p & perms == p <==> p & !perms == 0;
  }

  /** Ticks wrap; an age below 2^32 is told right. */
  lemma AgeExact(issued: nat, age: nat)
    requires age < TICKS
    ensures Age((issued + age) % TICKS, issued) == age
  {
    var q := (issued + age) / TICKS;
    assert (issued + age) % TICKS - issued == age - q * TICKS;
    WholeTurns(age, q);
  }

  lemma {:induction false} WholeTurns(age: nat, q: nat)
    requires age < TICKS
    ensures (age - q * TICKS) % TICKS == age
  {
    if q > 0 { WholeTurns(age, q - 1); }
  }

  /** pin_token.c: one token at a time. */
  class Token {
    var token: Option<Term>
    var inUse: bool
    var used: bool
    var uv: bool
    var perms: bv8
    var rp: Option<nat>
    var issued: nat
    var generation: nat
    ghost var under: Option<Binding>   // the PIN binding that was verified for it

    constructor ()
      ensures Forgotten() && generation == 0
    {
      token, inUse, used, uv, perms, rp, issued, generation, under := None, false, false, false, 0, None, 0, 0, None;
    }

    predicate Forgotten() reads this {
      !inUse && token == None && !used && !uv && perms == 0 && rp == None
    }

    ghost predicate Valid() reads this { inUse ==> token.Some? && under.Some? }

    method Reset()
      modifies this
      ensures Forgotten() && generation == (old(generation) + 1) % TICKS
    {
      generation := (generation + 1) % TICKS;
      token, rp, inUse, used, uv, perms, issued, under := None, None, false, false, false, 0, 0, None;
    }

    method Begin(t: Term, permissions: bv8, rpHash: Option<nat>, now: nat, ghost b: Binding)
      modifies this
      ensures inUse && uv && !used && token == Some(t) && perms == permissions & PERMS_KNOWN && rp == rpHash
      ensures issued == now && under == Some(b)
      ensures generation == (old(generation) + 2) % TICKS
    {
      Reset();
      token, perms, rp, uv, issued, inUse, under := Some(t), permissions & PERMS_KNOWN, rpHash, true, now,
        true, Some(b);
      generation := (generation + 1) % TICKS;
    }

    predicate Expired(now: nat) reads this {
      inUse && (Age(now, issued) > MAX_LIFE_MS || (!used && Age(now, issued) > INITIAL_USE_MS))
    }

    /** A token lives ten minutes, and half a minute until its first use. */
    lemma ExpiredExact(age: nat)
      requires age < TICKS
      ensures Expired((issued + age) % TICKS) <==> inUse && (age > 600000 || (age > 30000 && !used))
    {
      AgeExact(issued, age);
    }

    method Expire(now: nat)
      modifies this
      ensures if old(Expired(now)) then Forgotten() && generation == (old(generation) + 1) % TICKS else unchanged(this)
    {
      if !inUse { return; }
      var age := Age(now, issued);
      if age > MAX_LIFE_MS || (!used && age > INITIAL_USE_MS) { Reset(); }
    }

    /** A param is good only if it was made with the token in use, over this very message, in time. */
    method Verify(param: Option<Param>, msg: seq<byte>, now: nat) returns (ok: bool)
      requires Valid()
      modifies this
      ensures Valid() && ok == (old(inUse) && !old(Expired(now)) && param == Some(Param(old(token).value, msg)))
      ensures ok ==> used && inUse && token == old(token)
      ensures inUse ==>
                && old(inUse) && token == old(token) && under == old(under) && perms == old(perms) && rp == old(rp)
                && uv == old(uv)
      ensures generation == if old(Expired(now)) then (old(generation) + 1) % TICKS else old(generation)
    {
      Expire(now);
      if !inUse || param == None { return false; }
      ok := param.value == Param(token.value, msg);
      if !ok { return; }
      used := true;
    }

    predicate HasPerm(p: bv8) reads this { inUse && Permits(perms, p) }

    predicate RpMatches(r: nat) reads this { rp == None || rp == Some(r) }

    method BindRp(r: nat)
      modifies this`rp
      ensures rp == if old(inUse) && old(rp) == None then Some(r) else old(rp)
    {
      if !inUse || rp.Some? { return; }
      rp := Some(r);
    }

    /** All or nothing: the RP is bound only by a use that succeeds, and a refused one grants nothing new. */
    method Check(param: Option<Param>, msg: seq<byte>, perm: bv8, r: nat, now: nat) returns (ok: bool)
      requires Valid()
      modifies this
      ensures Valid()
      ensures ok == (old(inUse) && !old(Expired(now)) && param == Some(Param(old(token).value, msg))
                     && old(uv) && old(HasPerm(perm)) && old(RpMatches(r)))
      ensures ok ==> used && rp == Some(r)
      ensures inUse ==>
                && old(inUse) && token == old(token) && under == old(under) && perms == old(perms) && uv == old(uv)
                && (rp == old(rp) || (old(rp) == None && ok))
    {
      hide Permits;
      ok := Verify(param, msg, now);
      if !ok { return; }
      ok := uv && HasPerm(perm) && RpMatches(r);
      if ok { BindRp(r); }
    }

    /** After a touch the token verifies no user and permits nothing. */
    method Consume()
      modifies this`uv, this`perms
      ensures old(inUse) ==> !uv && forall p :: !HasPerm(p)
      ensures !old(inUse) ==> uv == old(uv) && perms == old(perms)
    {
      if !inUse { return; }
      uv, perms := false, 0;
      NoPerms();
    }

    lemma NoPerms()
      requires perms == 0
      ensures forall p :: !HasPerm(p)
    {
      forall p: bv8 ensures !HasPerm(p) {
        assert 0 & p == 0;
      }
    }
  }

  /** ClientPIN as far as a PIN or a token is concerned. */
  class ClientPin {
    const store: Store
    const tok: Token
    var initted: bool
    var consec: nat          // wrong PINs in a row
    var authBlocked: bool
    ghost var wrong: nat     // wrong verdicts since the last right one, setPin, completed reset or boot
    ghost var verified: set<Binding>   // bindings whose PIN was given and checked, by their core

    constructor (store: Store)
      requires store.Wired() && store.Inv()
      ensures this.store == store && fresh(tok) && Apart() && Inv() && !initted && wrong == 0 && verified == {}
    {
      this.store := store;
      tok := new Token();
      initted, consec, authBlocked, wrong, verified := false, 0, false, 0, {};
    }

    ghost predicate Apart() { store.Wired() }

    /** The token was issued for the very binding that is live now, and that binding had been verified. */
    ghost predicate Live()
      requires Apart()
      reads tok, `verified, store.pin.rec, store.chip`rmem
    {
      tok.inUse ==>
        && tok.token.Some? && tok.under.Some? && store.pin.Current().Some?
        && SameBinding(tok.under.value, store.pin.Current().value) && Core(tok.under.value) in verified
    }

    /** While commands are served the count is the true one and the third wrong PIN has closed the door. */
    ghost predicate Latch()
      reads this, store`ready
    {
      && wrong <= MAX_CONSEC && (!initted ==> wrong == 0)
      && (store.ready ==> consec == wrong && (authBlocked <==> wrong == MAX_CONSEC))
    }

    ghost predicate Inv()
      requires Apart()
      reads this, tok, store, store.o1, store.pin, store.pin.rec, store.chip`rmem, store.chip`rng, store.chip`ecc
    {
      store.Inv() && Live() && Latch()
    }

    // ----- the store, call by call -----

    /** Work on the PIN record alone keeps the rest of the store. */
    lemma OnlyPin(m: Rmem, rng: nat)
      requires Apart() && store.Base() && OnlyO2(m, store.chip.rmem)
      requires KeysMatch(m, store.chip.ecc, store.made) && Accounts(m) && KeysDrawn(store.made, rng)
      requires rng <= store.chip.rng
      ensures store.Inv()
    {
      MetaFrame(m, store.chip.rmem);
      FewerIsFine(m, store.chip.rmem, store.chip.ecc, store.chip.ecc, store.made);
    }

    /** Nothing fails, and neither a PIN nor a guard is there. */
    ghost predicate CanSet()
      requires Apart()
      reads store, store.o1, store.pin, store.pin.rec, store.chip
    {
      && store.chip.calm && store.Usable() && store.pinBound == 0 && Writable(store.o1.Now())
      && store.pin.rec.Now() == Pair(Empty, Empty) && !store.pin.rec.uncertain
    }

    /** A right PIN can be told from a wrong one: nothing fails, an attempt is left and every slot is intact. */
    ghost predicate CanTry()
      requires Apart()
      reads store, store.o1, store.pin, store.pin.rec, store.chip
    {
      && store.chip.calm && store.Usable() && store.pin.Usable() && Spare(store.pin.rec.Now())
      && store.pin.IsArmed() && store.pin.Attempts() > 0
    }

    /** Nothing fails, and a PIN is there. */
    ghost predicate Readable()
      requires Apart()
      reads store, store.o1, store.pin, store.pin.rec, store.chip
    {
      store.chip.calm && store.Usable() && store.pin.Usable() && store.pin.Current().Some?
    }

    /** Nothing fails, and neither a PIN nor a guard is there. */
    ghost predicate Absent()
      requires Apart()
      reads store, store.o1, store.pin, store.pin.rec, store.chip
    {
      store.chip.calm && store.Usable() && store.pinBound == 0 && store.PinAbsent()
    }

    method Attempts() returns (st: FidoPin, attempts: nat)
      requires Apart() && store.Inv()
      modifies store.chip`rmem, store.chip`mad, store.chip`rng, store.pin.rec`uncertain
      ensures store.Inv() && Kept(old(store.pin.Current()), store.pin.Current())
      ensures store.chip.rng >= old(store.chip.rng)
      ensures st == FpNotSet ==> store.pin.Current() == None
      ensures st in {FpSet, FpBlocked} ==>
                store.pin.Current().Some? && store.pin.Attempts() == attempts && (st == FpBlocked <==> attempts == 0)
      ensures old(store.pin.IsArmed()) ==> store.pin.IsArmed()
      ensures old(CanTry()) ==> st == FpSet && Guessable()
      ensures store.pin.Attempts() == old(store.pin.Attempts())
      ensures old(Readable()) ==> st == if store.pin.Attempts() > 0 then FpSet else FpBlocked
      ensures old(Absent()) ==> st == FpNotSet
    {
      ghost var m := store.chip.rmem;
      ghost var v := store.pin.rec.Now();
      st, attempts := store.PinState();
      OnlyPin(m, old(store.chip.rng));
      StillRoom(v, store.pin.rec.Now());
    }

    /** As CanTry, with one write less to come. */
    ghost predicate Guessable()
      requires Apart()
      reads store, store.o1, store.pin, store.pin.rec, store.chip
    {
      && store.chip.calm && store.Usable() && store.pin.Usable() && Room10(store.pin.rec.Now())
      && store.pin.IsArmed() && store.pin.Attempts() > 0
    }

    method State() returns (st: FidoPin)
      requires Apart() && store.Inv()
      modifies store.chip`rmem, store.chip`mad, store.chip`rng, store.pin.rec`uncertain
      ensures store.Inv() && Kept(old(store.pin.Current()), store.pin.Current())
      ensures store.chip.rng >= old(store.chip.rng)
      ensures st == FpNotSet ==> store.pin.Current() == None
      ensures old(store.pin.IsArmed()) ==> store.pin.IsArmed()
      ensures old(CanTry()) ==> st == FpSet && Guessable()
      ensures store.pin.Attempts() == old(store.pin.Attempts())
      ensures old(Readable()) ==> st == if store.pin.Attempts() > 0 then FpSet else FpBlocked
      ensures old(Absent()) ==> st == FpNotSet
    {
      hide CanTry, Guessable, Readable, Absent;
      var attempts;
      st, attempts := Attempts();
    }

    /** A verdict is counted where it is given: a wrong one adds to the count, a right one ends it. */
    ghost method Count(rc: Code, correct: bool)
      modifies `wrong
      ensures wrong == CountAfter(old(wrong), rc, correct)
    {
      wrong := CountAfter(wrong, rc, correct);
    }

    /** As State, for the caller that needs there to be no PIN. */
    method NotSetState() returns (st: FidoPin)
      requires Apart() && store.Inv()
      modifies store.chip`rmem, store.chip`mad, store.chip`rng, store.pin.rec`uncertain
      ensures store.Inv() && Kept(old(store.pin.Current()), store.pin.Current())
      ensures store.chip.rng >= old(store.chip.rng)
      ensures old(store.pin.IsArmed()) ==> store.pin.IsArmed()
      ensures old(CanSet()) ==> st == FpNotSet && CanSet()
      ensures st == FpNotSet ==> old(store.pin.Current()) == None
      ensures old(Readable()) ==> st in {FpSet, FpBlocked}
    {
      ghost var m := store.chip.rmem;
      hide Sound, PairArmed;
      if CanSet() { AbsentIsUsable(); }
      var attempts;
      st, attempts := store.PinState();
      OnlyPin(m, old(store.chip.rng));
    }

    lemma AbsentIsUsable()
      requires Apart() && store.Inv() && CanSet()
      ensures store.pin.Usable() && store.pin.Current() == None
    {
    }

    /** The only place where a binding becomes verified: when its PIN was given. */
    method VerifyPin(mat: Material) returns (rc: Code, correct: bool)
      requires Apart() && store.Inv()
      modifies `verified, `wrong, store.chip`rmem, store.chip`mad, store.chip`rng, store.pin.rec`uncertain
      modifies store.pin`probes
      ensures store.Inv() && Kept(old(store.pin.Current()), store.pin.Current())
      ensures store.chip.rng >= old(store.chip.rng)
      ensures correct ==> rc == PmdOk && IsPin(old(store.pin.Current()), mat)
      ensures verified == old(verified) + (if correct then {Core(old(store.pin.Current()).value)} else {})
      ensures wrong == CountAfter(old(wrong), rc, correct)
      ensures rc == PmdOk && !correct ==>
                && old(store.pin.Current()).Some?
                && store.pin.Current().value.next == old(store.pin.Current()).value.next + 1
      ensures rc == PmdOk && old(store.pin.IsArmed()) ==> (correct <==> IsPin(old(store.pin.Current()), mat))
      ensures old(store.pin.IsArmed()) ==> store.pin.IsArmed()
      ensures old(Guessable()) ==> rc == PmdOk && Readable()
      ensures rc == PmdOk && !correct && old(store.pin.Attempts()) > 0 ==>
                store.pin.Attempts() == old(store.pin.Attempts()) - 1
    {
      hide Genuine, BoundTo, Armed, Retired, PairArmed, Room, Room10, Readable, KeysMatch, Accounts, KeysDrawn;
      ghost var m, v := store.chip.rmem, store.pin.rec.Now();
      if Guessable() { GuessFacts(); }
      var k;
      rc, correct, k := store.pin.Verify(mat);
      OnlyPin(m, old(store.chip.rng));
      if old(Guessable()) { StillReadable(v); }
      Count(rc, correct);
      if correct { verified := verified + {Core(old(store.pin.Current()).value)}; }
    }

    method ChangeBinding(oldMat: Material, newMat: Material, newLen: nat) returns (rc: Code, correct: bool)
      requires Apart() && store.Inv()
      modifies `wrong, store.chip`rmem, store.chip`mad, store.chip`rng, store.pin.rec`uncertain, store.pin`probes
      ensures store.Inv()
      ensures correct ==> rc == PmdOk && IsPin(old(store.pin.Current()), oldMat) && IsPin(store.pin.Current(), newMat)
      ensures wrong == CountAfter(old(wrong), rc, correct)
      ensures rc == PmdOk && !correct ==>
                && old(store.pin.Current()).Some? && store.pin.Current().Some?
                && store.pin.Current().value.next == old(store.pin.Current()).value.next + 1
      ensures old(store.pin.IsArmed()) ==> store.pin.IsArmed()
      ensures old(Guessable()) ==> rc == PmdOk && (correct <==> IsPin(old(store.pin.Current()), oldMat))
      ensures old(Guessable()) && !correct ==> Readable()
      ensures rc == PmdOk && !correct && old(store.pin.Attempts()) > 0 ==>
                store.pin.Attempts() == old(store.pin.Attempts()) - 1
      ensures Replaced(old(store.pin.Current()), store.pin.Current(), oldMat, newMat)
    {
      hide store.Base, Room, Room10, Older, Readable, KeysMatch, Accounts, KeysDrawn, Guessable;
      ghost var m, v := store.chip.rmem, store.pin.rec.Now();
      if Guessable() { GuessFacts(); }
      rc, correct := store.PinChange(oldMat, newMat, newLen);
      OnlyPin(m, old(store.chip.rng));
      if old(Guessable()) && !correct { StillReadable(v); }
      Count(rc, correct);
    }

    lemma GuessFacts()
      requires Apart() && Guessable()
      ensures store.chip.calm && store.Usable() && store.pin.Usable() && store.pin.Current().Some?
      ensures Room10(store.pin.rec.Now()) && store.pin.IsArmed() && store.pin.Attempts() > 0
      ensures store.pin.Current().value.next < FIDO_LAYOUT.rounds
    {
    }

    /** A try uses at most six writes. */
    lemma StillReadable(v: Pair)
      requires Apart() && store.Inv() && store.chip.calm && store.Usable() && !store.pin.rec.uncertain
      requires store.pin.Current().Some? && Older(v, store.pin.rec.Now(), 6) && Room10(v)
      ensures Readable()
    {
      hide Sound;
    }

    /** A first PIN that is bound ends the count. */
    method BindFirst(mat: Material, pinLen: nat) returns (ok: bool)
      requires Apart() && store.Inv()
      modifies `wrong, store`bitmap, store`forceUv, store`pinBound, store.o1`uncertain
      modifies store.chip`rmem, store.chip`mad, store.chip`rng, store.pin.rec`uncertain, store.pin`probes
      ensures store.Inv()
      ensures ok ==> IsPin(store.pin.Current(), mat)
      ensures old(store.pin.Current()).Some? ==> !ok && Kept(old(store.pin.Current()), store.pin.Current())
      ensures old(store.pin.Current()) == None && store.pin.Current().Some? ==> IsPin(store.pin.Current(), mat)
      ensures wrong == if ok then 0 else old(wrong)
      ensures old(store.pin.IsArmed()) ==> store.pin.IsArmed()
      ensures old(CanSet()) ==> ok
    {
      hide store.Base;
      ghost var m := store.chip.rmem;
      ok := store.PinSet(mat, pinLen);
      if ok { wrong := 0; }
      MetaFrame(m, store.chip.rmem);
      SameBits(m, store.chip.rmem);
      FewerIsFine(m, store.chip.rmem, store.chip.ecc, store.chip.ecc, store.made);
    }

    // ----- commands -----

    /** The first ClientPIN command of a boot draws the key pair, if the boot could not. */
    method EnsureKeys(drawn: bool) returns (ok: bool)
      requires Apart() && Inv()
      modifies this`initted, this`consec, this`authBlocked, tok
      ensures Inv() && ok == (old(initted) || drawn) && (ok ==> initted)
      ensures old(initted) || !ok ==>
                && tok.inUse == old(tok.inUse) && tok.token == old(tok.token)
                && consec == old(consec) && authBlocked == old(authBlocked)
      ensures !old(initted) && ok ==> !tok.inUse
    {
      if initted { return true; }
      if !drawn { return false; }
      tok.Reset();
      consec, authBlocked := 0, false;
      initted := true;
      return true;
    }

    /** After a wrong verdict: the code's own count follows, and the third in a row closes the door. */
    method Mismatch() returns (status: Status)
      requires Apart() && store.Inv() && Live() && store.ready && initted
      requires wrong == consec + 1 <= MAX_CONSEC && !authBlocked
      modifies this`consec, this`authBlocked
      modifies store.chip`rmem, store.chip`mad, store.chip`rng, store.pin.rec`uncertain
      ensures Inv() && (old(store.pin.IsArmed()) ==> store.pin.IsArmed())
      ensures Kept(old(store.pin.Current()), store.pin.Current())
      ensures status in {PinBlocked, OtherError, PinAuthBlocked, PinInvalid}
      ensures (status == PinInvalid ==> wrong < MAX_CONSEC) && (status == PinAuthBlocked ==> wrong == MAX_CONSEC)
      // Without faults the attempts left and the count say which.
      ensures old(Readable()) ==> status == WrongStatus(old(store.pin.Attempts()), wrong)
    {
      hide store.Inv, Readable;
      var st := State();
      consec := consec + 1;
      if consec >= MAX_CONSEC { authBlocked := true; }
      if st == FpBlocked { return PinBlocked; }
      if st != FpSet { return OtherError; }
      return if authBlocked then PinAuthBlocked else PinInvalid;
    }

    /** Whether a PIN can be tried at all: one is set, readable and not blocked, and the door is open. */
    method Door() returns (refusal: Status)
      requires Apart() && Inv() && store.ready
      modifies store.chip`rmem, store.chip`mad, store.chip`rng, store.pin.rec`uncertain
      ensures Inv() && Kept(old(store.pin.Current()), store.pin.Current()) && store.chip.rng >= old(store.chip.rng)
      ensures refusal == Success ==> wrong < MAX_CONSEC
      ensures refusal != PinInvalid && (refusal == PinAuthBlocked ==> wrong == MAX_CONSEC)
      ensures old(store.pin.IsArmed()) ==> store.pin.IsArmed()
      ensures old(CanTry()) && wrong < MAX_CONSEC ==> refusal == Success && Guessable()
      ensures store.pin.Attempts() == old(store.pin.Attempts())
      // Without faults it is known why.
      ensures old(Readable()) ==>
                refusal == if store.pin.Attempts() == 0 then PinBlocked
                           else if wrong == MAX_CONSEC then PinAuthBlocked else Success
      ensures old(Absent()) ==> refusal == PinNotSet
    {
      hide store.Inv, CanTry, Guessable, Readable, Absent;
      var st := State();
      match st {
        case FpSet => return if authBlocked then PinAuthBlocked else Success;
        case FpNotSet => return PinNotSet;
        case FpBlocked => return PinBlocked;
        case FpError => return OtherError;
      }
    }

    method SetPin(drawn: bool, agreed: bool, authOk: bool, pin: NewPin) returns (status: Status)
      requires Apart() && Inv() && store.ready
      modifies this`initted, this`consec, this`authBlocked, this`wrong, tok
      modifies store`bitmap, store`forceUv, store`pinBound, store.o1`uncertain
      modifies store.chip`rmem, store.chip`mad, store.chip`rng, store.pin.rec`uncertain, store.pin`probes
      ensures Inv() && wrong == (if status == Success then 0 else old(wrong))
      ensures status !in {PinInvalid, PinAuthBlocked}
      ensures tok.inUse ==> old(tok.inUse) && tok.token == old(tok.token)
      ensures status == Success ==>
                agreed && authOk && !tok.inUse && pin.Accepted? && IsPin(store.pin.Current(), pin.mat)
      ensures old(store.pin.IsArmed()) ==> store.pin.IsArmed()
      // A PIN that is set stays as it is; where none was there is none, or the new one.
      ensures old(store.pin.Current()).Some? ==>
                status != Success && Kept(old(store.pin.Current()), store.pin.Current())
      ensures old(store.pin.Current()) == None ==>
                store.pin.Current() == None || (pin.Accepted? && IsPin(store.pin.Current(), pin.mat))
      // Without faults a first PIN that is fit is set, and over a PIN the answer is PIN_AUTH_INVALID.
      ensures old(CanSet() && initted) && agreed && authOk && pin.Accepted? ==> status == Success
      ensures old(Readable() && initted) ==> status == PinAuthInvalid
    {
      hide store.Inv, CanSet, Readable;
      var keys := EnsureKeys(drawn);
      if !keys { return OtherError; }
      var st := NotSetState();
      if st != FpNotSet { return if st == FpError then OtherError else PinAuthInvalid; }
      if !agreed { return InvalidParameter; }
      if !authOk { return PinAuthInvalid; }
      match pin {
        case Unfit => return PolicyViolation;
        case Undecipherable => return OtherError;
        case Accepted(mat, len) =>
          status := ForgetThenBind(mat, len);
      }
    }

    method ForgetThenBind(mat: Material, len: nat) returns (status: Status)
      requires Apart() && Inv() && store.ready
      modifies this`consec, this`authBlocked, this`wrong, tok
      modifies store`bitmap, store`forceUv, store`pinBound, store.o1`uncertain
      modifies store.chip`rmem, store.chip`mad, store.chip`rng, store.pin.rec`uncertain, store.pin`probes
      ensures Inv() && !tok.inUse && status in {Success, OtherError}
      ensures wrong == (if status == Success then 0 else old(wrong))
      ensures status == Success ==> IsPin(store.pin.Current(), mat)
      ensures old(store.pin.Current()).Some? ==>
                status != Success && Kept(old(store.pin.Current()), store.pin.Current())
      ensures old(store.pin.Current()) == None && store.pin.Current().Some? ==> IsPin(store.pin.Current(), mat)
      ensures old(store.pin.IsArmed()) ==> store.pin.IsArmed()
      ensures old(CanSet()) ==> status == Success
    {
      hide store.Inv, CanSet;
      tok.Reset();
      var ok := BindFirst(mat, len);
      if !ok { return OtherError; }
      tok.Reset();
      consec, authBlocked := 0, false;
      return Success;
    }

    /** Once the old PIN is about to be tried no token survives, so none can outlive its binding. */
    method ChangePin(e: Exchange, oldMat: Material, pin: NewPin) returns (status: Status)
      requires Apart() && Inv() && store.ready
      modifies this`initted, this`consec, this`authBlocked, this`wrong, this`verified, tok
      modifies store.chip`rmem, store.chip`mad, store.chip`rng, store.pin.rec`uncertain, store.pin`probes
      ensures Inv() && Told(status, old(wrong), wrong)
      ensures tok.inUse ==> old(tok.inUse) && tok.token == old(tok.token)
      ensures status == Success ==>
                && !tok.inUse && wrong == 0 && IsPin(old(store.pin.Current()), oldMat)
                && pin.Accepted? && IsPin(store.pin.Current(), pin.mat)
      ensures old(wrong) == MAX_CONSEC || !(e.agreed && e.authOk && e.decrypts) ==>
                status != Success && store.pin.probes == old(store.pin.probes) && wrong == old(wrong)
      // Whatever fails, the PIN is the one before, or the new one after the live one was given.
      ensures if pin.Accepted? then Replaced(old(store.pin.Current()), store.pin.Current(), oldMat, pin.mat)
              else Kept(old(store.pin.Current()), store.pin.Current())
      ensures old(store.pin.IsArmed()) ==> store.pin.IsArmed()
      // Without faults, with an attempt left and the door open, it succeeds exactly for the live PIN.
      ensures old(CanTry() && wrong < MAX_CONSEC && initted) && e.agreed && e.authOk && e.decrypts && pin.Accepted? ==>
                if IsPin(old(store.pin.Current()), oldMat) then status == Success
                else status == WrongStatus(old(store.pin.Attempts() - 1), old(wrong) + 1)
    {
      hide store.Inv, CanTry, Guessable, Kept, Readable, Absent, WrongStatus;
      status := ChangeGate(e);
      KeptIs(old(store.pin.Current()), store.pin.Current());
      if status != Success { return; }
      if !e.decrypts || pin == Undecipherable { return OtherError; }
      ghost var b := store.pin.Current();
      status := CheckThenChange(oldMat, pin);
      KeptThen(old(store.pin.Current()), b, store.pin.Current(), oldMat, if pin.Accepted? then pin.mat else []);
    }

    method ChangeGate(e: Exchange) returns (refusal: Status)
      requires Apart() && Inv() && store.ready
      modifies this`initted, this`consec, this`authBlocked, tok
      modifies store.chip`rmem, store.chip`mad, store.chip`rng, store.pin.rec`uncertain
      ensures Inv() && (tok.inUse ==> old(tok.inUse) && tok.token == old(tok.token))
      ensures Kept(old(store.pin.Current()), store.pin.Current())
      ensures refusal == Success ==> initted && wrong < MAX_CONSEC && e.agreed && e.authOk
      ensures store.pin.Attempts() == old(store.pin.Attempts())
      ensures refusal != PinInvalid && (refusal == PinAuthBlocked ==> wrong == MAX_CONSEC)
      ensures old(store.pin.IsArmed()) ==> store.pin.IsArmed()
      ensures old(CanTry() && wrong < MAX_CONSEC && initted) && e.agreed && e.authOk ==>
                refusal == Success && Guessable()
    {
      hide store.Inv, CanTry, Guessable, Kept, Live;
      KeptFrom(store.pin.Current());
      var keys := EnsureKeys(e.drawn);
      if !keys { return OtherError; }
      refusal := Door();
      if refusal != Success { return; }
      if !e.agreed { return InvalidParameter; }
      if !e.authOk { return PinAuthInvalid; }
    }

    lemma KeptThen(b: Option<Binding>, c: Option<Binding>, d: Option<Binding>, oldMat: Material, newMat: Material)
      requires Kept(b, c)
      ensures Kept(c, d) ==> Kept(b, d)
      ensures Replaced(c, d, oldMat, newMat) ==> Replaced(b, d, oldMat, newMat)
    {
    }

    method CheckThenChange(oldMat: Material, pin: NewPin) returns (status: Status)
      requires Apart() && Inv() && store.ready && initted && wrong < MAX_CONSEC
      modifies this`consec, this`authBlocked, this`wrong, this`verified, tok
      modifies store.chip`rmem, store.chip`mad, store.chip`rng, store.pin.rec`uncertain, store.pin`probes
      ensures Inv() && !tok.inUse && Told(status, old(wrong), wrong)
      ensures status == Success ==>
                && wrong == 0 && IsPin(old(store.pin.Current()), oldMat)
                && pin.Accepted? && IsPin(store.pin.Current(), pin.mat)
      ensures old(store.pin.IsArmed()) ==> store.pin.IsArmed()
      ensures if pin.Accepted? then Replaced(old(store.pin.Current()), store.pin.Current(), oldMat, pin.mat)
              else Kept(old(store.pin.Current()), store.pin.Current())
      ensures old(Guessable()) && pin.Accepted? ==>
                if IsPin(old(store.pin.Current()), oldMat) then status == Success
                else status == WrongStatus(old(store.pin.Attempts() - 1), old(wrong) + 1)
    {
      hide store.Inv, Readable, Guessable, WrongStatus, Kept;
      tok.Reset();
      var rc, correct := TryOld(oldMat, pin);
      if rc == PmdBlocked { return PinBlocked; }
      if rc != PmdOk { return OtherError; }
      if !correct {
        ghost var b := store.pin.Current();
        status := Mismatch();
        KeptAfter(old(store.pin.Current()), b, store.pin.Current(), oldMat, if pin.Accepted? then pin.mat else []);
        return;
      }
      consec := 0;
      return if pin.Accepted? then Success else PolicyViolation;
    }

    /** A new PIN that is fit replaces the old one if that is right; otherwise the old one is only checked. */
    method TryOld(oldMat: Material, pin: NewPin) returns (rc: Code, correct: bool)
      requires Apart() && store.Inv()
      modifies `verified, `wrong, store.chip`rmem, store.chip`mad, store.chip`rng, store.pin.rec`uncertain
      modifies store.pin`probes
      ensures store.Inv() && wrong == CountAfter(old(wrong), rc, correct)
      ensures correct ==> rc == PmdOk && IsPin(old(store.pin.Current()), oldMat)
      ensures correct && pin.Accepted? ==> IsPin(store.pin.Current(), pin.mat)
      ensures if pin.Accepted? then Replaced(old(store.pin.Current()), store.pin.Current(), oldMat, pin.mat)
              else Kept(old(store.pin.Current()), store.pin.Current())
      ensures old(store.pin.IsArmed()) ==> store.pin.IsArmed()
      ensures rc == PmdOk && !correct && old(store.pin.Attempts()) > 0 ==>
                store.pin.Attempts() == old(store.pin.Attempts()) - 1
      ensures old(Guessable()) ==> rc == PmdOk && (correct <==> IsPin(old(store.pin.Current()), oldMat))
      ensures old(Guessable()) && !correct ==> Readable() && old(store.pin.Attempts()) > 0
    {
      hide store.Inv, Readable, Guessable, Replaced, Kept, IsPin;
      if Guessable() { GuessFacts(); }
      if pin.Accepted? {
        rc, correct := ChangeBinding(oldMat, pin.mat, pin.len);
      } else {
        rc, correct := VerifyPin(oldMat);
      }
    }

    lemma KeptAfter(b: Option<Binding>, c: Option<Binding>, d: Option<Binding>, oldMat: Material, newMat: Material)
      requires Kept(c, d)
      ensures Kept(b, c) ==> Kept(b, d)
      ensures Replaced(b, c, oldMat, newMat) ==> Replaced(b, d, oldMat, newMat)
    {
    }

    /** What a token request is refused for before its PIN is looked at; Success means that it is not. */
    method TokenGate(e: Exchange, withPerms: bool, asked: Option<bv64>, rp: Option<nat>)
      returns (refusal: Status, perms: bv8)
      requires Apart() && Inv() && store.ready
      modifies this`initted, this`consec, this`authBlocked, tok
      modifies store.chip`rmem, store.chip`mad, store.chip`rng, store.pin.rec`uncertain
      ensures Inv() && (tok.inUse ==> old(tok.inUse) && tok.token == old(tok.token))
      ensures Kept(old(store.pin.Current()), store.pin.Current()) && store.chip.rng >= old(store.chip.rng)
      ensures refusal == Success ==>
                && initted && wrong < MAX_CONSEC && Grants(withPerms, asked, rp) == Granted(perms)
                && perms & PERMS_KNOWN == perms && e.agreed && e.decrypts
      ensures store.pin.Attempts() == old(store.pin.Attempts())
      ensures (old(initted) || e.drawn) && Grants(withPerms, asked, rp).Denied? ==>
                refusal == Grants(withPerms, asked, rp).status
      ensures refusal != PinInvalid && (refusal == PinAuthBlocked ==> wrong == MAX_CONSEC)
      ensures old(store.pin.IsArmed()) ==> store.pin.IsArmed()
      ensures old(CanTry() && wrong < MAX_CONSEC && initted) && e.agreed && e.decrypts
              && Grants(withPerms, asked, rp).Granted?
              ==> refusal == Success && Guessable()
    {
      hide store.Inv, Grants, CanTry, Guessable, Kept, Live;
      perms := 0;
      KeptFrom(store.pin.Current());
      var keys := EnsureKeys(e.drawn);
      if !keys { return OtherError, 0; }
      var g := Grants(withPerms, asked, rp);
      GrantsAreOffered(withPerms, asked, rp);
      if g.Denied? {
        DenialIsNoSuccess(withPerms, asked, rp);
        return g.status, 0;
      }
      refusal := Door();
      if refusal != Success { return refusal, 0; }
      if !e.agreed { return InvalidParameter, 0; }
      if !e.decrypts { return OtherError, 0; }
      return Success, g.perms;
    }

    lemma KeptFrom(b: Option<Binding>)
      ensures Kept(b, b)
    {
    }

    lemma KeptIs(b: Option<Binding>, c: Option<Binding>)
      requires Kept(b, c)
      ensures (b.Some? <==> c.Some?) && (b.Some? ==> PinOf(c.value) == PinOf(b.value))
    {
    }

    /** getPinToken, with or without permissions: a token only after the live PIN was given. */
    method GetToken(e: Exchange, mat: Material, withPerms: bool, asked: Option<bv64>, rp: Option<nat>, now: nat)
      returns (status: Status)
      requires Apart() && Inv() && store.ready
      modifies this`initted, this`consec, this`authBlocked, this`wrong, this`verified, tok
      modifies store.chip`rmem, store.chip`mad, store.chip`rng, store.pin.rec`uncertain, store.pin`probes
      ensures Inv() && Told(status, old(wrong), wrong)
      ensures status == Success ==>
        && tok.inUse && tok.uv && tok.rp == rp && wrong == 0 && IsPin(old(store.pin.Current()), mat)
        && tok.token.Some? && tok.token.value.Random? && tok.token.value.n >= old(store.chip.rng)
        && Grants(withPerms, asked, rp) == Granted(tok.perms) && e.agreed && e.decrypts && e.encrypts
      ensures Kept(old(store.pin.Current()), store.pin.Current())
      ensures (old(initted) || e.drawn) && Grants(withPerms, asked, rp).Denied? ==>
                status == Grants(withPerms, asked, rp).status && store.pin.probes == old(store.pin.probes)
      // No other answer leaves a token that was not there.
      ensures status != Success && tok.inUse ==> old(tok.inUse) && tok.token == old(tok.token)
      ensures old(wrong) == MAX_CONSEC ==>
                status != Success && store.pin.probes == old(store.pin.probes) && wrong == old(wrong)
      ensures old(store.pin.IsArmed()) ==> store.pin.IsArmed()
      // Without faults, with an attempt left and the door open, exactly the live PIN is given a token.
      ensures old(CanTry() && wrong < MAX_CONSEC && initted) && e.agreed && e.decrypts && e.encrypts
              && Grants(withPerms, asked, rp).Granted?
              ==> if IsPin(old(store.pin.Current()), mat) then status == Success
                  else status == WrongStatus(old(store.pin.Attempts() - 1), old(wrong) + 1)
    {
      hide store.Inv, Grants, CanTry, Guessable, Kept, WrongStatus;
      var refusal, perms := TokenGate(e, withPerms, asked, rp);
      KeptIs(old(store.pin.Current()), store.pin.Current());
      if refusal != Success { return refusal; }
      ghost var b := store.pin.Current();
      status := CheckThenIssue(mat, perms, rp, e.encrypts, now);
      KeptThen(old(store.pin.Current()), b, store.pin.Current(), [], []);
    }

    lemma DenialIsNoSuccess(withPerms: bool, asked: Option<bv64>, rp: Option<nat>)
      ensures var g := Grants(withPerms, asked, rp);
        g.Denied? ==> g.status !in {Success, PinInvalid, PinAuthBlocked}
    {
    }

    method CheckThenIssue(mat: Material, perms: bv8, rp: Option<nat>, encrypts: bool, now: nat) returns (status: Status)
      requires Apart() && Inv() && store.ready && initted && wrong < MAX_CONSEC
      modifies this`consec, this`authBlocked, this`wrong, this`verified, tok
      modifies store.chip`rmem, store.chip`mad, store.chip`rng, store.pin.rec`uncertain, store.pin`probes
      ensures Inv() && Told(status, old(wrong), wrong)
      ensures status == Success ==>
        && tok.inUse && tok.uv && tok.rp == rp && wrong == 0 && tok.perms == perms & PERMS_KNOWN
        && IsPin(old(store.pin.Current()), mat)
        && tok.token.Some? && tok.token.value.Random? && tok.token.value.n >= old(store.chip.rng)
      ensures status != Success && tok.inUse ==> old(tok.inUse) && tok.token == old(tok.token)
      ensures old(store.pin.IsArmed()) ==> store.pin.IsArmed()
      ensures Kept(old(store.pin.Current()), store.pin.Current()) && (status == Success ==> encrypts)
      ensures old(Guessable()) && encrypts ==>
                if IsPin(old(store.pin.Current()), mat) then status == Success
                else status == WrongStatus(old(store.pin.Attempts() - 1), old(wrong) + 1)
    {
      hide store.Inv, Readable, WrongStatus;
      var rc, correct := VerifyPin(mat);
      if rc == PmdBlocked { return PinBlocked; }
      if rc != PmdOk { return OtherError; }
      if !correct {
        ghost var b := store.pin.Current();
        status := Mismatch();
        KeptAfter(old(store.pin.Current()), b, store.pin.Current(), [], []);
        return;
      }
      consec := 0;
      status := Issue(perms, rp, encrypts, now);
    }

    method Draw() returns (ok: bool, t: Term)
      requires Apart() && store.Inv()
      modifies store.chip`rng
      ensures store.Inv() && (ok ==> t == Random(old(store.chip.rng))) && (store.chip.calm ==> ok)
    {
      ok, t := store.chip.RandomTerm();
    }

    /** Only for a binding that has been verified. */
    method Issue(perms: bv8, rp: Option<nat>, encrypts: bool, now: nat) returns (status: Status)
      requires Apart() && Inv() && store.pin.Current().Some? && Core(store.pin.Current().value) in verified
      modifies tok, store.chip`rng
      ensures Inv() && status in {Success, OtherError} && (status != Success ==> !tok.inUse)
      ensures status == Success ==>
                && tok.inUse && tok.uv && tok.perms == perms & PERMS_KNOWN && tok.rp == rp
                && tok.token == Some(Random(old(store.chip.rng)))
      ensures (store.chip.calm && encrypts ==> status == Success) && (status == Success ==> encrypts)
    {
      hide store.Inv;
      tok.Reset();
      var drawn, t := Draw();
      if !drawn { return OtherError; }
      tok.Begin(t, perms, rp, now, store.pin.Current().value);
      if !encrypts {
        tok.Reset();
        return OtherError;
      }
      return Success;
    }

    /** authenticatorReset: token and counters go in any case; unless the wipe got through, no PIN command is served. */
    method FactoryReset() returns (ok: bool)
      requires Apart() && Inv()
      modifies this`consec, this`authBlocked, this`wrong, tok, store, store.chip, store.o1, store.pin, store.pin.rec
      ensures Inv() && !tok.inUse && ok == store.ready
      ensures if ok then wrong == 0 && store.pin.Current() == None else wrong == old(wrong)
      ensures store.pin.Current() in {old(store.pin.Current()), None}
    {
      hide store.Base;
      ok := store.FactoryReset();
      tok.Reset();
      consec, authBlocked := 0, false;
      if ok { wrong := 0; }
    }

    /** Power on: RAM is cleared, the store is booted, the key pair drawn. */
    method Boot(drawn: bool)
      requires Apart() && Inv()
      modifies this`initted, this`consec, this`authBlocked, this`wrong, tok
      modifies store, store.chip, store.o1, store.pin, store.pin.rec
      ensures Inv() && !tok.inUse && wrong == 0 && initted == drawn
      ensures Kept(old(store.pin.Current()), store.pin.Current())
      ensures old(store.o1.Now()) != Pair(Empty, Empty) && old(store.pin.IsArmed()) ==> store.pin.IsArmed()
      ensures store.ready ==> store.Ready()
    {
      PowerCycle();
      hide store.Base;
      var ok := store.Init();
      initted := drawn;
    }

    method PowerCycle()
      requires Apart() && Inv()
      modifies this`initted, this`consec, this`authBlocked, this`wrong, tok
      modifies store`initted, store`ready, store.o1`uncertain, store.pin.rec`uncertain
      ensures Inv() && !tok.inUse && wrong == 0 && !initted && consec == 0 && !authBlocked && !store.initted
      ensures !store.ready
    {
      store.initted, store.ready := false, false;
      store.o1.uncertain, store.pin.rec.uncertain := false, false;
      tok.Reset();
      initted, consec, authBlocked, wrong := false, 0, false, 0;
    }

    /** A number is given only for a state that was read. */
    method GetRetries() returns (known: bool, retries: nat)
      requires Apart() && Inv()
      modifies store.chip`rmem, store.chip`mad, store.chip`rng, store.pin.rec`uncertain
      ensures Inv()
      ensures known ==> retries == if store.pin.Current().Some? then store.pin.Attempts() else FIDO_LAYOUT.rounds
    {
      ghost var m := store.chip.rmem;
      hide store.Creds;
      var st, attempts := Attempts();
      match st {
        case FpNotSet => return true, FIDO_LAYOUT.rounds;
        case FpSet => return true, attempts;
        case FpBlocked => return true, 0;
        case FpError => return false, 0;
      }
    }

    /** One event; a command only while the store is ready, as the dispatcher has it. */
    method Serve(event: Event) returns (status: Status)
      requires Apart() && Inv()
      modifies this, tok, store, store.chip, store.o1, store.pin, store.pin.rec
      ensures Inv()
      ensures IsCommand(event) && !old(store.Ready()) ==>
                status == NotAllowed && store.pin.probes == old(store.pin.probes) && wrong == old(wrong)
      ensures Answered(event, status, old(wrong), wrong)
      ensures tok.inUse && !(old(tok.inUse) && tok.token == old(tok.token)) ==> event.DoGetToken? && status == Success
      // The PIN moves only as the event says.
      ensures Moved(event, old(store.pin.Current()), store.pin.Current())
      // What a success means, by the event's own fields.
      ensures status == Success ==> Done(event, old(store.pin.Current()))
      ensures event.DoGetToken? && status == Success ==> tok.token.value.n >= old(store.chip.rng)
      ensures event.DoUse? && old(store.Ready()) ==>
                && old(tok.Valid())
                && (status == Success) ==
                   (event.param == None || old(Accepts(event.param, event.msg, event.perm, event.site, event.now)))
      // Without faults success is exact.
      ensures old(store.Ready() && CanTry() && wrong < MAX_CONSEC && initted) && Fair(event) ==>
                if IsPin(old(store.pin.Current()), event.mat) then status == Success
                else status == WrongStatus(old(store.pin.Attempts() - 1), old(wrong) + 1)
      ensures old(store.Ready() && initted) && event.DoSetPin? ==>
                && (old(CanSet()) && event.e.agreed && event.e.authOk && event.pin.Accepted? ==> status == Success)
                && (old(Readable()) ==> status == PinAuthInvalid)
    {
      hide store.Inv, CanTry, CanSet, Readable, Guessable, Grants, WrongStatus;
      KeptFrom(store.pin.Current());
      status := Success;
      if IsCommand(event) && !store.Ready() { return NotAllowed; }
      match event {
        case DoSetPin(e, pin) => status := SetPin(e.drawn, e.agreed, e.authOk, pin);
        case DoChangePin(e, mat, pin) => status := ChangePin(e, mat, pin);
        case DoGetToken(e, mat, withPerms, asked, rp, now) => status := GetToken(e, mat, withPerms, asked, rp, now);
        case DoUse(param, msg, perm, site, touch, now) =>
          var ok := UseToken(param, msg, perm, site, touch, now);
          if !ok { status := PinAuthInvalid; }
        case DoReset => var ok := FactoryReset();
        case DoBoot(drawn) => Boot(drawn);
      }
    }

    /** What an answer of success says of the token and the PIN; `b` was bound before. */
    ghost predicate Done(e: Event, b: Option<Binding>)
      requires Apart()
      reads this, tok, store, store.pin, store.pin.rec, store.chip`rmem
    {
      match e
      case DoSetPin(x, pin) =>
        x.agreed && x.authOk && pin.Accepted? && b == None && IsPin(store.pin.Current(), pin.mat) && !tok.inUse
      case DoChangePin(x, mat, pin) =>
        && x.agreed && x.authOk && x.decrypts && IsPin(b, mat)
        && pin.Accepted? && IsPin(store.pin.Current(), pin.mat) && !tok.inUse
      case DoGetToken(x, mat, withPerms, asked, rp, now) =>
        && x.agreed && x.decrypts && x.encrypts && IsPin(b, mat)
        && tok.inUse && tok.uv && tok.rp == rp && tok.token.Some? && tok.token.value.Random?
        && Grants(withPerms, asked, rp) == Granted(tok.perms)
      case DoUse(param, msg, perm, site, touch, now) => touch ==> forall p :: !tok.HasPerm(p)
      case DoReset => !tok.inUse && (store.ready ==> store.pin.Current() == None)
      case DoBoot(drawn) => !tok.inUse
    }

    /**
     Any run of commands, resets and boots, each cut anywhere: a token in use was issued for the binding now live
     after that binding had been verified, the answers follow the count of wrong verdicts, and the PIN moves only by
     a first setPin, a changePin that was given it, and resets.
     */
    method AnyRun(events: seq<Event>)
      returns (answers: seq<Status>, ghost counts: seq<nat>, ghost pins: seq<Option<Binding>>)
      requires Apart() && Inv()
      modifies this, tok, store, store.chip, store.o1, store.pin, store.pin.rec
      ensures Inv() && Live() && Counted(events, answers, counts)
      ensures Moves(events, pins) && pins[0] == old(store.pin.Current()) && pins[|events|] == store.pin.Current()
    {
      answers, counts, pins := [], [wrong], [store.pin.Current()];
      for i := 0 to |events|
        invariant Inv() && |answers| == i && |counts| == i + 1 && counts[i] == wrong && counts[0] <= MAX_CONSEC
        invariant |pins| == i + 1 && pins[0] == old(store.pin.Current()) && pins[i] == store.pin.Current()
        invariant forall k {:trigger answers[k]} :: 0 <= k < i ==>
                    Answered(events[k], answers[k], counts[k], counts[k + 1])
        invariant forall k {:trigger events[k]} :: 0 <= k < i ==> Moved(events[k], pins[k], pins[k + 1])
      {
        hide store.Inv, Answered, Moved, CanTry, CanSet, Readable, Done;
        var status := Serve(events[i]);
        answers, counts, pins := answers + [status], counts + [wrong], pins + [store.pin.Current()];
      }
    }

    /** What a parameter must be for a request of this RP that needs this permission. */
    predicate Accepts(param: Option<Param>, msg: seq<byte>, perm: bv8, rp: nat, now: nat)
      requires tok.Valid()
      reads tok
    {
      && tok.inUse && !tok.Expired(now) && param == Some(Param(tok.token.value, msg))
      && tok.uv && tok.HasPerm(perm) && tok.RpMatches(rp)
    }

    /** A request, with or without a pinUvAuthParam, and the touch that spends the token. */
    method UseToken(param: Option<Param>, msg: seq<byte>, perm: bv8, rp: nat, touch: bool, now: nat) returns (ok: bool)
      requires Apart() && Inv() && tok.Valid()
      modifies tok
      ensures Inv() && (tok.inUse ==> old(tok.inUse) && tok.token == old(tok.token))
      ensures ok == (param == None || old(Accepts(param, msg, perm, rp, now)))
      ensures ok && param.Some? ==> tok.used && tok.rp == Some(rp)
      ensures ok && touch ==> !(tok.inUse && tok.uv) && forall p :: !tok.HasPerm(p)
    {
      hide store.Inv, Permits;
      ok := true;
      if param.Some? {
        ok := tok.Check(param, msg, perm, rp, now);
        if !ok { return; }
      }
      if touch { tok.Consume(); }
    }
  }

  /** The count after a verdict; a call that gave none leaves it. */
  function CountAfter(n: nat, rc: Code, correct: bool): nat {
    if rc != PmdOk then n else if correct then 0 else n + 1
  }

  /** The answer to a wrong PIN, by the attempts left and the count. */
  function WrongStatus(attempts: nat, wrong: nat): Status {
    if attempts == 0 then PinBlocked else if wrong == MAX_CONSEC then PinAuthBlocked else PinInvalid
  }

  /** The PIN is the one before, or the new one after the old one was given, under the same secret. */
  ghost predicate Replaced(b: Option<Binding>, c: Option<Binding>, oldMat: Material, newMat: Material) {
    Kept(b, c) || (IsPin(b, oldMat) && IsPin(c, newMat) && SecretOf(c.value) == SecretOf(b.value))
  }

  /** How a PIN command's answer and the count go together. */
  predicate Told(a: Status, n: nat, m: nat) {
    && m <= n + 1 && m <= MAX_CONSEC
    && (a == PinInvalid ==> m == n + 1 < MAX_CONSEC)
    && (a == PinAuthBlocked ==> m == MAX_CONSEC)
    && (a !in {Success, OtherError, PolicyViolation} ==> m >= n)
  }

  /** The same for any event; only commands give verdicts. */
  predicate Answered(e: Event, a: Status, n: nat, m: nat) {
    && m <= MAX_CONSEC && (a in {PinInvalid, PinAuthBlocked} ==> IsCommand(e))
    && (if IsCommand(e) then Told(a, n, m) else m <= n)
  }

  /** What an event may do to the PIN, whatever is cut. */
  ghost predicate Moved(e: Event, b: Option<Binding>, c: Option<Binding>) {
    Kept(b, c) || match e
      case DoSetPin(_, pin) => b == None && pin.Accepted? && IsPin(c, pin.mat)
      case DoChangePin(_, mat, pin) => pin.Accepted? && Replaced(b, c, mat, pin.mat)
      case DoGetToken(_, _, _, _, _, _) => false
      case DoUse(_, _, _, _, _, _) => false
      case DoReset => c == None
      case DoBoot(_) => false
  }

  /** A token request or a changePin that nothing but the PIN can fail. */
  predicate Fair(e: Event) {
    || (e.DoChangePin? && e.e.agreed && e.e.authOk && e.e.decrypts && e.pin.Accepted?)
    || (e.DoGetToken? && e.e.agreed && e.e.decrypts && e.e.encrypts && Grants(e.withPerms, e.asked, e.rp).Granted?)
  }

  ghost predicate Moves(events: seq<Event>, pins: seq<Option<Binding>>) {
    && |pins| == |events| + 1
    && forall k {:trigger events[k]} :: 0 <= k < |events| ==> Moved(events[k], pins[k], pins[k + 1])
  }

  function PinIn(b: Option<Binding>): Option<Material> { if b.Some? then Some(PinOf(b.value)) else None }

  /** A changePin that was given the live PIN, to the new one. */
  predicate Changes(e: Event, b: Option<Binding>) { e.DoChangePin? && IsPin(b, e.mat) && e.pin.Accepted? }

  /**
   As long as nobody resets, a PIN once set is there for good, and it is another one only after a changePin that was
   given the one live at that time.
   */
  lemma {:induction false} OnlyChangeMoves(events: seq<Event>, pins: seq<Option<Binding>>, i: nat, j: nat)
    requires Moves(events, pins) && i <= j <= |events| && pins[i].Some?
    requires forall k :: i <= k < j ==> events[k] != DoReset
    ensures pins[j].Some? && SecretOf(pins[j].value) == SecretOf(pins[i].value)
    ensures PinIn(pins[j]) != PinIn(pins[i]) ==> exists k :: i <= k < j && Changes(events[k], pins[k])
    decreases j - i
  {
    if i < j {
      OnlyChangeMoves(events, pins, i, j - 1);
      assert Moved(events[j - 1], pins[j - 1], pins[j - 1 + 1]);
      if !Kept(pins[j - 1], pins[j]) { assert Changes(events[j - 1], pins[j - 1]); }
    }
  }

  ghost predicate Counted(events: seq<Event>, answers: seq<Status>, counts: seq<nat>) {
    && |answers| == |events| && |counts| == |events| + 1 && counts[0] <= MAX_CONSEC
    && forall k {:trigger answers[k]} :: 0 <= k < |events| ==> Answered(events[k], answers[k], counts[k], counts[k + 1])
  }

  /** Answers that leave open whether the right PIN was given, or say so. */
  predicate MayForgive(e: Event, a: Status) { !IsCommand(e) || a in {Success, OtherError, PolicyViolation} }

  function Invalids(answers: seq<Status>, i: nat, j: nat): nat
    requires i <= j <= |answers|
  {
    if i == j then 0 else Invalids(answers, i, j - 1) + (if answers[j - 1] == PinInvalid then 1 else 0)
  }

  /**
   As the host sees it: between two answers that may have followed a right PIN, and without a reset or boot,
   PIN_INVALID is answered at most twice; the third wrong PIN in a row closes the door.
   */
  lemma {:induction false} TwoInvalids(events: seq<Event>, answers: seq<Status>, counts: seq<nat>, i: nat, j: nat)
    requires Counted(events, answers, counts) && i <= j <= |events|
    requires forall k :: i <= k < j ==> !MayForgive(events[k], answers[k])
    ensures counts[i] + Invalids(answers, i, j) <= counts[j] <= MAX_CONSEC
    ensures Invalids(answers, i, j) < MAX_CONSEC
    decreases j - i
  {
    if i < j {
      TwoInvalids(events, answers, counts, i, j - 1);
      assert Answered(events[j - 1], answers[j - 1], counts[j - 1], counts[j - 1 + 1]);
      assert !MayForgive(events[j - 1], answers[j - 1]);
    } else if i > 0 {
      assert Answered(events[i - 1], answers[i - 1], counts[i - 1], counts[i - 1 + 1]);
    }
  }

  /** A binding without the attempts taken and the pending retirement. */
  function Core(b: Binding): Binding { b.(next := 0, retirePending := 0) }

  lemma StillRoom(v: Pair, w: Pair)
    ensures Older(v, w, 1) && Spare(v) ==> Room(w) && Room10(w)
  {
  }

  /** How the key pair, the key agreement, the request's MAC and the ciphers turn out. */
  datatype Exchange = Exchange(drawn: bool, agreed: bool, authOk: bool, decrypts: bool, encrypts: bool)

  datatype Event =
    | DoSetPin(e: Exchange, pin: NewPin)
    | DoChangePin(e: Exchange, mat: Material, pin: NewPin)
    | DoGetToken(e: Exchange, mat: Material, withPerms: bool, asked: Option<bv64>, rp: Option<nat>, now: nat)
    | DoUse(param: Option<Param>, msg: seq<byte>, perm: bv8, site: nat, touch: bool, now: nat)
    | DoReset
    | DoBoot(drawn: bool)

  predicate IsCommand(e: Event) { !e.DoReset? && !e.DoBoot? }

  ghost predicate OnlyO2(m: Rmem, n: Rmem) { Others(m, n, O2_PLACE) }
}

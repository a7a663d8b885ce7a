/**
 The OpenPGP card over whole runs: any commands, any faults, any power cycles.
 */
module OpenPgpRuns {
  import opened Values
  import opened ChipModel
  import opened RecPairs
  import opened PinKernel
  import opened Layouts
  import opened OpenPgpState
  import opened OpenPgpCard

  datatype Event = Command(apdu: Apdu) | CardReset | PowerCycle

  /** A new chip is in a good state before the first command. */
  method NewCard(chip: Chip) returns (card: PgpCard)
    requires forall i :: 0 <= i < RMEM_SLOTS ==> chip.rmem[i] == Blank
    requires chip.ecc[SIG_SLOT] == NoKey && chip.signed == map[]
    ensures fresh(card) && card.Wired() && card.chip == chip && card.Inv()
  {
    card := new PgpCard(chip);
  }

  /** What an event made of the card: a command by its own fields, after a state that was not loaded came up. */
  ghost predicate Moved(e: Event, sw: Sw, m: Moment, mid: Moment, n: Moment) {
    match e
    case Command(c) => Booted(m, mid) && Allowed(c, sw, mid, n) && (sw == SwOk ==> Succeeded(c, mid, n))
    case CardReset => n.s == m.s && n.cur == m.cur && !n.a81 && !n.a82 && !n.a83
    case PowerCycle => n.s == m.s && !n.a81 && !n.a82 && !n.a83
  }

  /** A run: the card between the events, the card when each command began, and the answers. */
  ghost predicate CardRun(events: seq<Event>, answers: seq<Sw>, mids: seq<Moment>, trace: seq<Moment>) {
    && |answers| == |mids| == |events| && |trace| == |events| + 1
    && forall k {:trigger events[k]} :: 0 <= k < |events| ==>
         Moved(events[k], answers[k], trace[k], mids[k], trace[k + 1])
  }

  function Has(m: Moment, ref: nat): bool { if ref == 0x81 then m.a81 else if ref == 0x82 then m.a82 else m.a83 }

  /** The event was VERIFY of this reference, with the PIN bound then, and it was accepted. */
  predicate Verified(e: Event, sw: Sw, ref: nat, n: Moment) {
    && e.Command? && e.apdu.AVerify? && e.apdu.ref == ref && !e.apdu.reset && sw == SwOk
    && Is(n.s.Bound(PinRef(ref)), e.apdu.body)
  }

  /** Access that a card did not begin with goes back to a VERIFY with the bound PIN, and held ever since. */
  lemma {:induction false} AccessWasVerified(events: seq<Event>, answers: seq<Sw>, mids: seq<Moment>,
          trace: seq<Moment>, ref: nat, j: nat) returns (k: nat)
    requires CardRun(events, answers, mids, trace) && ref in {0x81, 0x82, 0x83} && j <= |events|
    requires Has(trace[j], ref) && !Has(trace[0], ref)
    ensures k < j && Verified(events[k], answers[k], ref, trace[k + 1])
    ensures forall i :: k < i <= j ==> Has(trace[i], ref)
    decreases j
  {
    assert Moved(events[j - 1], answers[j - 1], trace[j - 1], mids[j - 1], trace[j - 1 + 1]);
    if Has(trace[j - 1], ref) {
      k := AccessWasVerified(events, answers, mids, trace, ref, j - 1);
    } else {
      k := j - 1;
    }
  }

  method AnyRun(card: PgpCard, events: seq<Event>)
    returns (answers: seq<Sw>, ghost mids: seq<Moment>, ghost trace: seq<Moment>)
    requires card.Wired() && card.Inv()
    modifies card, card.chip, card.store, card.store.o3
    modifies card.pw1.rec, card.pw1, card.pw3.rec, card.pw3, card.rc.rec, card.rc
    ensures card.Inv()
    ensures CardRun(events, answers, mids, trace) && trace[0] == old(card.Now()) && trace[|events|] == card.Now()
    // A stored decryption key always belongs to the live PW1, and a TERMINATED record to a card without keys.
    ensures forall w | HasDecKey(card.O3(), w) && card.pw1.Current().Some? ::
              w.kek == Kek(SecretOf(card.pw1.Current().value))
    ensures HasOperational(card.O3()) ==> PinWorks(PW1, card.S()) && PinWorks(PW3, card.S())
    ensures IsTerminated(card.O3().a) || IsTerminated(card.O3().b) ==> NoKeys(card.chip.ecc) && NoDec(card.O3())
    // The present key has made no more signatures than the counter says, as long as that did not go back to 0.
    ensures !card.wrapped ==> forall st | Shows(card.O3(), st) :: Made(card.chip.ecc, card.chip.signed) <= st.sigCount
  {
    answers, mids, trace := [], [], [card.Now()];
    for i := 0 to |events|
      invariant card.Inv() && |answers| == |mids| == i && |trace| == i + 1
      invariant trace[0] == old(card.Now()) && trace[i] == card.Now()
      invariant forall k {:trigger events[k]} :: 0 <= k < i ==>
                  Moved(events[k], answers[k], trace[k], mids[k], trace[k + 1])
    {
      hide card.Base, Moved;
      var sw; ghost var mid;
      sw, mid := OneEvent(card, events[i]);
      answers, mids, trace := answers + [sw], mids + [mid], trace + [card.Now()];
    }
  }

  method OneEvent(card: PgpCard, e: Event) returns (sw: Sw, ghost mid: Moment)
    requires card.Wired() && card.Inv()
    modifies card, card.chip, card.store, card.store.o3
    modifies card.pw1.rec, card.pw1, card.pw3.rec, card.pw3, card.rc.rec, card.rc
    ensures card.Inv() && Moved(e, sw, old(card.Now()), mid, card.Now())
  {
    hide card.Base, Booted, Allowed, Succeeded, card.PinAnswers, card.KeyAnswers;
    sw, mid := SwOk, card.Now();
    match e {
      case Command(apdu) =>
        var shared;
        sw, shared, mid := card.Dispatch(apdu);
      case CardReset => card.AuthDrop(true, true, true);
      case PowerCycle => card.PowerCycle();
    }
  }

  /** One of the two copies is this state. */
  predicate Shows(v: Pair, st: CardState) {
    (v.a.Valid? && v.a.payload == Card(st)) || (v.b.Valid? && v.b.payload == Card(st))
  }

  /** The 24-bit counter cannot do better: at its last value the next signature makes it show none. */
  method CounterGoesBack(card: PgpCard, body: Material)
    requires card.Wired() && card.Inv() && card.chip.calm && card.store.Lifecycle() == LC_OPERATIONAL
    requires Writable(card.O3()) && card.a81 && body != [] && card.chip.ecc[SIG_SLOT].Key?
    requires card.store.cur.sigCount == Made(card.chip.ecc, card.chip.signed) == SIG_COUNTS - 1
    modifies card, card.chip`rmem, card.chip`signed, card.store`cur, card.store.o3`uncertain
    ensures card.Inv() && card.store.cur.sigCount == 0 && Made(card.chip.ecc, card.chip.signed) == SIG_COUNTS
  {
    hide card.Base;
    var sw, sig := card.PsoCds(body, true, true);
  }

  predicate HasDecKey(v: Pair, w: Wrap) {
    (HasDec(v.a) && v.a.payload.state.dec == Some(w)) || (HasDec(v.b) && v.b.payload.state.dec == Some(w))
  }

  /**
   CHANGE keeps decryption working: whatever was cut in it, once power returns on a key that works
   again, exactly the live PIN is accepted, and PSO:DEC then uses the key that was stored before.
   */
  method ChangeThenDecrypt(card: PgpCard, body: Material, pin: Material, peer: nat)
    returns (ghost live: Material, verified: bool, shared: Option<Shared>)
    requires card.Wired() && card.Inv() && card.store.Lifecycle() == LC_OPERATIONAL && card.store.cur.dec.Some?
    requires card.S().Bound(PW1).Some? && card.S().Bound(PW1).value.next + 2 <= PW1_LAYOUT.rounds
    requires Value(card.S().Rec(PW1)).value.0 + 11 <= U32_MAX   // generations left
    modifies card, card.chip, card.store, card.store.o3
    modifies card.pw1.rec, card.pw1, card.pw3.rec, card.pw3, card.rc.rec, card.rc
    ensures card.Inv()
    ensures live == PinOf(old(card.S()).Bound(PW1).value) || body == PinOf(old(card.S()).Bound(PW1).value) + live
    ensures verified <==> pin == live
    ensures verified ==> shared == Some(Shared(old(card.store.cur.dec.value.priv), peer))
  {
    hide card.Base, Older, ChangedOrNot;
    card.CachedValue();
    card.OperationalCopies();
    card.CurIsOk();
    card.OfKernel(PW1);
    ghost var s := card.S();
    card.chip.calm := false;
    var sw := card.HandleChange(0x81, body);
    ghost var m := card.S();
    ghost var old1, now1 := s.Bound(PW1), m.Bound(PW1);
    StillThere(old1, now1, body);
    live := PinOf(now1.value);
    card.PowerCycle();
    card.chip.calm := true;
    LoadsAgain(card, s.O3());
    card.Ensure();
    NextTry(card, s.Rec(PW1), m.Rec(PW1));
    card.OfKernel(PW1);
    card.OperationalCopies();
    FitsPin(card);
    sw := card.HandleVerify(0x82, false, pin);
    verified := sw == SwOk;
    shared := None;
    if !verified { return; }
    card.CachedValue();
    sw, shared := card.PsoDec(peer, true);
  }

  lemma StillThere(o: Option<Binding>, o': Option<Binding>, body: Material)
    requires ChangedOrNot(o, o', body) && o.Some? && o.value.next + 2 <= PW1_LAYOUT.rounds
    ensures o'.Some? && o'.value.next < PW1_LAYOUT.rounds
    ensures PinOf(o'.value) == PinOf(o.value) || body == PinOf(o.value) + PinOf(o'.value)
  {
  }

  lemma LoadsAgain(card: PgpCard, v: Pair)
    requires card.Wired() && card.Base() && card.O3() == v && v.a == v.b && v.a.Valid? && v.a.payload.Card?
    requires StateOk(v.a.payload.state)
    ensures CanLoad(v) && Value(v) == Some((v.a.gen, v.a.payload))
  {
  }

  lemma NextTry(card: PgpCard, v: Pair, w: Pair)
    requires card.Wired() && card.Base() && card.S().Rec(PW1) == w && Older(v, w, 7) && card.chip.calm
    requires !card.pw1.rec.uncertain
    requires Value(v).Some? && Value(v).value.0 + 11 <= U32_MAX
    requires BindingIn(w).Some? && BindingIn(w).value.next < PW1_LAYOUT.rounds
    ensures card.CanTry(PW1)
  {
    card.OfKernel(PW1);
    card.PinIsFine(PW1);
  }

  lemma FitsPin(card: PgpCard)
    requires card.Wired() && card.Base() && card.S().Bound(PW1).Some?
    ensures LenOk(PW1, PinOf(card.S().Bound(PW1).value)) && PinOf(card.S().Bound(PW1).value) != []
  {
    card.PinIsFine(PW1);
  }
}

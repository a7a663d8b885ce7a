/**
 FIDO state over whole runs, and newest-first discovery on it.
 */
module FidoRuns {
  import opened Values
  import opened ChipModel
  import opened RecPairs
  import opened PinKernel
  import opened Layouts
  import opened FidoStore

  datatype Event =
    | DoBoot
    | DoReset
    | DoMake(rk: bool, alg: nat, rp: nat, user: nat)
    | DoErase(i: nat)
    | DoSetPin(mat: Material, pinLen: nat)
    | DoVerifyPin(mat: Material)
    | DoChangePin(oldMat: Material, newMat: Material, newLen: nat)
    | DoPowerCycle

  method NewStore(chip: Chip) returns (s: Store)
    requires forall i :: 0 <= i < RMEM_SLOTS ==> chip.rmem[i] == Blank
    ensures fresh(s) && s.Wired() && s.chip == chip && s.Inv()
  {
    s := new Store(chip);
  }

  method PowerCycle(s: Store)
    requires s.Wired() && s.Inv()
    modifies s`initted, s`ready, s.o1`uncertain, s.pin.rec`uncertain
    ensures s.Inv() && !s.initted && !s.ready && !s.o1.uncertain && !s.pin.rec.uncertain
    ensures s.o1.Now() == old(s.o1.Now())
  {
    s.initted, s.ready := false, false;
    s.o1.uncertain, s.pin.rec.uncertain := false, false;
  }

  method PinCall(s: Store, mat: Material, newMat: Option<Material>, newLen: nat)
    requires s.Wired() && s.Inv()
    modifies s.chip`rmem, s.chip`mad, s.chip`rng, s.pin.rec`uncertain, s.pin`probes
    ensures s.Inv() && s.o1.Now() == old(s.o1.Now()) && SameCredentials(old(s.chip.rmem), s.chip.rmem)
  {
    hide Genuine, BoundTo, Armed, Retired;
    ghost var m := s.chip.rmem;
    if newMat.Some? {
      var rc, correct, k := s.pin.Change(mat, newMat.value, newLen);
    } else {
      var rc, correct, k := s.pin.Verify(mat);
    }
    MetaFrame(m, s.chip.rmem);
    FewerIsFine(m, s.chip.rmem, s.chip.ecc, s.chip.ecc, s.made);
  }

  method SetPin(s: Store, mat: Material, pinLen: nat)
    requires s.Wired() && s.Inv()
    modifies s, s.chip`rmem, s.chip`mad, s.chip`rng, s.pin.rec, s.pin, s.o1
    ensures s.Inv() && s.made == old(s.made) && SameCredentials(old(s.chip.rmem), s.chip.rmem)
  {
    hide s.Base;
    ghost var m := s.chip.rmem;
    var ok := s.PinSet(mat, pinLen);
    MetaFrame(m, s.chip.rmem);
    FewerIsFine(m, s.chip.rmem, s.chip.ecc, s.chip.ecc, s.made);
  }

  /** What the dispatcher lets through. */
  predicate Served(s: Store, e: Event)
    reads s, s.o1, s.pin, s.pin.rec
  {
    e in {DoBoot, DoReset, DoPowerCycle} || s.Ready()
  }

  /**
   Any run of commands, cuts and boots: accounts stay unique, creation numbers distinct, and every credential
   that resolves has no key but the one generated for it, which no other credential has.  Creation numbers never
   exceed the number of registrations attempted.
   */
  method AnyRun(s: Store, events: seq<Event>, ghost n: nat)
    requires s.Wired() && s.Inv() && Numbered(s.chip.rmem, n)
    modifies s, s.chip, s.o1, s.pin, s.pin.rec
    ensures s.Inv()
    ensures Accounts(s.chip.rmem) && KeysMatch(s.chip.rmem, s.chip.ecc, s.made) && KeysDrawn(s.made, s.chip.rng)
    ensures Numbered(s.chip.rmem, n + Registrations(events, |events|))
  {
    for i := 0 to |events|
      invariant s.Inv() && Numbered(s.chip.rmem, n + Registrations(events, i))
    {
      hide s.Base, Numbered;
      if Served(s, events[i]) {
        Serve(s, events[i], n + Registrations(events, i));
      } else {
        MoreNumbers(s.chip.rmem, n + Registrations(events, i), n + Registrations(events, i + 1));
      }
    }
  }

  /** How many of the first `k` events are registrations. */
  function Registrations(events: seq<Event>, k: nat): nat
    requires k <= |events|
  {
    if k == 0 then 0 else Registrations(events, k - 1) + if events[k - 1].DoMake? then 1 else 0
  }

  lemma MoreNumbers(m: Rmem, n: nat, n': nat)
    requires Numbered(m, n) && n <= n'
    ensures Numbered(m, n')
  {
  }

  /**
   After any run with fewer than 2^32 - 1 registrations, a registration on a key that works again succeeds as soon as
   O1 can be written, every listed credential can be read and a slot is free.
   */
  method RegisterAfter(s: Store, events: seq<Event>, rk: bool, alg: nat, rp: nat, user: nat)
    returns (ghost possible: bool, rc: MakeRc, idx: nat, nonce: nat, ghost created: nat)
    requires s.Wired() && s.Inv() && forall i :: 0 <= i < FIDO_SLOTS ==> Resolved(s.chip.rmem, i) == None
    requires Registrations(events, |events|) < U32_MAX
    modifies s, s.chip, s.o1, s.pin, s.pin.rec
    ensures s.Inv() && (possible && idx < FIDO_SLOTS ==> created <= Registrations(events, |events|) + 1)
    ensures possible ==>
              rc == MakeOk && idx < FIDO_SLOTS
                && Resolved(s.chip.rmem, idx) == Some(Meta(alg, rk, rp, user, nonce, created))
  {
    hide s.Base, AllReadable, Next;
    s.chip.calm := false;
    AnyRun(s, events, 0);
    ghost var m := s.chip.rmem;
    s.chip.calm := true;
    possible := s.Usable() && Writable(s.o1.Now()) && AllReadable(m) && s.HasFree();
    MoreNumbers(m, Registrations(events, |events|), U32_MAX - 1);
    rc, idx, nonce, created := s.MakeCredential(rk, alg, rp, user);
    if rc == MakeOk { NextNumber(m, Registrations(events, |events|), created); }
  }

  method Serve(s: Store, e: Event, ghost n: nat)
    requires s.Wired() && s.Inv() && Numbered(s.chip.rmem, n)
    modifies s, s.chip, s.o1, s.pin, s.pin.rec
    ensures s.Inv() && Numbered(s.chip.rmem, if e.DoMake? then n + 1 else n)
    // Only a registration brings a credential.
    ensures !e.DoMake? ==> FewerCredentials(old(s.chip.rmem), s.chip.rmem)
  {
    hide s.Base, Numbered, s.Made, Next;
    ghost var m := s.chip.rmem;
    if e.DoMake? {
      Register(s, e, n);
      return;
    }
    match e {
      case DoBoot => var ok := s.Init();
      case DoReset => var ok := s.FactoryReset();
      case DoErase(j) => if j < FIDO_SLOTS { var ok := s.EraseSlot(j); }
      case DoSetPin(mat, len) => SetPin(s, mat, len);
      case DoVerifyPin(mat) => PinCall(s, mat, None, 0);
      case DoChangePin(a, b, len) => PinCall(s, a, Some(b), len);
      case DoPowerCycle => PowerCycle(s);
    }
    FewerNumbered(m, s.chip.rmem, n, n);
  }

  method Register(s: Store, e: Event, ghost n: nat)
    requires s.Wired() && s.Inv() && Numbered(s.chip.rmem, n) && e.DoMake?
    modifies s, s.chip, s.o1, s.pin, s.pin.rec
    ensures s.Inv() && Numbered(s.chip.rmem, n + 1)
  {
    hide s.Base, Numbered, Next, Published;
    ghost var m := s.chip.rmem;
    var rc, idx, nonce;
    ghost var created;
    rc, idx, nonce, created := s.MakeCredential(e.rk, e.alg, e.rp, e.user);
    if SameCredentials(m, s.chip.rmem) {
      SameIsFewer(m, s.chip.rmem);
      FewerNumbered(m, s.chip.rmem, n, n + 1);
    } else {
      PublishedNumbered(m, s.chip.rmem, n, idx, Meta(e.alg, e.rk, e.rp, e.user, nonce, created),
        AccountSlots(m, e.rk, e.rp, e.user));
    }
  }

  /** Resets and boots only: `true` is a reset, `false` a power cycle and boot. */
  method InterruptedResets(s: Store, resets: seq<bool>)
    requires s.Wired() && s.Inv() && s.Guarded()
    modifies s, s.chip, s.o1, s.pin, s.pin.rec
    ensures s.Inv() && s.Guarded() && FewerCredentials(old(s.chip.rmem), s.chip.rmem)
  {
    for i := 0 to |resets|
      invariant s.Inv() && s.Guarded() && FewerCredentials(old(s.chip.rmem), s.chip.rmem)
    {
      hide s.Base;
      ghost var m := s.chip.rmem;
      var ok;
      if resets[i] {
        ok := s.FactoryReset();
      } else {
        PowerCycle(s);
        ok := s.Init();
      }
      FewerTrans(old(s.chip.rmem), m, s.chip.rmem);
    }
  }

  lemma FewerTrans(m: Rmem, n: Rmem, o: Rmem)
    requires FewerCredentials(m, n) && FewerCredentials(n, o)
    ensures FewerCredentials(m, o)
  {
    forall i | 0 <= i < FIDO_SLOTS ensures Resolved(o, i) in {Resolved(m, i), None} {
      assert Resolved(o, i) in {Resolved(n, i), None};
    }
  }

  /**
   Starting from credentials behind a PIN: however many resets and boots are cut, a boot
   that succeeds and finds no PIN finds no key and no credential either.
   */
  method NoPinMeansNothingLeft(s: Store, resets: seq<bool>) returns (booted: bool, st: FidoPin)
    requires s.Wired() && s.Inv() && s.Guarded()
    modifies s, s.chip, s.o1, s.pin, s.pin.rec
    ensures booted && st == FpNotSet ==> Clean(s.chip.rmem, s.chip.ecc)
  {
    InterruptedResets(s, resets);
    hide s.Base;
    PowerCycle(s);
    booted := s.Init();
    ghost var m, ecc, v := s.chip.rmem, s.chip.ecc, s.o1.Now();
    var attempts;
    st, attempts := s.PinState();
    MetaFrame(m, s.chip.rmem);
    if st == FpNotSet { s.BitsInRange(); ReadBound(s); }
  }

  lemma ReadBound(s: Store)
    requires s.Wired() && s.Base() && s.Usable()
    ensures Value(s.o1.Now()).Some? && Value(s.o1.Now()).value.1 == Global(s.bitmap, s.forceUv, s.pinBound)
  {
  }

  // ----- discovery -----

  ghost predicate Discoverable(m: Rmem, i: nat, rp: nat)
    requires i < FIDO_SLOTS
  {
    Resolved(m, i).Some? && Resolved(m, i).value.resident && Resolved(m, i).value.rp == rp
  }

  /** Listed slots are discoverable, each once, and newer comes first. */
  ghost predicate NewestFirst(m: Rmem, list: seq<nat>, rp: nat) {
    && (forall k :: 0 <= k < |list| ==> list[k] < FIDO_SLOTS && Discoverable(m, list[k], rp))
    && (forall j, k :: 0 <= j < k < |list| ==>
          list[j] != list[k] && Resolved(m, list[j]).value.created >= Resolved(m, list[k]).value.created)
  }

  ghost predicate Complete(m: Rmem, list: seq<nat>, rp: nat, below: nat)
    requires below <= FIDO_SLOTS
  {
    forall i :: 0 <= i < below && Discoverable(m, i, rp) ==> i in list
  }

  ghost predicate Listed(m: Rmem, ss: seq<nat>, cs: seq<nat>, rp: nat, below: nat)
    requires below <= FIDO_SLOTS
  {
    && |ss| == |cs|
    && (forall k :: 0 <= k < |ss| ==>
         ss[k] < below && Discoverable(m, ss[k], rp) && cs[k] == Resolved(m, ss[k]).value.created)
    && (forall j, k :: 0 <= j < k < |ss| ==> cs[j] >= cs[k] && ss[j] != ss[k])
  }

  lemma InOrder(m: Rmem, ss: seq<nat>, cs: seq<nat>, rp: nat, below: nat)
    requires below <= FIDO_SLOTS && Listed(m, ss, cs, rp, below)
    ensures |ss| == |cs| && forall j, k :: 0 <= j < k < |cs| ==> cs[j] >= cs[k]
  {
  }

  lemma ListedIsNewestFirst(m: Rmem, ss: seq<nat>, cs: seq<nat>, rp: nat)
    requires Listed(m, ss, cs, rp, FIDO_SLOTS)
    ensures NewestFirst(m, ss, rp)
  {
    hide Resolved;
    forall j, k | 0 <= j < k < |ss|
      ensures ss[j] != ss[k] && Resolved(m, ss[j]).value.created >= Resolved(m, ss[k]).value.created
    {
      assert cs[j] >= cs[k];
    }
  }

  lemma NothingListed(m: Rmem, rp: nat)
    ensures Listed(m, [], [], rp, 0) && Complete(m, [], rp, 0)
  {
  }

  lemma CompleteSoFar(m: Rmem, a: seq<nat>, b: seq<nat>, rp: nat, i: nat)
    requires i < FIDO_SLOTS && Complete(m, a, rp, i) && (forall x :: x in a ==> x in b)
    requires (Discoverable(m, i, rp) ==> i in b)
    ensures Complete(m, b, rp, i + 1)
  {
    hide Discoverable;
  }

  function Splice(s: seq<nat>, at: nat, x: nat): seq<nat>
    requires at <= |s|
  {
    s[..at] + [x] + s[at..]
  }

  lemma SpliceAt(s: seq<nat>, at: nat, x: nat, k: nat)
    requires at <= |s| && k <= |s|
    ensures |Splice(s, at, x)| == |s| + 1
    ensures Splice(s, at, x)[k] == if k < at then s[k] else if k == at then x else s[k - 1]
  {
  }

  lemma InsertKeeps(m: Rmem, ss: seq<nat>, cs: seq<nat>, at: nat, i: nat, when: nat, rp: nat)
    requires i < FIDO_SLOTS && Listed(m, ss, cs, rp, i) && at <= |ss|
    requires Discoverable(m, i, rp) && when == Resolved(m, i).value.created
    requires (forall k :: 0 <= k < at ==> cs[k] >= when) && (forall k :: at <= k < |cs| ==> cs[k] < when)
    ensures var ss' := Splice(ss, at, i);
            Listed(m, ss', Splice(cs, at, when), rp, i + 1) && i in ss' && forall x :: x in ss ==> x in ss'
  {
    hide Resolved, Splice;
    var ss', cs' := Splice(ss, at, i), Splice(cs, at, when);
    SpliceAt(ss, at, i, at);
    SpliceAt(cs, at, when, at);
    forall k | 0 <= k < |ss| ensures ss[k] in ss' {
      SpliceAt(ss, at, i, if k < at then k else k + 1);
    }
    forall k | 0 <= k < |ss'|
      ensures ss'[k] < i + 1 && Discoverable(m, ss'[k], rp) && cs'[k] == Resolved(m, ss'[k]).value.created
    {
      SpliceAt(ss, at, i, k);
      SpliceAt(cs, at, when, k);
    }
    forall j, k | 0 <= j < k < |ss'| ensures cs'[j] >= cs'[k] && ss'[j] != ss'[k] {
      SpliceAt(ss, at, i, j);
      SpliceAt(ss, at, i, k);
      SpliceAt(cs, at, when, j);
      SpliceAt(cs, at, when, k);
    }
  }

  lemma Spliced(t: seq<nat>, s: seq<nat>, at: nat, x: nat)
    requires |t| == |s| + 1 && at <= |s| && t[at] == x
    requires forall k {:trigger s[k]} :: 0 <= k < at ==> t[k] == s[k]
    requires forall k {:trigger s[k]} :: at <= k < |s| ==> t[k + 1] == s[k]
    ensures t == Splice(s, at, x)
  {
    hide Splice;
    SpliceAt(s, at, x, 0);
    forall k | 0 <= k < |t| ensures t[k] == Splice(s, at, x)[k] {
      SpliceAt(s, at, x, k);
      if k > at { assert t[k] == s[k - 1]; }
    }
  }

  /** GetAssertion's list and the walk of GetNextAssertion over it. */
  class Assertions {
    const store: Store
    const slots: array<nat>
    const created: array<nat>
    var count: nat
    var pos: nat
    var active: bool

    constructor (s: Store)
      ensures store == s && fresh(slots) && fresh(created) && slots.Length == created.Length == FIDO_SLOTS && !active
    {
      store := s;
      slots := new nat[FIDO_SLOTS];
      created := new nat[FIDO_SLOTS];
      count, pos, active := 0, 0, false;
    }

    /** Insert at `at`, behind every credential that is not older. */
    method Insert(n: nat, slot: nat, when: nat) returns (at: nat)
      requires n < FIDO_SLOTS && slots.Length == created.Length == FIDO_SLOTS && slots != created
      requires forall j, k :: 0 <= j < k < n ==> created[j] >= created[k]
      modifies slots, created
      ensures at <= n
      ensures slots[..n + 1] == Splice(old(slots[..n]), at, slot)
      ensures created[..n + 1] == Splice(old(created[..n]), at, when)
      ensures forall k :: 0 <= k < at ==> old(created[..n])[k] >= when
      ensures forall k :: at <= k < n ==> old(created[..n])[k] < when
    {
      hide Splice;
      at := n;
      ghost var s0, c0 := slots[..n], created[..n];
      while at > 0 && created[at - 1] < when
        invariant 0 <= at <= n
        invariant forall k {:trigger s0[k]} :: 0 <= k < at ==> slots[k] == s0[k]
        invariant forall k {:trigger c0[k]} :: 0 <= k < at ==> created[k] == c0[k]
        invariant forall k {:trigger s0[k]} :: at <= k < n ==> slots[k + 1] == s0[k]
        invariant forall k {:trigger c0[k]} :: at <= k < n ==> created[k + 1] == c0[k] && c0[k] < when
      {
        assert c0[at - 1] == created[at - 1] && s0[at - 1] == slots[at - 1];
        created[at] := created[at - 1];
        slots[at] := slots[at - 1];
        at := at - 1;
      }
      assert at > 0 ==> c0[at - 1] >= when;
      created[at] := when;
      slots[at] := slot;
      Spliced(slots[..n + 1], s0, at, slot);
      Spliced(created[..n + 1], c0, at, when);
    }

    method InsertListed(n: nat, rp: nat, i: nat, when: nat)
      requires n <= i < FIDO_SLOTS && slots.Length == created.Length == FIDO_SLOTS && slots != created
      requires Listed(store.chip.rmem, slots[..n], created[..n], rp, i)
      requires Discoverable(store.chip.rmem, i, rp) && when == Resolved(store.chip.rmem, i).value.created
      modifies slots, created
      ensures Listed(store.chip.rmem, slots[..n + 1], created[..n + 1], rp, i + 1)
      ensures i in slots[..n + 1] && forall x :: x in old(slots[..n]) ==> x in slots[..n + 1]
    {
      ghost var ss, cs := slots[..n], created[..n];
      hide Resolved, Discoverable, Listed;
      InOrder(store.chip.rmem, ss, cs, rp, i);
      assert forall j, k :: 0 <= j < k < n ==> created[j] >= created[k] by {
        forall j, k | 0 <= j < k < n ensures created[j] >= created[k] {
          assert cs[j] >= cs[k];
        }
      }
      var at := Insert(n, i, when);
      InsertKeeps(store.chip.rmem, ss, cs, at, i, when, rp);
    }

    /** One slot of the scan: listed if it holds a readable discoverable credential of this RP. */
    method Consider(n: nat, rp: nat, i: nat) returns (n': nat)
      requires store.Wired() && store.Base() && store.Usable() && slots.Length == created.Length == FIDO_SLOTS
      requires slots != created
      requires n <= i < FIDO_SLOTS && Listed(store.chip.rmem, slots[..n], created[..n], rp, i)
      modifies slots, created
      ensures n' in {n, n + 1} && n' <= FIDO_SLOTS && Listed(store.chip.rmem, slots[..n'], created[..n'], rp, i + 1)
      ensures forall x :: x in old(slots[..n]) ==> x in slots[..n']
      ensures store.chip.calm && Discoverable(store.chip.rmem, i, rp) ==> i in slots[..n']
    {
      n' := n;
      store.BitsInRange();
      if i in store.bitmap {
        var r := store.ReadCred(i);
        if r.Found? && r.meta.resident && r.meta.rp == rp {
          InsertListed(n, rp, i, r.meta.created);
          n' := n + 1;
        }
      }
    }

    /** Newest first, by insertion into the arrays in place. */
    method Discover(rp: nat) returns (n: nat)
      requires store.Wired() && store.Base() && store.Usable() && slots.Length == created.Length == FIDO_SLOTS
      requires slots != created
      modifies slots, created
      ensures n <= FIDO_SLOTS && NewestFirst(store.chip.rmem, slots[..n], rp)
      ensures store.chip.calm ==> Complete(store.chip.rmem, slots[..n], rp, FIDO_SLOTS)
    {
      hide store.Base, Discoverable, Listed, Complete, NewestFirst;
      n := 0;
      NothingListed(store.chip.rmem, rp);
      assert slots[..0] == [] && created[..0] == [];
      for i := 0 to FIDO_SLOTS
        invariant 0 <= n <= i && Listed(store.chip.rmem, slots[..n], created[..n], rp, i)
        invariant store.chip.calm ==> Complete(store.chip.rmem, slots[..n], rp, i)
      {
        ghost var before := slots[..n];
        n := Consider(n, rp, i);
        if store.chip.calm { CompleteSoFar(store.chip.rmem, before, slots[..n], rp, i); }
      }
      ListedIsNewestFirst(store.chip.rmem, slots[..n], created[..n], rp);
    }

    /** GetAssertion without an allowList answers with the newest and opens the walk over the rest. */
    method GetAssertion(rp: nat, signs: bool) returns (first: Option<nat>)
      requires store.Wired() && store.Base() && store.Usable() && slots.Length == created.Length == FIDO_SLOTS
      requires slots != created
      modifies this, slots, created
      ensures count <= FIDO_SLOTS && NewestFirst(store.chip.rmem, slots[..count], rp)
      ensures store.chip.calm ==> Complete(store.chip.rmem, slots[..count], rp, FIDO_SLOTS)
      ensures first == if count > 0 && signs then Some(slots[0]) else None
      ensures active == (signs && count > 1) && pos == 1
    {
      active, pos := false, 1;
      count := Discover(rp);
      if count == 0 || !signs { return None; }
      first := Some(slots[0]);
      if count > 1 { active := true; }
    }

    /** GetNextAssertion: the next slot of the list, until it is used up or the host was too slow. */
    method GetNextAssertion(expired: bool, signs: bool) returns (next: Option<nat>)
      requires slots.Length == FIDO_SLOTS && count <= FIDO_SLOTS
      modifies this`active, this`pos
      ensures next == if old(active) && old(pos) < count && !expired && signs then Some(slots[old(pos)]) else None
      ensures pos == if old(active) && old(pos) < count && !expired then old(pos) + 1 else old(pos)
      ensures active == (old(active) && !(old(pos) < count && expired))
    {
      if !active || pos >= count { return None; }
      if expired {
        active := false;
        return None;
      }
      var slot := slots[pos];
      pos := pos + 1;
      next := if signs then Some(slot) else None;
    }

    /** A host that keeps asking in time is answered for every listed credential once, newest first. */
    method Walk(rp: nat) returns (answered: seq<nat>)
      requires store.Wired() && store.Inv() && store.Usable() && slots.Length == created.Length == FIDO_SLOTS
      requires slots != created
      modifies this, slots, created
      ensures StrictlyNewestFirst(store.chip.rmem, answered, rp)
      ensures store.chip.calm ==> Complete(store.chip.rmem, answered, rp, FIDO_SLOTS)
    {
      ghost var m := store.chip.rmem;
      hide store.Base;
      var next := GetAssertion(rp, true);
      answered := [];
      ghost var all := slots[..count];
      while next.Some?
        invariant count <= FIDO_SLOTS && all == slots[..count] && (active == (count > 1)) && pos >= 1
        invariant if next.Some? then pos <= count && next.value == slots[pos - 1] && answered == slots[..pos - 1]
                  else answered == slots[..count]
        decreases count - pos, next.Some?
      {
        answered := answered + [next.value];
        next := GetNextAssertion(false, true);
      }
      NoTies(m, answered, rp);
    }
  }

  /** Newer comes strictly first. */
  ghost predicate StrictlyNewestFirst(m: Rmem, list: seq<nat>, rp: nat) {
    && (forall k :: 0 <= k < |list| ==> list[k] < FIDO_SLOTS && Discoverable(m, list[k], rp))
    && (forall j, k :: 0 <= j < k < |list| ==>
          list[j] != list[k] && Resolved(m, list[j]).value.created > Resolved(m, list[k]).value.created)
  }

  lemma NoTies(m: Rmem, list: seq<nat>, rp: nat)
    requires NewestFirst(m, list, rp) && Accounts(m)
    ensures StrictlyNewestFirst(m, list, rp)
  {
    hide Resolved;
    forall j, k | 0 <= j < k < |list| ensures Resolved(m, list[j]).value.created > Resolved(m, list[k]).value.created {
      assert Discoverable(m, list[j], rp) && Discoverable(m, list[k], rp);
      if list[j] < list[k] {
        assert Resolved(m, list[j]).value.created != Resolved(m, list[k]).value.created;
      } else {
        assert Resolved(m, list[k]).value.created != Resolved(m, list[j]).value.created;
      }
    }
  }
}

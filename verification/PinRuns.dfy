/**
 PIN bindings over whole runs: any calls, any faults, any reboots.
 */
module PinRuns {
  import opened Values
  import opened ChipModel
  import opened RecPairs
  import opened PinKernel

  datatype Call =
    | DoStatus
    | DoVerify(mat: Material)
    | DoChange(oldMat: Material, newMat: Material, newLen: nat)
    | DoSetup(mat: Material, len: nat)
    | DoClear
    | Reboot

  datatype Moment = Moment(binding: Option<Binding>, probes: nat, rng: nat)

  /** What holds between calls: no more probes than attempts taken, and the secret was drawn. */
  predicate Sane(L: Layout, m: Moment) {
    m.binding.Some? ==> m.probes <= m.binding.value.next <= L.rounds && Drawn(SecretOf(m.binding.value), m.rng)
  }

  predicate CallStep(L: Layout, m: Moment, c: Call, n: Moment) {
    && Sane(L, n) && m.rng <= n.rng
    && match c {
      case Reboot => n == m
      case DoStatus => n.probes == m.probes && SettledOrNot(m.binding, n.binding)
      case DoVerify(mat) =>
        VerifyStep(L, m.binding, n.binding, mat) && CountStep(m.binding, m.probes, n.binding, n.probes, mat)
      case DoChange(a, b, len) =>
        && ChangeStep(L, m.binding, n.binding, a, b, len)
        && (WrongFor(m.binding, a) ==> CountStep(m.binding, m.probes, n.binding, n.probes, a))
      case DoSetup(mat, len) =>
        (SettledOrNot(m.binding, n.binding) && n.probes == m.probes) || SetAfresh(L, m, n, mat, len)
      case DoClear => n.probes == m.probes && n.binding in {m.binding, None}
    }
  }

  /** A new binding, with a secret that nobody had before. */
  predicate SetAfresh(L: Layout, m: Moment, n: Moment, mat: Material, len: nat) {
    && n.binding.Some? && n.probes == 0
    && var s := SecretOf(n.binding.value);
       s.Random? && s.n >= m.rng && SetupStep(L, m.binding, n.binding, mat, len, s)
  }

  predicate WrongFor(b: Option<Binding>, mat: Material) { b.Some? ==> mat != PinOf(b.value) }

  ghost predicate CallRun(L: Layout, calls: seq<Call>, run: seq<Moment>) {
    && |run| == |calls| + 1
    && Sane(L, run[0])
    && forall i {:trigger calls[i]} :: 0 <= i < |calls| ==> CallStep(L, run[i], calls[i], run[i + 1])
  }

  lemma RunTail(L: Layout, calls: seq<Call>, run: seq<Moment>)
    requires CallRun(L, calls, run) && |calls| > 0
    ensures CallRun(L, calls[1..], run[1..]) && CallStep(L, run[0], calls[0], run[1])
  {
    assert CallStep(L, run[0], calls[0], run[1]);
    forall i {:trigger calls[1..][i]} | 0 <= i < |calls| - 1
      ensures CallStep(L, run[1..][i], calls[1..][i], run[1..][i + 1])
    {
      assert CallStep(L, run[i + 1], calls[i + 1], run[i + 2]);
    }
  }

  predicate WrongGuess(c: Call, pin: Material) {
    match c
    case DoVerify(mat) => mat != pin
    case DoChange(a, _, _) => a != pin
    case DoStatus => true
    case Reboot => true
    case _ => false
  }

  /**
   Guessing without the PIN: however the calls are cut and however often the key is
   unplugged, the PIN and its secret stay, attempts never come back, and no more guesses
   are evaluated than attempts were taken.
   */
  lemma {:induction false} GuessingIsBounded(L: Layout, calls: seq<Call>, run: seq<Moment>)
    requires CallRun(L, calls, run) && run[0].binding.Some?
    requires forall c :: c in calls ==> WrongGuess(c, PinOf(run[0].binding.value))
    ensures run[|calls|].binding.Some?
    ensures var b, c, m, n := run[0].binding.value, run[|calls|].binding.value, run[0].probes, run[|calls|].probes;
            SameBinding(b, c) && b.next <= c.next <= L.rounds && m <= n <= m + (c.next - b.next) <= L.rounds
  {
    if |calls| > 0 {
      RunTail(L, calls, run);
      assert calls[0] in calls;
      assert PinOf(run[1].binding.value) == PinOf(run[0].binding.value);
      forall c | c in calls[1..] ensures WrongGuess(c, PinOf(run[1].binding.value)) {
        assert c in calls;
      }
      GuessingIsBounded(L, calls[1..], run[1..]);
    }
  }

  predicate Rebinds(c: Call) { c.DoSetup? || c.DoClear? }

  /** The secret behind the PIN, and so k, never changes while the PIN is only verified or changed. */
  lemma {:induction false} SecretSurvives(L: Layout, calls: seq<Call>, run: seq<Moment>)
    requires CallRun(L, calls, run) && run[0].binding.Some?
    requires forall c :: c in calls ==> !Rebinds(c)
    requires run[0].binding.value.tag == Kdf(SecretOf(run[0].binding.value), TAG_USE)
    ensures run[|calls|].binding.Some? && run[|calls|].binding.value.tag == run[0].binding.value.tag
    ensures SecretOf(run[|calls|].binding.value) == SecretOf(run[0].binding.value)
  {
    if |calls| > 0 {
      RunTail(L, calls, run);
      assert calls[0] in calls;
      assert run[1].binding.value.tag == run[0].binding.value.tag;
      forall c | c in calls[1..] ensures !Rebinds(c) {
        assert c in calls;
      }
      SecretSurvives(L, calls[1..], run[1..]);
    }
  }

  predicate Binds(m: Moment, s: Term) { m.binding.Some? && SecretOf(m.binding.value) == s }

  /** A secret that was drawn and is bound no longer is never bound again, whatever is called and wherever it is cut. */
  lemma {:induction false} ForgottenForGood(L: Layout, calls: seq<Call>, run: seq<Moment>, s: Term)
    requires CallRun(L, calls, run) && Drawn(s, run[0].rng) && !Binds(run[0], s)
    ensures !Binds(run[|calls|], s)
  {
    if |calls| > 0 {
      RunTail(L, calls, run);
      assert !Binds(run[1], s);
      ForgottenForGood(L, calls[1..], run[1..], s);
    }
  }

  /**
   A change that had two attempts left is atomic: whatever was cut in it, and in any
   number of settlements and reboots after it, one PIN of the two is live, with the same
   secret and at least one attempt.
   */
  lemma {:induction false} ChangeIsAtomic(L: Layout, calls: seq<Call>, run: seq<Moment>)
    requires CallRun(L, calls, run) && |calls| > 0 && calls[0].DoChange? && run[0].binding.Some?
    requires run[0].binding.value.next + 2 <= L.rounds
    requires L.Valid() && run[0].binding.value.range < L.ranges
    requires run[0].binding.value.tag == Kdf(SecretOf(run[0].binding.value), TAG_USE)
    requires forall c :: c in calls[1..] ==> c == DoStatus || c == Reboot
    ensures run[|calls|].binding.Some?
    ensures var b, c := run[0].binding.value, run[|calls|].binding.value;
            && c.next < L.rounds
            && SecretOf(c) == SecretOf(b)
            && (SameBinding(b, c)
                 || (calls[0].oldMat == PinOf(b) && PinOf(c) == calls[0].newMat && c.range != b.range
                   && c.pinLen == calls[0].newLen))
  {
    RunTail(L, calls, run);
    var b, d := run[0].binding.value, run[1].binding.value;
    if Changed(L, Some(b), Some(d), calls[0].oldMat, calls[0].newMat, calls[0].newLen) {
      var s := SecretOf(b);
      assert d.ci[0] == Masked(SlotKey(Answer(s, calls[0].newMat, L.Slot(d.range, 0)), calls[0].newMat), s);
    }
    SettlingKeeps(L, calls[1..], run[1..]);
  }

  lemma {:induction false} SettlingKeeps(L: Layout, calls: seq<Call>, run: seq<Moment>)
    requires CallRun(L, calls, run)
    requires forall c :: c in calls ==> c == DoStatus || c == Reboot
    ensures run[0].binding.Some? <==> run[|calls|].binding.Some?
    ensures run[0].binding.Some? ==>
              var b, c := run[0].binding.value, run[|calls|].binding.value; SameBinding(b, c) && c.next == b.next
  {
    if |calls| > 0 {
      RunTail(L, calls, run);
      assert calls[0] in calls;
      forall c | c in calls[1..] ensures c == DoStatus || c == Reboot {
        assert c in calls;
      }
      SettlingKeeps(L, calls[1..], run[1..]);
    }
  }

  /** Any calls on the real kernel, under any faults, are such a run. */
  method AnyRun(k: Kernel, calls: seq<Call>) returns (ghost run: seq<Moment>)
    requires k.Wired() && k.L.Valid() && k.Inv()
    modifies k.chip`rmem, k.chip`mad, k.chip`rng, k.rec`uncertain, k`probes
    ensures CallRun(k.L, calls, run) && NowOf(k) == run[|calls|] && run[0] == old(NowOf(k)) && k.Inv()
    ensures DoClear !in calls ==>
              (old(k.IsArmed()) ==> k.IsArmed()) && Older(old(k.rec.Now()), k.rec.Now(), 6 * |calls|)
    ensures Others(old(k.chip.rmem), k.chip.rmem, k.rec.place) && OnlyOwned(k.L, old(k.chip.mad), k.chip.mad)
    ensures k.chip.rng >= old(k.chip.rng)
  {
    hide Armed, Genuine, BoundTo, Sane, CallStep, SetupOrNot;
    run := [NowOf(k)];
    IsSane(k);
    for i := 0 to |calls|
      invariant |run| == i + 1 && run[0] == old(NowOf(k)) && run[i] == NowOf(k) && Sane(k.L, run[0])
      invariant k.Inv()
      invariant DoClear !in calls ==>
                  (old(k.IsArmed()) ==> k.IsArmed()) && Older(old(k.rec.Now()), k.rec.Now(), 6 * i)
      invariant forall j {:trigger calls[j]} :: 0 <= j < i ==> CallStep(k.L, run[j], calls[j], run[j + 1])
      invariant Others(old(k.chip.rmem), k.chip.rmem, k.rec.place) && OnlyOwned(k.L, old(k.chip.mad), k.chip.mad)
      invariant k.chip.rng >= old(k.chip.rng)
    {
      assert calls[i] in calls;
      Perform(k, calls[i]);
      run := run + [NowOf(k)];
    }
  }

  ghost function NowOf(k: Kernel): Moment
    requires k.Wired()
    reads k, k.rec, k.chip`rmem, k.chip`rng
  {
    Moment(k.Current(), k.probes, k.chip.rng)
  }

  method Perform(k: Kernel, c: Call)
    requires k.Wired() && k.L.Valid() && k.Inv()
    modifies k.chip`rmem, k.chip`mad, k.chip`rng, k.rec`uncertain, k`probes
    ensures CallStep(k.L, old(NowOf(k)), c, NowOf(k)) && k.Inv()
    ensures !c.DoClear? ==> (old(k.IsArmed()) ==> k.IsArmed()) && Older(old(k.rec.Now()), k.rec.Now(), 6)
    ensures Others(old(k.chip.rmem), k.chip.rmem, k.rec.place) && OnlyOwned(k.L, old(k.chip.mad), k.chip.mad)
    ensures k.chip.rng >= old(k.chip.rng)
  {
    hide Armed, Genuine, BoundTo, Sane;
    match c {
      case DoStatus => var st, attempts, len := k.Status();
      case DoVerify(mat) => var rc, correct, key := k.Verify(mat);
      case DoChange(a, b, len) => var rc, correct, key := k.Change(a, b, len);
      case DoSetup(mat, len) =>
        var rc, key := k.Setup(mat, len);
        if !SettledOrNot(old(k.Current()), k.Current()) {
          BoundPin(k.L, k.Current().value, Random(old(k.chip.rng)), mat);
        }
      case DoClear => var ok := k.Clear();
      case Reboot => k.rec.uncertain := false;
    }
    IsSane(k);
  }

  lemma IsSane(k: Kernel)
    requires k.Wired() && k.Inv()
    ensures Sane(k.L, NowOf(k))
  {
  }

  /**
   The end of a run, on a key that works again: after a change cut anywhere and any number
   of settlements cut anywhere, exactly one of the two PINs opens the secret.
   */
  method ChangeThenProbe(k: Kernel, oldMat: Material, newMat: Material, len: nat, calls: seq<Call>, probe: Material)
    returns (ghost live: Material, opens: bool, key: Option<Term>)
    requires k.Wired() && k.L.Valid() && k.L.ranges == 2 && k.Inv() && k.IsArmed()
    requires k.Current().Some? && k.Current().value.next + 2 <= k.L.rounds
    requires forall c :: c in calls ==> c == DoStatus || c == Reboot
    requires Value(k.rec.Now()).value.0 + 6 * |calls| + 10 <= U32_MAX   // generations left
    modifies k.chip, k.rec`uncertain, k`probes
    ensures if k.Current().Some? && k.Current().value.range != old(k.Current().value.range)
            then live == newMat && oldMat == old(PinOf(k.Current().value))     // the new record was committed
            else live == old(PinOf(k.Current().value))
    ensures opens <==> probe == live
    ensures opens ==> key == Some(Kdf(old(SecretOf(k.Current().value)), K_USE))
  {
    k.chip.calm := false;
    var all := [DoChange(oldMat, newMat, len)] + calls;
    ghost var run := AnyRun(k, all);
    ChangeIsAtomic(k.L, all, run);
    live := PinOf(k.Current().value);
    k.rec.uncertain := false;
    k.chip.calm := true;
    var rc;
    rc, opens, key := k.Verify(probe);
  }
}

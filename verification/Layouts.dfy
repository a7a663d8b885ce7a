/**
 Where each object lives on the chip, and that no PIN operation reaches another object.
 */
module Layouts {
  import opened Values
  import opened ChipModel
  import opened RecPairs
  import opened PinKernel
  import opened PinRuns

  const O1_PLACE := Place(0, 40, 1, 1)      // FIDO global state
  const O2_PLACE := Place(41, 42, 2, 1)     // FIDO PIN
  const O3_PLACE := Place(33, 43, 3, 2)     // OpenPGP state
  const O4_PLACE := Place(50, 53, 4, 1)     // PW1
  const O5_PLACE := Place(51, 54, 5, 1)     // PW3
  const O6_PLACE := Place(52, 55, 6, 1)     // RC

  const FIDO_LAYOUT := Layout(0, 8, 2, 8)
  const PW1_LAYOUT := Layout(16, 19, 2, 3)
  const PW3_LAYOUT := Layout(22, 25, 2, 3)
  const RC_LAYOUT := Layout(28, 0, 1, 3)    // one range; the second base is never used

  datatype PinSite = PinSite(place: Place, layout: Layout)

  const SITES: seq<PinSite> := [
    PinSite(O2_PLACE, FIDO_LAYOUT), PinSite(O4_PLACE, PW1_LAYOUT), PinSite(O5_PLACE, PW3_LAYOUT),
      PinSite(O6_PLACE, RC_LAYOUT)
  ]

  ghost predicate Apart(s: PinSite, t: PinSite) {
    && s.place.Ok() && t.place.Ok() && s.layout.Valid() && t.layout.Valid()
    && {s.place.a, s.place.b} !! {t.place.a, t.place.b}
    && forall j :: 0 <= j < MAD_SLOTS ==> !(s.layout.Owns(j) && t.layout.Owns(j))
  }

  lemma SitesAreApart(i: nat, j: nat)
    requires i < |SITES| && j < |SITES| && i != j
    ensures Apart(SITES[i], SITES[j])
  {
  }

  lemma ListedAreApart(s: PinSite, t: PinSite)
    requires s in SITES && t in SITES && s != t
    ensures Apart(s, t)
  {
    var i :| 0 <= i < |SITES| && SITES[i] == s;
    var j :| 0 <= j < |SITES| && SITES[j] == t;
    SitesAreApart(i, j);
  }

  /**
   Whatever one PIN's operations do inside their own slots, every other PIN keeps its record, its slots and its
   verdicts.
   */
  lemma Isolated(s: PinSite, t: PinSite, m: Rmem, m': Rmem, mad: Mad, mad': Mad)
    requires Apart(s, t) && Others(m, m', s.place) && OnlyOwned(s.layout, mad, mad')
    ensures View(m', t.place) == View(m, t.place)
    ensures forall b, i, mat | FieldsOk(t.layout, b) && 0 <= i < t.layout.rounds ::
              Opens(t.layout, b, i, mat, mad') == Opens(t.layout, b, i, mat, mad)
  {
    forall b, i, mat | FieldsOk(t.layout, b) && 0 <= i < t.layout.rounds
      ensures Opens(t.layout, b, i, mat, mad') == Opens(t.layout, b, i, mat, mad)
    {
      var slot := t.layout.Slot(b.range, i);
      assert t.layout.InRange(b.range, slot) && t.layout.Owns(slot);
    }
  }

  /** Over any run of calls on the PIN of one site, cut anywhere: the PIN of any other site works as before. */
  method RunIsolated(k: Kernel, calls: seq<Call>, s: PinSite, other: Kernel, t: PinSite)
    requires s in SITES && t in SITES && s != t && k.chip == other.chip && k.rec != other.rec && k != other
    requires k.Wired() && k.rec.place == s.place && k.L == s.layout
    requires other.Wired() && other.rec.place == t.place && other.L == t.layout
    requires k.Inv() && k.L.Valid()
    requires other.Inv() && other.L.Valid() && other.IsArmed()
    modifies k.chip`rmem, k.chip`mad, k.chip`rng, k.rec`uncertain, k`probes
    ensures k.Inv() && (DoClear !in calls && old(k.IsArmed()) ==> k.IsArmed()) && other.Inv() && other.IsArmed()
    ensures other.rec.Now() == old(other.rec.Now()) && other.Attempts() == old(other.Attempts())
  {
    hide Armed, Genuine, BoundTo;
    ListedAreApart(s, t);
    ghost var run := AnyRun(k, calls);
    Elsewhere(s, t, old(k.chip.rmem), k.chip.rmem, old(k.chip.mad), k.chip.mad, old(k.chip.rng), k.chip.rng,
      other.probes);
  }

  /** A binding whose slots nobody touched is as it was. */
  lemma Elsewhere(s: PinSite, t: PinSite, m: Rmem, m': Rmem, mad: Mad, mad': Mad, rng: nat, rng': nat, probes: nat)
    requires Apart(s, t) && Others(m, m', s.place) && OnlyOwned(s.layout, mad, mad') && rng <= rng'
    ensures View(m', t.place) == View(m, t.place)
    ensures Sound(t.layout, View(m, t.place), rng, probes) ==> Sound(t.layout, View(m', t.place), rng', probes)
    ensures PairArmed(t.layout, View(m, t.place), mad) ==> PairArmed(t.layout, View(m', t.place), mad')
  {
    var b := BindingIn(View(m, t.place));
    if b.Some? && FieldsOk(t.layout, b.value) {
      forall i | 0 <= i < t.layout.rounds && Intact(t.layout, b.value.range, SecretOf(b.value), mad, i)
        ensures Intact(t.layout, b.value.range, SecretOf(b.value), mad', i)
      {
        assert t.layout.Owns(t.layout.Slot(b.value.range, i));
      }
    }
  }

  /** The verdict of a probe of slot `i` with `mat`. */
  predicate Opens(L: Layout, b: Binding, i: nat, mat: Material, mad: Mad)
    requires L.Valid() && FieldsOk(L, b) && i < L.rounds
  {
    var slot := L.Slot(b.range, i);
    Kdf(Xor(b.ci[i], SlotKey(F2(mad[slot], F1(PinV(mat), slot), slot), mat)), TAG_USE) == b.tag
  }
}

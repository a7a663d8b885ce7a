/**
 Record pairs over whole runs: any sequence of reads, writes, clears and
 initialisations, each cut or torn anywhere, with reboots in between.
 */
module RecPairRuns {
  import opened Values
  import opened ChipModel
  import opened RecPairs

  datatype PairOp = OpRead | OpWrite(payload: Payload) | OpClear | OpInit(payload: Payload) | OpDamage | OpReboot

  /** What one operation may do to the pair, whatever fails. */
  predicate PairStep(v: Pair, op: PairOp, w: Pair) {
    && Consistent(w)
    && match op {
      case OpRead => Value(w) == Value(v)
      case OpWrite(p) => WroteOrNot(Value(v), Value(w), p)
      case OpClear => Value(w) in {Value(v), None}
      case OpInit(p) => Value(w) in {Value(v), None, Some((1, p))}
      // one copy, at rest
      case OpDamage => w == v || (v.a == v.b && w in {v.(a := Bad), v.(a := Empty), v.(b := Bad), v.(b := Empty)})
      case OpReboot => w == v
    }
  }

  ghost predicate PairRun(ops: seq<PairOp>, trace: seq<Pair>) {
    && |trace| == |ops| + 1
    && Consistent(trace[0])
    && forall i {:trigger ops[i]} :: 0 <= i < |ops| ==> PairStep(trace[i], ops[i], trace[i + 1])
  }

  /** The read rule on a pair that only faults have touched: the value wins, A is never repaired from an older B. */
  lemma DecideIsValue(v: Pair)
    requires Consistent(v)
    ensures match Decide(v)
            case Win(g, p, r) => Value(v) == Some((g, p)) && (r == NoRepair <==> v.a == v.b)
              && (r == RepairA <==> !v.a.Valid?)
            case NoObject => Value(v) == None && v == Pair(Empty, Empty)
            case NoValidCopy => Value(v) == None && v != Pair(Empty, Empty)
            case Contradiction => false
  {
  }

  /** Two records: the newer one wins if the generations follow each other; anything else no fault explains. */
  lemma DecideNewest(v: Pair)
    requires v.a.Valid? && v.b.Valid? && 1 <= v.a.gen <= U32_MAX && 1 <= v.b.gen <= U32_MAX
    ensures match Decide(v)
            case Win(g, p, r) =>
              && Valid(g, p) in {v.a, v.b} && v.a.gen <= g && v.b.gen <= g && g <= v.a.gen + 1 && g <= v.b.gen + 1
              && (r == RepairA <==> v.a.gen < g) && (r == RepairB <==> v.b.gen < g)
            case NoObject => false
            case NoValidCopy => false
            case Contradiction => (v.a.gen == v.b.gen && v.a != v.b) || v.a.gen > v.b.gen + 1 || v.b.gen > v.a.gen + 1
  {
  }

  /**
   Damage to copy A hides nothing exactly when B is the same record, damage to B exactly when A can be read; the
   object is lost exactly when the other copy is not valid.
   */
  lemma DamageExact(v: Pair, w: Pair, copyA: bool)
    requires Consistent(v)
    requires if copyA then v.a.Valid? && !w.a.Valid? && w.b == v.b else v.b.Valid? && !w.b.Valid? && w.a == v.a
    ensures Value(w) == Value(v) <==> if copyA then v.b == v.a else v.a.Valid?
    ensures Value(w) == None <==> !(if copyA then v.b else v.a).Valid?
  {
  }

  /**
   A write cut between the copies, then copy A damaged before the repair: the new object, which was never
   acknowledged, is gone again, and the acknowledged one is what is left.
   */
  lemma CutThenDamageRollsBack(was: Payload, next: Payload)
    ensures var cut := Pair(Valid(2, next), Valid(1, was));
            && Consistent(cut) && Value(cut) == Some((2, next))
            && PairStep(Pair(Valid(1, was), Valid(1, was)), OpWrite(next), cut)
            && Value(cut.(a := Bad)) == Some((1, was))
  {
  }

  /**
   A write cut after one copy was erased, then the other copy damaged before the repair: the acknowledged object is
   lost, whether copy A was being rewritten or copy B.
   */
  lemma CutThenDamageLoses(was: Payload, next: Payload)
    ensures var start := Pair(Valid(1, was), Valid(1, was));
            var first, second := Pair(Empty, Valid(1, was)), Pair(Valid(2, next), Empty);
            && PairStep(start, OpWrite(next), first) && PairStep(start, OpWrite(next), second)
            && Value(first) == Some((1, was)) && Value(first.(b := Bad)) == None
            && Value(second) == Some((2, next)) && Value(second.(a := Bad)) == None
  {
  }

  predicate Keeps(op: PairOp) { !op.OpClear? && !op.OpInit? }

  predicate WrittenIn(ops: seq<PairOp>, p: Payload) { exists k :: 0 <= k < |ops| && ops[k] == OpWrite(p) }

  /**
   An acknowledged record never rolls back: later it is still there, or a later write
   replaced it under a higher generation.
   */
  lemma {:induction false} NeverRollsBack(ops: seq<PairOp>, trace: seq<Pair>, g: nat, p: Payload)
    requires PairRun(ops, trace) && Value(trace[0]) == Some((g, p))
    requires forall op :: op in ops ==> Keeps(op)
    ensures Value(trace[|ops|]).Some?
    ensures var (g', p') := Value(trace[|ops|]).value;
            g <= g' <= g + |ops| && (g' == g ==> p' == p) && (g' > g ==> WrittenIn(ops, p'))
  {
    if |ops| > 0 {
      var n := |ops| - 1;
      var front := ops[..n];
      assert ops[n] in ops;
      assert PairRun(front, trace[..n + 1]) by {
        forall i {:trigger front[i]} | 0 <= i < n ensures PairStep(trace[..n + 1][i], front[i], trace[..n + 1][i + 1]) {
          assert ops[i] == front[i];
        }
      }
      NeverRollsBack(front, trace[..n + 1], g, p);
      assert PairStep(trace[n], ops[n], trace[n + 1]);
      var (g1, p1) := Value(trace[n]).value;
      if WrittenIn(front, p1) {
        var k :| 0 <= k < n && front[k] == OpWrite(p1);
        assert ops[k] == OpWrite(p1);
      }
      assert ops[n].OpWrite? ==> WrittenIn(ops, ops[n].payload) by {
        assert ops[n] == ops[n];
      }
    }
  }

  /** Damage of one copy while both agree. */
  method DamageAtRest(p: RecPair, copyA: bool, how: Outcome)
    requires p.place.Ok()
    modifies p.chip`rmem
    ensures Others(old(p.chip.rmem), p.chip.rmem, p.place)
    ensures old(Consistent(p.Now())) ==> PairStep(old(p.Now()), OpDamage, p.Now())
  {
    var slot := if copyA then p.place.a else p.place.b;
    var c := p.chip.rmem[slot];
    if CopyOf(p.chip.rmem[p.place.a], p.place.obj, p.place.schema) != CopyOf(p.chip.rmem[p.place.b], p.place.obj,
      p.place.schema) || c.Blank? {
      return;
    }
    p.chip.rmem := p.chip.rmem[slot := Held(if how.TornGarbled? then Garbage else c.blob, c.masked || how.TornMasked?)];
  }

  /** Every run of the real operations, under every fault, is such a run. */
  method AnyRun(p: RecPair, ops: seq<PairOp>) returns (ghost trace: seq<Pair>)
    requires p.place.Ok() && Consistent(p.Now())
    modifies p.chip`rmem, p`uncertain
    ensures PairRun(ops, trace) && trace[0] == old(p.Now()) && trace[|ops|] == p.Now()
    ensures Others(old(p.chip.rmem), p.chip.rmem, p.place)
  {
    trace := [p.Now()];
    for i := 0 to |ops|
      invariant |trace| == i + 1 && trace[0] == old(p.Now()) && trace[i] == p.Now() && Consistent(p.Now())
      invariant forall j {:trigger ops[j]} :: 0 <= j < i ==> PairStep(trace[j], ops[j], trace[j + 1])
      invariant Others(old(p.chip.rmem), p.chip.rmem, p.place)
    {
      ghost var before := p.Now();
      match ops[i] {
        case OpRead => var st, gen, payload := p.Read();
        case OpWrite(x) => var st := p.Write(x);
        case OpClear => var st := p.Clear();
        case OpInit(x) => var st := p.Init(x);
        case OpDamage =>
          var copyA: bool, how: Outcome := *, *;
          DamageAtRest(p, copyA, how);
        case OpReboot => p.uncertain := false;
      }
      assert PairStep(before, ops[i], p.Now());
      trace := trace + [p.Now()];
    }
  }
}

/**
 Unsigned big-endian numbers, as wire formats and keys carry them.
 */
module BigEndian {
  import opened Values

  const U64_END: nat := 0x1_0000_0000_0000_0000

  function Pow256(n: nat): (p: nat)
    ensures p > 0
  {
    if n == 0 then 1 else 256 * Pow256(n - 1)
  }

  function Low(v: nat): byte { (v % 256) as byte }

  function Num(s: seq<byte>): (v: nat)
    ensures v < Pow256(|s|)
  {
    if s == [] then 0 else Num(s[..|s| - 1]) * 256 + s[|s| - 1] as nat
  }

  function Be(v: nat, n: nat): (s: seq<byte>)
    ensures |s| == n && (v < Pow256(n) ==> Num(s) == v)
  {
    if n == 0 then []
    else
      var s := Be(v / 256, n - 1) + [Low(v)];
      assert s[..n - 1] == Be(v / 256, n - 1);
      s
  }

  lemma PowerValues()
    ensures Pow256(1) == 0x100 && Pow256(2) == 0x1_0000 && Pow256(4) == 0x1_0000_0000 && Pow256(8) == U64_END
  {
    assert Pow256(0) == 1;
    assert Pow256(3) == 0x100_0000;
    assert Pow256(5) == 0x100_0000_0000 && Pow256(6) == 0x1_0000_0000_0000 && Pow256(7) == 0x100_0000_0000_0000;
  }

  lemma ShiftsOut2(v: nat)
    ensures Be(v, 2) == [Low(v / 0x100), Low(v)]
  {
    assert Be(v / 0x100 / 0x100, 0) == [];
    assert Be(v / 0x100, 1) == [Low(v / 0x100)];
  }

  lemma ShiftsOut4(v: nat)
    ensures Be(v, 4) == [Low(v / 0x100_0000), Low(v / 0x1_0000), Low(v / 0x100), Low(v)]
  {
    ShiftsOut2(v / 0x1_0000);
    assert v / 0x100 / 0x100 == v / 0x1_0000 && v / 0x1_0000 / 0x100 == v / 0x100_0000;
    assert Be(v / 0x100, 3) == Be(v / 0x1_0000, 2) + [Low(v / 0x100)];
  }

  lemma ShiftsOut1(v: nat)
    ensures Be(v, 1) == [Low(v)]
  {
    assert Be(v / 0x100, 0) == [];
  }

  lemma OneShift(v: nat, n: nat)
    ensures Be(v, n + 1) == Be(v / 0x100, n) + [Low(v)]
  {
  }

  lemma DeepShifts(v: nat)
    ensures v / 0x100 / 0x100 == v / 0x1_0000 && v / 0x1_0000 / 0x100 == v / 0x100_0000
    ensures v / 0x100_0000 / 0x100 == v / 0x1_0000_0000
  {
  }

  lemma ShiftsOut8(v: nat)
    ensures Be(v, 8) == [Low(v / 0x100_0000_0000_0000), Low(v / 0x1_0000_0000_0000), Low(v / 0x100_0000_0000),
              Low(v / 0x1_0000_0000),
                         Low(v / 0x100_0000), Low(v / 0x1_0000), Low(v / 0x100), Low(v)]
  {
    hide *;
    var w := v / 0x1_0000_0000;
    DeepShifts(v);
    OneShift(v, 7);
    OneShift(v / 0x100, 6);
    OneShift(v / 0x1_0000, 5);
    OneShift(v / 0x100_0000, 4);
    ShiftsOut4(w);
    assert w / 0x100_0000 == v / 0x100_0000_0000_0000;
    assert w / 0x1_0000 == v / 0x1_0000_0000_0000;
    assert w / 0x100 == v / 0x100_0000_0000;
  }

  lemma NumOf0()
    ensures Num([]) == 0
  {
  }

  lemma NumOfMore(s: seq<byte>, x: byte)
    ensures Num(s + [x]) == Num(s) * 256 + x as nat
  {
    assert (s + [x])[..|s|] == s;
  }

  lemma NumOf1(s: seq<byte>)
    requires |s| == 1
    ensures Num(s) == s[0] as nat
  {
    assert s[..0] == [];
  }

  lemma NumOf2(s: seq<byte>)
    requires |s| == 2
    ensures Num(s) == s[0] as nat * 0x100 + s[1] as nat
  {
    assert s[..1] == [s[0]] && [s[0]][..0] == [];
    assert Num([s[0]]) == s[0] as nat;
  }

  lemma NumOf4(s: seq<byte>)
    requires |s| == 4
    ensures Num(s) == s[0] as nat * 0x100_0000 + s[1] as nat * 0x1_0000 + s[2] as nat * 0x100 + s[3] as nat
  {
    assert s[..3][..2] == s[..2] && s[..2] == [s[0], s[1]] && s[..3] == [s[0], s[1], s[2]];
    NumOf2(s[..2]);
  }
}

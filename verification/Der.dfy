/**
 ES256 signatures: two 32-byte numbers as a DER SEQUENCE of two INTEGERs.
 */
module Der {
  import opened Values
  import opened BigEndian

  const DER_MAX: nat := 72
  const BODY_MAX: nat := DER_MAX - 2

  // ----- what a DER INTEGER is -----

  /** Content octets of a non-negative INTEGER, no octet more than needed. */
  predicate Minimal(c: seq<byte>) {
    |c| > 0 && c[0] < 0x80 && (|c| > 1 && c[0] == 0 ==> c[1] >= 0x80)
  }

  /** The INTEGER at `pos` of short-form length: its value and where it ends. */
  function IntegerAt(s: seq<byte>, pos: nat): (r: Option<(nat, nat)>)
    ensures r.Some? ==> pos < r.value.1 <= |s|
  {
    if pos + 2 > |s| || s[pos] != 0x02 || s[pos + 1] >= 0x80 then None
    else
      var next := pos + 2 + s[pos + 1] as nat;
      if next > |s| || !Minimal(s[pos + 2..next]) then None else Some((Num(s[pos + 2..next]), next))
  }

  /** A SEQUENCE of exactly two non-negative INTEGERs and nothing else. */
  function Signature(s: seq<byte>): Option<(nat, nat)> {
    if |s| < 2 || s[0] != 0x30 || s[1] >= 0x80 || |s| != 2 + s[1] as nat then None
    else
      var r := IntegerAt(s, 2);
      if r == None then None
      else
        var t := IntegerAt(s, r.value.1);
        if t == None || t.value.1 != |s| then None else Some((r.value.0, t.value.0))
  }

  // ----- numbers without leading zeros -----

  lemma Scaled(d: nat, p: nat, x: nat, last: nat)
    requires d * p <= x < (d + 1) * p && last < 256
    ensures d * (256 * p) <= x * 256 + last < (d + 1) * (256 * p)
  {
    assert d * (256 * p) == 256 * (d * p);
    assert (d + 1) * (256 * p) == 256 * ((d + 1) * p);
  }

  lemma {:induction false} LeadingDigit(s: seq<byte>)
    requires s != []
    ensures s[0] as nat * Pow256(|s| - 1) <= Num(s) < (s[0] as nat + 1) * Pow256(|s| - 1)
    decreases |s|
  {
    var n := |s| - 1;
    if n == 0 {
      NumOf1(s);
      assert Pow256(0) == 1;
    } else {
      LeadingDigit(s[..n]);
      assert s == s[..n] + [s[n]];
      NumOfMore(s[..n], s[n]);
      assert Pow256(n) == 256 * Pow256(n - 1);
      hide Num, Pow256;
      Scaled(s[0] as nat, Pow256(n - 1), Num(s[..n]), s[n] as nat);
    }
  }

  lemma {:induction false} LeadingZeros(s: seq<byte>, i: nat)
    requires i <= |s| && forall k :: 0 <= k < i ==> s[k] == 0
    ensures Num(s) == Num(s[i..])
    decreases |s|
  {
    var n := |s| - 1;
    if i == |s| {
      if i > 0 {
        LeadingZeros(s[..n], n);
        assert Num(s[..n]) == Num(s[..n][n..]) == Num([]) == 0;
      }
      assert s[i..] == [];
    } else {
      LeadingZeros(s[..n], i);
      assert s[i..][..n - i] == s[..n][i..];
    }
  }

  lemma {:induction false} SameDigits(c: seq<byte>, d: seq<byte>)
    requires |c| == |d| && Num(c) == Num(d)
    ensures c == d
    decreases |c|
  {
    if c == [] {
      assert d == [];
    } else {
      var n := |c| - 1;
      assert Num(c[..n]) * 256 + c[n] as nat == Num(d[..n]) * 256 + d[n] as nat;
      SameDigits(c[..n], d[..n]);
      assert c == c[..n] + [c[n]] && d == d[..n] + [d[n]];
    }
  }

  lemma {:induction false} PowersGrow(m: nat, n: nat)
    requires m <= n
    ensures Pow256(m) <= Pow256(n)
    decreases n
  {
    if m < n {
      PowersGrow(m, n - 1);
      assert Pow256(n) == 256 * Pow256(n - 1);
    }
  }

  lemma Monotone(d: nat, p: nat, e: nat, q: nat)
    requires d <= e && p <= q
    ensures d * p <= e * q
  {
    assert d * p <= e * p <= e * q;
  }

  lemma MinimalBelow(d: seq<byte>, m: nat)
    requires Minimal(d) && |d| <= m + 1
    ensures Num(d) < 0x80 * Pow256(m)
  {
    hide Num, Pow256;
    LeadingDigit(d);
    PowersGrow(|d| - 1, m);
    Monotone(d[0] as nat + 1, Pow256(|d| - 1), 0x80, Pow256(m));
  }

  lemma MinimalAbove(c: seq<byte>)
    requires Minimal(c) && |c| > 1
    ensures Num(c) >= 0x80 * Pow256(|c| - 2)
  {
    var n := |c| - 1;
    assert Pow256(n) == 256 * Pow256(n - 1);
    hide Num, Pow256;
    if c[0] == 0 {
      LeadingZeros(c, 1);
      LeadingDigit(c[1..]);
      Monotone(0x80, Pow256(n - 1), c[1] as nat, Pow256(n - 1));
    } else {
      LeadingDigit(c);
      Monotone(1, Pow256(n), c[0] as nat, Pow256(n));
    }
  }

  lemma LongerIsLarger(c: seq<byte>, d: seq<byte>)
    requires Minimal(c) && Minimal(d) && |c| > |d|
    ensures Num(c) > Num(d)
  {
    MinimalAbove(c);
    MinimalBelow(d, |c| - 2);
  }

  /** A number has one minimal form. */
  lemma MinimalIsUnique(c: seq<byte>, d: seq<byte>)
    requires Minimal(c) && Minimal(d) && Num(c) == Num(d)
    ensures c == d
  {
    if |c| > |d| {
      LongerIsLarger(c, d);
    } else if |d| > |c| {
      LongerIsLarger(d, c);
    } else {
      SameDigits(c, d);
    }
  }

  // ----- the encoder -----

  function Integer(c: seq<byte>): seq<byte>
    requires |c| < 0x80
  {
    [0x02, |c| as byte] + c
  }

  lemma Taken(s: seq<byte>, pos: nat, x: byte, y: byte, c: seq<byte>)
    requires pos + 2 + |c| <= |s| && s[pos..pos + 2 + |c|] == [x, y] + c
    ensures s[pos] == x && s[pos + 1] == y && s[pos + 2..pos + 2 + |c|] == c
  {
    var w := s[pos..pos + 2 + |c|];
    assert w[0] == x && w[1] == y && w[2..] == c;
  }

  lemma IntegerReads(s: seq<byte>, pos: nat, c: seq<byte>)
    requires Minimal(c) && |c| < 0x80 && pos + 2 + |c| <= |s| && s[pos..pos + 2 + |c|] == Integer(c)
    ensures IntegerAt(s, pos) == Some((Num(c), pos + 2 + |c|))
  {
    hide Num, Pow256, Minimal;
    Taken(s, pos, 0x02, |c| as byte, c);
  }

  lemma SignatureReads(s: seq<byte>, c: seq<byte>, d: seq<byte>)
    requires Minimal(c) && Minimal(d) && |c| <= 33 && |d| <= 33
    requires s == [0x30, (4 + |c| + |d|) as byte] + Integer(c) + Integer(d)
    ensures Signature(s) == Some((Num(c), Num(d)))
  {
    hide Num, IntegerAt, Minimal;
    assert s[2..4 + |c|] == Integer(c);
    assert s[4 + |c|..6 + |c| + |d|] == Integer(d);
    IntegerReads(s, 2, c);
    IntegerReads(s, 4 + |c|, d);
  }

  /** What is left of `v` behind its zeros, with a zero put back for the sign. */
  lemma ContentOf(v: seq<byte>, i: nat, pad: bool, c: seq<byte>)
    requires |v| == 32 && i < 32 && (forall k :: 0 <= k < i ==> v[k] == 0) && (i < 31 ==> v[i] != 0)
    requires pad == (v[i] >= 0x80) && c == (if pad then [0] else []) + v[i..]
    ensures Minimal(c) && Num(c) == Num(v)
  {
    hide Num;
    LeadingZeros(v, i);
    if pad {
      LeadingZeros(c, 1);
      assert c[1..] == v[i..];
    } else {
      assert c == v[i..];
    }
  }

  lemma Assembled(w: seq<byte>, v: seq<byte>, i: nat, pad: nat, c: seq<byte>)
    requires |v| == 32 && i < 32 && pad <= 1 && |w| == 2 + pad + (32 - i)
    requires c == (if pad == 1 then [0] else []) + v[i..]
    requires w[0] == 0x02 && w[1] == (32 - i + pad) as byte && (pad == 1 ==> w[2] == 0)
    requires forall k :: 2 + pad <= k < |w| ==> w[k] == v[i..][k - 2 - pad]
    ensures w == Integer(c)
  {
    assert w[2 + pad..] == v[i..];
    assert w == w[..2 + pad] + w[2 + pad..];
  }

  /** der_int: tag, length and the minimal content `c` of the number `v` go to `out[at..]`. */
  method WriteInteger(v: seq<byte>, out: array<byte>, at: nat) returns (len: nat, ghost c: seq<byte>)
    requires |v| == 32 && at + 35 <= out.Length
    modifies out
    ensures Minimal(c) && Num(c) == Num(v) && |c| <= 33 && len == 2 + |c|
    ensures out[at..at + len] == Integer(c) && out[..at] == old(out[..at])
  {
    hide Num, Pow256, Minimal, Integer;
    var i := 0;
    while i < 31 && v[i] == 0
      invariant i <= 31 && forall k :: 0 <= k < i ==> v[k] == 0
    {
      i := i + 1;
    }
    var n := 32 - i;
    var pad := if v[i] >= 0x80 then 1 else 0;
    out[at] := 0x02;
    out[at + 1] := (n + pad) as byte;
    if pad == 1 { out[at + 2] := 0; }
    forall k | 0 <= k < n { out[at + 2 + pad + k] := v[i + k]; }
    len := 2 + pad + n;
    c := (if pad == 1 then [0] else []) + v[i..];
    ContentOf(v, i, pad == 1, c);
    Assembled(out[at..at + len], v, i, pad, c);
  }

  /** cose_es256_der; -1 when the caller's buffer is too small. */
  method EncodeSignature(rs: seq<byte>, out: array<byte>, max: nat) returns (len: int)
    requires |rs| == 64 && max <= out.Length
    modifies out
    ensures len == -1 ==> max < DER_MAX && out[..] == old(out[..])
    ensures len != -1 ==>
              8 <= len <= DER_MAX && len <= max && Signature(out[..len]) == Some((Num(rs[..32]), Num(rs[32..])))
    ensures len != -1 ==> out[len..] == old(out[len..])
  {
    hide Num, Pow256, Minimal, Signature, Integer, IntegerAt;
    var body := new byte[BODY_MAX];
    var n, c := WriteInteger(rs[..32], body, 0);
    var m, d := WriteInteger(rs[32..], body, n);
    n := n + m;
    if n + 2 > max { return -1; }
    NonEmpty(c);
    NonEmpty(d);
    out[0] := 0x30;
    out[1] := n as byte;
    forall k | 0 <= k < n { out[2 + k] := body[k]; }
    len := n + 2;
    assert out[..len] == [0x30, n as byte] + body[..n] by {
      forall k | 0 <= k < n ensures out[2..len][k] == body[..n][k] {
        assert out[2 + k] == body[k];
      }
    }
    assert body[..n] == Integer(c) + Integer(d);
    SignatureReads(out[..len], c, d);
  }

  lemma NonEmpty(c: seq<byte>)
    requires Minimal(c)
    ensures |c| > 0
  {
  }

  lemma IntegerParts(s: seq<byte>, pos: nat)
    requires IntegerAt(s, pos).Some?
    ensures var (v, next) := IntegerAt(s, pos).value; var c := s[pos + 2..next];
      pos + 2 < next <= |s| && |c| < 0x80 && Minimal(c) && v == Num(c) && s[pos..next] == Integer(c)
  {
    hide Num;
  }

  /** Every byte of a signature is accounted for by its two contents. */
  lemma SignatureParts(s: seq<byte>) returns (c: seq<byte>, d: seq<byte>)
    requires Signature(s).Some?
    ensures Minimal(c) && Minimal(d) && |c| < 0x80 && |d| < 0x80 && |s| < 0x100
    ensures Signature(s) == Some((Num(c), Num(d)))
    ensures s == [0x30, (|s| - 2) as byte] + (Integer(c) + Integer(d))
  {
    hide Num, Minimal, Integer, IntegerAt;
    var i := IntegerAt(s, 2).value.1;
    IntegerParts(s, 2);
    IntegerParts(s, i);
    c, d := s[4..i], s[i + 2..|s|];
    assert s[2..] == s[2..i] + s[i..|s|];
    assert s == [s[0], s[1]] + s[2..];
  }

  /** Two byte strings that read as the same signature are the same bytes. */
  lemma SignatureIsUnique(s: seq<byte>, t: seq<byte>)
    requires Signature(s).Some? && Signature(s) == Signature(t)
    ensures s == t
  {
    var c, d := SignatureParts(s);
    var e, f := SignatureParts(t);
    MinimalIsUnique(c, e);
    MinimalIsUnique(d, f);
    hide Signature, Num, Minimal;
    assert |s| == 2 + |Integer(c) + Integer(d)| == |t|;
  }
}

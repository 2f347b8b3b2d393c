/** That the laws asked of the primitives can be met together: a suite that keeps
    nothing secret. */
module LawfulSuite {
  import opened Prelude
  import opened Sealing

  function Ones(k: nat): Bytes {
    if k == 0 then [] else [1] + Ones(k - 1)
  }

  /** Each character as that many ones, ended by a zero. */
  function Spell(s: string): Bytes {
    if s == "" then [] else Ones(s[0] as nat) + [0] + Spell(s[1..])
  }

  predicate IsChar(k: nat) { k < 0xD800 || 0xE000 <= k < 0x110000 }

  /** Reads characters back, `k` ones into the current one. */
  function Read(b: Bytes, k: nat): string {
    if b == [] then ""
    else if b[0] != 0 then Read(b[1..], k + 1)
    else [if IsChar(k) then k as char else ' '] + Read(b[1..], 0)
  }

  lemma {:induction false} ReadOnes(n: nat, rest: Bytes, k: nat)
    requires IsChar(k + n)
    ensures Read(Ones(n) + [0] + rest, k) == [(k + n) as char] + Read(rest, 0)
    decreases n
  {
    var b := Ones(n) + [0] + rest;
    if n == 0 {
      assert b[1..] == rest;
    } else {
      assert b[1..] == Ones(n - 1) + [0] + rest;
      ReadOnes(n - 1, rest, k + 1);
    }
  }

  lemma {:induction false} ReadSpell(s: string)
    ensures Read(Spell(s), 0) == s
  {
    if s != "" {
      ReadOnes(s[0] as nat, Spell(s[1..]), 0);
      ReadSpell(s[1..]);
      assert s == [s[0]] + s[1..];
    }
  }

  function Zeros(n: nat): (b: Bytes)
    ensures |b| == n
  {
    seq(n, _ => 0)
  }

  /** The associated data with its length before it, so that no two of these begin
      the same byte string. */
  function Framed(aad: Bytes): Bytes { Ones(|aad|) + [0] + aad }

  lemma {:induction false} OnesCount(n: nat, m: nat, a: Bytes, b: Bytes)
    requires Ones(n) + [0] + a == Ones(m) + [0] + b
    ensures n == m && a == b
  {
    if n == 0 || m == 0 {
      assert (Ones(n) + [0] + a)[0] == (Ones(m) + [0] + b)[0];
      assert a == (Ones(n) + [0] + a)[n + 1..] && b == (Ones(m) + [0] + b)[m + 1..];
    } else {
      assert (Ones(n) + [0] + a)[1..] == Ones(n - 1) + [0] + a;
      assert (Ones(m) + [0] + b)[1..] == Ones(m - 1) + [0] + b;
      OnesCount(n - 1, m - 1, a, b);
    }
  }

  lemma FramedOnce(aad: Bytes, other: Bytes, plain: Bytes)
    requires Framed(other) <= Framed(aad) + plain
    ensures other == aad
  {
    hide Ones;
    var whole := Framed(aad) + plain;
    var rest := whole[|Framed(other)|..];
    assert whole == Ones(|aad|) + [0] + (aad + plain);
    assert whole == Framed(other) + rest == Ones(|other|) + [0] + (other + rest);
    OnesCount(|aad|, |other|, aad + plain, other + rest);
    assert aad == (aad + plain)[..|aad|] && other == (other + rest)[..|other|];
  }

  function Unframed(cipher: Bytes, aad: Bytes): Option<Bytes> {
    if Framed(aad) <= cipher then Some(cipher[|Framed(aad)|..]) else None
  }

  const PLAIN := Suite(
    (private: Bytes) => Zeros(32),
    (pub: Bytes) => true,
    (private: Bytes, pub: Bytes) => pub,
    (shared: Bytes) => shared,
    (key: Bytes, nonce: Bytes, plain: Bytes, aad: Bytes) => Framed(aad) + plain,
    (key: Bytes, nonce: Bytes, cipher: Bytes, aad: Bytes) => Unframed(cipher, aad),
    (s: string) => Spell(s),
    (b: Bytes) => Some(Read(b, 0)),
    (i: nat, n: nat) => Zeros(n))

  lemma PlainIsLawful()
    ensures Lawful(PLAIN) && Authentic(PLAIN)
  {
    hide Framed, Spell, Read;
    forall s: string ensures PLAIN.text(PLAIN.utf8(s)) == Some(s) {
      ReadSpell(s);
    }
    forall key: Bytes, nonce: Bytes, plain: Bytes, aad: Bytes
      ensures PLAIN.unseal(key, nonce, PLAIN.seal(key, nonce, plain, aad), aad) == Some(plain)
    {}
    forall key: Bytes, nonce: Bytes, plain: Bytes, aad: Bytes, other: Bytes
      | PLAIN.unseal(key, nonce, PLAIN.seal(key, nonce, plain, aad), other).Some?
      ensures other == aad
    {
      FramedOnce(aad, other, plain);
    }
  }
}

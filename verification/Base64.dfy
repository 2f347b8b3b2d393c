/** Base64 as in section 4 of RFC 4648, with the lenient decoder that
    `base64.b64decode` gives by default: characters outside the alphabet are
    skipped, a complete padding sequence ends the input, and an unfinished
    group of four is an error. */
module Base64 {
  import opened Prelude

  type Sextet = bv6

  /** The alphabet, by position. */
  function Letter(n: nat): char
    requires n < 64
  {
    if n < 26 then ('A' as int + n) as char
    else if n < 52 then ('a' as int + n - 26) as char
    else if n < 62 then ('0' as int + n - 52) as char
    else if n == 62 then '+' else '/'
  }

  function Position(c: char, from: nat): Option<nat>
    requires from <= 64
    decreases 64 - from
  {
    if from == 64 then None
    else if Letter(from) == c then Some(from)
    else Position(c, from + 1)
  }

  lemma {:induction false} PositionFound(n: nat, from: nat)
    requires from <= n < 64
    ensures Position(Letter(n), from) == Some(n)
    decreases n - from
  {
    if from < n {
      PositionFound(n, from + 1);
    }
  }

  lemma {:induction false} PositionSound(c: char, from: nat)
    requires from <= 64
    ensures var p := Position(c, from);
      p.Some? ==> p.value < 64 && Letter(p.value) == c && c != '=' && c as int < 128
    decreases 64 - from
  {
    if from < 64 {
      PositionSound(c, from + 1);
    }
  }

  function Char(v: Sextet): char { Letter(v as nat) }

  function Value(c: char): (v: Option<Sextet>)
    ensures v.Some? ==> c != '=' && c as int < 128
  {
    PositionSound(c, 0);
    match Position(c, 0)
    case None => None
    case Some(n) => Some(n as Sextet)
  }

  // Three bytes as four sextets ...
  function Sextet0(b0: Byte): Sextet { (b0 >> 2) as Sextet }
  function Sextet1(b0: Byte, b1: Byte): Sextet { (((b0 & 0x03) << 4) | (b1 >> 4)) as Sextet }
  function Sextet2(b1: Byte, b2: Byte): Sextet { (((b1 & 0x0F) << 2) | (b2 >> 6)) as Sextet }
  function Sextet3(b2: Byte): Sextet { (b2 & 0x3F) as Sextet }

  // ... and back; each byte needs only the low bits of the sextet before it.
  function Byte0(left: Sextet, v: Sextet): Byte { ((left as Byte) << 2) | ((v as Byte) >> 4) }
  function Byte1(left: Sextet, v: Sextet): Byte { ((left as Byte) << 4) | ((v as Byte) >> 2) }
  function Byte2(left: Sextet, v: Sextet): Byte { ((left as Byte) << 6) | (v as Byte) }

  /** The six-bit groups of a byte string; the last one is filled with zero bits. */
  function Sextets(b: Bytes): seq<Sextet> {
    if |b| == 0 then []
    else if |b| == 1 then [Sextet0(b[0]), Sextet1(b[0], 0)]
    else if |b| == 2 then [Sextet0(b[0]), Sextet1(b[0], b[1]), Sextet2(b[1], 0)]
    else [Sextet0(b[0]), Sextet1(b[0], b[1]), Sextet2(b[1], b[2]), Sextet3(b[2])] + Sextets(b[3..])
  }

  function Spell(v: seq<Sextet>): string {
    if |v| <= 1 then ""
    else if |v| == 2 then [Char(v[0]), Char(v[1]), '=', '=']
    else if |v| == 3 then [Char(v[0]), Char(v[1]), Char(v[2]), '=']
    else [Char(v[0]), Char(v[1]), Char(v[2]), Char(v[3])] + Spell(v[4..])
  }

  function Encode(b: Bytes): string {
    Spell(Sextets(b))
  }

  function Before(b: Byte, rest: Option<Bytes>): Option<Bytes> {
    if rest.Some? then Some([b] + rest.value) else None
  }

  /** One pass over the characters.  `q` counts the sextets read in the current
      group, `left` is the last of them, `pads` the padding seen since. */
  function Scan(s: string, q: nat, left: Sextet, pads: nat): Option<Bytes> {
    if s == "" then
      if q == 0 then Some([]) else None
    else if s[0] == '=' then
      if q >= 2 && q + pads + 1 >= 4 then Some([])
      else Scan(s[1..], q, left, if q >= 2 then pads + 1 else pads)
    else
      match Value(s[0])
      case None => Scan(s[1..], q, left, pads)
      case Some(v) =>
        if q == 0 then Scan(s[1..], 1, v, 0)
        else if q == 1 then Before(Byte0(left, v), Scan(s[1..], 2, v, 0))
        else if q == 2 then Before(Byte1(left, v), Scan(s[1..], 3, v, 0))
        else Before(Byte2(left, v), Scan(s[1..], 0, v, 0))
  }

  /** None stands for the exceptions that the decoder raises. */
  function Decode(s: string): Option<Bytes> {
    if exists c <- s :: c as int >= 128 then None else Scan(s, 0, 0, 0)
  }

  /** The strings the encoder can produce: whole groups of four, padding only in
      the last one, and no stray bits under the padding. */
  predicate Canonical(s: string) {
    s == "" ||
    (|s| >= 4 && Value(s[0]).Some? && Value(s[1]).Some? &&
     if Value(s[2]).Some? && Value(s[3]).Some? then Canonical(s[4..])
     else |s| == 4 && s[3] == '=' &&
          if s[2] == '=' then Value(s[1]).value & 0x0F == 0
          else Value(s[2]).Some? && Value(s[2]).value & 0x03 == 0)
  }

  lemma CharValue(v: Sextet)
    ensures Value(Char(v)) == Some(v) && Char(v) != '='
  {
    PositionFound(v as nat, 0);
  }

  lemma SextetPosition(n: nat)
    requires n < 64
    ensures (n as Sextet) as nat == n
  {}

  lemma ValueChar(c: char)
    requires Value(c).Some?
    ensures Char(Value(c).value) == c
  {
    PositionSound(c, 0);
    SextetPosition(Position(c, 0).value);
  }

  lemma Regroup(b0: Byte, b1: Byte, b2: Byte)
    ensures Byte0(Sextet0(b0), Sextet1(b0, b1)) == b0
    ensures Byte1(Sextet1(b0, b1), Sextet2(b1, b2)) == b1
    ensures Byte2(Sextet2(b1, b2), Sextet3(b2)) == b2
  {}

  lemma Ungroup(v0: Sextet, v1: Sextet, v2: Sextet, v3: Sextet)
    ensures
      var b0, b1, b2 := Byte0(v0, v1), Byte1(v1, v2), Byte2(v2, v3);
      Sextet0(b0) == v0 && Sextet1(b0, b1) == v1 && Sextet2(b1, b2) == v2 && Sextet3(b2) == v3
  {}

  /** What a group of four contributes, whatever sextet preceded it. */
  lemma ScanGroup(s: string, left: Sextet, v0: Sextet, v1: Sextet, v2: Sextet, v3: Sextet)
    requires |s| >= 4
    requires Value(s[0]) == Some(v0) && Value(s[1]) == Some(v1) && Value(s[2]) == Some(v2) && Value(s[3]) == Some(v3)
    ensures Scan(s, 0, left, 0) ==
      Before(Byte0(v0, v1), Before(Byte1(v1, v2), Before(Byte2(v2, v3), Scan(s[4..], 0, v3, 0))))
  {
    assert s[1..][1..] == s[2..] && s[2..][1..] == s[3..] && s[3..][1..] == s[4..];
    var last := Scan(s[3..], 3, v2, 0);
    assert last == Before(Byte2(v2, v3), Scan(s[4..], 0, v3, 0));
    var third := Scan(s[2..], 2, v1, 0);
    assert third == Before(Byte1(v1, v2), last);
    var second := Scan(s[1..], 1, v0, 0);
    assert second == Before(Byte0(v0, v1), third);
  }

  lemma ScanPadded(s: string, left: Sextet, v0: Sextet, v1: Sextet)
    requires |s| == 4 && Value(s[0]) == Some(v0) && Value(s[1]) == Some(v1) && s[3] == '='
    requires s[2] == '=' || Value(s[2]).Some?
    ensures Scan(s, 0, left, 0) ==
      if s[2] == '=' then Some([Byte0(v0, v1)]) else Some([Byte0(v0, v1), Byte1(v1, Value(s[2]).value)])
  {
    assert s[1..][1..] == s[2..] && s[2..][1..] == s[3..];
    var third := Scan(s[2..], 2, v1, 0);
    if s[2] == '=' {
      assert Scan(s[3..], 2, v1, 1) == Some([]);
      assert third == Some([]);
    } else {
      ValueChar(s[2]);
      var v2 := Value(s[2]).value;
      assert Scan(s[3..], 3, v2, 0) == Some([]);
      assert [Byte1(v1, v2)] + [] == [Byte1(v1, v2)];
      assert third == Some([Byte1(v1, v2)]);
    }
    var second := Scan(s[1..], 1, v0, 0);
    assert second == Before(Byte0(v0, v1), third);
    assert [Byte0(v0, v1)] + third.value == if s[2] == '=' then [Byte0(v0, v1)] else [Byte0(v0, v1), third.value[0]];
  }

  // The proofs keep the bits apart from the characters: `Join` undoes `Sextets`
  // by arithmetic alone, and `Scan` undoes `Spell` up to `Join`.

  ghost function Join(v: seq<Sextet>): Bytes {
    if |v| <= 1 then []
    else if |v| == 2 then [Byte0(v[0], v[1])]
    else if |v| == 3 then [Byte0(v[0], v[1]), Byte1(v[1], v[2])]
    else [Byte0(v[0], v[1]), Byte1(v[1], v[2]), Byte2(v[2], v[3])] + Join(v[4..])
  }

  ghost predicate Tight(v: seq<Sextet>) {
    if |v| <= 1 then |v| == 0
    else if |v| == 2 then v[1] & 0x0F == 0
    else if |v| == 3 then v[2] & 0x03 == 0
    else Tight(v[4..])
  }

  lemma {:induction false} JoinSextets(b: Bytes)
    ensures Join(Sextets(b)) == b && Tight(Sextets(b))
  {
    if |b| == 0 {
    } else if |b| == 1 {
      Regroup(b[0], 0, 0);
    } else if |b| == 2 {
      Regroup(b[0], b[1], 0);
    } else {
      Regroup(b[0], b[1], b[2]);
      JoinSextets(b[3..]);
      assert Sextets(b)[4..] == Sextets(b[3..]);
      assert b == [b[0], b[1], b[2]] + b[3..];
    }
  }

  lemma {:induction false} SextetsJoin(v: seq<Sextet>)
    requires Tight(v)
    ensures Sextets(Join(v)) == v
  {
    if |v| == 0 {
    } else if |v| == 2 {
      Ungroup(v[0], v[1], 0, 0);
    } else if |v| == 3 {
      Ungroup(v[0], v[1], v[2], 0);
    } else {
      hide Byte0, Byte1, Byte2, Sextet0, Sextet1, Sextet2, Sextet3;
      Ungroup(v[0], v[1], v[2], v[3]);
      SextetsJoin(v[4..]);
      assert Join(v)[3..] == Join(v[4..]);
      assert v == [v[0], v[1], v[2], v[3]] + v[4..];
    }
  }

  lemma ScanSpellShort(v: seq<Sextet>, left: Sextet)
    requires Tight(v) && 2 <= |v| <= 3
    ensures Scan(Spell(v), 0, left, 0) == Some(Join(v))
  {
    var s := Spell(v);
    CharValue(v[0]); CharValue(v[1]);
    assert Value(s[0]) == Some(v[0]) && Value(s[1]) == Some(v[1]);
    if |v| == 3 {
      CharValue(v[2]);
      assert Value(s[2]) == Some(v[2]);
    }
    ScanPadded(s, left, v[0], v[1]);
  }

  lemma {:induction false} ScanSpell(v: seq<Sextet>, left: Sextet)
    requires Tight(v)
    ensures Scan(Spell(v), 0, left, 0) == Some(Join(v))
  {
    if |v| > 3 {
      var s := Spell(v);
      CharValue(v[0]); CharValue(v[1]); CharValue(v[2]); CharValue(v[3]);
      assert Value(s[0]) == Some(v[0]) && Value(s[1]) == Some(v[1]);
      assert Value(s[2]) == Some(v[2]) && Value(s[3]) == Some(v[3]);
      ScanGroup(s, left, v[0], v[1], v[2], v[3]);
      ScanSpell(v[4..], v[3]);
      assert s[4..] == Spell(v[4..]);
      assert [Byte0(v[0], v[1])] + ([Byte1(v[1], v[2])] + ([Byte2(v[2], v[3])] + Join(v[4..]))) == Join(v);
    } else if |v| > 0 {
      ScanSpellShort(v, left);
    }
  }

  lemma {:induction false} SpellCanonical(v: seq<Sextet>)
    requires Tight(v)
    ensures Canonical(Spell(v))
  {
    if |v| > 3 {
      CharValue(v[0]); CharValue(v[1]); CharValue(v[2]); CharValue(v[3]);
      SpellCanonical(v[4..]);
      assert Spell(v)[4..] == Spell(v[4..]);
    } else if |v| > 0 {
      CharValue(v[0]); CharValue(v[1]);
      if |v| == 3 { CharValue(v[2]); }
    }
  }

  /** The sextets that a canonical string spells. */
  lemma {:induction false} Read(s: string) returns (v: seq<Sextet>)
    requires Canonical(s)
    ensures Tight(v) && Spell(v) == s
  {
    if s == "" {
      v := [];
    } else if Value(s[2]).Some? && Value(s[3]).Some? {
      var rest := Read(s[4..]);
      ValueChar(s[0]); ValueChar(s[1]); ValueChar(s[2]); ValueChar(s[3]);
      v := [Value(s[0]).value, Value(s[1]).value, Value(s[2]).value, Value(s[3]).value] + rest;
      assert v[4..] == rest;
      assert s == [s[0], s[1], s[2], s[3]] + s[4..];
    } else {
      v := ReadPadded(s);
    }
  }

  lemma ReadPadded(s: string) returns (v: seq<Sextet>)
    requires Canonical(s) && |s| == 4 && s[3] == '='
    ensures Tight(v) && Spell(v) == s
  {
    assert s == [s[0], s[1], s[2], s[3]];
    ValueChar(s[0]); ValueChar(s[1]);
    v := [Value(s[0]).value, Value(s[1]).value];
    if s[2] != '=' {
      ValueChar(s[2]);
      v := v + [Value(s[2]).value];
    }
  }

  lemma {:induction false} CanonicalAscii(s: string)
    requires Canonical(s)
    ensures forall c <- s :: c as int < 128
  {
    if s != "" {
      assert s == [s[0], s[1], s[2], s[3]] + s[4..];
      if Value(s[2]).Some? && Value(s[3]).Some? {
        CanonicalAscii(s[4..]);
      }
    }
  }

  /** Decoding undoes encoding for every byte string. */
  lemma RoundTrip(b: Bytes)
    ensures Decode(Encode(b)) == Some(b) && Canonical(Encode(b))
  {
    JoinSextets(b);
    ScanSpell(Sextets(b), 0);
    SpellCanonical(Sextets(b));
    CanonicalAscii(Encode(b));
  }

  /** Encoding undoes decoding exactly on the canonical strings. */
  lemma EncodeUndoesDecode(s: string)
    ensures Canonical(s) <==> Decode(s).Some? && Encode(Decode(s).value) == s
  {
    if Canonical(s) {
      var v := Read(s);
      ScanSpell(v, 0);
      SextetsJoin(v);
      CanonicalAscii(s);
    }
    if Decode(s).Some? {
      RoundTrip(Decode(s).value);
    }
  }

  // ── the encoding of section 4, digit by digit ──────────────────────────────

  // Table 1 of RFC 4648, in four parts.
  const UPPER := "ABCDEFGHIJKLMNOPQRSTUVWXYZ"
  const LOWER := "abcdefghijklmnopqrstuvwxyz"
  const NUMERALS := "0123456789"
  const ALPHABET := UPPER + LOWER + NUMERALS + "+/"

  lemma LetterIsUpper(n: nat)
    requires n < 26
    ensures Letter(n) == UPPER[n]
  {
    match n
    case 0 => case 1 => case 2 => case 3 => case 4 => case 5 => case 6 => case 7 => case 8 =>
    case 9 => case 10 => case 11 => case 12 => case 13 => case 14 => case 15 => case 16 => case 17 =>
    case 18 => case 19 => case 20 => case 21 => case 22 => case 23 => case 24 => case 25 =>
    case _ =>
  }

  lemma LetterIsLower(n: nat)
    requires n < 26
    ensures Letter(n + 26) == LOWER[n]
  {
    match n
    case 0 => case 1 => case 2 => case 3 => case 4 => case 5 => case 6 => case 7 => case 8 =>
    case 9 => case 10 => case 11 => case 12 => case 13 => case 14 => case 15 => case 16 => case 17 =>
    case 18 => case 19 => case 20 => case 21 => case 22 => case 23 => case 24 => case 25 =>
    case _ =>
  }

  lemma LetterIsInTable(n: nat)
    requires n < 64
    ensures |ALPHABET| == 64 && Letter(n) == ALPHABET[n]
  {
    if n < 26 {
      LetterIsUpper(n);
    } else if n < 52 {
      LetterIsLower(n - 26);
    }
  }

  function Word(b0: Byte, b1: Byte, b2: Byte): bv24 {
    ((b0 as bv24) << 16) | ((b1 as bv24) << 8) | (b2 as bv24)
  }

  function ByteAt(b: Bytes, j: nat): Byte { if j < |b| then b[j] else 0 }

  /** The 24 bits of group `g`, most significant byte first, zero bits past the end. */
  function Group(b: Bytes, g: nat): bv24 {
    Word(ByteAt(b, 3 * g), ByteAt(b, 3 * g + 1), ByteAt(b, 3 * g + 2))
  }

  lemma WordBits(b0: Byte, b1: Byte, b2: Byte)
    ensures
      var n := Word(b0, b1, b2);
      && Sextet0(b0) == ((n >> 18) & 0x3F) as Sextet && Sextet1(b0, b1) == ((n >> 12) & 0x3F) as Sextet
      && Sextet2(b1, b2) == ((n >> 6) & 0x3F) as Sextet && Sextet3(b2) == (n & 0x3F) as Sextet
  {}

  function Digit(v: Sextet): char {
    LetterIsInTable(v as nat);
    ALPHABET[v as nat]
  }

  /** The letters for a group in which `left` bytes, or more than three, are left. */
  function Quad(n: bv24, left: nat): (q: string)
    ensures |q| == 4
  {
    [Digit(((n >> 18) & 0x3F) as Sextet), Digit(((n >> 12) & 0x3F) as Sextet),
     if left > 1 then Digit(((n >> 6) & 0x3F) as Sextet) else '=',
     if left > 2 then Digit((n & 0x3F) as Sextet) else '=']
  }

  lemma CharIsDigit(v: Sextet)
    ensures Char(v) == Digit(v)
  {
    LetterIsInTable(v as nat);
  }

  /** The letters of a group, from its sextets. */
  function Letters(b0: Byte, b1: Byte, b2: Byte, left: nat): (q: string)
    ensures |q| == 4
  {
    [Char(Sextet0(b0)), Char(Sextet1(b0, b1)),
     if left > 1 then Char(Sextet2(b1, b2)) else '=', if left > 2 then Char(Sextet3(b2)) else '=']
  }

  lemma LettersAreQuad(b0: Byte, b1: Byte, b2: Byte, left: nat)
    ensures Letters(b0, b1, b2, left) == Quad(Word(b0, b1, b2), left)
  {
    WordBits(b0, b1, b2);
    CharIsDigit(Sextet0(b0)); CharIsDigit(Sextet1(b0, b1)); CharIsDigit(Sextet2(b1, b2)); CharIsDigit(Sextet3(b2));
    hide Sextet0, Sextet1, Sextet2, Sextet3, Word, Char, Digit;
  }

  lemma FirstGroup(b: Bytes)
    requires b != []
    ensures Encode(b) ==
      Letters(b[0], ByteAt(b, 1), ByteAt(b, 2), |b|) + Encode(if |b| < 3 then [] else b[3..])
  {
    hide Sextet0, Sextet1, Sextet2, Sextet3, Char;
    if |b| >= 3 { assert Sextets(b)[4..] == Sextets(b[3..]); }
  }

  lemma EncodesNothing()
    ensures Encode([]) == ""
  {}

  lemma LaterGroup(b: Bytes, g: nat)
    requires |b| >= 3 && g > 0
    ensures Group(b, g) == Group(b[3..], g - 1)
  {}

  lemma SliceAfter(head: string, tail: string, k: nat)
    requires |head| == 4 && k + 4 <= |tail|
    ensures (head + tail)[k + 4..k + 8] == tail[k..k + 4]
  {}

  /** Each group of three bytes becomes four letters of the table, for its bits from
      the most significant on; what a short last group lacks is written as '='. */
  lemma {:induction false} EncodesGroups(b: Bytes, g: nat)
    requires 3 * g < |b|
    ensures |Encode(b)| == 4 * ((|b| + 2) / 3) && 4 * g + 3 < |Encode(b)|
    ensures Encode(b)[4 * g..4 * g + 4] == Quad(Group(b, g), |b| - 3 * g)
  {
    FirstGroup(b);
    LettersAreQuad(b[0], ByteAt(b, 1), ByteAt(b, 2), |b|);
    EncodesNothing();
    hide Letters, Quad, Word, Encode;
    var head := Letters(b[0], ByteAt(b, 1), ByteAt(b, 2), |b|);
    var tail := Encode(if |b| < 3 then [] else b[3..]);
    if |b| > 3 {
      EncodesGroups(b[3..], if g > 0 then g - 1 else 0);
      if g > 0 {
        LaterGroup(b, g);
        SliceAfter(head, tail, 4 * (g - 1));
      }
    } else {
      assert (if |b| < 3 then [] else b[3..]) == [];
    }
    if g == 0 { assert Encode(b)[..4] == head; }
  }

  // ── what the decoder tolerates ─────────────────────────────────────────────

  lemma {:induction false} ScanSkips(a: string, c: char, b: string, q: nat, left: Sextet, pads: nat)
    requires c != '=' && Value(c).None?
    ensures Scan(a + [c] + b, q, left, pads) == Scan(a + b, q, left, pads)
    decreases |a|
  {
    if a == "" {
      assert "" + [c] + b == [c] + b && "" + b == b;
      assert ([c] + b)[1..] == b;
    } else {
      assert (a + [c] + b)[1..] == a[1..] + [c] + b && (a + b)[1..] == a[1..] + b;
      forall q, left, pads ensures Scan(a[1..] + [c] + b, q, left, pads) == Scan(a[1..] + b, q, left, pads) {
        ScanSkips(a[1..], c, b, q, left, pads);
      }
    }
  }

  /** An ASCII character outside the alphabet changes nothing, wherever it stands. */
  lemma StrayIsSkipped(a: string, c: char, b: string)
    requires c as int < 128 && c != '=' && c !in ALPHABET
    ensures Decode(a + [c] + b) == Decode(a + b)
  {
    PositionSound(c, 0);
    if Value(c).Some? { LetterIsInTable(Position(c, 0).value); }
    ScanSkips(a, c, b, 0, 0, 0);
    assert forall x :: x in a + [c] + b <==> x == c || x in a + b;
  }

  lemma {:induction false} ScanUnfinished(s: string, q: nat, left: Sextet, pads: nat)
    requires q < 4 && (forall c <- s :: Value(c).Some?) && (q + |s|) % 4 != 0
    ensures Scan(s, q, left, pads) == None
  {
    if s != "" {
      assert s[0] in s;
      ScanUnfinished(s[1..], (q + 1) % 4, Value(s[0]).value, 0);
    }
  }

  /** Without padding, an unfinished group of four is an error. */
  lemma UnfinishedIsRefused(s: string)
    requires (forall c <- s :: c in ALPHABET) && |s| % 4 != 0
    ensures Decode(s) == None
  {
    forall c | c in s ensures Value(c).Some? {
      var n :| 0 <= n < |ALPHABET| && ALPHABET[n] == c;
      LetterIsInTable(n);
      PositionFound(n, 0);
    }
    ScanUnfinished(s, 0, 0, 0);
  }
}

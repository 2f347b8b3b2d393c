/** Terminal ids: the match id, "-t", and the position of the prompt in decimal. */
module TerminalId {
  import opened Prelude

  predicate IsDigit(c: char) { '0' <= c <= '9' }

  function Decimal(n: nat): string {
    if n < 10 then [('0' as int + n) as char] else Decimal(n / 10) + [('0' as int + n % 10) as char]
  }

  /** In base ten, most significant digit first. */
  lemma DecimalIsBaseTen()
    ensures Decimal(9876543210) == "9876543210"
  {
    assert Decimal(98765) == "98765";
    assert Decimal(9876543210) == Decimal(98765) + "43210";
  }

  function Of(matchId: string, i: nat): string {
    matchId + "-t" + Decimal(i)
  }

  function Number(s: string): nat
    requires forall c <- s :: IsDigit(c)
  {
    if s == "" then 0
    else
      assert s[|s| - 1] in s && IsDigit(s[|s| - 1]);
      Number(s[..|s| - 1]) * 10 + (s[|s| - 1] as int - '0' as int)
  }

  function TrailingDigits(s: string): (k: nat)
    ensures k <= |s| && forall c <- s[|s| - k..] :: IsDigit(c)
  {
    if s == "" || !IsDigit(s[|s| - 1]) then 0
    else
      var k := TrailingDigits(s[..|s| - 1]);
      assert s[|s| - (k + 1)..] == s[..|s| - 1][|s| - 1 - k..] + [s[|s| - 1]];
      k + 1
  }

  /** Reads an id back: the digits at its end and what stands before the "-t". */
  function Split(id: string): Option<(string, nat)> {
    var k := TrailingDigits(id);
    var head := id[..|id| - k];
    if k > 0 && |head| >= 2 && head[|head| - 2..] == "-t"
    then Some((head[..|head| - 2], Number(id[|id| - k..])))
    else None
  }

  lemma {:induction false} DecimalNumber(n: nat)
    ensures |Decimal(n)| > 0 && (forall c <- Decimal(n) :: IsDigit(c)) && Number(Decimal(n)) == n
  {
    if n >= 10 {
      DecimalNumber(n / 10);
      var s := Decimal(n);
      assert s[..|s| - 1] == Decimal(n / 10);
    }
  }

  lemma {:induction false} TrailingAfter(head: string, digits: string)
    requires head != "" && !IsDigit(head[|head| - 1])
    requires forall c <- digits :: IsDigit(c)
    ensures TrailingDigits(head + digits) == |digits|
  {
    var s := head + digits;
    if digits == "" {
      assert s == head;
    } else {
      var init := digits[..|digits| - 1];
      TrailingAfter(head, init);
      assert s[..|s| - 1] == head + init;
      assert s[|s| - 1] == digits[|digits| - 1] && digits[|digits| - 1] in digits;
    }
  }

  /** Splitting undoes printing, for every match id and every position. */
  lemma SplitOf(matchId: string, i: nat)
    ensures Split(Of(matchId, i)) == Some((matchId, i))
  {
    var head, digits := matchId + "-t", Decimal(i);
    DecimalNumber(i);
    assert Of(matchId, i) == head + digits;
    TrailingAfter(head, digits);
    assert (head + digits)[..|head|] == head && (head + digits)[|head|..] == digits;
    assert head[|head| - 2..] == "-t" && head[..|head| - 2] == matchId;
  }

  /** Distinct prompts get distinct ids. */
  lemma Injective(m: string, i: nat, m': string, i': nat)
    ensures Of(m, i) == Of(m', i') <==> m == m' && i == i'
  {
    SplitOf(m, i);
    SplitOf(m', i');
  }
}

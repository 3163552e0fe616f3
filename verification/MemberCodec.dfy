/**
 The text format of the limiter's sorted-set members, `id:cost`, and the two
 Lua string operations that read it back: the pattern `:(%-?%d+)$` and the
 prefix comparison with a reservation id.
 */
module MemberCodec {
  import opened Common

  /** Lua writes an integer below this bound as plain decimal digits; from here on it uses an exponent. */
  const EXPONENT_LIMIT: nat := 100_000_000_000_000

  predicate IsDigit(c: char) {
    '0' <= c <= '9'
  }

  predicate AllDigits(s: string) {
    forall i :: 0 <= i < |s| ==> IsDigit(s[i])
  }

  function DigitChar(d: nat): (c: char)
    requires d < 10
    ensures IsDigit(c) && c as int - '0' as int == d
  {
    (d + '0' as int) as char
  }

  /** Decimal digits of `n`, as Lua's `..` writes an integer below EXPONENT_LIMIT. */
  function Digits(n: nat): (s: string)
    ensures s != [] && AllDigits(s)
  {
    if n < 10 then [DigitChar(n)] else Digits(n / 10) + [DigitChar(n % 10)]
  }

  /** `tonumber` on a run of digits. */
  function ParseNat(s: string): nat
    requires AllDigits(s)
  {
    if s == [] then 0 else 10 * ParseNat(Front(s)) + (Last(s) as int - '0' as int)
  }

  lemma {:induction false} ParseOfDigits(n: nat)
    ensures ParseNat(Digits(n)) == n
  {
    if n >= 10 {
      ParseOfDigits(n / 10);
      assert Front(Digits(n)) == Digits(n / 10);
    } else {
      assert Front(Digits(n)) == [];
    }
  }

  /** The text matches `%-?%d+` completely. */
  predicate IsInteger(s: string) {
    s != [] && if s[0] == '-' then |s| > 1 && AllDigits(s[1..]) else AllDigits(s)
  }

  function ParseInteger(s: string): int
    requires IsInteger(s)
  {
    if s[0] == '-' then 0 - ParseNat(s[1..]) else ParseNat(s)
  }

  /** `string.match(m, ':(%-?%d+)$')`: tries every start from the left; None is Lua's nil. */
  function MatchCost(m: string, start: nat := 0): Option<int>
    decreases |m| - start
  {
    if start >= |m| then None
    else if m[start] == ':' && IsInteger(m[start + 1..]) then Some(ParseInteger(m[start + 1..]))
    else MatchCost(m, start + 1)
  }

  /** `string.sub(m, 1, string.len(id)) == id`. */
  predicate HasIdPrefix(m: string, id: string) {
    |id| <= |m| && m[..|id|] == id
  }

  function Member(id: string, cost: nat): string {
    id + ":" + Digits(cost)
  }

  lemma {:induction false} MatchSkipsId(id: string, cost: nat, start: nat)
    requires ':' !in id
    requires start <= |id|
    ensures MatchCost(Member(id, cost), start) == Some(cost)
    decreases |id| - start
  {
    var m := Member(id, cost);
    if start == |id| {
      assert m[start + 1..] == Digits(cost);
      assert Digits(cost)[0] != '-';
      ParseOfDigits(cost);
    } else {
      assert m[start] == id[start];
      MatchSkipsId(id, cost, start + 1);
    }
  }

  /** Reading a member back gives the cost that was printed into it. */
  lemma CostRoundTrip(id: string, cost: nat)
    requires ':' !in id
    ensures MatchCost(Member(id, cost)) == Some(cost)
  {
    MatchSkipsId(id, cost, 0);
  }

  /** Among ids of one length, a prefix test finds exactly the members written for that id. */
  lemma PrefixSelectsId(id: string, other: string, cost: nat)
    requires |id| == |other|
    ensures HasIdPrefix(Member(other, cost), id) <==> id == other
  {
    assert Member(other, cost)[..|id|] == other;
  }

  /** Members of different reservations, or of different costs, are different strings. */
  lemma MemberInjective(id1: string, cost1: nat, id2: string, cost2: nat)
    requires |id1| == |id2| && ':' !in id1 && ':' !in id2
    requires Member(id1, cost1) == Member(id2, cost2)
    ensures id1 == id2 && cost1 == cost2
  {
    assert Member(id1, cost1)[..|id1|] == id1;
    assert Member(id2, cost2)[..|id2|] == id2;
    CostRoundTrip(id1, cost1);
    CostRoundTrip(id2, cost2);
  }

  /** Byte order of strings, by which a sorted set breaks score ties. */
  predicate LexLess(a: string, b: string) {
    if b == [] then false
    else if a == [] then true
    else a[0] < b[0] || (a[0] == b[0] && LexLess(a[1..], b[1..]))
  }

  /** Costs are written in decimal, behind a colon. */
  lemma WritesDecimal()
    ensures Member("id", 1204) == "id:1204" && MatchCost("id:1204") == Some(1204)
  {
    assert Digits(1) == "1" && Digits(12) == "12" && Digits(120) == "120" && Digits(1204) == "1204";
    CostRoundTrip("id", 1204);
  }
}

/** The Russian plural-form selector of app/store/common/utils.py. */
module Utils {
  function Abs(n: int): nat {
    if n < 0 then -n else n
  }

  /** `get_noun_ending(number, one, two, five)`: the word form that agrees with `number`,
      e.g. 4 gives the "two" form ('слона'). */
  function GetNounEnding(number: int, one: string, two: string, five: string): (r: string)
    ensures r == one || r == two || r == five
  {
    var n := Abs(number) % 100;
    if 5 <= n <= 20 then five
    else
      var d := n % 10;
      if d == 1 then one
      else if 2 <= d <= 4 then two
      else five
  }

  /** The Russian grammar rule the selector implements, stated on the last two digits:
      "one" for a last digit 1 except 11, "two" for a last digit 2..4 except 12..14,
      "five" otherwise. */
  function PluralForm(number: int, one: string, two: string, five: string): string {
    var lastTwo := Abs(number) % 100;
    var last := Abs(number) % 10;
    if last == 1 && lastTwo != 11 then one
    else if 2 <= last <= 4 && !(12 <= lastTwo <= 14) then two
    else five
  }

  lemma {:induction false} ModTenShift(k: nat, r: nat)
    ensures (10 * k + r) % 10 == r % 10
  {
    if k > 0 {
      ModTenShift(k - 1, r);
      assert 10 * k + r == (10 * (k - 1) + r) + 10;
    }
  }

  lemma LastDigitOfLastTwo(m: nat)
    ensures (m % 100) % 10 == m % 10
  {
    var q, r := m / 100, m % 100;
    assert m == 100 * q + r;
    assert 100 * q == 10 * (10 * q);
    ModTenShift(10 * q, r);
  }

  /** The selector agrees with the grammar rule for every integer. */
  lemma {:induction false} GetNounEndingIsPluralForm(number: int, one: string, two: string, five: string)
    ensures GetNounEnding(number, one, two, five) == PluralForm(number, one, two, five)
  {
    LastDigitOfLastTwo(Abs(number));
  }

  /** Only the magnitude matters: f(n) == f(-n). */
  lemma SignInsensitive(number: int, one: string, two: string, five: string)
    ensures GetNounEnding(number, one, two, five) == GetNounEnding(-number, one, two, five)
  {
  }

  /** Only |n| mod 100 matters. */
  lemma DependsOnLastTwoDigits(a: int, b: int, one: string, two: string, five: string)
    requires Abs(a) % 100 == Abs(b) % 100
    ensures GetNounEnding(a, one, two, five) == GetNounEnding(b, one, two, five)
  {
  }

  /** 5..20 modulo 100 (so 11..14 among them) always takes the "five" form. */
  lemma TeensTakeFive(number: int, one: string, two: string, five: string)
    requires 5 <= Abs(number) % 100 <= 20
    ensures GetNounEnding(number, one, two, five) == five
  {
  }

  /** Outside 5..20, the last digit decides. */
  lemma LastDigitDecides(number: int, one: string, two: string, five: string)
    requires !(5 <= Abs(number) % 100 <= 20)
    ensures Abs(number) % 10 == 1 ==> GetNounEnding(number, one, two, five) == one
    ensures 2 <= Abs(number) % 10 <= 4 ==> GetNounEnding(number, one, two, five) == two
    ensures (Abs(number) % 10 == 0 || Abs(number) % 10 >= 5) ==> GetNounEnding(number, one, two, five) == five
  {
    LastDigitOfLastTwo(Abs(number));
  }

  lemma DocExample()
    ensures GetNounEnding(4, "слон", "слона", "слонов") == "слона"
    ensures GetNounEnding(11, "слон", "слона", "слонов") == "слонов"
    ensures GetNounEnding(-21, "слон", "слона", "слонов") == "слон"
  {
  }
}

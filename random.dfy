/** The test data generators of util/random.go. Each draw of the random
    source is an arbitrary choice within the range the source's call
    allows, so what is proved holds for every possible draw. */
module Random {
  import opened Schema

  const Alphabet: string := "abcdefghijklmnopqrstuvwxyz"

  const Currencies: seq<string> := ["USD", "EUR", "CAD"]

  predicate IsAlphabetChar(c: char)
  {
    'a' <= c <= 'z'
  }

  lemma AlphabetIsLowercase()
    ensures |Alphabet| == 26
    ensures forall i | 0 <= i < |Alphabet| :: IsAlphabetChar(Alphabet[i])
  {
  }

  /** min + rand.Int63n(max-min+1). Int63n panics unless its argument is
      positive, so the width of the range must be an int64 itself. */
  method RandomInt64(min: int, max: int) returns (n: int)
    requires MinInt64 <= min <= max <= MaxInt64
    requires max - min + 1 <= MaxInt64
    ensures min <= n <= max
  {
    var draw :| 0 <= draw < max - min + 1;
    n := min + draw;
  }

  /** One letter of the alphabet per iteration; a non-positive n gives the
      empty string. */
  method RandomString(n: int) returns (s: string)
    ensures |s| == (if n > 0 then n else 0)
    ensures forall i | 0 <= i < |s| :: IsAlphabetChar(s[i])
  {
    AlphabetIsLowercase();
    s := "";
    var i := 0;
    while i < n
      invariant i == |s|
      invariant n > 0 ==> i <= n
      invariant n <= 0 ==> i == 0
      invariant forall j | 0 <= j < |s| :: IsAlphabetChar(s[j])
    {
      var k :| 0 <= k < |Alphabet|;
      s := s + [Alphabet[k]];
      i := i + 1;
    }
  }

  method RandomOwner() returns (owner: string)
    ensures |owner| == 6
    ensures forall i | 0 <= i < |owner| :: IsAlphabetChar(owner[i])
  {
    owner := RandomString(6);
  }

  method RandomMoney() returns (amount: int)
    ensures 0 <= amount <= 1000
  {
    amount := RandomInt64(0, 1000);
  }

  method RandomCurrency() returns (currency: string)
    ensures currency in Currencies
    ensures currency == "USD" || currency == "EUR" || currency == "CAD"
  {
    var k :| 0 <= k < |Currencies|;
    currency := Currencies[k];
  }
}

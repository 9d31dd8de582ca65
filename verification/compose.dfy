/**
 * Composition of the index, run once on the fresh scores and once on the
 * scores read back from the reports: the eligible-country multiplier, the
 * focal country's own index derived from the total of the others, its
 * insertion under "Turkey", and the grand total.
 */
module Compose {
  import opened Wrappers
  import opened Dict

  /** The countries whose score is multiplied (the source's comment speaks of 1.5). */
  const EligibleCountries: seq<string> := ["Syria", "Russia", "Ukraine", "Iraq"]
  /** The multiplier actually applied: 1.0, so the step leaves every score as it is. */
  const EligibleMultiplier: real := 1.0

  const FocalCountry: string := "Turkey"
  const FocalThreshold: real := 1.0
  const FocalDivisor: real := 10.0
  const FocalFloor: real := 1.0

  /** The focal index for the total of the other countries' scores. */
  function BntIndex(total: real): (index: real)
  {
    if total > FocalThreshold then total / FocalDivisor else FocalFloor
  }

  /** `for country in [...]: if country in threats: threats[country] *= 1.0` */
  method ApplyEligibleMultiplier(threats: Dict) returns (scaled: Dict)
    ensures |scaled| == |threats|
    ensures forall i :: 0 <= i < |threats| ==>
      scaled[i] == (threats[i].0, if threats[i].0 in EligibleCountries then threats[i].1 * EligibleMultiplier else threats[i].1)
    ensures scaled == threats
  {
    scaled := threats;
    for j := 0 to |EligibleCountries|
      invariant |scaled| == |threats|
      invariant forall i :: 0 <= i < |threats| ==>
        scaled[i] == (threats[i].0, if threats[i].0 in EligibleCountries[..j] then threats[i].1 * EligibleMultiplier else threats[i].1)
      invariant scaled == threats
    {
      var country := EligibleCountries[j];
      assert country !in EligibleCountries[..j];
      assert EligibleCountries[..j + 1] == EligibleCountries[..j] + [country];
      if HasKey(scaled, country) {
        var v := Get(scaled, country).value;
        PutSameValue(scaled, country);
        scaled := Put(scaled, country, v * EligibleMultiplier);
      }
    }
    assert EligibleCountries[..|EligibleCountries|] == EligibleCountries;
  }

  /**
   * Lines 130-146 (and, without the final total, 190-204): scale, total the
   * other countries, derive the focal index, insert it and total again.
   */
  method ComposeIndex(threats: Dict) returns (composite: Dict, bntIndex: real, totalThreat: real)
    ensures bntIndex == BntIndex(Sum(threats))
    ensures Get(composite, FocalCountry) == Some(bntIndex)
    ensures forall k :: k != FocalCountry ==> Get(composite, k) == Get(threats, k)
    ensures Get(threats, FocalCountry).None? ==>
      composite == threats + [(FocalCountry, bntIndex)] && totalThreat == Sum(threats) + bntIndex
    ensures totalThreat == Sum(composite)
  {
    var scaled := ApplyEligibleMultiplier(threats);
    var total := Sum(scaled);
    bntIndex := 0.0;
    if total > 1.0 {
      bntIndex := total / 10.0;
    } else {
      bntIndex := 1.0;
    }
    composite := Put(scaled, FocalCountry, bntIndex);
    if Get(threats, FocalCountry).None? {
      HasKeyFind(threats, FocalCountry);
      SumPutNew(threats, FocalCountry, bntIndex);
    }
    totalThreat := Sum(composite);
  }

  /**
   * The floor of 1.0 only holds up to the threshold: just above a total of
   * 1.0 the index drops to a tenth of the total, below 1.0, and it is at
   * least 1.0 again only from a total of 10.0 on.
   */
  lemma BntIndexThresholds(total: real)
    ensures total <= 1.0 ==> BntIndex(total) == 1.0
    ensures total > 1.0 ==> BntIndex(total) * 10.0 == total
    ensures BntIndex(total) >= 1.0 <==> total <= 1.0 || total >= 10.0
    ensures total >= 0.0 ==> BntIndex(total) > 0.0
  {
  }

  /** The index is not monotone in the total: 1.0 gives 1.0, 2.0 gives 0.2. */
  lemma BntIndexNotMonotone()
    ensures BntIndex(1.0) == 1.0 && BntIndex(2.0) == 0.2
  {
  }

  /** Six countries totalling 0.08: the floor applies, the grand total is 1.08. */
  lemma WeakSignalExample()
    ensures var d: Dict := [("Armenia", 0.02), ("Georgia", 0.0), ("Greece", 0.05),
                            ("Iran", 0.01), ("Iraq", 0.0), ("Syria", 0.0)];
      Sum(d) == 0.08 && BntIndex(Sum(d)) == 1.0 && Sum(Put(d, FocalCountry, BntIndex(Sum(d)))) == 1.08
  {
    var d: Dict := [("Armenia", 0.02), ("Georgia", 0.0), ("Greece", 0.05),
                    ("Iran", 0.01), ("Iraq", 0.0), ("Syria", 0.0)];
    assert d[..5][..4][..3][..2][..1][..0] == [];
    assert Sum(d[..1]) == 0.02;
    assert Sum(d[..2]) == 0.02 by { assert d[..2][..1] == d[..1]; }
    assert Sum(d[..3]) == 0.07 by { assert d[..3][..2] == d[..2]; }
    assert Sum(d[..4]) == 0.08 by { assert d[..4][..3] == d[..3]; }
    assert Sum(d[..5]) == 0.08 by { assert d[..5][..4] == d[..4]; }
    assert Sum(d) == 0.08 by { assert d[..5] == d[..|d| - 1]; }
    HasKeyFind(d, FocalCountry);
    SumPutNew(d, FocalCountry, 1.0);
  }

  /** Other countries totalling 3.0: the index is 0.3 and the grand total 3.3. */
  lemma StrongSignalExample(d: Dict)
    requires Sum(d) == 3.0 && Get(d, FocalCountry).None?
    ensures BntIndex(Sum(d)) == 0.3
    ensures Sum(Put(d, FocalCountry, BntIndex(Sum(d)))) == 3.3
  {
    HasKeyFind(d, FocalCountry);
    SumPutNew(d, FocalCountry, 0.3);
  }
}

/** Cost allocation, packages/chargeback/service.py: split an amount by weight, rounding every share but the last. */
module Chargeback {
  import opened Sorting
  import opened Wrappers

  /** One entry of the weights dictionary. */
  datatype Item = Item(dimension: string, value: string, weight: real)

  datatype Share = Share(item: Item, amount: real)

  datatype Error = Negative | NoWeight | Unreconciled

  // ----- the order of the keys -----

  predicate KeyLe(a: Item, b: Item) {
    if a.dimension == b.dimension then StringLe(a.value, b.value) else StringLe(a.dimension, b.dimension)
  }

  lemma KeyLeOrders()
    ensures TotalPreorder(KeyLe)
  {
    forall a, b
      ensures KeyLe(a, b) || KeyLe(b, a)
    {
      StringLeTotal(a.value, b.value);
      StringLeTotal(a.dimension, b.dimension);
    }
    forall a, b, c | KeyLe(a, b) && KeyLe(b, c)
      ensures KeyLe(a, c)
    {
      KeyLeTransitive(a, b, c);
    }
  }

  lemma KeyLeTransitive(a: Item, b: Item, c: Item)
    requires KeyLe(a, b) && KeyLe(b, c)
    ensures KeyLe(a, c)
  {
    hide StringLe;
    if a.dimension == b.dimension == c.dimension {
      StringLeTransitive(a.value, b.value, c.value);
    } else if a.dimension != b.dimension && b.dimension != c.dimension {
      StringLeTransitive(a.dimension, b.dimension, c.dimension);
      if a.dimension == c.dimension {
        StringLeAntisymmetric(a.dimension, b.dimension);
      }
    }
  }

  // ----- rounding -----

  function Quantum(places: int): (q: real)
    ensures q > 0.0
    decreases if places < 0 then -places else places
  {
    if places == 0 then 1.0
    else if places > 0 then Quantum(places - 1) / 10.0
    else Quantum(places + 1) * 10.0
  }

  /** To the nearest integer, a half to the even one. */
  function RoundHalfEven(y: real): (n: int)
    ensures -0.5 <= n as real - y <= 0.5
    ensures (n as real - y == 0.5 || n as real - y == -0.5) ==> n % 2 == 0
    ensures y >= 0.0 ==> n >= 0
  {
    var f := y.Floor;
    var rest := y - f as real;
    if rest < 0.5 || (rest == 0.5 && f % 2 == 0) then f else f + 1
  }

  function Quantize(x: real, q: real): real
    requires q > 0.0
  {
    RoundHalfEven(x / q) as real * q
  }

  /** Rounding moves an amount by at most half a quantum and never below zero. */
  lemma QuantizeClose(x: real, q: real)
    requires q > 0.0
    ensures -0.5 * q <= Quantize(x, q) - x <= 0.5 * q
    ensures x >= 0.0 ==> Quantize(x, q) >= 0.0
  {
    hide RoundHalfEven, Quantize;
    assert -0.5 * q <= Quantize(x, q) - x <= 0.5 * q by {
      Unscaled(x, q);
      Near(RoundHalfEven(x / q) as real, x / q, q, Quantize(x, q), x);
    }
    QuantizeSign(x, q);
  }

  lemma QuantizeSign(x: real, q: real)
    requires q > 0.0
    ensures x >= 0.0 ==> Quantize(x, q) >= 0.0
  {
    hide RoundHalfEven, Quantize;
    Unscaled(x, q);
    if x >= 0.0 {
      Scale(0.0, RoundHalfEven(x / q) as real, q);
    }
  }

  lemma Unscaled(x: real, q: real)
    requires q > 0.0
    ensures x / q * q == x && (x >= 0.0 ==> x / q >= 0.0)
    ensures Quantize(x, q) == RoundHalfEven(x / q) as real * q
  {
  }

  lemma Near(n: real, y: real, q: real, rounded: real, x: real)
    requires -0.5 <= n - y <= 0.5 && q > 0.0 && rounded == Times(n, q) && x == Times(y, q)
    ensures -0.5 * q <= rounded - x <= 0.5 * q
  {
    hide Times;
    TimesLaws(n, y, q);
    Scale(-0.5, n - y, q);
    Scale(n - y, 0.5, q);
  }

  ghost function Times(a: real, q: real): real {
    a * q
  }

  lemma TimesLaws(n: real, y: real, q: real)
    ensures Times(n - y, q) == Times(n, q) - Times(y, q)
    ensures Times(0.5, q) == 0.5 * q && Times(-0.5, q) == -0.5 * q
  {
  }

  lemma Scale(a: real, b: real, q: real)
    requires a <= b && q > 0.0
    ensures Times(a, q) <= Times(b, q)
  {
  }

  // ----- what each key is due -----

  function Due(total: real, weight: real, denominator: real): real
    requires denominator > 0.0
  {
    total * weight / denominator
  }

  lemma DueAdds(total: real, a: real, b: real, denominator: real)
    requires denominator > 0.0
    ensures Due(total, a, denominator) + Due(total, b, denominator) == Due(total, a + b, denominator)
    ensures Due(total, 0.0, denominator) == 0.0 && Due(total, denominator, denominator) == total
    ensures total >= 0.0 && a >= 0.0 ==> Due(total, a, denominator) >= 0.0
  {
    assert total * (a + b) == total * a + total * b;
    if total >= 0.0 && a >= 0.0 {
      assert total * a >= 0.0;
    }
  }

  function Weight(item: Item): real {
    item.weight
  }

  ghost function AllDue(total: real, items: seq<Item>, denominator: real): real
    requires denominator > 0.0
  {
    if |items| == 0 then 0.0
    else AllDue(total, items[..|items| - 1], denominator) + Due(total, items[|items| - 1].weight, denominator)
  }

  lemma {:induction false} AllDueIsTotal(total: real, items: seq<Item>, denominator: real)
    requires denominator > 0.0
    ensures AllDue(total, items, denominator) == Due(total, SumOver(Weight, items), denominator)
  {
    hide Due;
    if |items| == 0 {
      DueAdds(total, 0.0, 0.0, denominator);
    } else {
      AllDueIsTotal(total, items[..|items| - 1], denominator);
      DueAdds(total, SumOver(Weight, items[..|items| - 1]), items[|items| - 1].weight, denominator);
    }
  }

  ghost function Amounts(shares: seq<Share>): real {
    if |shares| == 0 then 0.0 else Amounts(shares[..|shares| - 1]) + shares[|shares| - 1].amount
  }

  /** The rounded amount of an item that is not the last one. */
  function Rounded(total: real, item: Item, denominator: real, q: real): real
    requires denominator > 0.0 && q > 0.0
  {
    Quantize(Due(total, item.weight, denominator), q)
  }

  ghost function AllRounded(total: real, items: seq<Item>, denominator: real, q: real): real
    requires denominator > 0.0 && q > 0.0
  {
    if |items| == 0 then 0.0
    else AllRounded(total, items[..|items| - 1], denominator, q) + Rounded(total, items[|items| - 1], denominator, q)
  }

  /** The rounding errors of a list of shares add up to at most half a quantum each. */
  lemma {:induction false} RoundingDrift(total: real, items: seq<Item>, denominator: real, q: real)
    requires denominator > 0.0 && q > 0.0
    ensures var drift := AllRounded(total, items, denominator, q) - AllDue(total, items, denominator);
            -0.5 * q * |items| as real <= drift <= 0.5 * q * |items| as real
  {
    hide Due, Quantize;
    if |items| == 0 {
    } else {
      var n := |items| - 1;
      RoundingDrift(total, items[..n], denominator, q);
      QuantizeClose(Due(total, items[n].weight, denominator), q);
      assert 0.5 * q * |items| as real == 0.5 * q * n as real + 0.5 * q;
    }
  }

  // ----- the allocation -----

  ghost predicate Charged(total: real, weights: seq<Item>, places: int, shares: seq<Share>)
    requires SumOver(Weight, weights) > 0.0
  {
    var d, q, n := SumOver(Weight, weights), Quantum(places), |shares| - 1;
    && |shares| == |weights| > 0
    && Items(shares) == Sort(KeyLe, weights)
    && Amounts(shares) == total
    && (forall k :: 0 <= k < n ==> shares[k].amount == Rounded(total, shares[k].item, d, q))
    && shares[n].amount == total - AllRounded(total, Items(shares)[..n], d, q)
  }

  function Items(shares: seq<Share>): seq<Item> {
    seq(|shares|, i requires 0 <= i < |shares| => shares[i].item)
  }

  method Total(weights: seq<Item>) returns (sum: real)
    ensures sum == SumOver(Weight, weights)
  {
    sum := 0.0;
    for i := 0 to |weights|
      invariant sum == SumOver(Weight, weights[..i])
    {
      sum := sum + weights[i].weight;
      assert weights[..i + 1][..i] == weights[..i];
    }
    assert weights[..|weights|] == weights;
  }

  /** The loop: every item but the last gets its rounded due, the last one gets the rest. */
  method Split(total: real, ordered: seq<Item>, denominator: real, q: real) returns (shares: seq<Share>)
    requires denominator > 0.0 && q > 0.0
    ensures |shares| == |ordered| && Items(shares) == ordered
    ensures |shares| > 0 ==>
              var n := |shares| - 1;
              && (forall k :: 0 <= k < n ==> shares[k].amount == Rounded(total, ordered[k], denominator, q))
              && shares[n].amount == total - AllRounded(total, ordered[..n], denominator, q)
              && Amounts(shares) == total
  {
    hide Rounded;
    shares := [];
    var spent := 0.0;
    for i := 0 to |ordered|
      invariant |shares| == i && spent == Amounts(shares)
      invariant forall k :: 0 <= k < i ==> shares[k].item == ordered[k]
      invariant forall k :: 0 <= k < i && k < |ordered| - 1 ==>
        shares[k].amount == Rounded(total, ordered[k], denominator, q)
      invariant i < |ordered| ==> spent == AllRounded(total, ordered[..i], denominator, q)
      invariant i > 0 && i == |ordered| ==>
        && spent == total
        && shares[i - 1].amount == total - AllRounded(total, ordered[..i - 1], denominator, q)
    {
      var amount := if i == |ordered| - 1 then total - spent else Rounded(total, ordered[i], denominator, q);
      spent := spent + amount;
      assert (shares + [Share(ordered[i], amount)])[..i] == shares;
      shares := shares + [Share(ordered[i], amount)];
      assert ordered[..i + 1][..i] == ordered[..i];
    }
  }

  /** Refuses a negative amount or weight and an empty or weightless split; otherwise splits the amount completely.
      The reconciliation error is never raised. */
  method AllocateCost(total: real, weights: seq<Item>, places: int) returns (answer: Result<seq<Share>, Error>)
    ensures answer == Err(Negative) <==> total < 0.0 || exists i :: 0 <= i < |weights| && weights[i].weight < 0.0
    ensures answer != Err(Negative) ==> (answer == Err(NoWeight) <==> SumOver(Weight, weights) <= 0.0)
    ensures answer != Err(Unreconciled)
    ensures answer.Ok? ==> SumOver(Weight, weights) > 0.0 && Charged(total, weights, places, answer.value)
  {
    hide Rounded, AllRounded, Quantum, Sort, Amounts;
    if total < 0.0 || exists i :: 0 <= i < |weights| && weights[i].weight < 0.0 {
      return Err(Negative);
    }
    var denominator := Total(weights);
    if denominator <= 0.0 {
      return Err(NoWeight);
    }
    var ordered := Sort(KeyLe, weights);
    SortPermutes(KeyLe, weights);
    var shares := Split(total, ordered, denominator, Quantum(places));
    var sum := SumShares(shares);
    if sum != total {
      return Err(Unreconciled);
    }
    return Ok(shares);
  }

  method SumShares(shares: seq<Share>) returns (sum: real)
    ensures sum == Amounts(shares)
  {
    sum := 0.0;
    for i := 0 to |shares|
      invariant sum == Amounts(shares[..i])
    {
      sum := sum + shares[i].amount;
      assert shares[..i + 1][..i] == shares[..i];
    }
    assert shares[..|shares|] == shares;
  }

  // ----- how fair the shares are -----

  /** The shares are the items, each exactly once, by dimension and within a dimension by value. */
  lemma SharesInOrder(total: real, weights: seq<Item>, places: int, shares: seq<Share>, i: nat, j: nat)
    requires SumOver(Weight, weights) > 0.0 && Charged(total, weights, places, shares) && i < j < |shares|
    ensures multiset(Items(shares)) == multiset(weights)
    ensures Alphabetical(shares[i].item.dimension, shares[j].item.dimension)
    ensures shares[i].item.dimension == shares[j].item.dimension ==>
              Alphabetical(shares[i].item.value, shares[j].item.value)
  {
    hide Sort, Alphabetical, StringLe;
    SortPermutes(KeyLe, weights);
    KeyLeOrders();
    SortSorts(KeyLe, weights);
    var a, b := Items(shares)[i], Items(shares)[j];
    assert KeyLe(a, b);
    StringLeIsAlphabetical(a.value, b.value);
    StringLeIsAlphabetical(a.dimension, b.dimension);
    StringLeTotal(a.dimension, a.dimension);
  }

  /** Every share but the last is within half a quantum of what its weight is due, and not negative. */
  lemma SharesAreFair(total: real, weights: seq<Item>, places: int, shares: seq<Share>, k: nat)
    requires SumOver(Weight, weights) > 0.0 && Charged(total, weights, places, shares)
    requires k < |shares| - 1
    ensures var due := Due(total, shares[k].item.weight, SumOver(Weight, weights));
            && -0.5 * Quantum(places) <= shares[k].amount - due <= 0.5 * Quantum(places)
            && (total >= 0.0 && shares[k].item.weight >= 0.0 ==> shares[k].amount >= 0.0)
  {
    hide Quantize, Due, Quantum, Sort;
    var d := SumOver(Weight, weights);
    QuantizeClose(Due(total, shares[k].item.weight, d), Quantum(places));
    DueAdds(total, shares[k].item.weight, 0.0, d);
  }

  /** The last share takes what rounding left over: at most half a quantum for each of the other shares. */
  lemma LastShareIsClose(total: real, weights: seq<Item>, places: int, shares: seq<Share>)
    requires SumOver(Weight, weights) > 0.0 && Charged(total, weights, places, shares)
    ensures var n := |shares| - 1;
            var due := Due(total, shares[n].item.weight, SumOver(Weight, weights));
            var bound := 0.5 * Quantum(places) * n as real;
            -bound <= shares[n].amount - due <= bound
  {
    hide Quantize, Due, Quantum, Sort, Rounded;
    var d, n, q := SumOver(Weight, weights), |shares| - 1, Quantum(places);
    var items := Items(shares);
    SortPermutes(KeyLe, weights);
    SumPermutes(Weight, items, weights);
    AllDueIsTotal(total, items, d);
    DueAdds(total, d, 0.0, d);
    RoundingDrift(total, items[..n], d, q);
    assert |items[..n]| == n;
  }

  /** The last share is not negative when it is due at least half a quantum for each of the others. */
  lemma LastShareSign(total: real, weights: seq<Item>, places: int, shares: seq<Share>)
    requires SumOver(Weight, weights) > 0.0 && Charged(total, weights, places, shares)
    ensures var d, q, n := SumOver(Weight, weights), Quantum(places), |shares| - 1;
            Due(total, shares[n].item.weight, d) >= 0.5 * q * n as real ==> shares[n].amount >= 0.0
  {
    hide Quantize, Due, Quantum, Sort, Rounded, AllRounded;
    LastShareIsClose(total, weights, places, shares);
  }

  // ----- keys of equal weight -----

  ghost predicate EqualWeights(items: seq<Item>, weight: real) {
    |items| > 0 && weight > 0.0 && forall i :: 0 <= i < |items| ==> items[i].weight == weight
  }

  lemma {:induction false} EqualSum(items: seq<Item>, weight: real)
    requires forall i :: 0 <= i < |items| ==> items[i].weight == weight
    ensures SumOver(Weight, items) == Times(|items| as real, weight)
  {
    if |items| == 0 {
    } else {
      EqualSum(items[..|items| - 1], weight);
    }
  }

  lemma EqualDue(total: real, weight: real, n: nat)
    requires n > 0 && weight > 0.0
    ensures Times(n as real, weight) > 0.0
    ensures Due(total, weight, Times(n as real, weight)) == total / n as real
  {
    var d := n as real * weight;
    assert d > 0.0;
    var share := total / n as real;
    assert share * n as real == total;
    assert share * d == share * n as real * weight == total * weight;
  }

  lemma {:induction false} EqualRounded(total: real, items: seq<Item>, denominator: real, q: real, weight: real)
    requires denominator > 0.0 && q > 0.0
    requires forall i :: 0 <= i < |items| ==> items[i].weight == weight
    ensures AllRounded(total, items, denominator, q)
            == Times(|items| as real, Quantize(Due(total, weight, denominator), q))
  {
    hide Quantize, Due;
    if |items| == 0 {
    } else {
      EqualRounded(total, items[..|items| - 1], denominator, q, weight);
    }
  }

  /** For any number of keys of equal weight the last share is what is left of the total after the others, and it is
      not negative if and only if the rounded equal share, taken by all keys but one, does not exceed the total. */
  lemma {:induction false} EqualShares(total: real, weights: seq<Item>, places: int, shares: seq<Share>, weight: real)
    requires EqualWeights(weights, weight)
    requires SumOver(Weight, weights) > 0.0 && Charged(total, weights, places, shares)
    ensures var n := |weights|;
            var others := (n - 1) as real * Quantize(total / n as real, Quantum(places));
            && Due(total, weight, SumOver(Weight, weights)) == total / n as real
            && |shares| == n && shares[n - 1].item.weight == weight
            && shares[n - 1].amount == total - others
            && (shares[n - 1].amount >= 0.0 <==> others <= total)
  {
    hide Sort, Quantize, Due, Quantum, Rounded;
    var n := |weights|;
    EqualSum(weights, weight);
    EqualDue(total, weight, n);
    SortPermutes(KeyLe, weights);
    var items := Items(shares);
    forall k | 0 <= k < n
      ensures items[k].weight == weight
    {
      assert items[k] in weights;
    }
    assert items[n - 1] == shares[n - 1].item;
    EqualRounded(total, items[..n - 1], SumOver(Weight, weights), Quantum(places), weight);
  }

  /** Equal dues that lie half a quantum above a whole number of quanta: an odd number rounds up, an even one down. */
  lemma HalfwayRounds(q: real, whole: nat)
    requires q > 0.0
    ensures Quantize(Times(whole as real + 0.5, q), q)
            == Times((if whole % 2 == 0 then whole else whole + 1) as real, q)
  {
    var y := whole as real + 0.5;
    TimesOver(y, q);
    assert y.Floor == whole && y - y.Floor as real == 0.5;
    assert RoundHalfEven(y) == if whole % 2 == 0 then whole else whole + 1;
  }

  /** The bound on the last share is attained, on either side, for every number of keys and every quantum: dues of
      three half quanta leave the last share (n - 1)/2 quanta short, dues of half a quantum leave it as much over. */
  lemma {:induction false} BoundAttained(
    whole: nat, weights: seq<Item>, places: int, shares: seq<Share>, weight: real, total: real)
    requires EqualWeights(weights, weight) && whole <= 1
    requires total == Times(Times(whole as real + 0.5, Quantum(places)), |weights| as real)
    requires SumOver(Weight, weights) > 0.0 && Charged(total, weights, places, shares)
    ensures var n := |weights|;
            var due := Due(total, weight, SumOver(Weight, weights));
            var bound := 0.5 * Quantum(places) * (n - 1) as real;
            shares[n - 1].amount - due == if whole == 1 then -bound else bound
  {
    hide Sort, Quantize, Due, Quantum, Rounded, AllRounded, Charged;
    var n, q := |weights|, Quantum(places);
    EqualShares(total, weights, places, shares, weight);
    var due, each := Times(whole as real + 0.5, q), if whole == 0 then 0.0 else 2.0;
    TimesOver(due, n as real);
    HalfwayRounds(q, whole);
    assert shares[n - 1].amount == total - (n - 1) as real * Times(each, q);
    Remainder(due, n as real, Times(each, q));
    assert due - Times(each, q) == if whole == 1 then -0.5 * q else 0.5 * q;
  }

  lemma TimesOver(a: real, n: real)
    requires n > 0.0
    ensures Times(a, n) / n == a
  {
  }

  lemma Remainder(due: real, n: real, each: real)
    ensures Times(due, n) - (n - 1.0) * each - due == (due - each) * (n - 1.0)
  {
  }

  /** Five cents over eight keys of one weight: seven shares round up to a cent and the last is two cents below zero. */
  lemma {:induction false} LastShareCanBeNegative(shares: seq<Share>, weights: seq<Item>, weight: real)
    requires |weights| == 8 && EqualWeights(weights, weight)
    requires SumOver(Weight, weights) > 0.0 && Charged(0.05, weights, 2, shares)
    ensures shares[7].amount == -0.02
  {
    hide Charged, Quantize, Due;
    assert Quantum(2) == 0.01 by { assert Quantum(1) == 0.1; assert Quantum(0) == 1.0; }
    EqualShares(0.05, weights, 2, shares, weight);
    CentEach();
  }

  lemma CentEach()
    ensures Quantize(0.05 / 8.0, 0.01) == 0.01
  {
    assert 0.05 / 8.0 == 0.00625;
    assert 0.00625 / 0.01 == 0.625;
    assert 0.625.Floor == 0;
    assert RoundHalfEven(0.625) == 1;
  }
}

/** The receipt scoring engine of package `receipt`: the seven point rules and
    their sum, following the branches and panics of the Go code — including
    the two rules that compare the whole regex match instead of its capture
    group, and the afternoon rule that compares a one-byte prefix with
    two-byte hours. Strings are bytes with ASCII character classes, prices
    are unsigned plain decimals rounded exactly rather than in float64, and
    integers are unbounded. */
module Receipts {
  import opened Results
  import opened Text

  datatype Item = Item(ShortDescription: string, Price: string)

  datatype Receipt = Receipt(
    Retailer: string,
    PurchaseDate: string,
    PurchaseTime: string,
    Items: seq<Item>,
    Total: string)

  // ---------------------------------------------------------------------
  // Retailer name

  /** One point per match of `[a-zA-Z0-9]` in the retailer name. */
  function RetailerNamePoints(r: Receipt): (p: nat)
    ensures p <= |r.Retailer|
  {
    AlnumCount(r.Retailer)
  }

  /** The retailer earns a point for every byte exactly when every byte is
      alphanumeric, and none exactly when no byte is. */
  lemma RetailerNameExtremes(r: Receipt)
    ensures RetailerNamePoints(r) == |r.Retailer| <==>
      forall k :: 0 <= k < |r.Retailer| ==> IsAlnum(r.Retailer[k])
    ensures RetailerNamePoints(r) == 0 <==>
      forall k :: 0 <= k < |r.Retailer| ==> !IsAlnum(r.Retailer[k])
  {
    AlnumCountExtremes(r.Retailer);
  }

  /** Appending one alphanumeric byte to the retailer name adds exactly one point;
      any other byte adds none. */
  lemma {:induction false} RetailerNameAppend(r: Receipt, c: char)
    ensures RetailerNamePoints(r.(Retailer := r.Retailer + [c]))
         == RetailerNamePoints(r) + (if IsAlnum(c) then 1 else 0)
  {
    AlnumCountSnoc(r.Retailer, c);
  }

  // ---------------------------------------------------------------------
  // The two total rules

  /** `FindStringSubmatch` for `^\d+\.(\d{2})$`: nil on a miss, otherwise the
      whole match followed by the cents group. */
  function TotalSubmatch(total: string): (m: Option<seq<string>>)
    ensures m.Some? <==> IsAmountShape(total)
    ensures m.Some? ==> |m.value| == 2 && m.value[0] == total && m.value[1] == total[|total| - 2..]
  {
    ScanAmountIff(total);
    if ScanAmount(total) then Some([total, total[|total| - 2..]]) else None
  }

  /** Index 0 of a submatch slice; a nil slice panics. */
  function Whole(m: Option<seq<string>>): (w: Result<string>)
    requires m.Some? ==> |m.value| > 0
    ensures w.Ok? <==> m.Some?
    ensures w.Ok? ==> w.value == m.value[0]
    ensures w.Fail? ==> w.panic == IndexOutOfRange
  {
    match m
    case None => Fail(IndexOutOfRange)
    case Some(groups) => Ok(groups[0])
  }

  /** Meant as 50 points for a round total; as written it compares the whole
      total (never two bytes long) with "00", so it never awards them. */
  function CentsPoints(r: Receipt): (p: Result<int>)
    ensures p.Ok? <==> IsAmountShape(r.Total)
    ensures p.Fail? ==> p.panic == IndexOutOfRange
    ensures p.Ok? ==> p.value == 0
  {
    var cents :- Whole(TotalSubmatch(r.Total));
    Ok(if cents == "00" then 50 else 0)
  }

  /** Meant as 25 points for a total that is a multiple of 0.25; as written it
      compares the whole total with two-byte strings, so it never awards them. */
  function TotalMultPoints(r: Receipt): (p: Result<int>)
    ensures p.Ok? <==> IsAmountShape(r.Total)
    ensures p.Fail? ==> p.panic == IndexOutOfRange
    ensures p.Ok? ==> p.value == 0
  {
    var cents :- Whole(TotalSubmatch(r.Total));
    Ok(if cents in ["00", "25", "50", "75"] then 25 else 0)
  }

  // ---------------------------------------------------------------------
  // Item pairs

  /** Five points per complete pair of items. */
  function ItemPairPoints(r: Receipt): (p: nat)
    ensures p % 5 == 0
    ensures 2 * p == 5 * |r.Items| || 2 * p == 5 * (|r.Items| - 1)
  {
    5 * (|r.Items| / 2)
  }

  /** More items never give fewer pair points. */
  lemma ItemPairMonotone(r: Receipt, s: Receipt)
    requires |r.Items| <= |s.Items|
    ensures ItemPairPoints(r) <= ItemPairPoints(s)
  {
  }

  // ---------------------------------------------------------------------
  // Item descriptions

  /** `ceil(price * 0.2)` for a price read as a plain decimal x, computed as
      ceil(ceil(x) / 5). A price ParseFloat rejects contributes nothing, as
      its zero result is used. */
  function PriceBonus(price: string): (b: nat)
    ensures ReadFloat(price).None? ==> b == 0
  {
    match ReadFloat(price)
    case None => 0
    case Some(d) => (d.whole + (if d.frac > 0 then 1 else 0) + 4) / 5
  }

  lemma MulMono(p: nat, x: int, y: int)
    requires x <= y
    ensures p * x <= p * y
  {
  }

  /** ceil(ceil(x) / 5) is the ceiling of x / 5, for x = w + f / p with
      f < p, stated with everything multiplied by p. */
  lemma CeilOfCeil(w: nat, f: nat, p: nat, b: nat)
    requires p >= 1 && f < p
    requires b == (w + (if f > 0 then 1 else 0) + 4) / 5
    ensures 5 * p * b >= w * p + f > 5 * p * (b - 1)
  {
    var c := w + (if f > 0 then 1 else 0);
    var q := 5 * b;
    assert c <= q <= c + 4;
    MulMono(p, c, q);
    MulMono(p, q, c + 4);
    assert p * (c + 4) == p * c + 4 * p;
    assert 5 * p * b == p * q;
    assert 5 * p * (b - 1) == p * q - 5 * p;
    assert p * c == w * p + (if f > 0 then p else 0);
  }

  /** The bonus of a readable price x = whole + frac / 10^scale is the least
      whole number b with 5 * b >= x, stated over x * 10^scale. */
  lemma PriceBonusCeiling(price: string)
    requires ParseDecimal(price).Some?
    ensures var d := ParseDecimal(price).value;
      var p := Pow10(d.scale);
      5 * p * PriceBonus(price) >= d.whole * p + d.frac > 5 * p * (PriceBonus(price) - 1)
  {
    var d := ParseDecimal(price).value;
    ReadFloatIsParseDecimal(price);
    ParseDecimalFraction(price);
    CeilOfCeil(d.whole, d.frac, Pow10(d.scale), PriceBonus(price));
  }

  /** The bonus one item earns: its price bonus when the trimmed description's
      byte length is divisible by three (zero included), otherwise nothing. */
  function ItemBonus(item: Item): (b: nat)
    ensures b != 0 ==> |TrimSpace(item.ShortDescription)| % 3 == 0
    ensures |TrimSpace(item.ShortDescription)| % 3 == 0 ==> b == PriceBonus(item.Price)
  {
    if |TrimSpace(item.ShortDescription)| % 3 == 0 then PriceBonus(item.Price) else 0
  }

  /** Sum of the item bonuses. */
  function DescriptionSum(items: seq<Item>): (total: nat) {
    if items == [] then 0 else ItemBonus(items[0]) + DescriptionSum(items[1..])
  }

  lemma {:induction false} DescriptionSumConcat(a: seq<Item>, b: seq<Item>)
    ensures DescriptionSum(a + b) == DescriptionSum(a) + DescriptionSum(b)
  {
    if a == [] {
      assert a + b == b;
    } else {
      assert (a + b)[1..] == a[1..] + b;
      DescriptionSumConcat(a[1..], b);
    }
  }

  /** Appending an item adds exactly that item's bonus. */
  lemma {:induction false} DescriptionSumSnoc(items: seq<Item>, item: Item)
    ensures DescriptionSum(items + [item]) == DescriptionSum(items) + ItemBonus(item)
  {
    DescriptionSumConcat(items, [item]);
    assert [item][1..] == [];
  }

  /** Removing the item at position j takes away exactly its bonus. */
  lemma {:induction false} DescriptionSumRemove(items: seq<Item>, j: nat)
    requires j < |items|
    ensures DescriptionSum(items) == ItemBonus(items[j]) + DescriptionSum(items[..j] + items[j + 1..])
  {
    assert items == items[..j] + ([items[j]] + items[j + 1..]);
    DescriptionSumConcat(items[..j], [items[j]] + items[j + 1..]);
    assert ([items[j]] + items[j + 1..])[1..] == items[j + 1..];
    DescriptionSumConcat(items[..j], items[j + 1..]);
  }

  /** The order of the items does not matter. */
  lemma {:induction false} DescriptionSumPermutation(a: seq<Item>, b: seq<Item>)
    requires multiset(a) == multiset(b)
    ensures DescriptionSum(a) == DescriptionSum(b)
    decreases |a|
  {
    if a == [] {
      assert |b| == |multiset(b)| == 0;
    } else {
      var x := a[0];
      assert x in multiset(b);
      var j :| 0 <= j < |b| && b[j] == x;
      var rest := b[..j] + b[j + 1..];
      assert b == b[..j] + [x] + b[j + 1..];
      assert multiset(b) == multiset(b[..j]) + multiset{x} + multiset(b[j + 1..]);
      assert multiset(rest) == multiset(b[..j]) + multiset(b[j + 1..]);
      assert a == [x] + a[1..];
      assert multiset(a) == multiset{x} + multiset(a[1..]);
      assert multiset(a[1..]) == multiset(a) - multiset{x};
      assert multiset(rest) == multiset(b) - multiset{x};
      DescriptionSumPermutation(a[1..], rest);
      DescriptionSumRemove(b, j);
    }
  }

  /** `item_description_points`: the loop over the items accumulating bonuses. */
  method ItemDescriptionPoints(r: Receipt) returns (result: int)
    ensures result == DescriptionSum(r.Items)
  {
    result := 0;
    for i := 0 to |r.Items|
      invariant result == DescriptionSum(r.Items[..i])
    {
      var item := r.Items[i];
      if |TrimSpace(item.ShortDescription)| % 3 == 0 {
        result := result + PriceBonus(item.Price);
      }
      DescriptionSumSnoc(r.Items[..i], item);
      assert r.Items[..i + 1] == r.Items[..i] + [item];
    }
    assert r.Items[..|r.Items|] == r.Items;
  }

  // ---------------------------------------------------------------------
  // Odd day

  predicate IsOddDigit(c: char) {
    c == '1' || c == '3' || c == '5' || c == '7' || c == '9'
  }

  /** `strconv.Atoi` of a one-byte string, its error ignored: the digit's
      value, or 0 when the byte is not a digit. */
  function AtoiByte(c: char): (n: nat)
    ensures n < 10
    ensures IsDigit(c) ==> n == DigitValue(c)
    ensures !IsDigit(c) ==> n == 0
  {
    if IsDigit(c) then DigitValue(c) else 0
  }

  /** Six points when the last byte of the date is an odd digit; slicing the
      last byte of an empty date panics. */
  function OddDayPoints(r: Receipt): (p: Result<int>)
    ensures p.Ok? <==> |r.PurchaseDate| > 0
    ensures p.Fail? ==> p.panic == SliceOutOfRange
    ensures p.Ok? ==> (p.value == 6 <==> IsOddDigit(r.PurchaseDate[|r.PurchaseDate| - 1]))
    ensures p.Ok? ==> (p.value == 0 <==> !IsOddDigit(r.PurchaseDate[|r.PurchaseDate| - 1]))
  {
    if |r.PurchaseDate| == 0 then Fail(SliceOutOfRange)
    else
      var last := r.PurchaseDate[|r.PurchaseDate| - 1..];
      var day := AtoiByte(last[0]);
      Ok((day % 2) * 6)
  }

  /** The odd-day rule looks at nothing but the last byte of the date. */
  lemma OddDayLastByteOnly(r: Receipt, s: Receipt)
    requires |r.PurchaseDate| > 0 && |s.PurchaseDate| > 0
    requires r.PurchaseDate[|r.PurchaseDate| - 1] == s.PurchaseDate[|s.PurchaseDate| - 1]
    ensures OddDayPoints(r) == OddDayPoints(s)
  {
  }

  // ---------------------------------------------------------------------
  // Afternoon

  /** Meant as 10 points for an hour of 14 or 15; as written it compares the
      one-byte prefix of the time with "14" and "15", so it never awards them.
      Slicing the first byte of an empty time panics. */
  function AfternoonPoints(r: Receipt): (p: Result<int>)
    ensures p.Ok? <==> |r.PurchaseTime| > 0
    ensures p.Fail? ==> p.panic == SliceOutOfRange
    ensures p.Ok? ==> p.value == 0
  {
    if |r.PurchaseTime| < 1 then Fail(SliceOutOfRange)
    else
      var hour := r.PurchaseTime[0..1];
      Ok(if hour == "14" || hour == "15" then 10 else 0)
  }

  // ---------------------------------------------------------------------
  // The total

  /** The receipt's points: the seven rules evaluated left to right, the first
      panic ending the computation. */
  function Points(r: Receipt): (p: Result<int>)
    ensures p.Ok? <==> IsAmountShape(r.Total) && |r.PurchaseDate| > 0 && |r.PurchaseTime| > 0
    ensures !IsAmountShape(r.Total) ==> p == Fail(IndexOutOfRange)
    ensures IsAmountShape(r.Total) && !(|r.PurchaseDate| > 0 && |r.PurchaseTime| > 0)
      ==> p == Fail(SliceOutOfRange)
    ensures p.Ok? ==> p.value >= 0
    ensures p.Ok? ==> (p.value ==
      AlnumCount(r.Retailer) + 5 * (|r.Items| / 2) + DescriptionSum(r.Items)
      + (if IsOddDigit(r.PurchaseDate[|r.PurchaseDate| - 1]) then 6 else 0))
  {
    var retailer := RetailerNamePoints(r);
    var cents :- CentsPoints(r);
    // total_mult_points runs the same match as cents_points, so once that
    // rule has not panicked this one cannot panic either
    var mult := TotalMultPoints(r).value;
    var pairs := ItemPairPoints(r);
    var descriptions := DescriptionSum(r.Items);
    var oddDay :- OddDayPoints(r);
    var afternoon :- AfternoonPoints(r);
    Ok(retailer + cents + mult + pairs + descriptions + oddDay + afternoon)
  }

  /** Points succeeds exactly when every rule does, and is then their sum. */
  lemma PointsIsSumOfRules(r: Receipt)
    ensures Points(r).Ok? <==>
      CentsPoints(r).Ok? && TotalMultPoints(r).Ok? && OddDayPoints(r).Ok? && AfternoonPoints(r).Ok?
    ensures Points(r).Ok? ==> (Points(r).value ==
      RetailerNamePoints(r) + CentsPoints(r).value + TotalMultPoints(r).value
      + ItemPairPoints(r) + DescriptionSum(r.Items) + OddDayPoints(r).value
      + AfternoonPoints(r).value)
  {
  }
}

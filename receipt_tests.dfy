/** The test cases of package `receipt`, restated over the model: which of
    their expectations the code as written meets, and which it does not. Every
    test receipt is "Target", bought 2022-01-01 at 13:01 for 35.00 with no
    items, with one field varied; each test compares the points of two such
    receipts. */
module ReceiptTests {
  import opened Results
  import opened Text
  import opened Receipts

  function Base(): Receipt {
    Receipt("Target", "2022-01-01", "13:01", [], "35.00")
  }

  lemma TargetAlnum()
    ensures AlnumCount("Target") == 6
  {
    assert "Target"[1..] == "arget";
    assert "arget"[1..] == "rget";
    assert "rget"[1..] == "get";
    assert "get"[1..] == "et";
    assert "et"[1..] == "t";
    assert "t"[1..] == "";
  }

  /** A receipt shaped like the test receipts scores six points for the
      retailer, six more when the date ends in an odd digit, and what its
      items earn; the total and the time contribute nothing. */
  lemma {:induction false} TestShapeScore(r: Receipt)
    requires AlnumCount(r.Retailer) == 6 && IsAmountShape(r.Total)
    requires |r.PurchaseDate| > 0 && |r.PurchaseTime| > 0
    ensures Points(r) == Ok(6 + (if IsOddDigit(r.PurchaseDate[|r.PurchaseDate| - 1]) then 6 else 0)
                            + 5 * (|r.Items| / 2) + DescriptionSum(r.Items))
  {
    var p := Points(r);
    assert p.Ok?;
    assert p == Ok(p.value);
  }

  lemma BaseFacts()
    ensures AlnumCount(Base().Retailer) == 6
    ensures IsAmountShape(Base().Total)
    ensures Base().PurchaseDate[|Base().PurchaseDate| - 1] == '1'
  {
    TargetAlnum();
    assert "35.00"[..2] == "35";
  }

  /** The base receipt scores 12. */
  lemma BaseScore()
    ensures Points(Base()) == Ok(12)
  {
    BaseFacts();
    TestShapeScore(Base());
  }

  /** The total tests vary the cents of 35.xx. Whatever the two cents digits,
      the receipt scores 12: the round-total test's expected difference of 75
      between 35.00 and 35.35, and the multiple-of-25 test's 75 or 25 between
      35.00, 35.25, 35.50, 35.75 and 35.13, are all 0 as written. */
  lemma {:induction false} TotalTestScore(cents: string)
    requires |cents| == 2 && IsDigit(cents[0]) && IsDigit(cents[1])
    ensures Points(Base().(Total := "35." + cents)) == Ok(12)
  {
    var t := "35." + cents;
    assert t[..|t| - 3] == "35";
    BaseFacts();
    TestShapeScore(Base().(Total := t));
  }

  /** Any two receipts of the total tests score the same. */
  lemma {:induction false} TotalTestsNoDifference(cents1: string, cents2: string)
    requires |cents1| == 2 && IsDigit(cents1[0]) && IsDigit(cents1[1])
    requires |cents2| == 2 && IsDigit(cents2[0]) && IsDigit(cents2[1])
    ensures Points(Base().(Total := "35." + cents1)) == Points(Base().(Total := "35." + cents2))
  {
    TotalTestScore(cents1);
    TotalTestScore(cents2);
  }

  /** With the test's fixed fields, a receipt scores its 12 base points plus
      the pair and description bonuses of its items. */
  lemma {:induction false} ItemsTestScore(items: seq<Item>)
    ensures Points(Base().(Items := items)) == Ok(12 + 5 * (|items| / 2) + DescriptionSum(items))
  {
    BaseFacts();
    TestShapeScore(Base().(Items := items));
  }

  /** n copies of the item the pair test uses. */
  function PairItems(n: nat): seq<Item> {
    seq(n, _ => Item("d", "0.00"))
  }

  lemma {:induction false} PairItemsNoBonus(n: nat)
    ensures DescriptionSum(PairItems(n)) == 0
  {
    var item := Item("d", "0.00");
    assert TrimSpace("d") == "d";
    assert ItemBonus(item) == 0;
    if n > 0 {
      assert PairItems(n) == [item] + PairItems(n - 1);
      assert PairItems(n)[1..] == PairItems(n - 1);
      PairItemsNoBonus(n - 1);
    }
  }

  /** The pair test: n one-byte-description items add 5 * (n / 2) points to
      the 12 of the base receipt. This holds as written. */
  lemma {:induction false} ItemPairsAsWritten(n: nat)
    ensures Points(Base().(Items := PairItems(n))) == Ok(12 + 5 * (n / 2))
  {
    PairItemsNoBonus(n);
    ItemsTestScore(PairItems(n));
  }

  /** The counts the pair test checks: 0, 0, 5, 5 and 10 points over the base. */
  lemma ItemPairsTable()
    ensures Points(Base()) == Ok(12)
    ensures Points(Base().(Items := PairItems(0))) == Ok(12)
    ensures Points(Base().(Items := PairItems(1))) == Ok(12)
    ensures Points(Base().(Items := PairItems(2))) == Ok(12 + 5)
    ensures Points(Base().(Items := PairItems(3))) == Ok(12 + 5)
    ensures Points(Base().(Items := PairItems(4))) == Ok(12 + 10)
  {
    BaseScore();
    assert Points(Base().(Items := PairItems(0))) == Ok(12) by { ItemPairsAsWritten(0); }
    assert Points(Base().(Items := PairItems(1))) == Ok(12) by { ItemPairsAsWritten(1); }
    assert Points(Base().(Items := PairItems(2))) == Ok(17) by { ItemPairsAsWritten(2); }
    assert Points(Base().(Items := PairItems(3))) == Ok(17) by { ItemPairsAsWritten(3); }
    assert Points(Base().(Items := PairItems(4))) == Ok(22) by { ItemPairsAsWritten(4); }
  }

  /** The price every item of the description test carries. */
  lemma Price2101()
    ensures ParseDecimal("21.01") == Some(Decimal(21, 1, 2))
    ensures PriceBonus("21.01") == 5
  {
    var s := "21.01";
    assert s[..|s| - 3] == "21";
    assert "21"[..1] == "2";
    assert "2"[..0] == "";
    assert DigitsValue("21") == 21;
    ParseDecimalAmount(s);
  }

  lemma TrimPadded()
    ensures TrimSpace("   ddd\n\n\n") == "ddd"
  {
    var s := "   ddd\n\n\n";
    assert LeadingSpaces(s[3..]) == 0;
    assert LeadingSpaces(s[2..]) == 1 by { assert s[2..][1..] == s[3..]; }
    assert LeadingSpaces(s[1..]) == 2 by { assert s[1..][1..] == s[2..]; }
    assert LeadingSpaces(s) == 3;
    var t := s[3..];
    assert TrailingSpaces(t[..3]) == 0;
    assert TrailingSpaces(t[..4]) == 1 by { assert t[..4][..3] == t[..3]; }
    assert TrailingSpaces(t[..5]) == 2 by { assert t[..5][..4] == t[..4]; }
    assert TrailingSpaces(t) == 3 by { assert t[..5] == t[..|t| - 1]; }
  }

  lemma TrimPaddedShort()
    ensures TrimSpace("  ddd\n") == "ddd"
  {
    var s := "  ddd\n";
    assert LeadingSpaces(s[2..]) == 0;
    assert LeadingSpaces(s[1..]) == 1 by { assert s[1..][1..] == s[2..]; }
    assert LeadingSpaces(s) == 2;
    var t := s[2..];
    assert TrailingSpaces(t[..3]) == 0;
    assert TrailingSpaces(t) == 1 by { assert t[..3] == t[..|t| - 1]; }
  }

  /** The description test's items, one by one: a trimmed length divisible by
      three with price 21.01 earns 5, length four earns nothing. */
  lemma Bonus3()
    ensures ItemBonus(Item("ddd", "21.01")) == 5
  {
    Price2101();
    TrimSpaceNoop("ddd");
  }

  lemma Bonus4()
    ensures ItemBonus(Item("dddd", "21.01")) == 0
  {
    TrimSpaceNoop("dddd");
  }

  lemma Bonus6()
    ensures ItemBonus(Item("dddddd", "21.01")) == 5
  {
    Price2101();
    TrimSpaceNoop("dddddd");
  }

  lemma BonusPadded()
    ensures ItemBonus(Item("   ddd\n\n\n", "21.01")) == 5
  {
    Price2101();
    TrimPadded();
  }

  lemma BonusPaddedShort()
    ensures ItemBonus(Item("  ddd\n", "21.01")) == 5
  {
    Price2101();
    TrimPaddedShort();
  }

  /** The single-item cases of the description test: one item adds exactly
      its bonus over the base, that is 5, 5 and 0 for the three items tested
      (Bonus3, BonusPadded, Bonus4). These hold as written. */
  lemma {:induction false} SingleItemTestScore(item: Item)
    ensures Points(Base().(Items := [item])) == Ok(12 + ItemBonus(item))
  {
    ItemsTestScore([item]);
    assert [item][1..] == [];
  }

  lemma DescriptionSumThree(a: Item, b: Item, c: Item)
    ensures DescriptionSum([a, b, c]) == ItemBonus(a) + ItemBonus(b) + ItemBonus(c)
  {
    assert DescriptionSum([c]) == ItemBonus(c) by { assert [c][1..] == []; }
    assert DescriptionSum([b, c]) == ItemBonus(b) + ItemBonus(c) by { assert [b, c][1..] == [c]; }
    assert DescriptionSum([a, b, c]) == ItemBonus(a) + ItemBonus(b) + ItemBonus(c) by {
      assert [a, b, c][1..] == [b, c];
    }
  }

  /** The three-item case: three items add their bonuses plus 5 for the one
      pair over the base. */
  lemma {:induction false} ThreeItemsTestScore(a: Item, b: Item, c: Item)
    ensures Points(Base().(Items := [a, b, c])) == Ok(12 + 5 + ItemBonus(a) + ItemBonus(b) + ItemBonus(c))
  {
    var items := [a, b, c];
    assert 5 * (|items| / 2) == 5;
    DescriptionSumThree(a, b, c);
    ItemsTestScore(items);
  }

  /** The three items the test uses earn 5, 5 and 0, so with the pair bonus
      they add the 15 the test expects. This holds as written. */
  lemma ThreeItemsBonuses()
    ensures ItemBonus(Item("dddddd", "21.01")) + ItemBonus(Item("  ddd\n", "21.01"))
          + ItemBonus(Item("dddd", "21.01")) + 5 == 15
  {
    Bonus6();
    BonusPaddedShort();
    Bonus4();
  }

  /** The odd-day test: a date ending in "0d" scores 6 more than one ending in
      "00" exactly when d is odd. This holds as written. */
  lemma {:induction false} OddDaysAsWritten(d: char)
    requires IsDigit(d)
    ensures Points(Base().(PurchaseDate := "2022-01-00")) == Ok(6)
    ensures Points(Base().(PurchaseDate := "2022-01-0" + [d])) == Ok(if IsOddDigit(d) then 12 else 6)
  {
    BaseFacts();
    TestShapeScore(Base().(PurchaseDate := "2022-01-00"));
    TestShapeScore(Base().(PurchaseDate := "2022-01-0" + [d]));
  }

  /** The time test expects 10 extra points at 14:00 and at 15:59; as written
      every non-empty time, those two included, scores what 00:00 scores. */
  lemma {:induction false} TimeOfPurchaseAsWritten(time: string)
    requires |time| > 0
    ensures Points(Base().(PurchaseTime := time)) == Points(Base().(PurchaseTime := "00:00")) == Ok(12)
  {
    BaseFacts();
    TestShapeScore(Base().(PurchaseTime := time));
    TestShapeScore(Base().(PurchaseTime := "00:00"));
  }

  /** A receipt whose JSON has no "total" member decodes with the empty total,
      and scoring it panics. */
  lemma EmptyTotalPanics(r: Receipt)
    requires r.Total == ""
    ensures Points(r) == Fail(IndexOutOfRange)
  {
  }
}

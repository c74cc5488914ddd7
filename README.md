# Receipt processor, modelled in Dafny

The receipt processor has two parts. It is a small HTTP service that
accepts a receipt as JSON, scores it, and keeps the score under an id
derived from the request body. It then answers point queries for that
id. This project models it in two halves.

- The scoring engine of package `receipt` is modelled as written:
  - the `Receipt` and `Item` records;
  - the seven point rules;
  - their sum `Points`;
  - the Go library behaviour each rule depends on: the `[a-zA-Z0-9]`
    match count, `strings.TrimSpace`, the `^\d+\.(\d{2})$` match, what
    `strconv.ParseFloat` reads from a plain decimal, and one-byte `Atoi`.

  A Go runtime panic is modelled explicitly, as `Results.Fail` with the
  kind of panic. The rules run left to right, so the first panic ends
  the computation.
- The receipt store of package `main` is a process-wide map from id to
  points, written by the POST handler and read by the GET handler.
  - `Store.PostStep` and `Store.Lookup` specify it on values.
  - The class `Store.ReceiptStore` holds the map as a field and updates
    it in place.
  - The JSON decoder and the SHA-1 name-based UUID are deterministic
    functions of the raw body. They are given to the class when it is
    created.

Files:

- `results.dfy`: Option, Result and the panic kinds.
- `text.dfy`: Go's character classes and string operations on ASCII, and
  the decimal reader with its declarative specification.
- `receipt.dfy`: the rules and `Points`.
- `receipt_tests.dfy`: the package's test cases, restated and decided
  over the model.
- `store.dfy`: the store.

## Where the code and its stated intent differ

The model follows the code. The doc comments in `receipt/receipt.go`
and the tests in `receipt/receipt_test.go` both say otherwise in two
places:

- **Round total and quarter-multiple total.**
  - Intended: award 50 and 25 points, based on the cents.
  - As written: both rules read element 0 of `FindStringSubmatch`. That
    element is the whole total, not the cents group. A total that
    matches the pattern is at least four bytes long, so it never equals
    `"00"` or `"25"`, and neither rule ever awards anything
    (`Receipts.CentsPoints`, `Receipts.TotalMultPoints`).
  - A total that does not match gives a nil slice, and indexing it
    panics.
  - The round-total and multiple-of-25 tests therefore expect 75 and 25
    where the code gives 0 (`ReceiptTests.TotalTestsNoDifference`).
- **Afternoon.**
  - Intended: 10 points for an hour of 14 or 15.
  - As written: the rule compares `PurchaseTime[0:1]`, one byte, with
    `"14"` and `"15"`, so it never awards anything
    (`Receipts.AfternoonPoints`).
  - An empty time panics.
  - The time test expects 10 at 14:00 and 15:59; the code gives 0
    (`ReceiptTests.TimeOfPurchaseAsWritten`).
The item-pair, description and odd-day tests agree with the code, and
their cases are proved. Two further notes on how the code reads, where
it agrees with its comments and tests:

- Odd day: only the last byte of the date is read, which has the day's
  parity on a well-formed date. An empty date panics.
- Description: a description whose trimmed length is zero counts as a
  multiple of three, and length is measured in bytes.

## Model

| member | source | states |
|---|---|---|
| Text.AlnumCount | receipt/receipt.go:47-49 | the number of `[a-zA-Z0-9]` matches in a string is at most its length |
| Text.AlnumCountExtremes | receipt/receipt.go:47-49 | the count equals the length iff every byte is alphanumeric, and is zero iff no byte is |
| Text.AlnumCountConcat | receipt/receipt.go:47-49 | the match count of a concatenation is the sum of the counts of its parts |
| Text.AlnumCountSnoc | receipt/receipt.go:47-49 | appending a byte adds one match iff the byte is alphanumeric |
| Text.LeadingSpaces | receipt/receipt.go:87 | the length of `TrimSpace`'s forward scan over leading whitespace, at most the string's length; its meaning is given by `Text.LeadingSpacesSpec` |
| Text.TrailingSpaces | receipt/receipt.go:87 | the length of `TrimSpace`'s backward scan over trailing whitespace, at most the string's length; its meaning is given by `Text.TrailingSpacesSpec` |
| Text.LeadingSpacesSpec | receipt/receipt.go:87 | the bytes `TrimSpace` drops at the front are all whitespace, and the first byte kept is not |
| Text.TrailingSpacesSpec | receipt/receipt.go:87 | the bytes `TrimSpace` drops at the back are all whitespace, and the last byte kept is not |
| Text.TrimSpace | receipt/receipt.go:87 | the trimmed string is a contiguous slice of the input that starts after its leading whitespace |
| Text.TrimSpaceSpec | receipt/receipt.go:87 | the result neither starts nor ends with whitespace, and it is exactly the input without its leading and trailing whitespace runs |
| Text.TrimSpaceNoop | receipt/receipt.go:87 | a string without whitespace at either end trims to itself |
| Text.TrimSpaceEmpty | receipt/receipt.go:87 | trimming leaves nothing iff every byte is whitespace |
| Text.TrimSpaceIdempotent | receipt/receipt.go:87 | trimming twice equals trimming once |
| Text.ScanAmount | receipt/receipt.go:54-55 | the left-to-right matcher behind `FindStringSubmatch` for `^\d+\.(\d{2})$`; `Text.ScanAmountIff` proves it accepts exactly the amount shape |
| Text.ScanAfterDigit | receipt/receipt.go:54-55 | the matcher's state after the first digit; `Text.ScanAfterDigitIff` proves it accepts exactly more digits, a dot and two digits |
| Text.ScanAfterDigitIff | receipt/receipt.go:54-55 | the matcher's loop after the first digit accepts exactly more digits followed by `.dd` |
| Text.ScanAmountIff | receipt/receipt.go:54-55 | the left-to-right matcher for `^\d+\.(\d{2})$` accepts exactly the strings of one or more digits, a dot and two digits |
| Text.DigitsValueBound | receipt/receipt.go:88 | a k-digit string is worth less than 10^k |
| Text.DotIndexSpec | receipt/receipt.go:88 | the split point is the first dot, or the end when there is none |
| Text.ParseDecimalIff | receipt/receipt.go:88 | the declarative reading accepts exactly the unsigned plain decimals: digits, an optional dot and more digits, with at least one digit |
| Text.ParseDecimalFraction | receipt/receipt.go:88 | the fraction read is less than one whole unit |
| Text.ParseDecimalInteger | receipt/receipt.go:88 | an integer is read with a zero fraction |
| Text.ParseDecimalAmount | receipt/receipt.go:88 | "D.dd" is read as D dollars and dd cents at scale two |
| Text.FoldSnoc | receipt/receipt.go:88 | reading one more digit multiplies the accumulated value by ten and adds the digit |
| Text.FoldValue | receipt/receipt.go:88 | reading digits left to right gives their positional value |
| Text.ScanFraction | receipt/receipt.go:88 | after the dot, the reader accepts only digits and folds them into the fraction |
| Text.ScanWhole | receipt/receipt.go:88 | before the dot, the reader folds digits into the whole part, then reads the fraction; any other byte, or no digit at all, is an error |
| Text.ScanFloat | receipt/receipt.go:88 | the one-pass reader of `strconv.ParseFloat` on plain decimals, carrying the whole part, fraction, scale and whether a dot and a digit were seen; `Text.ScanWhole` and `Text.ScanFraction` give its result before and after the dot |
| Text.ReadFloat | receipt/receipt.go:88 | what `strconv.ParseFloat` reads from a price, as an exact decimal, or None on rejection; `Text.ReadFloatIsParseDecimal` proves it equal to the declarative split at the first dot |
| Text.ReadFloatIsParseDecimal | receipt/receipt.go:88 | the one-pass reader and the declarative split at the first dot give the same result on every string |
| Text.NatDigitsValue | receipt/receipt.go:88 | the reference formatter's digit string of n has value n |
| Text.ParseFormatCents | receipt/receipt.go:88 | reading a formatted amount of c cents gives c / 100 and c % 100 at scale two, so the reader loses nothing |
| Receipts.RetailerNamePoints | receipt/receipt.go:45-50 | the retailer rule awards at most one point per byte of the name |
| Receipts.RetailerNameExtremes | receipt/receipt.go:45-50 | every byte scores iff all are alphanumeric, and none scores iff none is |
| Receipts.RetailerNameAppend | receipt/receipt.go:45-50 | one more alphanumeric byte adds exactly one point; any other byte adds none |
| Receipts.TotalSubmatch | receipt/receipt.go:54-55 | the submatch slice exists iff the total has the amount shape, and is then the whole total followed by the cents group |
| Receipts.Whole | receipt/receipt.go:55 | index 0 of the slice is its first element, and indexing a nil slice is an index-out-of-range panic |
| Receipts.CentsPoints | receipt/receipt.go:52-61 | succeeds iff the total has the amount shape and then awards 0, because the whole total is compared with "00"; otherwise an index-out-of-range panic |
| Receipts.TotalMultPoints | receipt/receipt.go:63-73 | succeeds iff the total has the amount shape and then awards 0, because the whole total is compared with the two-byte cents; otherwise an index-out-of-range panic |
| Receipts.ItemPairPoints | receipt/receipt.go:75-78 | a multiple of five: 5/2 times the item count, or times one less when the count is odd |
| Receipts.ItemPairMonotone | receipt/receipt.go:76-78 | more items never give fewer pair points |
| Receipts.PriceBonus | receipt/receipt.go:88-89 | a price the reader rejects contributes 0 |
| Receipts.CeilOfCeil | receipt/receipt.go:89 | rounding w + f/p up and then dividing by 5 rounding up gives the ceiling of (w + f/p) / 5 |
| Receipts.PriceBonusCeiling | receipt/receipt.go:85-89 | for a readable price x the bonus is the least whole number b with b >= x * 0.2 |
| Receipts.ItemBonus | receipt/receipt.go:87-89 | an item earns its price bonus when the trimmed description's length is divisible by three, and nothing otherwise |
| Receipts.DescriptionSum | receipt/receipt.go:84-91 | the sum of the item bonuses over the list, which `Receipts.Points` uses for the description rule; `Receipts.DescriptionSumSnoc` and `Receipts.DescriptionSumPermutation` state what it adds and that order does not matter |
| Receipts.DescriptionSumConcat | receipt/receipt.go:86-91 | the description points of concatenated item lists add up |
| Receipts.DescriptionSumSnoc | receipt/receipt.go:86-91 | one more item adds exactly its own bonus |
| Receipts.DescriptionSumRemove | receipt/receipt.go:86-91 | removing one item subtracts exactly its bonus |
| Receipts.DescriptionSumPermutation | receipt/receipt.go:86-91 | the description points do not depend on the order of the items |
| Receipts.ItemDescriptionPoints | receipt/receipt.go:83-93 | the loop over the items returns the sum of the item bonuses |
| Receipts.AtoiByte | receipt/receipt.go:97 | `Atoi` of a one-byte string is the digit's value, and 0 (the error result) for any other byte |
| Receipts.OddDayPoints | receipt/receipt.go:95-99 | succeeds iff the date is non-empty, and then awards 6 iff its last byte is an odd digit and 0 otherwise; an empty date is a slice-out-of-range panic |
| Receipts.OddDayLastByteOnly | receipt/receipt.go:96-99 | dates with the same last byte score the same |
| Receipts.AfternoonPoints | receipt/receipt.go:101-108 | succeeds iff the time is non-empty, and then awards 0, because a one-byte prefix never equals "14" or "15"; an empty time is a slice-out-of-range panic |
| Receipts.Points | receipt/receipt.go:35-43 | succeeds iff the total has the amount shape and the date and time are non-empty; a bad total panics first; on success the value is the alphanumeric count, plus 5 per pair, plus the description bonuses, plus 6 for an odd last date byte |
| Receipts.PointsIsSumOfRules | receipt/receipt.go:35-43 | Points succeeds iff every rule does, and is then the sum of the seven rules |
| ReceiptTests.TargetAlnum | receipt/receipt_test.go:17 | the test retailer "Target" is worth 6 points |
| ReceiptTests.TestShapeScore | receipt/receipt_test.go:16-22 | a receipt shaped like the test receipts scores 6, plus 6 for an odd last date byte, plus its item points |
| ReceiptTests.BaseFacts | receipt/receipt_test.go:16-22 | the base test receipt has a 6-point retailer, a well-formed total and a date ending in '1' |
| ReceiptTests.BaseScore | receipt/receipt_test.go:16-22 | the base test receipt scores 12 |
| ReceiptTests.TotalTestScore | receipt/receipt_test.go:35-51 | a total of 35.xx scores 12 for every pair of cents digits |
| ReceiptTests.TotalTestsNoDifference | receipt/receipt_test.go:24-32 | any two totals 35.xx score the same, so the expected differences of 75 and 25 are 0 as written |
| ReceiptTests.ItemsTestScore | receipt/receipt_test.go:62-71 | with the test's other fields fixed, a receipt scores 12 plus its pair and description points |
| ReceiptTests.PairItemsNoBonus | receipt/receipt_test.go:82-85 | the pair test's one-byte items earn no description points |
| ReceiptTests.ItemPairsAsWritten | receipt/receipt_test.go:72-92 | n test items add 5 * (n / 2) points |
| ReceiptTests.ItemPairsTable | receipt/receipt_test.go:72-78 | the tested counts 0 to 4 add 0, 0, 5, 5 and 10 points |
| ReceiptTests.Price2101 | receipt/receipt_test.go:110 | the price "21.01" reads as 21 and 1/100 and earns 5 |
| ReceiptTests.TrimPadded | receipt/receipt_test.go:113 | "   ddd\n\n\n" trims to "ddd" |
| ReceiptTests.TrimPaddedShort | receipt/receipt_test.go:120 | "  ddd\n" trims to "ddd" |
| ReceiptTests.Bonus3 | receipt/receipt_test.go:110 | the three-byte item earns 5 |
| ReceiptTests.BonusPadded | receipt/receipt_test.go:113 | the padded three-byte item earns 5 |
| ReceiptTests.Bonus4 | receipt/receipt_test.go:116 | the four-byte item earns nothing |
| ReceiptTests.Bonus6 | receipt/receipt_test.go:119 | the six-byte item earns 5 |
| ReceiptTests.BonusPaddedShort | receipt/receipt_test.go:120 | the second padded item earns 5 |
| ReceiptTests.SingleItemTestScore | receipt/receipt_test.go:105-130 | one item adds exactly its bonus, so 5, 5 and 0 for the single-item cases |
| ReceiptTests.DescriptionSumThree | receipt/receipt_test.go:119-121 | three items' description points are the sum of their bonuses |
| ReceiptTests.ThreeItemsTestScore | receipt/receipt_test.go:119-121 | three items add their bonuses plus 5 for one pair |
| ReceiptTests.ThreeItemsBonuses | receipt/receipt_test.go:119-121 | the three tested items and their pair add the expected 15 |
| ReceiptTests.OddDaysAsWritten | receipt/receipt_test.go:133-161 | a date ending in "0d" scores 6 more than one ending in "00" iff d is odd |
| ReceiptTests.TimeOfPurchaseAsWritten | receipt/receipt_test.go:164-188 | every non-empty time scores what 00:00 scores, so the expected 10 at 14:00 and 15:59 is 0 as written |
| ReceiptTests.EmptyTotalPanics | receipt/receipt.go:55 | a receipt with an empty total panics with an index out of range |
| Store.PostStep | main.go:17-32 | a post stores iff parsing and scoring succeed; it then writes the body's id and the points and keeps every other entry; otherwise the store is unchanged and the outcome says whether parsing failed or scoring panicked |
| Store.Lookup | main.go:34-46 | a hit iff the id is stored, and then its points |
| Store.PostIdempotent | main.go:23-28 | posting the same body twice equals posting it once |
| Store.PostThenLookup | main.go:27-28 | after a post that stored, the body's id looks up to the receipt's points |
| Store.PostPreservesOtherLookups | main.go:28 | a post changes no other id's lookup |
| Store.IdsFollowBodies | main.go:23-28 | two posts of equal bodies have the same outcome, whatever the store held before: the same id when they store, and the same parse failure or panic when they do not |
| Store.ReceiptStore.constructor | main.go:15 | the store starts empty |
| Store.ReceiptStore.Post | main.go:17-32 | the new store and the outcome are those of PostStep on the old store, case by case |
| Store.ReceiptStore.Get | main.go:34-46 | a hit iff the id is stored, and then exactly its points; the store is unchanged |
| Store.PostThenGet | main_test.go:36-80 | on a fresh server, a get of the posted body's id returns the receipt's points iff the post stored them, and a miss otherwise |

## Left out

- HTTP routing, status codes, headers and JSON response bodies
  (main.go:18, 24-25, 29-30, 35, 40-44, 48-63). Only the effect on the
  store and the outcome of each request are modelled.
- JSON decoding: `Parse` is a parameter of the store, a fixed function
  from body bytes to an optional receipt. The decoder itself
  (receipt/receipt.go:25-33) is not modelled, nor is how it turns a
  missing field into an empty string.
- The id function: `uuid.NewSHA1` over the nil namespace is a parameter
  of the store, a fixed function of the body bytes.
  - The model passes the whole body. The code passes the bytes the
    decoder happened to read through the `TeeReader`, which is normally
    the whole body.
- Recovery from a scoring panic: net/http stops the request. The model
  keeps the store unchanged and reports the panic, but does not model
  the connection being closed.
- Concurrency: the Go map is shared without a lock across handler
  goroutines, so it has data races. The model runs one request at a
  time.
- Receipts.PriceBonus: reads only unsigned plain decimals ("7", "7.",
  ".5", "21.01"), and computes ceil(x * 0.2) exactly on them. Rejected
  here, but read by ParseFloat:
  - a leading sign;
  - an exponent;
  - hexadecimal forms;
  - underscore digit separators such as "2_1.01";
  - "inf" and "nan".

  Rejected prices count 0. The model does not claim to agree bit for
  bit with float64 rounding of `price * 0.2`: near an exact multiple of
  5, the float result can round differently.
- Receipts.AtoiByte: only `Atoi` on one byte is modelled, because the
  rule only ever passes one byte.
- Text.IsSpace: `strings.TrimSpace` also trims Unicode whitespace. The
  model trims the six ASCII whitespace bytes only, and treats strings as
  sequences of bytes.
- Integer width: Go `int` is 64 bits. The model's integers are
  unbounded, so sums beyond 2^63 are not modelled.
- The expected 15 points in main_test.go:77 depends on
  the repository's morning receipt example file, which is not part of
  this model.
  Store.PostThenGet states the general fact instead, and the
  id value in main_test.go:30 is not reproduced either.

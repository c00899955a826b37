/**
 * Which price a job bills at (packages/models/schemas/ModelPrice.ts). Rates and costs are exact
 * reals; the final rounding to four decimals is not modelled.
 */
module ModelPrice {
  import opened Wrappers

  datatype Price = Price(input: real, output: real, cacheRead: real, cacheWrite: real)

  /** `effectiveFrom` is the stored text and `instant` the time it denotes */
  datatype Row = Row(modelPrefix: string, effectiveFrom: string, instant: int, price: Price)

  // ----- Texts in code-unit order -----

  predicate Before(a: string, b: string) {
    b != "" && (a == "" || a[0] < b[0] || (a[0] == b[0] && Before(a[1..], b[1..])))
  }

  lemma {:induction false} BeforeIsTotal(a: string, b: string)
    ensures Before(a, b) || a == b || Before(b, a)
    ensures !(Before(a, b) && Before(b, a)) && !Before(a, a)
  {
    if a != "" && b != "" {
      BeforeIsTotal(a[1..], b[1..]);
      BeforeIsTotal(a[1..], a[1..]);
      if a[0] == b[0] && a[1..] == b[1..] {
        assert a == [a[0]] + a[1..] && b == [b[0]] + b[1..];
      }
    } else if a != "" {
      BeforeIsTotal(a[1..], a[1..]);
    }
  }

  lemma {:induction false} BeforeIsTransitive(a: string, b: string, c: string)
    requires !Before(b, a) && !Before(c, b)
    ensures !Before(c, a)
  {
    if a != "" && c != "" && b != "" {
      if a[0] == b[0] && b[0] == c[0] {
        BeforeIsTransitive(a[1..], b[1..], c[1..]);
      }
    }
  }

  // ----- The rows in effect -----

  predicate InEffect(row: Row, at: int) {
    row.instant <= at
  }

  /** The loop's map after the given rows */
  function Chosen(rows: seq<Row>, at: int): map<string, Row> {
    if rows == [] then map[]
    else
      var chosen := Chosen(rows[..|rows| - 1], at);
      var row := rows[|rows| - 1];
      if InEffect(row, at) && (row.modelPrefix !in chosen || Before(chosen[row.modelPrefix].effectiveFrom, row.effectiveFrom))
      then chosen[row.modelPrefix := row] else chosen
  }

  function Prices(chosen: map<string, Row>): map<string, Price> {
    map prefix | prefix in chosen :: chosen[prefix].price
  }

  /** `row` is among the rows in effect for its prefix, and none of them has a later text */
  ghost predicate IsLatest(rows: seq<Row>, at: int, row: Row) {
    && row in rows && InEffect(row, at)
    && forall other :: other in rows && InEffect(other, at) && other.modelPrefix == row.modelPrefix ==>
         !Before(row.effectiveFrom, other.effectiveFrom)
  }

  lemma ExtendLatest(rows: seq<Row>, at: int, row: Row, kept: Row)
    requires IsLatest(rows, at, kept) && (InEffect(row, at) && row.modelPrefix == kept.modelPrefix ==> !Before(kept.effectiveFrom, row.effectiveFrom))
    ensures IsLatest(rows + [row], at, kept)
  {
  }

  lemma ReplaceLatest(rows: seq<Row>, at: int, row: Row, kept: Row)
    requires IsLatest(rows, at, kept) && InEffect(row, at) && row.modelPrefix == kept.modelPrefix
    requires Before(kept.effectiveFrom, row.effectiveFrom)
    ensures IsLatest(rows + [row], at, row)
  {
    BeforeIsTotal(kept.effectiveFrom, row.effectiveFrom);
    BeforeIsTotal(row.effectiveFrom, row.effectiveFrom);
    forall other | other in rows && InEffect(other, at) && other.modelPrefix == row.modelPrefix
      ensures !Before(row.effectiveFrom, other.effectiveFrom)
    {
      BeforeIsTransitive(other.effectiveFrom, kept.effectiveFrom, row.effectiveFrom);
    }
  }

  /** A prefix is priced exactly when some row of it is in effect, and then by one with the latest text. */
  lemma {:induction false} ChosenAreTheLatest(rows: seq<Row>, at: int, prefix: string)
    ensures prefix in Chosen(rows, at) <==> exists row :: row in rows && InEffect(row, at) && row.modelPrefix == prefix
    ensures prefix in Chosen(rows, at) ==>
              Chosen(rows, at)[prefix].modelPrefix == prefix && IsLatest(rows, at, Chosen(rows, at)[prefix])
  {
    if rows != [] {
      var n := |rows| - 1;
      var rest, row := rows[..n], rows[n];
      assert rows == rest + [row];
      ChosenAreTheLatest(rest, at, prefix);
      var chosen := Chosen(rest, at);
      if row.modelPrefix == prefix && InEffect(row, at) {
        if prefix !in chosen {
          BeforeIsTotal(row.effectiveFrom, row.effectiveFrom);
        } else if Before(chosen[prefix].effectiveFrom, row.effectiveFrom) {
          ReplaceLatest(rest, at, row, chosen[prefix]);
        } else {
          ExtendLatest(rest, at, row, chosen[prefix]);
        }
      } else if prefix in chosen {
        ExtendLatest(rest, at, row, chosen[prefix]);
      }
    }
  }

  /** `pricesEffectiveAt` */
  method PricesEffectiveAt(rows: seq<Row>, at: int) returns (prices: map<string, Price>)
    ensures prices == Prices(Chosen(rows, at))
    ensures prices.Keys == Chosen(rows, at).Keys && forall prefix :: prefix in prices ==> prices[prefix] == Chosen(rows, at)[prefix].price
  {
    var chosen: map<string, Row> := map[];
    for i := 0 to |rows|
      invariant chosen == Chosen(rows[..i], at)
    {
      assert rows[..i + 1][..i] == rows[..i];
      var row := rows[i];
      if row.instant > at {
        continue;
      }
      if row.modelPrefix !in chosen || Before(chosen[row.modelPrefix].effectiveFrom, row.effectiveFrom) {
        chosen := chosen[row.modelPrefix := row];
      }
    }
    assert rows[..|rows|] == rows;
    prices := map prefix | prefix in chosen :: chosen[prefix].price;
  }

  /** No two different rows in effect share a prefix and a text */
  ghost predicate Unique(rows: seq<Row>, at: int) {
    forall a, b | a in rows && b in rows && InEffect(a, at) && InEffect(b, at) ::
      a.modelPrefix == b.modelPrefix && a.effectiveFrom == b.effectiveFrom ==> a == b
  }

  ghost predicate SameInEffect(rows: seq<Row>, others: seq<Row>, at: int) {
    forall row :: InEffect(row, at) ==> (row in rows <==> row in others)
  }

  /** The prices in effect depend only on which rows are in effect: not on their order, nor on later rows. */
  lemma OnlyRowsInEffectMatter(rows: seq<Row>, others: seq<Row>, at: int)
    requires Unique(rows, at) && SameInEffect(rows, others, at)
    ensures Chosen(rows, at) == Chosen(others, at)
  {
    var a, b := Chosen(rows, at), Chosen(others, at);
    forall prefix ensures prefix in a <==> prefix in b {
      ChosenAreTheLatest(rows, at, prefix);
      ChosenAreTheLatest(others, at, prefix);
    }
    forall prefix | prefix in a ensures a[prefix] == b[prefix] {
      ChosenAreTheLatest(rows, at, prefix);
      ChosenAreTheLatest(others, at, prefix);
      BeforeIsTotal(a[prefix].effectiveFrom, b[prefix].effectiveFrom);
    }
  }

  /** Of two rows of one prefix the later one is in effect, in either order, exactly when its text is the later text. */
  lemma LatestTextOrLatestInstant(a: Row, b: Row, at: int)
    requires a.modelPrefix == b.modelPrefix && a.instant < b.instant <= at
    ensures Chosen([a, b], at)[a.modelPrefix] == b && Chosen([b, a], at)[a.modelPrefix] == b
            <==> Before(a.effectiveFrom, b.effectiveFrom)
    ensures Chosen([a, b], at).Keys == {a.modelPrefix} && Chosen([b, a], at).Keys == {a.modelPrefix}
  {
    assert [a, b][..1] == [a] && [b, a][..1] == [b] && [a][..0] == [] && [b][..0] == [];
    assert Chosen([a], at) == map[a.modelPrefix := a];
    assert Chosen([b], at) == map[b.modelPrefix := b];
    BeforeIsTotal(a.effectiveFrom, b.effectiveFrom);
  }

  /** A text without a fraction counts as later than any fraction of the same second. */
  lemma WholeSecondBeatsItsFraction(second: string, fraction: string)
    ensures Before(second + ("." + fraction), second + "Z")
  {
    BeforeAfterPrefix(second, "." + fraction, "Z");
  }

  lemma {:induction false} BeforeAfterPrefix(prefix: string, a: string, b: string)
    ensures Before(prefix + a, prefix + b) <==> Before(a, b)
  {
    if prefix == "" {
      assert prefix + a == a && prefix + b == b;
    } else {
      assert (prefix + a)[1..] == prefix[1..] + a && (prefix + b)[1..] == prefix[1..] + b;
      BeforeAfterPrefix(prefix[1..], a, b);
    }
  }

  // ----- Rows in the format the stores write -----

  /** A time as `toISOString` writes it, for years of four digits */
  datatype Stamp = Stamp(year: nat, month: nat, day: nat, hour: nat, minute: nat, second: nat, millis: nat) {
    predicate Valid() {
      year < 10000 && month < 100 && day < 100 && hour < 100 && minute < 100 && second < 100 && millis < 1000
    }

    function Text(): string
      requires Valid()
    {
      Pad(year, 4) + ("-" + (Pad(month, 2) + ("-" + (Pad(day, 2) + ("T" + (Pad(hour, 2) + (":" +
        (Pad(minute, 2) + (":" + (Pad(second, 2) + ("." + (Pad(millis, 3) + "Z"))))))))))))
    }

    predicate Earlier(other: Stamp) {
      year < other.year || (year == other.year &&
        (month < other.month || (month == other.month &&
          (day < other.day || (day == other.day &&
            (hour < other.hour || (hour == other.hour &&
              (minute < other.minute || (minute == other.minute &&
                (second < other.second || (second == other.second && millis < other.millis)))))))))))
    }
  }

  function Digit(n: nat): char
    requires n < 10
  {
    "0123456789"[n]
  }

  function TenTo(width: nat): (power: nat)
    ensures power > 0
  {
    if width == 0 then 1 else 10 * TenTo(width - 1)
  }

  /** Exactly `width` decimal digits */
  function Pad(n: nat, width: nat): (text: string)
    requires n < TenTo(width)
    ensures |text| == width
  {
    if width == 0 then "" else Pad(n / 10, width - 1) + [Digit(n % 10)]
  }

  /** Equally long heads decide first */
  lemma {:induction false} BeforeByParts(p: string, s: string, q: string, t: string)
    requires |p| == |q|
    ensures Before(p + s, q + t) <==> Before(p, q) || (p == q && Before(s, t))
  {
    if p == "" {
      assert p + s == s && q + t == t;
    } else {
      assert (p + s)[1..] == p[1..] + s && (q + t)[1..] == q[1..] + t;
      assert p == [p[0]] + p[1..] && q == [q[0]] + q[1..];
      BeforeByParts(p[1..], s, q[1..], t);
    }
  }

  lemma DigitsAreInOrder(a: nat, b: nat)
    requires a < 10 && b < 10
    ensures Before([Digit(a)], [Digit(b)]) <==> a < b
    ensures Digit(a) == Digit(b) <==> a == b
  {
    assert [Digit(a)][1..] == [] && [Digit(b)][1..] == [];
  }

  /** Padded numbers compare as texts as they do as numbers. */
  lemma {:induction false} PadsAreInOrder(a: nat, b: nat, width: nat)
    requires a < TenTo(width) && b < TenTo(width)
    ensures Before(Pad(a, width), Pad(b, width)) <==> a < b
    ensures Pad(a, width) == Pad(b, width) <==> a == b
  {
    if width > 0 {
      PadsAreInOrder(a / 10, b / 10, width - 1);
      DigitsAreInOrder(a % 10, b % 10);
      BeforeByParts(Pad(a / 10, width - 1), [Digit(a % 10)], Pad(b / 10, width - 1), [Digit(b % 10)]);
      PadsSplit(a, b, width);
    }
  }

  lemma PadsSplit(a: nat, b: nat, width: nat)
    requires width > 0 && a < TenTo(width) && b < TenTo(width)
    ensures Pad(a, width) == Pad(b, width) <==> Pad(a / 10, width - 1) == Pad(b / 10, width - 1) && Digit(a % 10) == Digit(b % 10)
  {
    var p, q := Pad(a / 10, width - 1), Pad(b / 10, width - 1);
    if Pad(a, width) == Pad(b, width) {
      assert p == Pad(a, width)[..width - 1] && q == Pad(b, width)[..width - 1];
      assert Pad(a, width)[width - 1] == Digit(a % 10) && Pad(b, width)[width - 1] == Digit(b % 10);
    }
  }

  /** One field and the separator behind it */
  lemma FieldDecides(a: nat, b: nat, width: nat, separator: string, s: string, t: string)
    requires a < TenTo(width) && b < TenTo(width) && |separator| == 1
    ensures Before(Pad(a, width) + (separator + s), Pad(b, width) + (separator + t)) <==> a < b || (a == b && Before(s, t))
  {
    PadsAreInOrder(a, b, width);
    BeforeByParts(Pad(a, width), separator + s, Pad(b, width), separator + t);
    BeforeAfterPrefix(separator, s, t);
  }

  function FromSecond(s: Stamp): string
    requires s.Valid()
  {
    Pad(s.second, 2) + ("." + (Pad(s.millis, 3) + "Z"))
  }

  function FromHour(s: Stamp): string
    requires s.Valid()
  {
    Pad(s.hour, 2) + (":" + (Pad(s.minute, 2) + (":" + FromSecond(s))))
  }

  lemma SecondsAreInOrder(a: Stamp, b: Stamp)
    requires a.Valid() && b.Valid()
    ensures Before(FromSecond(a), FromSecond(b)) <==> a.second < b.second || (a.second == b.second && a.millis < b.millis)
  {
    PadsAreInOrder(a.millis, b.millis, 3);
    BeforeByParts(Pad(a.millis, 3), "Z", Pad(b.millis, 3), "Z");
    BeforeIsTotal("Z", "Z");
    FieldDecides(a.second, b.second, 2, ".", Pad(a.millis, 3) + "Z", Pad(b.millis, 3) + "Z");
  }

  lemma HoursAreInOrder(a: Stamp, b: Stamp)
    requires a.Valid() && b.Valid()
    ensures Before(FromHour(a), FromHour(b)) <==>
            a.hour < b.hour || (a.hour == b.hour && (a.minute < b.minute || (a.minute == b.minute && Before(FromSecond(a), FromSecond(b)))))
  {
    FieldDecides(a.minute, b.minute, 2, ":", FromSecond(a), FromSecond(b));
    FieldDecides(a.hour, b.hour, 2, ":", Pad(a.minute, 2) + (":" + FromSecond(a)), Pad(b.minute, 2) + (":" + FromSecond(b)));
  }

  /** In that one format the later text is the later time. */
  lemma TextsAreInOrder(a: Stamp, b: Stamp)
    requires a.Valid() && b.Valid()
    ensures Before(a.Text(), b.Text()) <==> a.Earlier(b)
  {
    SecondsAreInOrder(a, b);
    HoursAreInOrder(a, b);
    var s, t := Pad(a.day, 2) + ("T" + FromHour(a)), Pad(b.day, 2) + ("T" + FromHour(b));
    FieldDecides(a.day, b.day, 2, "T", FromHour(a), FromHour(b));
    FieldDecides(a.month, b.month, 2, "-", s, t);
    FieldDecides(a.year, b.year, 4, "-", Pad(a.month, 2) + ("-" + s), Pad(b.month, 2) + ("-" + t));
  }

  /** The calendar: later stamps are later instants */
  ghost predicate Calendar(instantOf: Stamp -> int) {
    forall a: Stamp, b: Stamp :: a.Valid() && b.Valid() && a.Earlier(b) ==> instantOf(a) < instantOf(b)
  }

  ghost predicate IsStored(row: Row, instantOf: Stamp -> int) {
    exists stamp: Stamp :: stamp.Valid() && row.effectiveFrom == stamp.Text() && row.instant == instantOf(stamp)
  }

  lemma EarlierOrEqual(a: Stamp, b: Stamp)
    ensures a.Earlier(b) || b.Earlier(a) || a == b
  {
  }

  /** On rows as the stores write them, any number of them, the chosen row is the one with the latest instant. */
  lemma StoredRowsChooseTheLatestInstant(rows: seq<Row>, at: int, prefix: string, other: Row, instantOf: Stamp -> int)
    requires Calendar(instantOf) && forall row :: row in rows ==> IsStored(row, instantOf)
    requires other in rows && InEffect(other, at) && other.modelPrefix == prefix
    ensures prefix in Chosen(rows, at) && other.instant <= Chosen(rows, at)[prefix].instant <= at
  {
    ChosenAreTheLatest(rows, at, prefix);
    var row := Chosen(rows, at)[prefix];
    assert IsStored(row, instantOf) && IsStored(other, instantOf);
    var a: Stamp :| a.Valid() && row.effectiveFrom == a.Text() && row.instant == instantOf(a);
    var b: Stamp :| b.Valid() && other.effectiveFrom == b.Text() && other.instant == instantOf(b);
    TextsAreInOrder(a, b);
    EarlierOrEqual(a, b);
  }

  // ----- The price of a model -----

  /** `filter`, stable `sort` by falling length, first: the first of the longest matching keys */
  function LongestMatch(keys: seq<string>, model: string): Option<string> {
    if keys == [] then None
    else
      var best := LongestMatch(keys[..|keys| - 1], model);
      var key := keys[|keys| - 1];
      if key <= model && (best.None? || |key| > |best.value|) then Some(key) else best
  }

  lemma {:induction false} LongestMatchIsLongest(keys: seq<string>, model: string)
    ensures LongestMatch(keys, model).None? ==> forall key :: key in keys ==> !(key <= model)
    ensures LongestMatch(keys, model).Some? ==>
              var best := LongestMatch(keys, model).value;
              && best in keys && best <= model
              && forall key :: key in keys && key <= model ==> |key| <= |best|
  {
    if keys != [] {
      var n := |keys| - 1;
      LongestMatchIsLongest(keys[..n], model);
      assert keys == keys[..n] + [keys[n]];
      assert keys[n] in keys;
    }
  }

  /** The longest matching prefix is unique, so the order in which an object lists its keys does not matter. */
  lemma LongestMatchIsUnique(keys: seq<string>, model: string, prefix: string)
    requires prefix in keys && prefix <= model && forall key :: key in keys && key <= model ==> |key| <= |prefix|
    ensures LongestMatch(keys, model) == Some(prefix)
  {
    LongestMatchIsLongest(keys, model);
    var best := LongestMatch(keys, model).value;
    assert |best| == |prefix|;
    assert best == model[..|best|] && prefix == model[..|prefix|];
  }

  /** The keys of a price table, in some order */
  ghost predicate Lists(keys: seq<string>, prices: map<string, Price>) {
    forall key :: key in keys <==> key in prices
  }

  const FALLBACK := Price(3.0, 15.0, 0.3, 3.75)

  /** `priceForModel`: an empty prefix is no match, as an empty string is falsy */
  function PriceForModel(keys: seq<string>, prices: map<string, Price>, model: string): Price
    requires Lists(keys, prices)
  {
    LongestMatchIsLongest(keys, model);
    var match_ := LongestMatch(keys, model);
    if match_.Some? && match_.value != "" then prices[match_.value] else FALLBACK
  }

  lemma PriceIgnoresKeyOrder(keys: seq<string>, others: seq<string>, prices: map<string, Price>, model: string)
    requires Lists(keys, prices) && Lists(others, prices)
    ensures PriceForModel(keys, prices, model) == PriceForModel(others, prices, model)
  {
    LongestMatchIsLongest(keys, model);
    LongestMatchIsLongest(others, model);
    if LongestMatch(keys, model).Some? {
      LongestMatchIsUnique(others, model, LongestMatch(keys, model).value);
    }
  }

  // ----- The cost of a job -----

  datatype ModelUsage = ModelUsage(input: nat, output: nat, cacheRead: nat, cacheCreation: nat)

  function UsageCost(usage: ModelUsage, price: Price): real {
    (usage.input as real * price.input + usage.output as real * price.output
     + usage.cacheRead as real * price.cacheRead + usage.cacheCreation as real * price.cacheWrite) / 1_000_000.0
  }

  function JobCost(usage: seq<(string, ModelUsage)>, keys: seq<string>, prices: map<string, Price>): real
    requires Lists(keys, prices)
  {
    if usage == [] then 0.0
    else
      var last := usage[|usage| - 1];
      JobCost(usage[..|usage| - 1], keys, prices) + UsageCost(last.1, PriceForModel(keys, prices, last.0))
  }

  /**
   * One usage line costs its four counts at the rates of the longest key that begins its model, or
   * at the fallback's when no key but the empty one does, per million tokens.
   */
  lemma CostOfOne(model: string, usage: ModelUsage, keys: seq<string>, prices: map<string, Price>, price: Price)
    requires Lists(keys, prices)
    requires if exists key :: key in keys && key <= model && key != "" then
               exists key :: key in keys && key <= model && key != "" && price == prices[key]
                             && forall other :: other in keys && other <= model ==> |other| <= |key|
             else price == Price(3.0, 15.0, 0.3, 3.75)
    ensures 1_000_000.0 * JobCost([(model, usage)], keys, prices) ==
            usage.input as real * price.input + usage.output as real * price.output
            + usage.cacheRead as real * price.cacheRead + usage.cacheCreation as real * price.cacheWrite
  {
    var lines := [(model, usage)];
    assert lines[..0] == [];
    LongestMatchIsLongest(keys, model);
    if key :| key in keys && key <= model && key != "" && price == prices[key]
              && forall other :: other in keys && other <= model ==> |other| <= |key|
    {
      LongestMatchIsUnique(keys, model, key);
    }
    assert PriceForModel(keys, prices, model) == price;
  }

  /** And the lines of a job add up. */
  lemma {:induction false} CostsAddUp(a: seq<(string, ModelUsage)>, b: seq<(string, ModelUsage)>, keys: seq<string>, prices: map<string, Price>)
    requires Lists(keys, prices)
    ensures JobCost(a + b, keys, prices) == JobCost(a, keys, prices) + JobCost(b, keys, prices)
  {
    if b == [] {
      assert a + b == a;
    } else {
      CostsAddUp(a, b[..|b| - 1], keys, prices);
      assert (a + b)[..|a + b| - 1] == a + b[..|b| - 1];
    }
  }

  lemma {:induction false} CostIgnoresKeyOrder(usage: seq<(string, ModelUsage)>, keys: seq<string>, others: seq<string>, prices: map<string, Price>)
    requires Lists(keys, prices) && Lists(others, prices)
    ensures JobCost(usage, keys, prices) == JobCost(usage, others, prices)
  {
    if usage != [] {
      CostIgnoresKeyOrder(usage[..|usage| - 1], keys, others, prices);
      PriceIgnoresKeyOrder(keys, others, prices, usage[|usage| - 1].0);
    }
  }

  /** The repository's `effectiveAt`: the built-in list when there is no row at all */
  function EffectiveAt(rows: seq<Row>, defaults: map<string, Price>, at: int): map<string, Price> {
    if rows == [] then defaults else Prices(Chosen(rows, at))
  }

  /**
   * A job is priced at its order's creation: whatever rows dated after that are added, in whatever
   * order the table is then read, its cost stays the same.
   */
  lemma LaterPricesNeverReprice(usage: seq<(string, ModelUsage)>, rows: seq<Row>, after: seq<Row>, defaults: map<string, Price>,
                                createdAt: int, keys: seq<string>, others: seq<string>)
    requires rows != [] && Unique(rows, createdAt)
    requires SameInEffect(rows, after, createdAt) && after != []
    requires Lists(keys, EffectiveAt(rows, defaults, createdAt)) && Lists(others, EffectiveAt(after, defaults, createdAt))
    ensures JobCost(usage, keys, EffectiveAt(rows, defaults, createdAt)) == JobCost(usage, others, EffectiveAt(after, defaults, createdAt))
  {
    OnlyRowsInEffectMatter(rows, after, createdAt);
    CostIgnoresKeyOrder(usage, keys, others, EffectiveAt(rows, defaults, createdAt));
  }

  /**
   * On an empty table the first row added, even one dated later, takes the built-in list away. The
   * cost then stays the same exactly when the built-in list prices the job like the fallback.
   */
  lemma FirstRowReplacesTheDefaults(usage: seq<(string, ModelUsage)>, defaults: map<string, Price>, keys: seq<string>, row: Row, createdAt: int)
    requires row.instant > createdAt && Lists(keys, defaults)
    ensures EffectiveAt([row], defaults, createdAt) == map[]
    ensures JobCost(usage, keys, EffectiveAt([], defaults, createdAt)) == JobCost(usage, [], EffectiveAt([row], defaults, createdAt))
            <==> JobCost(usage, keys, defaults) == FallbackCost(usage)
  {
    assert [row][..0] == [];
    assert Chosen([row], createdAt) == map[];
    CostWithoutPrices(usage);
  }

  function FallbackCost(usage: seq<(string, ModelUsage)>): real {
    if usage == [] then 0.0
    else FallbackCost(usage[..|usage| - 1]) + UsageCost(usage[|usage| - 1].1, FALLBACK)
  }

  lemma {:induction false} CostWithoutPrices(usage: seq<(string, ModelUsage)>)
    ensures JobCost(usage, [], map[]) == FallbackCost(usage)
  {
    if usage != [] {
      CostWithoutPrices(usage[..|usage| - 1]);
    }
  }
}

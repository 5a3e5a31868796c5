/** The helpers of `components/dashboard/items/ItemsListing.tsx` that compute
    what the items table shows: cut-off names, the stock value, the subtitle
    and the date column.

    Currency and date rendering come from `Intl` and `date-fns`, which are
    not part of this model; they are parameters. */
module ItemsListing {
  import opened Wrappers
  import opened Strings
  import NormalDate

  /** `truncatedText(text, length)`: the text itself when it fits, else its
      first `length` characters followed by "...". */
  function Truncated(text: string, length: nat): (r: string)
    ensures |text| <= length ==> r == text
    ensures |text| > length ==> |r| == length + 3 && r[length..] == "..."
  {
    if |text| > length then text[..length] + "..." else text
  }

  /** At most three characters longer than the limit, and it begins with as
      much of the text as fits. */
  lemma TruncatedBounds(text: string, length: nat)
    ensures var r := Truncated(text, length);
      && |r| <= length + 3
      && (if |text| <= length then r == text else IsPrefix(text[..length], r))
  {
  }

  /** Cutting a cut-off text again at the same length changes nothing. */
  lemma TruncatedIdempotent(text: string, length: nat)
    ensures Truncated(Truncated(text, length), length) == Truncated(text, length)
  {
    if |text| > length {
      var r := Truncated(text, length);
      assert r[..length] == text[..length];
    }
  }

  /** The two fields of an item the total reads: the selling price and the
      quantity, each possibly missing (a price that does not parse counts as missing). */
  datatype ItemLine = ItemLine(sellingPrice: Option<real>, quantity: Option<int>)

  /** `price * quantity`, with a missing price or quantity taken as 0. */
  function LineValue(item: ItemLine): (v: real)
    ensures item.sellingPrice.None? || item.quantity.None? ==> v == 0.0
  {
    item.sellingPrice.GetOr(0.0) * item.quantity.GetOr(0) as real
  }

  /** `getTotalValue(items)`: the `reduce` from the left, starting at 0. */
  function TotalValue(items: seq<ItemLine>): real
  {
    if items == [] then 0.0 else TotalValue(items[..|items| - 1]) + LineValue(items[|items| - 1])
  }

  /** The total over two lists one after the other is the sum of their totals. */
  lemma {:induction false} TotalValueAppend(a: seq<ItemLine>, b: seq<ItemLine>)
    ensures TotalValue(a + b) == TotalValue(a) + TotalValue(b)
    decreases |b|
  {
    if b != [] {
      assert (a + b)[..|a + b| - 1] == a + b[..|b| - 1];
      TotalValueAppend(a, b[..|b| - 1]);
    } else {
      assert a + b == a;
    }
  }

  /** Items without a price or without a quantity add nothing to the total. */
  lemma {:induction false} MissingValuesAddNothing(items: seq<ItemLine>, item: ItemLine)
    requires item.sellingPrice.None? || item.quantity.None?
    ensures TotalValue(items + [item]) == TotalValue(items)
  {
    assert (items + [item])[..|items|] == items;
  }

  /** With prices and quantities that are never negative, the total is never negative. */
  lemma {:induction false} TotalValueNonNegative(items: seq<ItemLine>)
    requires forall i :: 0 <= i < |items| ==> items[i].sellingPrice.GetOr(0.0) >= 0.0 && items[i].quantity.GetOr(0) >= 0
    ensures TotalValue(items) >= 0.0
  {
    if items != [] {
      TotalValueNonNegative(items[..|items| - 1]);
      var last := items[|items| - 1];
      assert last.sellingPrice.GetOr(0.0) * last.quantity.GetOr(0) as real >= 0.0;
    }
  }

  /** "item" for exactly one, "items" for any other count. */
  function Noun(count: nat): (r: string)
    ensures r == "item" <==> count == 1
  {
    if count == 1 then "item" else "items"
  }

  /** `getSubtitle(itemCount, totalValue)`, with the total already rendered by `formatCurrency`. */
  function Subtitle(count: nat, formattedTotal: string): string
  {
    Decimal(count) + " " + Noun(count) + " | Total Value: " + formattedTotal
  }

  /** The subtitle starts with the count, which reads back from it. */
  lemma SubtitleCount(count: nat, formattedTotal: string)
    ensures var r, d := Subtitle(count, formattedTotal), Decimal(count);
      && |r| > |d|
      && r[..|d|] == d
      && ParseDecimal(r[..|d|]) == count
      && r[|d|] == ' '
  {
    var d := Decimal(count);
    var rest := " " + Noun(count) + " | Total Value: " + formattedTotal;
    assert Subtitle(count, formattedTotal) == d + rest;
    ParseDecimalRoundTrip(count);
  }

  /** The table's subtitle: present only when there are items, and then the
      count and the rendered total of exactly those items. */
  function ListingSubtitle(items: seq<ItemLine>, formatCurrency: real -> string): (r: Option<string>)
    ensures r.None? <==> items == []
    ensures r.Some? ==> r.value == Subtitle(|items|, formatCurrency(TotalValue(items)))
  {
    if |items| > 0 then Some(Subtitle(|items|, formatCurrency(TotalValue(items)))) else None
  }

  /** `formatDate(date)`: "N/A" for a missing or empty value, "Invalid date"
      when it does not parse, else `format` (date-fns with "MMM dd, yyyy"). */
  function FormatDate(input: NormalDate.DateInput, parse: string -> NormalDate.Date, format: NormalDate.Date -> string): (r: string)
    ensures input.Absent? || input == NormalDate.Text("") ==> r == "N/A"
    ensures input.Value? && input.date.Invalid? ==> r == "Invalid date"
    ensures input.Text? && input.text != "" && parse(input.text).Invalid? ==> r == "Invalid date"
    ensures input.Value? && input.date.Valid? ==> r == format(input.date)
    ensures input.Text? && input.text != "" && parse(input.text).Valid? ==> r == format(parse(input.text))
  {
    var date := match input
      case Absent => NormalDate.Invalid
      case Text(s) => if s == "" then NormalDate.Invalid else parse(s)
      case Value(d) => d;
    if input.Absent? || input == NormalDate.Text("") then "N/A"
    else if date.Invalid? then "Invalid date"
    else format(date)
  }
}

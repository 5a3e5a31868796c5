/** `generateSKU` of `lib/generateSKU.ts`.

    The SKU is built from letter prefixes of the item, brand and category
    names and a four-digit number. The number comes from `Math.random`, which
    is not part of this model, so it is a parameter in 1000..9999. */
module Sku {
  import opened Wrappers
  import opened Strings
  import opened Seqs

  /** `s.replace(/[^a-zA-Z]/g, "")`: the ASCII letters of `s`, in order. */
  function Letters(s: string): (r: string)
    ensures |r| <= |s|
    ensures forall i :: 0 <= i < |r| ==> IsAsciiLetter(r[i])
  {
    Filter(s, IsAsciiLetter)
  }

  /** `.replace(/[^a-zA-Z]/g, "").substring(0, n).toUpperCase()`: the first
      `n` letters of `s` (fewer when it has fewer), upper-cased. */
  function LetterPrefix(s: string, n: nat): (r: string)
    ensures |r| == if |Letters(s)| < n then |Letters(s)| else n
    ensures IsPrefix(r, Upper(Letters(s)))
    ensures forall i :: 0 <= i < |r| ==> IsUpperAscii(r[i])
  {
    var letters := Letters(s);
    var taken := if |letters| < n then letters else letters[..n];
    assert forall i :: 0 <= i < |taken| ==> IsAsciiLetter(taken[i]);
    Upper(taken)
  }

  /** The item-name part: at most three upper-case letters. */
  function NamePrefix(name: string): (r: string)
    ensures |r| <= 3
  {
    LetterPrefix(name, 3)
  }

  /** The brand or category part: `value ? <first two letters> : ""`; an
      absent value and one without letters both give the empty prefix. */
  function OptionalPrefix(value: Option<string>): (r: string)
    ensures |r| <= 2
    ensures value.None? ==> r == ""
    ensures value.Some? ==> r == LetterPrefix(value.value, 2)
  {
    match value
    case None => ""
    case Some(s) => if s == "" then "" else LetterPrefix(s, 2)
  }

  /** A character a SKU may hold. */
  predicate IsSkuChar(c: char)
  {
    IsUpperAscii(c) || IsDigit(c) || c == '-'
  }

  /** No `-` among upper-case letters and digits. */
  predicate DashFree(s: string)
  {
    forall i :: 0 <= i < |s| ==> IsUpperAscii(s[i]) || IsDigit(s[i])
  }

  /** The part before the name prefix, chosen by which of the brand and
      category prefixes are non-empty: both and a dash, one and a dash, or nothing. */
  function Head(b: string, c: string): (h: string)
    requires DashFree(b) && DashFree(c)
    ensures |h| == if b + c == "" then 0 else |b| + |c| + 1
    ensures b + c != "" ==> h[..|b| + |c|] == b + c && h[|b| + |c|] == '-'
    ensures forall i :: 0 <= i < |h| ==> IsSkuChar(h[i])
  {
    if b != "" && c != "" then b + c + "-"
    else if b != "" then b + "-"
    else if c != "" then c + "-"
    else ""
  }

  /** The name prefix followed by the four digits. */
  function Tail(n: string, randomNum: nat): (t: string)
    requires DashFree(n) && 1000 <= randomNum <= 9999
    ensures |t| == |n| + 4 && DashFree(t)
    ensures t[..|n|] == n && t[|n|..] == Decimal(randomNum)
  {
    FourDigits(randomNum);
    n + Decimal(randomNum)
  }

  /** The SKU from its parts: brand prefix `b`, category prefix `c`, name prefix `n`. */
  function Assemble(b: string, c: string, n: string, randomNum: nat): (r: string)
    requires DashFree(b) && DashFree(c) && DashFree(n) && 1000 <= randomNum <= 9999
    ensures |r| == |Head(b, c)| + |n| + 4 && r[|r| - 4..] == Decimal(randomNum)
  {
    var h, t := Head(b, c), Tail(n, randomNum);
    SliceOfTail(h, t, |h| + |n|, |h + t|);
    h + t
  }

  /** A slice of `h + t` past the end of `h` is a slice of `t`. */
  lemma SliceOfTail(h: string, t: string, i: nat, j: nat)
    requires |h| <= i <= j <= |h + t|
    ensures (h + t)[i..j] == t[i - |h|..j - |h|]
  {
    assert forall k :: i <= k < j ==> (h + t)[k] == t[k - |h|];
  }

  /** What the parts give: the length and alphabet, the dash exactly when a
      brand or category prefix is present, the prefixes in front, the name
      prefix and then the digits at the end. */
  lemma AssembleParts(b: string, c: string, n: string, randomNum: nat)
    requires DashFree(b) && DashFree(c) && DashFree(n) && 1000 <= randomNum <= 9999
    ensures var r := Assemble(b, c, n, randomNum);
      && |r| == |Head(b, c)| + |n| + 4
      && (forall i :: 0 <= i < |r| ==> IsSkuChar(r[i]))
      && ('-' in r <==> b + c != "")
      && (b + c != "" ==> r[..|b|] == b && r[|b|..|b| + |c|] == c && r[|b| + |c|] == '-')
      && r[|r| - 4 - |n|..|r| - 4] == n
      && r[|r| - 4..] == Decimal(randomNum)
  {
    var h, t := Head(b, c), Tail(n, randomNum);
    var r := h + t;
    forall i | 0 <= i < |r| ensures IsSkuChar(r[i]) {
      if i >= |h| { assert r[i] == t[i - |h|]; }
    }
    if b + c == "" {
      assert r == t;
      assert forall i :: 0 <= i < |t| ==> t[i] != '-';
    } else {
      assert r[|b| + |c|] == '-';
      assert r[..|b| + |c|] == b + c;
      assert (b + c)[..|b|] == b && (b + c)[|b|..] == c;
    }
    SliceOfTail(h, t, |h|, |h| + |n|);
    SliceOfTail(h, t, |h| + |n|, |r|);
  }

  /** `generateSKU(name, brandName, categoryName)` with `randomNum` for the random suffix. */
  function GenerateSku(name: string, brand: Option<string>, category: Option<string>, randomNum: nat): (r: string)
    requires 1000 <= randomNum <= 9999
    ensures 4 <= |r| <= 12 && r[|r| - 4..] == Decimal(randomNum)
  {
    Assemble(OptionalPrefix(brand), OptionalPrefix(category), NamePrefix(name), randomNum)
  }

  /** At most twelve characters (two, two, a dash, three and four), all
      upper-case letters, digits or the dash, with a dash exactly when the
      brand or the category contributes a prefix. */
  lemma SkuShape(name: string, brand: Option<string>, category: Option<string>, randomNum: nat)
    requires 1000 <= randomNum <= 9999
    ensures var r := GenerateSku(name, brand, category, randomNum);
      && 4 <= |r| <= 12
      && (forall i :: 0 <= i < |r| ==> IsSkuChar(r[i]))
      && ('-' in r <==> OptionalPrefix(brand) != "" || OptionalPrefix(category) != "")
  {
    AssembleParts(OptionalPrefix(brand), OptionalPrefix(category), NamePrefix(name), randomNum);
  }

  /** The SKU starts with the brand prefix, then the category prefix, then
      the dash when either is non-empty. */
  lemma SkuLeadsWithBrand(name: string, brand: Option<string>, category: Option<string>, randomNum: nat)
    requires 1000 <= randomNum <= 9999
    ensures var r := GenerateSku(name, brand, category, randomNum);
      var b, c := OptionalPrefix(brand), OptionalPrefix(category);
      b + c != "" ==> r[..|b|] == b && r[|b|..|b| + |c|] == c && r[|b| + |c|] == '-'
  {
    AssembleParts(OptionalPrefix(brand), OptionalPrefix(category), NamePrefix(name), randomNum);
  }

  /** The last four characters are the random number's digits. */
  lemma SkuEndsWithNumber(name: string, brand: Option<string>, category: Option<string>, randomNum: nat)
    requires 1000 <= randomNum <= 9999
    ensures var r := GenerateSku(name, brand, category, randomNum);
      |r| >= 4 && r[|r| - 4..] == Decimal(randomNum)
  {
    AssembleParts(OptionalPrefix(brand), OptionalPrefix(category), NamePrefix(name), randomNum);
  }

  /** Whatever the prefixes, the last four characters of the SKU read back as
      the random number. */
  lemma {:induction false} AssembledNumberRoundTrip(b: string, c: string, n: string, randomNum: nat)
    requires DashFree(b) && DashFree(c) && DashFree(n) && 1000 <= randomNum <= 9999
    ensures var r := Assemble(b, c, n, randomNum);
      |r| >= 4 && ParseDecimal(r[|r| - 4..]) == randomNum
  {
    AssembleParts(b, c, n, randomNum);
    ParseDecimalRoundTrip(randomNum);
  }

  /** Non-letters in the names never reach the SKU: only the letters count. */
  lemma OnlyLettersCount(name: string, brand: string, category: string, randomNum: nat)
    requires 1000 <= randomNum <= 9999
    ensures GenerateSku(name, Some(brand), Some(category), randomNum)
         == GenerateSku(Letters(name), Some(Letters(brand)), Some(Letters(category)), randomNum)
  {
    FilterIdempotent(name, IsAsciiLetter);
    FilterIdempotent(brand, IsAsciiLetter);
    FilterIdempotent(category, IsAsciiLetter);
  }
}

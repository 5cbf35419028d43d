/**
 * The string operations the pages apply to prices, ids and dates: JavaScript's
 * `indexOf` and `replace` with a string pattern (first occurrence only),
 * `String(n)` for a whole number, `toFixed(2)` on an amount held in cents,
 * `parseFloat` on plain decimal strings, and `split`/`reverse`/`join`.
 */
module Text {
  import opened Wrappers

  // ---------------------------------------------------------------------------
  // Searching and replacing

  /** `pat` occurs in `s` starting at position `i`. */
  predicate OccursAt(s: string, pat: string, i: nat) {
    i + |pat| <= |s| && s[i..i + |pat|] == pat
  }

  /** `s.indexOf(pat, from)`: the first position at or after `from` where `pat` occurs. */
  function IndexFrom(s: string, pat: string, from: nat): (r: Option<nat>)
    decreases |s| - from
    ensures r.Some? ==> from <= r.value && OccursAt(s, pat, r.value)
    ensures r.Some? ==> forall j: nat :: from <= j < r.value ==> !OccursAt(s, pat, j)
    ensures r.None? ==> forall j: nat :: from <= j ==> !OccursAt(s, pat, j)
  {
    if from + |pat| > |s| then None
    else if s[from..from + |pat|] == pat then Some(from)
    else IndexFrom(s, pat, from + 1)
  }

  function IndexOf(s: string, pat: string): Option<nat> {
    IndexFrom(s, pat, 0)
  }

  /** `s.replace(pat, rep)` for a string `pat`: only the first occurrence is replaced. */
  function ReplaceFirst(s: string, pat: string, rep: string): string {
    match IndexOf(s, pat)
    case None => s
    case Some(i) => s[..i] + rep + s[i + |pat|..]
  }

  /** The first occurrence, at `i`, is the one replaced. */
  lemma ReplaceFirstAt(s: string, pat: string, rep: string, i: nat)
    requires OccursAt(s, pat, i)
    requires forall j: nat :: j < i ==> !OccursAt(s, pat, j)
    ensures ReplaceFirst(s, pat, rep) == s[..i] + rep + s[i + |pat|..]
  {
    var k := IndexOf(s, pat);
    assert k.Some?;
    assert !(k.value < i);
    assert !(i < k.value);
  }

  lemma OccursAtChar(s: string, c: char, j: nat)
    ensures OccursAt(s, [c], j) <==> j < |s| && s[j] == c
  {
    if j < |s| {
      assert s[j..j + 1] == [s[j]];
    }
  }

  lemma ReplaceAbsent(s: string, c: char, rep: string)
    requires c !in s
    ensures ReplaceFirst(s, [c], rep) == s
  {
    forall j: nat ensures !OccursAt(s, [c], j) {
      OccursAtChar(s, c, j);
    }
    assert IndexOf(s, [c]).None?;
  }

  /** In `a + [c] + b` with no `c` in `a`, the first `c` is the one after `a`. */
  lemma FirstAt(a: string, c: char, b: string)
    requires c !in a
    ensures IndexOf(a + [c] + b, [c]) == Some(|a|)
  {
    var s := a + [c] + b;
    OccursAtChar(s, c, |a|);
    forall j: nat | j < |a| ensures !OccursAt(s, [c], j) {
      OccursAtChar(s, c, j);
      assert s[j] == a[j];
    }
  }

  lemma ReplaceAfter(a: string, c: char, b: string, rep: string)
    requires c !in a
    ensures ReplaceFirst(a + [c] + b, [c], rep) == a + rep + b
  {
    var s := a + [c] + b;
    FirstAt(a, c, b);
    assert s[..|a|] == a;
    assert s[|a| + 1..] == b;
  }

  lemma ReplaceAtStart(pat: string, b: string, rep: string)
    ensures ReplaceFirst(pat + b, pat, rep) == rep + b
  {
    var s := pat + b;
    assert s[0..|pat|] == pat;
    ReplaceFirstAt(s, pat, rep, 0);
    assert s[|pat|..] == b;
  }

  // ---------------------------------------------------------------------------
  // Decimal digits

  predicate IsDigit(c: char) {
    '0' <= c <= '9'
  }

  predicate AllDigits(s: string) {
    forall i :: 0 <= i < |s| ==> IsDigit(s[i])
  }

  function DigitChar(d: nat): (c: char)
    requires d < 10
    ensures IsDigit(c) && c as int - '0' as int == d
  {
    (d + '0' as int) as char
  }

  /** The value of a string of decimal digits (the empty string reads as 0). */
  function DecimalValue(s: string): nat
    requires AllDigits(s)
  {
    if s == [] then 0 else 10 * DecimalValue(s[..|s| - 1]) + (s[|s| - 1] as int - '0' as int)
  }

  /** `String(n)` for a whole number: its decimal digits, without leading zeros. */
  function NatToString(n: nat): (r: string)
    ensures 1 <= |r| && AllDigits(r)
  {
    if n < 10 then [DigitChar(n)] else NatToString(n / 10) + [DigitChar(n % 10)]
  }

  lemma {:induction false} DecimalValueOfNatToString(n: nat)
    ensures DecimalValue(NatToString(n)) == n
  {
    if n >= 10 {
      DecimalValueOfNatToString(n / 10);
      var s := NatToString(n);
      assert s[..|s| - 1] == NatToString(n / 10);
    }
  }

  /** Distinct timestamps give distinct decimal strings, hence distinct `prefix-<now>` ids. */
  lemma NatToStringInjective(m: nat, n: nat)
    requires NatToString(m) == NatToString(n)
    ensures m == n
  {
    DecimalValueOfNatToString(m);
    DecimalValueOfNatToString(n);
  }

  lemma PrefixedIdInjective(prefix: string, m: nat, n: nat)
    requires prefix + NatToString(m) == prefix + NatToString(n)
    ensures m == n
  {
    assert NatToString(m) == (prefix + NatToString(m))[|prefix|..];
    assert NatToString(n) == (prefix + NatToString(n))[|prefix|..];
    NatToStringInjective(m, n);
  }

  function Pow10(k: nat): (r: nat)
    ensures r >= 1
  {
    if k == 0 then 1 else 10 * Pow10(k - 1)
  }

  /** Appending one digit multiplies by ten and adds it. */
  lemma DecimalValueSnoc(s: string)
    requires AllDigits(s) && s != []
    ensures AllDigits(s[..|s| - 1])
    ensures DecimalValue(s) == 10 * DecimalValue(s[..|s| - 1]) + (s[|s| - 1] as int - '0' as int)
  {
  }

  lemma ShiftStep(x: int, p: int, d: int, l: int)
    ensures 10 * (x * p + d) + l == x * (10 * p) + (10 * d + l)
  {
  }

  /** The digits of `a + b` read as `a` shifted left by the length of `b`, plus `b`. */
  lemma {:induction false} DecimalValueConcat(a: string, b: string)
    requires AllDigits(a) && AllDigits(b)
    ensures AllDigits(a + b) && DecimalValue(a + b) == DecimalValue(a) * Pow10(|b|) + DecimalValue(b)
  {
    if b == [] {
      assert a + b == a;
    } else {
      var s := a + b;
      var front := b[..|b| - 1];
      var last := b[|b| - 1] as int - '0' as int;
      assert s[..|s| - 1] == a + front;
      assert s[|s| - 1] == b[|b| - 1];
      DecimalValueConcat(a, front);
      DecimalValueSnoc(s);
      DecimalValueSnoc(b);
      ShiftStep(DecimalValue(a), Pow10(|front|), DecimalValue(front), last);
    }
  }

  lemma {:induction false} DecimalValueBound(s: string)
    requires AllDigits(s)
    ensures DecimalValue(s) < Pow10(|s|)
  {
    if s != [] {
      DecimalValueBound(s[..|s| - 1]);
    }
  }

  /** Two digits, with a leading zero when below ten. */
  function Pad2(n: nat): (r: string)
    requires n < 100
    ensures |r| == 2 && AllDigits(r) && DecimalValue(r) == n
  {
    var r := [DigitChar(n / 10), DigitChar(n % 10)];
    assert r[..1] == [DigitChar(n / 10)] && r[..1][..0] == [];
    assert DecimalValue(r[..1]) == n / 10;
    assert DecimalValue(r) == 10 * (n / 10) + n % 10;
    r
  }

  // ---------------------------------------------------------------------------
  // Amounts held as whole cents

  function Abs(x: int): nat {
    if x < 0 then -x else x
  }

  function Sign(cents: int): string {
    if cents < 0 then "-" else ""
  }

  /** `x.toFixed(2)` for an amount `x` of `cents / 100`. */
  function ToFixed2(cents: int): string {
    Sign(cents) + NatToString(Abs(cents) / 100) + "." + Pad2(Abs(cents) % 100)
  }

  /** `` `R$${x.toFixed(2).replace('.', ',')}` ``: how the pages write a price or a total. */
  function FormatPrice(cents: int): string {
    "R$" + ReplaceFirst(ToFixed2(cents), ".", ",")
  }

  /** `price.replace('R$', '').replace('.', '').replace(',', '.')`: how the pages read one back. */
  function Unformat(price: string): string {
    ReplaceFirst(ReplaceFirst(ReplaceFirst(price, "R$", ""), ".", ""), ",", ".")
  }

  /** Cents from the digits after a decimal point (at most two). */
  function FractionCents(frac: string): nat
    requires AllDigits(frac) && |frac| <= 2
  {
    if |frac| == 2 then DecimalValue(frac) else 10 * DecimalValue(frac)
  }

  /** `parseFloat(t)`, in cents, for `t` of the form D+ or D+.D{0,2}; `None` for any other string. */
  function ParseUnsigned(t: string): Option<nat> {
    match IndexOf(t, ".")
    case None => if 1 <= |t| && AllDigits(t) then Some(100 * DecimalValue(t)) else None
    case Some(k) =>
      var whole, frac := t[..k], t[k + 1..];
      if 1 <= |whole| && AllDigits(whole) && AllDigits(frac) && |frac| <= 2
      then Some(100 * DecimalValue(whole) + FractionCents(frac))
      else None
  }

  /** `parseFloat(s)`, in cents, for `s` of the form [-]D+[.D{0,2}]; `None` (read as NaN) otherwise. */
  function ParseCents(s: string): Option<int> {
    if 1 <= |s| && s[0] == '-' then
      match ParseUnsigned(s[1..])
      case Some(v) => Some(-(v as int))
      case None => None
    else ParseUnsigned(s)
  }

  lemma DigitsHaveNoChar(s: string, c: char)
    requires AllDigits(s) && !IsDigit(c)
    ensures c !in s
  {
  }

  /** `toFixed(2)` is its lead (sign and whole part), a dot and two digits; neither part holds a dot or a comma. */
  lemma ToFixed2Parts(cents: int)
    ensures var lead, frac := Sign(cents) + NatToString(Abs(cents) / 100), Pad2(Abs(cents) % 100);
            ToFixed2(cents) == lead + "." + frac &&
            '.' !in lead && ',' !in lead && '.' !in frac && ',' !in frac
  {
    DigitsHaveNoChar(NatToString(Abs(cents) / 100), '.');
    DigitsHaveNoChar(NatToString(Abs(cents) / 100), ',');
    DigitsHaveNoChar(Pad2(Abs(cents) % 100), '.');
    DigitsHaveNoChar(Pad2(Abs(cents) % 100), ',');
  }

  /** The written price is "R$", an optional minus, the whole part, a comma and two digits. */
  lemma FormatPriceShape(cents: int)
    ensures FormatPrice(cents) ==
            "R$" + ((Sign(cents) + NatToString(Abs(cents) / 100)) + "," + Pad2(Abs(cents) % 100))
  {
    ToFixed2Parts(cents);
    ReplaceAfter(Sign(cents) + NatToString(Abs(cents) / 100), '.', Pad2(Abs(cents) % 100), ",");
  }

  lemma DropCurrency(tail: string)
    ensures ReplaceFirst("R$" + tail, "R$", "") == tail
  {
    ReplaceAtStart("R$", tail, "");
    assert "" + tail == tail;
  }

  lemma DropAbsentPoint(lead: string, frac: string)
    requires '.' !in lead && '.' !in frac
    ensures ReplaceFirst(lead + "," + frac, ".", "") == lead + "," + frac
  {
    assert '.' !in lead + "," + frac;
    ReplaceAbsent(lead + "," + frac, '.', "");
  }

  /** A price "R$" + lead + "," + frac, with no dot and no comma before the comma, reads back as lead + "." + frac. */
  lemma UnformatWritten(lead: string, frac: string)
    requires '.' !in lead && ',' !in lead && '.' !in frac
    ensures Unformat("R$" + (lead + "," + frac)) == lead + "." + frac
  {
    DropCurrency(lead + "," + frac);
    DropAbsentPoint(lead, frac);
    ReplaceAfter(lead, ',', frac, ".");
  }

  /** Reading back a price the pages wrote gives the `toFixed(2)` string it came from. */
  lemma UnformatFormatPrice(cents: int)
    ensures Unformat(FormatPrice(cents)) == ToFixed2(cents)
  {
    ToFixed2Parts(cents);
    FormatPriceShape(cents);
    UnformatWritten(Sign(cents) + NatToString(Abs(cents) / 100), Pad2(Abs(cents) % 100));
  }

  /** A dot between digits is the first dot, and it splits the string back into its parts. */
  lemma PointSplit(whole: string, frac: string)
    requires AllDigits(whole)
    ensures var t := whole + "." + frac;
            IndexOf(t, ".") == Some(|whole|) && t[..|whole|] == whole && t[|whole| + 1..] == frac
  {
    DigitsHaveNoChar(whole, '.');
    FirstAt(whole, '.', frac);
    var t := whole + "." + frac;
    assert t[..|whole|] == whole;
    assert t[|whole| + 1..] == frac;
  }

  /** `parseFloat` of digits, a first dot at `k`, and two more digits. */
  lemma ParseAtPoint(t: string, k: nat)
    requires IndexOf(t, ".") == Some(k) && 1 <= k
    requires AllDigits(t[..k]) && AllDigits(t[k + 1..]) && |t[k + 1..]| == 2
    ensures ParseUnsigned(t) == Some(100 * DecimalValue(t[..k]) + DecimalValue(t[k + 1..]))
  {
  }

  lemma ParseDecimal(whole: string, frac: string)
    requires 1 <= |whole| && AllDigits(whole) && |frac| == 2 && AllDigits(frac)
    ensures ParseUnsigned(whole + "." + frac) == Some(100 * DecimalValue(whole) + DecimalValue(frac))
  {
    PointSplit(whole, frac);
    ParseAtPoint(whole + "." + frac, |whole|);
  }

  /** A minus sign in front of an unsigned number negates it. */
  lemma ParseSigned(body: string, v: nat)
    requires ParseUnsigned(body) == Some(v) && 1 <= |body| && body[0] != '-'
    ensures ParseCents(body) == Some(v)
    ensures ParseCents("-" + body) == Some(-(v as int))
  {
    assert ("-" + body)[1..] == body;
  }

  /** `toFixed(2)` of an amount is its sign followed by an unsigned decimal with two places. */
  lemma ToFixed2Unsigned(cents: int)
    ensures var body := NatToString(Abs(cents) / 100) + "." + Pad2(Abs(cents) % 100);
            ToFixed2(cents) == Sign(cents) + body && 1 <= |body| && body[0] != '-' &&
            ParseUnsigned(body) == Some(Abs(cents))
  {
    var whole, frac := NatToString(Abs(cents) / 100), Pad2(Abs(cents) % 100);
    ParseDecimal(whole, frac);
    DecimalValueOfNatToString(Abs(cents) / 100);
    assert (whole + "." + frac)[0] == whole[0];
  }

  /** `parseFloat(x.toFixed(2))` gives back `x`: the formatting of whole cents is lossless. */
  lemma ParseToFixed2(cents: int)
    ensures ParseCents(ToFixed2(cents)) == Some(cents)
  {
    var body := NatToString(Abs(cents) / 100) + "." + Pad2(Abs(cents) % 100);
    ToFixed2Unsigned(cents);
    ParseSigned(body, Abs(cents));
    if cents < 0 {
      assert Sign(cents) + body == "-" + body;
    } else {
      assert Sign(cents) + body == body;
    }
  }

  /** A price in the shape the pages write survives being read back, parsed and written again. */
  lemma PriceRoundTrip(cents: int)
    ensures ParseCents(Unformat(FormatPrice(cents))) == Some(cents)
  {
    UnformatFormatPrice(cents);
    ParseToFixed2(cents);
  }

  lemma DecimalValueAppend(a: string, b: string)
    requires AllDigits(a) && AllDigits(b) && |b| == 2
    ensures AllDigits(a + b) && DecimalValue(a + b) == 100 * DecimalValue(a) + DecimalValue(b)
  {
    var s := a + b;
    var d0, d1 := b[0] as int - '0' as int, b[1] as int - '0' as int;
    assert s[..|s| - 1] == a + b[..1];
    assert (a + b[..1])[..|a|] == a;
    assert b[..1][..0] == [];
    assert DecimalValue(b[..1]) == d0;
    assert DecimalValue(b) == 10 * d0 + d1;
    assert DecimalValue(a + b[..1]) == 10 * DecimalValue(a) + d0;
    assert DecimalValue(s) == 10 * DecimalValue(a + b[..1]) + d1;
  }

  lemma ParseWholeDigits(t: string)
    requires 1 <= |t| && AllDigits(t)
    ensures ParseCents(t) == Some(100 * DecimalValue(t))
  {
    DigitsHaveNoChar(t, '.');
    ReplaceAbsent(t, '.', "");
    assert IndexOf(t, ".").None?;
  }

  lemma DropPoint(whole: string, frac: string)
    requires AllDigits(whole)
    ensures ReplaceFirst(whole + "." + frac, ".", "") == whole + frac
  {
    DigitsHaveNoChar(whole, '.');
    assert whole + "." + frac == whole + ['.'] + frac;
    ReplaceAfter(whole, '.', frac, "");
    assert whole + "" + frac == whole + frac;
  }

  lemma UnformatDotted(whole: string, frac: string)
    requires AllDigits(whole) && AllDigits(frac)
    ensures Unformat("R$" + whole + "." + frac) == whole + frac
  {
    var tail := whole + "." + frac;
    assert "R$" + whole + "." + frac == "R$" + tail;
    DropCurrency(tail);
    DropPoint(whole, frac);
    assert AllDigits(whole + frac);
    DigitsHaveNoChar(whole + frac, ',');
    ReplaceAbsent(whole + frac, ',', ".");
  }

  /** A price written with a dot for the decimal point parses to its own value. */
  lemma DottedPriceParses(whole: string, frac: string)
    requires 1 <= |whole| && AllDigits(whole) && |frac| == 2 && AllDigits(frac)
    ensures ParseCents(whole + "." + frac) == Some(DecimalValue(whole + frac))
  {
    ParseDecimal(whole, frac);
    DecimalValueAppend(whole, frac);
    var written := whole + "." + frac;
    assert written[0] == whole[0];
    assert !(written[0] == '-');
  }

  /** A dotted price, once its currency marker and separators are stripped, parses as its bare digits. */
  lemma DottedPriceReadsDigits(whole: string, frac: string)
    requires 1 <= |whole| && AllDigits(whole) && |frac| == 2 && AllDigits(frac)
    ensures ParseCents(Unformat("R$" + whole + "." + frac)) == Some(100 * DecimalValue(whole + frac))
  {
    UnformatDotted(whole, frac);
    assert AllDigits(whole + frac);
    ParseWholeDigits(whole + frac);
  }

  /**
   * A price written "R$" + digits + "." + two digits (a dot for the decimal point)
   * loses its point when read back, so it parses as one hundred times its value.
   */
  lemma DottedPriceReadsHundredfold(whole: string, frac: string)
    requires 1 <= |whole| && AllDigits(whole) && |frac| == 2 && AllDigits(frac)
    ensures ParseCents(whole + "." + frac).Some?
    ensures ParseCents(Unformat("R$" + whole + "." + frac)) == Some(100 * ParseCents(whole + "." + frac).value)
  {
    DottedPriceParses(whole, frac);
    DottedPriceReadsDigits(whole, frac);
  }

  /** The price the pages write for an amount, with NaN (an unparsable input) written "R$NaN". */
  function FormatAmount(amount: Option<int>): string {
    match amount
    case Some(cents) => FormatPrice(cents)
    case None => "R$NaN"
  }

  lemma SeedDigits()
    ensures NatToString(750000) == "750000"
  {
    assert NatToString(7) == "7";
    assert NatToString(75) == "75";
    assert NatToString(750) == "750";
    assert NatToString(7500) == "7500";
    assert NatToString(75000) == "75000";
  }

  lemma SeedUnformat()
    ensures Unformat("R$7500.00") == "750000"
  {
    assert "R$7500.00" == "R$" + "7500" + "." + "00";
    UnformatDotted("7500", "00");
    assert "7500" + "00" == "750000";
  }

  lemma SeedParse()
    ensures ParseCents("750000") == Some(75000000)
  {
    SeedDigits();
    ParseWholeDigits(NatToString(750000));
    DecimalValueOfNatToString(750000);
  }

  /** A whole number of reais is written with ",00". */
  lemma WholeReaisParts(n: nat)
    ensures Abs(100 * n) / 100 == n && Abs(100 * n) % 100 == 0 && Sign(100 * n) == ""
  {
  }

  lemma ZeroCentsPadded()
    ensures Pad2(0) == "00"
  {
  }

  lemma NoCentsText(whole: string)
    ensures ("" + whole) + "," + "00" == whole + ",00"
  {
  }

  lemma FormatWholeReais(n: nat)
    ensures FormatPrice(100 * n) == "R$" + (NatToString(n) + ",00")
  {
    WholeReaisParts(n);
    ZeroCentsPadded();
    NoCentsText(NatToString(n));
    FormatPriceShape(100 * n);
  }

  lemma SeedText()
    ensures "R$" + ("750000" + ",00") == "R$750000,00"
  {
    assert "750000" + ",00" == "750000,00";
  }

  lemma SeedFormat()
    ensures FormatPrice(75000000) == "R$750000,00"
  {
    FormatWholeReais(750000);
    SeedDigits();
    SeedText();
  }

  /**
   * The seed price "R$7500.00" reads back as 750000 reais (75000000 cents),
   * which the pages then write as "R$750000,00".
   */
  lemma SeedPriceReadBack()
    ensures ParseCents(Unformat("R$7500.00")) == Some(75000000)
    ensures FormatAmount(ParseCents(Unformat("R$7500.00"))) == "R$750000,00"
  {
    SeedUnformat();
    SeedParse();
    SeedFormat();
  }

  // ---------------------------------------------------------------------------
  // split / reverse / join

  /** `s.split(sep)` for a one-character separator. */
  function Split(s: string, sep: char): (r: seq<string>)
    ensures 1 <= |r|
    decreases |s|
  {
    match IndexOf(s, [sep])
    case None => [s]
    case Some(i) => [s[..i]] + Split(s[i + 1..], sep)
  }

  function Reverse<T>(xs: seq<T>): (r: seq<T>)
    ensures |r| == |xs|
  {
    if xs == [] then [] else Reverse(xs[1..]) + [xs[0]]
  }

  /** `parts.join(sep)`. */
  function Join(parts: seq<string>, sep: char): string {
    if parts == [] then "" else if |parts| == 1 then parts[0] else parts[0] + [sep] + Join(parts[1..], sep)
  }

  lemma SplitAfter(a: string, sep: char, b: string)
    requires sep !in a
    ensures Split(a + [sep] + b, sep) == [a] + Split(b, sep)
  {
    var s := a + [sep] + b;
    FirstAt(a, sep, b);
    assert s[..|a|] == a;
    assert s[|a| + 1..] == b;
  }

  lemma SplitWhole(s: string, sep: char)
    requires sep !in s
    ensures Split(s, sep) == [s]
  {
    forall j: nat ensures !OccursAt(s, [sep], j) {
      OccursAtChar(s, sep, j);
    }
    assert IndexOf(s, [sep]).None?;
  }

  /** `dmy.split('/').reverse().join('-')` turns "dd/mm/yyyy" into "yyyy-mm-dd". */
  function IsoDate(dmy: string): string {
    Join(Reverse(Split(dmy, '/')), '-')
  }

  lemma IsoDateOfLocal(dd: string, mm: string, yyyy: string)
    requires '/' !in dd && '/' !in mm && '/' !in yyyy
    ensures IsoDate(dd + "/" + mm + "/" + yyyy) == yyyy + "-" + mm + "-" + dd
  {
    var rest := mm + ['/'] + yyyy;
    assert dd + "/" + mm + "/" + yyyy == dd + ['/'] + rest;
    SplitAfter(dd, '/', rest);
    SplitAfter(mm, '/', yyyy);
    SplitWhole(yyyy, '/');
    assert Split(dd + "/" + mm + "/" + yyyy, '/') == [dd, mm, yyyy];
    assert Reverse([dd, mm, yyyy]) == [yyyy, mm, dd] by {
      assert [yyyy][1..] == [];
      assert Reverse([yyyy]) == [yyyy];
      assert [mm, yyyy][1..] == [yyyy];
      assert Reverse([mm, yyyy]) == [yyyy, mm];
      assert [dd, mm, yyyy][1..] == [mm, yyyy];
    }
    assert Join([yyyy, mm, dd], '-') == yyyy + "-" + mm + "-" + dd by {
      assert [yyyy, mm, dd][1..] == [mm, dd];
      assert [mm, dd][1..] == [dd];
      assert Join([dd], '-') == dd;
    }
  }
}

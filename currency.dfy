/** The currency table and `formatCurrency`: `toFixed` rounding to the currency's
    number of decimals, a comma before every group of three digits of the integer
    part, and the symbol placed before or after the number. */
module Currency {
  import opened Inputs

  datatype Position = Before | After

  datatype CurrencyInfo = CurrencyInfo(symbol: string, position: Position, decimals: nat)

  /** The fixed table of selectable currencies. An unknown code is `None`: the source then
      reads a field of `undefined` and throws. */
  function Lookup(code: string): (r: Option<CurrencyInfo>)
    ensures r.Some? <==> code == "USD" || code == "EUR" || code == "INR" || code == "JPY" || code == "CNY"
    ensures r.Some? ==> r.value.position == Before && |r.value.symbol| == 1
    ensures r.Some? ==> r.value.decimals == (if code == "JPY" then 0 else 2)
  {
    if code == "USD" then Some(CurrencyInfo("$", Before, 2))
    else if code == "EUR" then Some(CurrencyInfo("\U{20AC}", Before, 2))
    else if code == "INR" then Some(CurrencyInfo("\U{20B9}", Before, 2))
    else if code == "JPY" then Some(CurrencyInfo("\U{00A5}", Before, 0))
    else if code == "CNY" then Some(CurrencyInfo("\U{00A5}", Before, 2))
    else None
  }

  // ---------------------------------------------------------------- decimal digits

  predicate IsDigit(c: char) { '0' <= c <= '9' }

  predicate AllDigits(s: seq<char>) { forall i :: 0 <= i < |s| ==> IsDigit(s[i]) }

  function DigitValue(c: char): (v: nat)
    requires IsDigit(c)
    ensures v < 10
  {
    c as int - '0' as int
  }

  function DigitChar(d: nat): (c: char)
    requires d < 10
    ensures IsDigit(c) && DigitValue(c) == d
  {
    ('0' as int + d) as char
  }

  /** The number a string of decimal digits denotes, most significant digit first. */
  function ValueOf(s: seq<char>): nat
    requires AllDigits(s)
    decreases |s|
  {
    if s == [] then 0 else ValueOf(s[..|s| - 1]) * 10 + DigitValue(s[|s| - 1])
  }

  function Pow10(n: nat): (r: nat)
    ensures r >= 1
  {
    if n == 0 then 1 else 10 * Pow10(n - 1)
  }

  lemma ValueOfSnoc(s: seq<char>, c: char)
    requires AllDigits(s) && IsDigit(c)
    ensures AllDigits(s + [c]) && ValueOf(s + [c]) == ValueOf(s) * 10 + DigitValue(c)
  {
    assert (s + [c])[..|s|] == s;
  }

  /** The decimal numeral of `n` without leading zeros ("0" for zero). */
  function Digits(n: nat): (r: seq<char>)
    ensures |r| >= 1 && AllDigits(r) && ValueOf(r) == n
    ensures r[0] == '0' ==> r == "0"
    decreases n
  {
    if n < 10 then [DigitChar(n)]
    else
      var r := Digits(n / 10) + [DigitChar(n % 10)];
      ValueOfSnoc(Digits(n / 10), DigitChar(n % 10));
      r
  }

  /** The last `width` decimal digits of `n`, with leading zeros. */
  function Fixed(n: nat, width: nat): (r: seq<char>)
    ensures |r| == width && AllDigits(r)
    decreases width
  {
    if width == 0 then [] else Fixed(n / 10, width - 1) + [DigitChar(n % 10)]
  }

  /** `n` without its last `width` decimal digits. */
  function IntegerPart(n: nat, width: nat): nat
    decreases width
  {
    if width == 0 then n else IntegerPart(n / 10, width - 1)
  }

  /** `IntegerPart` and `Fixed` split `n` at its `width`-th digit from the right: they are
      the quotient and the remainder of `n` by `10^width`. */
  lemma {:induction false} SplitDigits(n: nat, width: nat)
    ensures IntegerPart(n, width) * Pow10(width) + ValueOf(Fixed(n, width)) == n
    ensures ValueOf(Fixed(n, width)) < Pow10(width)
    decreases width
  {
    if width > 0 {
      var q, d := n / 10, n % 10;
      var f := Fixed(q, width - 1);
      SplitDigits(q, width - 1);
      ValueOfSnoc(f, DigitChar(d));
      var ip, p := IntegerPart(q, width - 1), Pow10(width - 1);
      var v := ValueOf(f);
      assert IntegerPart(n, width) == ip && Pow10(width) == 10 * p;
      assert Fixed(n, width) == f + [DigitChar(d)];
      assert ValueOf(Fixed(n, width)) == v * 10 + d;
      var m := ip * p;
      assert m + v == q && v < p;
      assert ip * (10 * p) == (ip * p) * 10;
      assert ip * Pow10(width) == m * 10;
      assert m * 10 + v * 10 + d == n;
    }
  }

  // ---------------------------------------------------------------- grouping

  function RemoveCommas(s: seq<char>): (r: seq<char>)
    ensures |r| <= |s|
  {
    if s == [] then [] else (if s[0] == ',' then [] else [s[0]]) + RemoveCommas(s[1..])
  }

  lemma {:induction false} RemoveCommasAppend(a: seq<char>, b: seq<char>)
    ensures RemoveCommas(a + b) == RemoveCommas(a) + RemoveCommas(b)
  {
    if a == [] {
      assert a + b == b;
    } else {
      var head := if a[0] == ',' then [] else [a[0]];
      assert (a + b)[0] == a[0];
      assert (a + b)[1..] == a[1..] + b;
      RemoveCommasAppend(a[1..], b);
      var x, y := RemoveCommas(a[1..]), RemoveCommas(b);
      assert RemoveCommas(a) == head + x;
      assert RemoveCommas(a + b) == head + (x + y);
      assert head + (x + y) == head + x + y;
    }
  }

  lemma {:induction false} RemoveCommasOfDigits(s: seq<char>)
    requires AllDigits(s)
    ensures RemoveCommas(s) == s
  {
    if s != [] {
      RemoveCommasOfDigits(s[1..]);
    }
  }

  /** A comma exactly at the positions a multiple of four places from the end. */
  predicate CommasEveryFour(r: seq<char>) {
    forall i :: 0 <= i < |r| ==> (r[i] == ',' <==> (|r| - i) % 4 == 0)
  }

  /** The digit string with a comma before every group of three digits counted from the
      right: the first group has one to three digits, every later one exactly three. */
  function Group(ds: seq<char>): (r: seq<char>)
    requires AllDigits(ds)
    ensures RemoveCommas(r) == ds
    ensures |ds| >= 1 ==> |r| == |ds| + (|ds| - 1) / 3 && 1 <= |r| % 4 <= 3
    ensures CommasEveryFour(r)
    decreases |ds|
  {
    if |ds| <= 3 then
      RemoveCommasOfDigits(ds);
      ds
    else
      var g := Group(ds[..|ds| - 3]);
      GroupStep(ds, g);
      g + [','] + ds[|ds| - 3..]
  }

  /** One step of `Group`: a comma and the last three digits appended to the grouped rest. */
  lemma GroupStep(ds: seq<char>, g: seq<char>)
    requires AllDigits(ds) && |ds| > 3
    requires RemoveCommas(g) == ds[..|ds| - 3]
    requires |g| == (|ds| - 3) + (|ds| - 4) / 3 && 1 <= |g| % 4 <= 3
    requires CommasEveryFour(g)
    ensures var r := g + [','] + ds[|ds| - 3..];
      RemoveCommas(r) == ds &&
      |r| == |ds| + (|ds| - 1) / 3 && 1 <= |r| % 4 <= 3 &&
      CommasEveryFour(r)
  {
    RemoveCommasStep(ds, g);
    assert (|ds| - 4 + 3) / 3 == (|ds| - 4) / 3 + 1;
    CommaStep(g, ds[|ds| - 3..]);
  }

  lemma RemoveCommasStep(ds: seq<char>, g: seq<char>)
    requires AllDigits(ds) && |ds| > 3
    requires RemoveCommas(g) == ds[..|ds| - 3]
    ensures RemoveCommas(g + [','] + ds[|ds| - 3..]) == ds
  {
    var pre, tail := ds[..|ds| - 3], ds[|ds| - 3..];
    var comma: seq<char> := [','];
    RemoveCommasAppend(g + comma, tail);
    RemoveCommasAppend(g, comma);
    RemoveCommasOfComma();
    SuffixDigits(ds, |ds| - 3);
    RemoveCommasOfDigits(tail);
    calc {
      RemoveCommas(g + comma + tail);
      RemoveCommas(g + comma) + RemoveCommas(tail);
      RemoveCommas(g) + RemoveCommas(comma) + tail;
      pre + [] + tail;
      { AppendEmpty(pre); }
      pre + tail;
      { SplitLastThree(ds); }
      ds;
    }
  }

  lemma AppendEmpty(s: seq<char>)
    ensures s + [] == s
  {
  }

  lemma SplitLastThree(s: seq<char>)
    requires |s| >= 3
    ensures s[..|s| - 3] + s[|s| - 3..] == s
  {
  }

  lemma RemoveCommasOfComma()
    ensures RemoveCommas([',']) == []
  {
    var comma: seq<char> := [','];
    assert comma[1..] == [];
  }

  lemma SuffixDigits(ds: seq<char>, k: nat)
    requires AllDigits(ds) && k <= |ds|
    ensures AllDigits(ds[k..])
  {
    assert forall i :: 0 <= i < |ds| - k ==> ds[k..][i] == ds[k + i];
  }

  /** `Group` on more than three digits: the grouped rest, a comma, the last three. */
  lemma GroupSplit(ds: seq<char>)
    requires AllDigits(ds) && |ds| > 3
    ensures Group(ds) == Group(ds[..|ds| - 3]) + [','] + ds[|ds| - 3..]
  {
  }

  /** Appending a comma and three digits keeps every comma a multiple of four places from
      the end. */
  lemma CommaStep(g: seq<char>, tail: seq<char>)
    requires |tail| == 3 && AllDigits(tail)
    requires CommasEveryFour(g)
    ensures var r := g + [','] + tail;
      |r| == |g| + 4 && |r| % 4 == |g| % 4 && CommasEveryFour(r)
  {
    var r := g + [','] + tail;
    forall i | 0 <= i < |r|
      ensures r[i] == ',' <==> (|r| - i) % 4 == 0
    {
      if i < |g| {
        assert r[i] == g[i];
        assert (|g| - i + 4) % 4 == (|g| - i) % 4;
      } else if i > |g| {
        assert r[i] == tail[i - |g| - 1];
        assert IsDigit(tail[i - |g| - 1]);
      }
    }
    assert (|g| + 4) % 4 == |g| % 4;
  }

  // ---------------------------------------------------------------- the regular expression

  predicate IsWordChar(c: char) {
    'a' <= c <= 'z' || 'A' <= c <= 'Z' || IsDigit(c) || c == '_'
  }

  /** Number of consecutive digits of `p` starting at index `k`. */
  function DigitRun(p: seq<char>, k: nat): (n: nat)
    requires k <= |p|
    ensures k + n <= |p|
    decreases |p| - k
  {
    if k < |p| && IsDigit(p[k]) then 1 + DigitRun(p, k + 1) else 0
  }

  /** Whether `/\B(?=(\d{3})+(?!\d))/` matches the empty string at position `k` of `p`:
      no word boundary at `k`, and the digits from `k` on form whole groups of three that
      end the digit run. */
  predicate SeparatorAt(p: seq<char>, k: nat)
    requires k <= |p|
  {
    var run := DigitRun(p, k);
    run >= 3 && run % 3 == 0 && 0 < k && IsWordChar(p[k - 1])
  }

  /** `p[k..].replace(/\B(?=(\d{3})+(?!\d))/g, ",")`, deciding every match position on `p`. */
  function InsertSeparators(p: seq<char>, k: nat): (r: seq<char>)
    requires k <= |p|
    ensures RemoveCommas(r) == RemoveCommas(p[k..])
    decreases |p| - k
  {
    if k == |p| then []
    else
      var sep: seq<char> := if SeparatorAt(p, k) then [','] else [];
      var rest := InsertSeparators(p, k + 1);
      SeparatorStep(p, k, sep, rest);
      sep + [p[k]] + rest
  }

  /** One step of `InsertSeparators`: a comma or nothing, then the character at `k`. */
  lemma SeparatorStep(p: seq<char>, k: nat, sep: seq<char>, rest: seq<char>)
    requires k < |p| && (sep == [] || sep == [','])
    requires RemoveCommas(rest) == RemoveCommas(p[k + 1..])
    ensures RemoveCommas(sep + [p[k]] + rest) == RemoveCommas(p[k..])
  {
    assert p[k..][0] == p[k];
    assert p[k..][1..] == p[k + 1..];
    var one: seq<char> := [p[k]];
    assert one[1..] == [];
    RemoveCommasAppend(sep + one, rest);
    RemoveCommasAppend(sep, one);
    if sep != [] {
      RemoveCommasOfComma();
    }
  }

  lemma {:induction false} DigitRunOfDigits(p: seq<char>, k: nat)
    requires k <= |p| && AllDigits(p[k..])
    ensures DigitRun(p, k) == |p| - k
    decreases |p| - k
  {
    if k < |p| {
      assert p[k] == p[k..][0];
      assert p[k + 1..] == p[k..][1..];
      DigitRunOfDigits(p, k + 1);
    }
  }

  /** The comma `Group` puts before digit `k` of `n` digits: one when `k > 0` and a
      multiple of three digits follow from `k` on. */
  function CommaBefore(n: nat, k: nat): seq<char> {
    if 0 < k && (n - k) % 3 == 0 then [','] else []
  }

  /** The digits of `ds` from index `k` on, each preceded by the comma `Group` puts there. */
  function GroupFrom(ds: seq<char>, k: nat): seq<char>
    requires k <= |ds|
    decreases |ds| - k
  {
    if k == |ds| then [] else CommaBefore(|ds|, k) + [ds[k]] + GroupFrom(ds, k + 1)
  }

  lemma {:induction false} SeparatorsAreGroupFrom(sign: seq<char>, ds: seq<char>, k: nat)
    requires sign == "" || sign == "-"
    requires AllDigits(ds) && k <= |ds|
    ensures InsertSeparators(sign + ds, |sign| + k) == GroupFrom(ds, k)
    decreases |ds| - k
  {
    var p := sign + ds;
    if k < |ds| {
      var q := |sign| + k;
      var comma := if SeparatorAt(p, q) then [','] else [];
      SeparatorIsCommaBefore(sign, ds, k);
      assert p[q] == ds[k];
      SeparatorsAreGroupFrom(sign, ds, k + 1);
      assert InsertSeparators(p, q) == comma + [p[q]] + InsertSeparators(p, q + 1);
      assert GroupFrom(ds, k) == comma + [ds[k]] + GroupFrom(ds, k + 1);
    }
  }

  /** Inside the digits, the regular expression matches exactly where `Group` puts a comma. */
  lemma SeparatorIsCommaBefore(sign: seq<char>, ds: seq<char>, k: nat)
    requires sign == "" || sign == "-"
    requires AllDigits(ds) && k < |ds|
    ensures SeparatorAt(sign + ds, |sign| + k) <==> CommaBefore(|ds|, k) == [',']
  {
    var p := sign + ds;
    var q := |sign| + k;
    assert p[q..] == ds[k..];
    DigitRunOfDigits(p, q);
    if 0 < k {
      assert p[q - 1] == ds[k - 1];
    } else if sign == "-" {
      assert p[q - 1] == '-';
    }
  }

  lemma GroupFromLastThree(ds: seq<char>)
    requires |ds| > 3
    ensures GroupFrom(ds, |ds| - 3) == [','] + ds[|ds| - 3..]
  {
    var n := |ds|;
    var x, y, z := ds[n - 3], ds[n - 2], ds[n - 1];
    assert CommaBefore(n, n - 1) == [];
    assert CommaBefore(n, n - 2) == [];
    assert CommaBefore(n, n - 3) == [','];
    var last: seq<char> := [];
    assert GroupFrom(ds, n) == last;
    assert GroupFrom(ds, n - 1) == [] + [z] + last;
    assert GroupFrom(ds, n - 2) == [] + [y] + ([] + [z] + last);
    assert GroupFrom(ds, n - 3) == [','] + [x] + ([] + [y] + ([] + [z] + last));
    LastThreeDigits(ds);
    ThreeAfterComma(x, y, z);
  }

  lemma LastThreeDigits(ds: seq<char>)
    requires |ds| >= 3
    ensures ds[|ds| - 3..] == [ds[|ds| - 3], ds[|ds| - 2], ds[|ds| - 1]]
  {
  }

  lemma ThreeAfterComma(x: char, y: char, z: char)
    ensures [','] + [x] + ([] + [y] + ([] + [z] + [])) == [','] + [x, y, z]
  {
  }

  lemma ModThreeShift(x: int)
    ensures (x + 3) % 3 == x % 3
  {
  }

  lemma {:induction false} GroupFromSplit(ds: seq<char>, k: nat)
    requires |ds| > 3 && k <= |ds| - 3
    ensures GroupFrom(ds, k) == GroupFrom(ds[..|ds| - 3], k) + [','] + ds[|ds| - 3..]
    decreases |ds| - k
  {
    var pre, tail := ds[..|ds| - 3], ds[|ds| - 3..];
    if k == |ds| - 3 {
      GroupFromLastThree(ds);
      assert GroupFrom(pre, k) == [];
    } else {
      GroupFromSplit(ds, k + 1);
      ModThreeShift(|pre| - k);
      var a, b, c := CommaBefore(|ds|, k), [ds[k]], GroupFrom(pre, k + 1);
      assert a == CommaBefore(|pre|, k);
      assert b == [pre[k]];
      calc {
        GroupFrom(ds, k);
        a + b + (c + [','] + tail);
        { ConcatAssoc(a + b, c, [','], tail); }
        a + b + c + [','] + tail;
        GroupFrom(pre, k) + [','] + tail;
      }
    }
  }

  lemma {:induction false} GroupFromIsGroup(ds: seq<char>)
    requires AllDigits(ds)
    ensures GroupFrom(ds, 0) == Group(ds)
    decreases |ds|
  {
    if |ds| <= 3 {
      var n := |ds|;
      if n == 1 {
        assert GroupFrom(ds, 0) == [ds[0]];
      } else if n == 2 {
        assert GroupFrom(ds, 1) == [ds[1]];
      } else if n == 3 {
        assert GroupFrom(ds, 2) == [ds[2]];
        assert GroupFrom(ds, 1) == [ds[1], ds[2]];
      }
      assert GroupFrom(ds, 0) == ds;
    } else {
      GroupFromSplit(ds, 0);
      GroupFromIsGroup(ds[..|ds| - 3]);
    }
  }

  /** The regular expression of the source, applied to an optional minus sign followed by
      digits, inserts exactly the commas of `Group`. */
  lemma RegexIsGroup(sign: seq<char>, ds: seq<char>)
    requires sign == "" || sign == "-"
    requires AllDigits(ds)
    ensures InsertSeparators(sign + ds, 0) == sign + Group(ds)
  {
    var p := sign + ds;
    SeparatorsAreGroupFrom(sign, ds, 0);
    GroupFromIsGroup(ds);
    var g := Group(ds);
    if sign == "-" {
      assert p[0] == '-';
      assert !SeparatorAt(p, 0);
      assert InsertSeparators(p, 0) == [] + [p[0]] + InsertSeparators(p, 1);
      MinusFirst(g);
    } else {
      EmptyFirst(ds);
      EmptyFirst(g);
    }
  }

  lemma MinusFirst(s: seq<char>)
    ensures [] + ['-'] + s == "-" + s
  {
  }

  lemma EmptyFirst(s: seq<char>)
    ensures "" + s == s
  {
  }

  // ---------------------------------------------------------------- formatCurrency

  function Abs(x: real): (r: real)
    ensures r >= 0.0 && (r == x || r == -x)
  {
    if x < 0.0 then -x else x
  }

  /** The integer `toFixed` picks for a non-negative `y`: the nearest one, the larger of
      the two on a tie. */
  function RoundHalfUp(y: real): (n: nat)
    requires y >= 0.0
    ensures y - 0.5 < n as real <= y + 0.5
  {
    (y + 0.5).Floor
  }

  /** `x` scaled to minor units of `decimals` places and rounded as `toFixed` does. */
  function MinorUnits(x: real, decimals: nat): nat {
    RoundHalfUp(Abs(x) * Pow10(decimals) as real)
  }

  /** The minor units are the whole number nearest to the magnitude of `x`, scaled. */
  lemma MinorUnitsNearest(x: real, decimals: nat)
    ensures var scaled := Abs(x) * Pow10(decimals) as real;
      scaled - 0.5 < MinorUnits(x, decimals) as real <= scaled + 0.5
  {
  }

  /** `x.toFixed(decimals)` for an exact `x`: a minus sign when `x` is negative, the integer
      part without leading zeros, and, when `decimals > 0`, a point and exactly `decimals`
      fraction digits. */
  function ToFixed(x: real, decimals: nat): (r: string)
    ensures |r| >= 1
    ensures r[0] == '-' <==> x < 0.0
    ensures ',' !in r
    ensures decimals == 0 ==> '.' !in r
    ensures decimals > 0 ==> |r| > decimals && r[|r| - decimals - 1] == '.' && AllDigits(r[|r| - decimals..])
  {
    var n := MinorUnits(x, decimals);
    var ds := Digits(IntegerPart(n, decimals));
    ToFixedText(x, ds, n, decimals);
    SignText(x) + ds + FractionText(n, decimals)
  }

  /** The characters of `toFixed`'s text: an optional minus, digits, and when there are
      decimals a point followed by that many digits. */
  lemma ToFixedText(x: real, ds: seq<char>, n: nat, decimals: nat)
    requires |ds| >= 1 && AllDigits(ds)
    ensures var r := SignText(x) + ds + FractionText(n, decimals);
      |r| >= 1 && (r[0] == '-' <==> x < 0.0) && ',' !in r &&
      (decimals == 0 ==> '.' !in r) &&
      (decimals > 0 ==> |r| > decimals && r[|r| - decimals - 1] == '.' && AllDigits(r[|r| - decimals..]))
  {
    var sign, frac := SignText(x), FractionText(n, decimals);
    var r := sign + ds + frac;
    assert r[0] == (if x < 0.0 then '-' else ds[0]);
    forall i | 0 <= i < |r|
      ensures r[i] != ','
      ensures decimals == 0 ==> r[i] != '.'
    {
      if i >= |sign| && i < |sign| + |ds| {
        assert r[i] == ds[i - |sign|];
      } else if i >= |sign| + |ds| {
        assert r[i] == frac[i - |sign| - |ds|];
      }
    }
    if decimals > 0 {
      var f := Fixed(n, decimals);
      assert frac == "." + f;
      assert r[|r| - decimals - 1] == '.';
      assert r[|r| - decimals..] == f;
    }
  }

  /** Index of the first '.' of `s`, or `|s|` when there is none: where `split(".")` ends
      the first part. */
  function FirstDot(s: string): (k: nat)
    ensures k <= |s| && '.' !in s[..k] && (k < |s| ==> s[k] == '.')
  {
    if s == [] then 0
    else if s[0] == '.' then 0
    else
      var k := 1 + FirstDot(s[1..]);
      assert s[..k] == [s[0]] + s[1..][..k - 1];
      k
  }

  /** `formatCurrency` without the symbol: `toFixed`, then the separators inserted into
      the part before the first '.', and the parts joined again. */
  function FormatAmount(x: real, decimals: nat): (r: string)
    ensures RemoveCommas(r) == ToFixed(x, decimals)
  {
    var s := ToFixed(x, decimals);
    var k := FirstDot(s);
    var r := InsertSeparators(s[..k], 0) + s[k..];
    assert s[..k][0..] == s[..k];
    RemoveCommasAppend(InsertSeparators(s[..k], 0), s[k..]);
    RemoveCommasAppend(s[..k], s[k..]);
    assert s[..k] + s[k..] == s;
    RemoveCommasNone(s);
    r
  }

  lemma {:induction false} RemoveCommasNone(s: seq<char>)
    requires ',' !in s
    ensures RemoveCommas(s) == s
  {
    if s != [] {
      RemoveCommasNone(s[1..]);
    }
  }

  /** `formatCurrency(amount)` for the currency selected as `code`; `None` where the
      source throws on an unknown code. */
  function FormatCurrency(amount: real, code: string): (r: Option<string>)
    ensures r.Some? <==> Lookup(code).Some?
  {
    match Lookup(code)
    case None => None
    case Some(info) => Some(FormatWith(amount, info))
  }

  function FormatWith(amount: real, info: CurrencyInfo): string {
    var body := FormatAmount(amount, info.decimals);
    if info.position == Before then info.symbol + body else body + info.symbol
  }

  function SignText(x: real): string {
    if x < 0.0 then "-" else ""
  }

  function FractionText(n: nat, decimals: nat): string {
    if decimals == 0 then "" else "." + Fixed(n, decimals)
  }

  lemma {:induction false} FirstDotAppend(a: string, b: string)
    requires '.' !in a
    ensures FirstDot(a + b) == |a| + FirstDot(b)
    decreases |a|
  {
    if a != [] {
      assert (a + b)[0] == a[0];
      assert (a + b)[1..] == a[1..] + b;
      assert a[0] in a;
      FirstDotAppend(a[1..], b);
    } else {
      assert a + b == b;
    }
  }

  lemma DigitsHaveNoDot(s: string)
    requires AllDigits(s)
    ensures '.' !in s
  {
    assert forall i :: 0 <= i < |s| ==> s[i] != '.';
  }

  /** What `FormatAmount` produces: the sign, the grouped digits of the integer part of
      the rounded amount, and the fraction digits, unchanged. */
  lemma FormatAmountShape(x: real, decimals: nat)
    ensures var n := MinorUnits(x, decimals);
      FormatAmount(x, decimals)
        == SignText(x) + Group(Digits(IntegerPart(n, decimals))) + FractionText(n, decimals)
  {
    var n := MinorUnits(x, decimals);
    var sign := SignText(x);
    var ds := Digits(IntegerPart(n, decimals));
    var frac := FractionText(n, decimals);
    var s := ToFixed(x, decimals);
    assert s == sign + ds + frac;
    DigitsHaveNoDot(ds);
    forall i | 0 <= i < |sign + ds|
      ensures (sign + ds)[i] != '.'
    {
      if i >= |sign| { assert (sign + ds)[i] == ds[i - |sign|]; }
    }
    FirstDotAppend(sign + ds, frac);
    assert FirstDot(frac) == 0;
    assert s[..FirstDot(s)] == sign + ds;
    assert s[FirstDot(s)..] == frac;
    RegexIsGroup(sign, ds);
  }

  /** Reading a formatted amount back: dropping the commas from the integer part gives
      its digits, and together with the `decimals` fraction digits they denote the amount
      in minor units. */
  lemma FormatAmountReadBack(x: real, decimals: nat)
    ensures var n := MinorUnits(x, decimals);
      var grouped := Group(Digits(IntegerPart(n, decimals)));
      var frac := Fixed(n, decimals);
      FormatAmount(x, decimals)
        == SignText(x) + grouped + (if decimals == 0 then "" else "." + frac) &&
      (SignText(x) == "-" <==> x < 0.0) &&
      AllDigits(RemoveCommas(grouped)) && |frac| == decimals &&
      ValueOf(RemoveCommas(grouped)) * Pow10(decimals) + ValueOf(frac) == n
  {
    FormatAmountShape(x, decimals);
    var n := MinorUnits(x, decimals);
    var ds := Digits(IntegerPart(n, decimals));
    assert RemoveCommas(Group(ds)) == ds;
    SplitDigits(n, decimals);
  }

  lemma ConcatAssoc(a: string, b: string, c: string, d: string)
    ensures a + (b + c + d) == a + b + c + d
  {
  }

  /** A currency whose symbol goes before the amount: the symbol, the sign, the grouped
      integer digits and the fraction, in that order. */
  lemma FormatWithShape(amount: real, info: CurrencyInfo)
    requires info.position == Before
    ensures var n := MinorUnits(amount, info.decimals);
      FormatWith(amount, info) == info.symbol + SignText(amount)
        + Group(Digits(IntegerPart(n, info.decimals))) + FractionText(n, info.decimals)
  {
    var n := MinorUnits(amount, info.decimals);
    var sign, grouped, frac := SignText(amount), Group(Digits(IntegerPart(n, info.decimals))), FractionText(n, info.decimals);
    FormatAmountShape(amount, info.decimals);
    var body := FormatAmount(amount, info.decimals);
    assert body == sign + grouped + frac;
    assert FormatWith(amount, info) == info.symbol + body;
    ConcatAssoc(info.symbol, sign, grouped, frac);
  }

  /** Every currency of the table puts its symbol before the formatted amount. */
  lemma FormatCurrencyShape(amount: real, code: string)
    requires Lookup(code).Some?
    ensures var info := Lookup(code).value;
      var n := MinorUnits(amount, info.decimals);
      FormatCurrency(amount, code) == Some(info.symbol + SignText(amount)
        + Group(Digits(IntegerPart(n, info.decimals))) + FractionText(n, info.decimals))
  {
    FormatWithShape(amount, Lookup(code).value);
  }

  lemma FormatCurrencyDollars()
    ensures FormatCurrency(1234567.5, "USD") == Some("$" + "1,234,567" + ".50")
  {
    var info := CurrencyInfo("$", Before, 2);
    assert Lookup("USD") == Some(info);
    assert FormatCurrency(1234567.5, "USD") == Some(FormatWith(1234567.5, info));
    FormatWithShape(1234567.5, info);
    DollarsMinorUnits();
    DollarsGrouped();
    DollarsFraction();
    assert SignText(1234567.5) == "";
    assert "$" + "" == "$";
  }

  lemma DollarsMinorUnits()
    ensures MinorUnits(1234567.5, 2) == 123456750
  {
  }

  lemma DollarsGrouped()
    ensures Group(Digits(IntegerPart(123456750, 2))) == "1,234,567"
  {
    DigitsOfMillions();
    var ds := "1234567";
    GroupSplit(ds);
    SevenDigitsSplit();
    ThousandsGrouped();
    MillionsJoined();
  }

  lemma SevenDigitsSplit()
    ensures "1234567"[..4] == "1234" && "1234567"[4..] == "567"
  {
  }

  lemma MillionsJoined()
    ensures "1,234" + [','] + "567" == "1,234,567"
  {
  }

  lemma ThousandsGrouped()
    ensures Group("1234") == "1,234"
  {
    assert "1234"[..1] == "1" && "1234"[1..] == "234";
    assert Group("1") == "1";
  }

  lemma DollarsFraction()
    ensures FractionText(123456750, 2) == ".50"
  {
    assert Fixed(12345675, 1) == "5";
  }

  lemma DigitsOfMillions()
    ensures Digits(IntegerPart(123456750, 2)) == "1234567"
  {
    assert IntegerPart(12345675, 1) == 1234567;
    assert Digits(12) == "12";
    assert Digits(1234) == "1234";
  }

  /** The default currency: 1234.5 in INR is "₹1,234.50". */
  lemma FormatCurrencyRupees()
    ensures FormatCurrency(1234.5, "INR") == Some("\U{20B9}" + "1,234" + ".50")
  {
    var info := CurrencyInfo("\U{20B9}", Before, 2);
    assert Lookup("INR") == Some(info);
    assert FormatCurrency(1234.5, "INR") == Some(FormatWith(1234.5, info));
    FormatWithShape(1234.5, info);
    RupeesMinorUnits();
    RupeesGrouped();
    RupeesFraction();
    assert SignText(1234.5) == "";
    assert "\U{20B9}" + "" == "\U{20B9}";
  }

  lemma RupeesMinorUnits()
    ensures MinorUnits(1234.5, 2) == 123450
  {
  }

  lemma RupeesGrouped()
    ensures Group(Digits(IntegerPart(123450, 2))) == "1,234"
  {
    assert IntegerPart(12345, 1) == 1234;
    assert Digits(12) == "12";
    assert Digits(1234) == "1234";
    ThousandsGrouped();
  }

  lemma RupeesFraction()
    ensures FractionText(123450, 2) == ".50"
  {
    assert Fixed(12345, 1) == "5";
  }

  lemma FormatCurrencyYenZero()
    ensures FormatCurrency(0.0, "JPY") == Some("\U{00A5}" + "0")
  {
    var info := CurrencyInfo("\U{00A5}", Before, 0);
    assert Lookup("JPY") == Some(info);
    assert FormatCurrency(0.0, "JPY") == Some(FormatWith(0.0, info));
    FormatWithShape(0.0, info);
    ZeroMinorUnits();
    ZeroGrouped(info.decimals);
    ZeroFraction();
    assert "\U{00A5}" + "" + "0" + "" == "\U{00A5}" + "0";
  }

  lemma ZeroMinorUnits()
    ensures MinorUnits(0.0, 0) == 0 && MinorUnits(-0.001, 2) == 0
  {
  }

  lemma {:induction false} ZeroGrouped(decimals: nat)
    ensures Group(Digits(IntegerPart(0, decimals))) == "0"
    decreases decimals
  {
    if decimals > 0 {
      ZeroGrouped(decimals - 1);
    }
    assert DigitChar(0) == '0';
    assert Digits(0) == "0";
  }

  lemma ZeroFraction()
    ensures FractionText(0, 0) == "" && FractionText(0, 2) == ".00"
  {
    assert DigitChar(0) == '0';
    assert Fixed(0, 1) == "0";
  }

  /** A negative amount that rounds to zero keeps its sign, as `toFixed` does. */
  lemma FormatCurrencyNegativeSmall()
    ensures FormatCurrency(-0.001, "EUR") == Some("\U{20AC}" + "-" + "0" + ".00")
  {
    var info := CurrencyInfo("\U{20AC}", Before, 2);
    assert Lookup("EUR") == Some(info);
    assert FormatCurrency(-0.001, "EUR") == Some(FormatWith(-0.001, info));
    FormatWithShape(-0.001, info);
    ZeroMinorUnits();
    ZeroGrouped(info.decimals);
    ZeroFraction();
  }
}

/** The decimal amounts of pkg/cli/client.go: 18 decimals, printed without trailing zeros. Text is ASCII. */
module Amounts {
  import opened Word64
  import opened Results

  const UNIT: int := 1_000_000_000_000_000_000
  const DECIMALS: nat := 18

  predicate IsDigit(c: char) { '0' <= c <= '9' }

  function DigitChar(d: nat): char
    requires d < 10
  {
    ('0' as int + d) as char
  }

  function DigitOf(c: char): int { c as int - '0' as int }

  /** %d. */
  function Decimal(n: nat): string {
    if n < 10 then [DigitChar(n)] else Decimal(n / 10) + [DigitChar(n % 10)]
  }

  /** %0kd of a number of at most k digits. */
  function Padded(n: nat, k: nat): string {
    if k == 0 then [] else Padded(n / 10, k - 1) + [DigitChar(n % 10)]
  }

  function TrimZeros(s: string): string {
    if s != [] && s[|s| - 1] == '0' then TrimZeros(s[..|s| - 1]) else s
  }

  function Zeros(k: nat): string { if k == 0 then [] else Zeros(k - 1) + ['0'] }

  /** FormatAmount. */
  function FormatAmount(amount: u64): string {
    if amount == 0 then "0"
    else
      var whole, frac := amount / UNIT, amount % UNIT;
      if frac == 0 then Decimal(whole)
      else
        var digits := TrimZeros(Padded(frac, DECIMALS));
        if digits == [] then Decimal(whole) else Decimal(whole) + "." + digits
  }

  // ---------------------------------------------------------------- parsing

  datatype Error = Empty | Malformed

  /** ASCII white space. */
  predicate IsSpace(c: char) { c == ' ' || ('\t' <= c <= '\r') }

  function TrimLeft(s: string): string { if s != [] && IsSpace(s[0]) then TrimLeft(s[1..]) else s }

  function TrimRight(s: string): string {
    if s != [] && IsSpace(s[|s| - 1]) then TrimRight(s[..|s| - 1]) else s
  }

  function TrimSpace(s: string): string { TrimRight(TrimLeft(s)) }

  /** The position of the first dot, or the length if there is none. */
  function DotIndex(s: string): (i: nat)
    ensures i <= |s|
  {
    if s == [] || s[0] == '.' then 0 else 1 + DotIndex(s[1..])
  }

  /** The value of a string of digits. */
  function Value(s: string): int {
    if s == [] then 0 else 10 * Value(s[..|s| - 1]) + DigitOf(s[|s| - 1])
  }

  function DigitPrefix(s: string): string {
    if s != [] && IsDigit(s[0]) then [s[0]] + DigitPrefix(s[1..]) else []
  }

  /** Blanks before a number; a line break is an error there. */
  function SkipBlanks(s: string): Option<string> {
    if s == [] || !IsSpace(s[0]) then Some(s)
    else if s[0] == '\n' then None
    else SkipBlanks(s[1..])
  }

  /** Sscanf with %d into a uint64: blanks, then as many digits as there are, at least one; anything after
      them is ignored; too large a number is an error. */
  function ScanUint(s: string): Option<u64> {
    var t := SkipBlanks(s);
    if t.None? then None
    else
      var digits := DigitPrefix(t.value);
      if digits == [] || !(0 <= Value(digits) < MOD) then None else Some(Value(digits))
  }

  /** The fraction, cut or filled up to 18 digits. */
  function FractionText(rest: string): string {
    if |rest| > DECIMALS then rest[..DECIMALS] else rest + Zeros(DECIMALS - |rest|)
  }

  /** A text with its decimal point, if it has one, taken out. */
  datatype Parts = Plain(whole: string) | Dotted(whole: string, rest: string)

  function SplitDot(s: string): Parts {
    var dot := DotIndex(s);
    if dot < |s| then Dotted(s[..dot], s[dot + 1..]) else Plain(s)
  }

  /** The amount in the smallest unit; the product and the sum wrap as uint64. */
  function Evaluate(p: Parts): Result<u64, Error> {
    match p
    case Plain(whole) =>
      var n := ScanUint(whole);
      if n.None? then Err(Malformed) else Ok(Mul(n.value, UNIT))
    case Dotted(whole, rest) =>
      var w := if whole == [] then Some(0) else ScanUint(whole);
      var f := ScanUint(FractionText(rest));
      if w.None? || f.None? then Err(Malformed) else Ok(Add(Mul(w.value, UNIT), f.value))
  }

  /** ParseAmount. */
  function ParseAmount(text: string): Result<u64, Error> {
    if TrimSpace(text) == [] then Err(Empty) else Evaluate(SplitDot(TrimSpace(text)))
  }

  // ---------------------------------------------------------------- digits

  ghost predicate AllDigits(s: string) { forall i :: 0 <= i < |s| ==> IsDigit(s[i]) }

  lemma {:induction false} DecimalValue(n: nat)
    ensures Decimal(n) != [] && AllDigits(Decimal(n)) && Value(Decimal(n)) == n
  {
    if n >= 10 {
      DecimalValue(n / 10);
      var head := Decimal(n / 10);
      assert Decimal(n)[..|head|] == head;
    } else {
      assert Value([DigitChar(n)]) == 10 * Value([]) + n;
    }
  }

  function Pow10(k: nat): nat { if k == 0 then 1 else 10 * Pow10(k - 1) }

  lemma {:induction false} PaddedValue(n: nat, k: nat)
    requires n < Pow10(k)
    ensures |Padded(n, k)| == k && AllDigits(Padded(n, k)) && Value(Padded(n, k)) == n
  {
    if k > 0 {
      PaddedValue(n / 10, k - 1);
      var head := Padded(n / 10, k - 1);
      assert Padded(n, k)[..|head|] == head;
    }
  }

  /** Trimming zeros and putting them back. */
  lemma {:induction false} TrimAndPad(s: string)
    ensures |TrimZeros(s)| <= |s| && TrimZeros(s) + Zeros(|s| - |TrimZeros(s)|) == s
  {
    if s != [] && s[|s| - 1] == '0' {
      var head := s[..|s| - 1];
      TrimAndPad(head);
      ZeroMore(TrimZeros(head), |head| - |TrimZeros(head)|);
      assert s == head + ['0'];
    } else {
      assert Zeros(0) == [] && s + [] == s;
    }
  }

  lemma ZeroMore(t: string, k: nat)
    ensures t + Zeros(k + 1) == t + Zeros(k) + ['0']
  {
  }

  /** Scanning a string of digits gives its value. */
  lemma ScanDigits(s: string)
    requires s != [] && AllDigits(s) && 0 <= Value(s) < MOD
    ensures ScanUint(s) == Some(Value(s))
  {
    assert IsDigit(s[0]) && !IsSpace(s[0]);
    WholePrefix(s);
  }

  lemma {:induction false} WholePrefix(s: string)
    requires AllDigits(s)
    ensures DigitPrefix(s) == s
  {
    if s != [] {
      WholePrefix(s[1..]);
    }
  }

  lemma {:induction false} DotAfterDigits(s: string, rest: string)
    requires AllDigits(s)
    ensures DotIndex(s + "." + rest) == |s|
    ensures DotIndex(s) == |s|
  {
    if s != [] {
      DotAfterDigits(s[1..], rest);
      assert (s + "." + rest)[1..] == s[1..] + "." + rest;
    }
  }

  lemma NothingToTrim(s: string)
    requires s != [] && !IsSpace(s[0]) && !IsSpace(s[|s| - 1])
    ensures TrimSpace(s) == s
  {
  }

  lemma Pow18()
    ensures Pow10(DECIMALS) == UNIT
  {
    assert Pow10(6) == 1_000_000;
    assert Pow10(12) == 1_000_000_000_000;
  }

  // ---------------------------------------------------------------- the round trip

  lemma WholeRoundTrip(whole: nat)
    requires whole * UNIT < MOD
    ensures ParseAmount(Decimal(whole)) == Ok(whole * UNIT)
  {
    var s := Decimal(whole);
    DecimalValue(whole);
    assert IsDigit(s[0]) && IsDigit(s[|s| - 1]);
    NothingToTrim(s);
    DotAfterDigits(s, []);
    ScanDigits(s);
  }

  /** Digits, a dot, and more digits come apart at the dot. */
  lemma SplitDotted(s: string, w: string, digits: string)
    requires s == w + "." + digits
    requires w != [] && AllDigits(w) && digits != [] && AllDigits(digits)
    ensures TrimSpace(s) == s && SplitDot(s) == Dotted(w, digits)
  {
    assert IsDigit(w[0]) && IsDigit(digits[|digits| - 1]);
    NothingToTrim(s);
    DotAfterDigits(w, digits);
    assert s[..|w|] == w && s[|w| + 1..] == digits;
  }

  lemma Rebuild(whole: u64, frac: u64)
    requires whole * UNIT + frac < MOD
    ensures Add(Mul(whole, UNIT), frac) == whole * UNIT + frac
  {
  }

  lemma EvaluateDotted(w: string, digits: string, padded: string, whole: nat, frac: nat)
    requires w != [] && AllDigits(w) && padded == FractionText(digits) && padded != [] && AllDigits(padded)
    requires Value(w) == whole && Value(padded) == frac && whole * UNIT + frac < MOD
    ensures Evaluate(Dotted(w, digits)) == Ok(whole * UNIT + frac)
  {
    ScanDigits(w);
    ScanDigits(padded);
    Rebuild(whole, frac);
  }

  lemma {:induction false} OnlyZeros(s: string)
    requires TrimZeros(s) == []
    ensures Value(s) == 0
  {
    if s != [] {
      OnlyZeros(s[..|s| - 1]);
    }
  }

  /** A number that is not zero has digits left after trimming. */
  lemma TrimLeavesDigits(padded: string)
    requires AllDigits(padded) && Value(padded) != 0
    ensures TrimZeros(padded) != [] && AllDigits(TrimZeros(padded))
  {
    TrimAndPad(padded);
    var digits := TrimZeros(padded);
    assert forall i :: 0 <= i < |digits| ==> digits[i] == padded[i];
    if digits == [] {
      OnlyZeros(padded);
      assert false;
    }
  }

  /** The printed fraction is not empty, and padding it again gives its k digits. */
  lemma FractionDigits(frac: nat, k: nat)
    requires 0 < frac < Pow10(k)
    ensures var digits := TrimZeros(Padded(frac, k));
            && digits != [] && |digits| <= k && AllDigits(digits)
            && Padded(frac, k) == digits + Zeros(k - |digits|)
            && |Padded(frac, k)| == k && AllDigits(Padded(frac, k)) && Value(Padded(frac, k)) == frac
  {
    PaddedValue(frac, k);
    TrimAndPad(Padded(frac, k));
    TrimLeavesDigits(Padded(frac, k));
  }

  lemma ZeroRoundTrip()
    ensures ParseAmount("0") == Ok(0)
  {
    assert Decimal(0) == "0";
    WholeRoundTrip(0);
  }

  lemma FormatFraction(amount: u64, digits: string)
    requires amount % UNIT != 0 && digits == TrimZeros(Padded(amount % UNIT, DECIMALS)) && digits != []
    ensures FormatAmount(amount) == Decimal(amount / UNIT) + "." + digits
  {
  }

  /** Reading back a printed whole part and fraction. */
  lemma ParsePrinted(s: string, w: string, digits: string, padded: string, whole: nat, frac: nat)
    requires s == w + "." + digits && w != [] && AllDigits(w) && digits != [] && AllDigits(digits)
    requires padded == FractionText(digits) && padded != [] && AllDigits(padded)
    requires Value(w) == whole && Value(padded) == frac && whole * UNIT + frac < MOD
    ensures ParseAmount(s) == Ok(whole * UNIT + frac)
  {
    SplitDotted(s, w, digits);
    EvaluateDotted(w, digits, padded, whole, frac);
  }

  lemma PrintedRoundTrip(s: string, whole: nat, frac: nat, k: nat)
    requires 0 < frac < Pow10(k) && k == DECIMALS && whole * UNIT + frac < MOD
    requires s == Decimal(whole) + "." + TrimZeros(Padded(frac, k))
    ensures ParseAmount(s) == Ok(whole * UNIT + frac)
  {
    DecimalValue(whole);
    FractionDigits(frac, k);
    ParsePrinted(s, Decimal(whole), TrimZeros(Padded(frac, k)), Padded(frac, k), whole, frac);
  }

  lemma PrintedParts(amount: u64) returns (whole: nat, frac: nat, k: nat)
    requires amount % UNIT != 0
    ensures amount == whole * UNIT + frac && k == DECIMALS && 0 < frac < Pow10(k)
    ensures FormatAmount(amount) == Decimal(whole) + "." + TrimZeros(Padded(frac, k))
  {
    whole, frac, k := amount / UNIT, amount % UNIT, DECIMALS;
    Pow18();
    FractionDigits(frac, k);
    FormatFraction(amount, TrimZeros(Padded(frac, k)));
  }

  lemma FractionCase(amount: u64)
    requires amount % UNIT != 0
    ensures ParseAmount(FormatAmount(amount)) == Ok(amount)
  {
    var whole, frac, k := PrintedParts(amount);
    PrintedRoundTrip(FormatAmount(amount), whole, frac, k);
  }

  lemma WholeCase(amount: u64)
    requires amount != 0 && amount % UNIT == 0
    ensures ParseAmount(FormatAmount(amount)) == Ok(amount)
  {
    WholeRoundTrip(amount / UNIT);
  }

  /** Every uint64 amount is read back as it was printed, with no overflow on the way. */
  lemma FormatThenParse(amount: u64)
    ensures ParseAmount(FormatAmount(amount)) == Ok(amount)
  {
    if amount == 0 {
      ZeroRoundTrip();
    } else if amount % UNIT == 0 {
      WholeCase(amount);
    } else {
      FractionCase(amount);
    }
  }

  /** So no two amounts are printed alike. */
  lemma FormatInjective(a: u64, b: u64)
    requires FormatAmount(a) == FormatAmount(b)
    ensures a == b
  {
    FormatThenParse(a);
    FormatThenParse(b);
  }

  // ---------------------------------------------------------------- what the texts mean

  lemma {:induction false} NoLeadingZero(n: nat)
    ensures |Decimal(n)| > 1 ==> Decimal(n)[0] != '0'
    ensures n > 0 ==> Decimal(n)[0] != '0'
  {
    if n >= 10 {
      NoLeadingZero(n / 10);
    }
  }

  lemma {:induction false} TrimmedEnd(s: string)
    ensures TrimZeros(s) != [] ==> TrimZeros(s)[|TrimZeros(s)| - 1] != '0'
  {
    if s != [] && s[|s| - 1] == '0' {
      TrimmedEnd(s[..|s| - 1]);
    }
  }

  /** A printed amount is the number of whole units in decimal, without leading zeros, and, if there is more, a point
      and the rest in at most 18 decimals of which the last is not zero. */
  lemma FormatMeans(amount: u64) returns (whole: string, decimals: string)
    ensures AllDigits(whole) && whole != [] && (|whole| > 1 ==> whole[0] != '0')
    ensures Value(whole) == amount / 1_000_000_000_000_000_000
    ensures AllDigits(decimals) && |decimals| <= 18 && (decimals != [] ==> decimals[|decimals| - 1] != '0')
    ensures Value(decimals + Zeros(18 - |decimals|)) == amount % 1_000_000_000_000_000_000
    ensures FormatAmount(amount) == if decimals == [] then whole else whole + "." + decimals
  {
    whole := Decimal(amount / UNIT);
    DecimalValue(amount / UNIT);
    NoLeadingZero(amount / UNIT);
    if amount % UNIT == 0 {
      decimals := [];
      ZerosValue(18);
      assert [] + Zeros(18) == Zeros(18);
      assert amount == 0 ==> Decimal(0) == "0";
    } else {
      decimals := TrimZeros(Padded(amount % UNIT, DECIMALS));
      Pow18();
      FractionDigits(amount % UNIT, DECIMALS);
      TrimmedEnd(Padded(amount % UNIT, DECIMALS));
      FormatFraction(amount, decimals);
    }
  }

  lemma {:induction false} ZerosValue(k: nat)
    ensures |Zeros(k)| == k && AllDigits(Zeros(k)) && Value(Zeros(k)) == 0
  {
    if k > 0 {
      ZerosValue(k - 1);
      assert Zeros(k)[..k - 1] == Zeros(k - 1);
    }
  }

  lemma {:induction false} DigitsBound(s: string)
    requires AllDigits(s)
    ensures 0 <= Value(s) < Pow10(|s|)
  {
    if s != [] {
      DigitsBound(s[..|s| - 1]);
    }
  }

  /** The first 18 decimals, filled up with zeros. */
  lemma FractionOf(decimals: string)
    requires AllDigits(decimals)
    ensures var text := FractionText(decimals);
            && text == (if |decimals| > 18 then decimals[..18] else decimals + Zeros(18 - |decimals|))
            && |text| == 18 && AllDigits(text) && 0 <= Value(text) < UNIT && ScanUint(text) == Some(Value(text))
  {
    ZerosValue(if |decimals| > 18 then 0 else 18 - |decimals|);
    Pow18();
    DigitsBound(FractionText(decimals));
    ScanDigits(FractionText(decimals));
  }

  lemma ScanLarge(s: string)
    requires s != [] && AllDigits(s)
    ensures ScanUint(s) == if Value(s) < MOD then Some(Value(s)) else None
  {
    assert IsDigit(s[0]) && !IsSpace(s[0]);
    WholePrefix(s);
    DigitsBound(s);
  }

  /** Digits alone are whole units, of which the amount keeps the low 64 bits; too many for 64 bits are an error. */
  lemma ParseWhole(whole: string)
    requires whole != [] && AllDigits(whole)
    ensures ParseAmount(whole) ==
              if Value(whole) < MOD then Ok((Value(whole) * 1_000_000_000_000_000_000) % MOD) else Err(Malformed)
  {
    assert IsDigit(whole[0]) && IsDigit(whole[|whole| - 1]);
    NothingToTrim(whole);
    DotAfterDigits(whole, []);
    ScanLarge(whole);
  }

  /** Digits, a point and digits, of which one side may be missing: whole units and the first 18 decimals. */
  lemma ParseDecimals(whole: string, decimals: string)
    requires AllDigits(whole) && AllDigits(decimals)
    ensures var first := if |decimals| > 18 then decimals[..18] else decimals + Zeros(18 - |decimals|);
            ParseAmount(whole + "." + decimals) ==
              if Value(whole) < MOD then Ok((Value(whole) * 1_000_000_000_000_000_000 + Value(first)) % MOD)
              else Err(Malformed)
  {
    SplitAtDot(whole, decimals);
    FractionOf(decimals);
    if whole != [] {
      ScanLarge(whole);
    }
    AddReduced(Value(whole) * UNIT, Value(FractionText(decimals)));
  }

  lemma SplitAtDot(whole: string, decimals: string)
    requires AllDigits(whole) && AllDigits(decimals)
    ensures var s := whole + "." + decimals;
            TrimSpace(s) == s && s != [] && SplitDot(s) == Dotted(whole, decimals)
  {
    var s := whole + "." + decimals;
    assert s[0] == '.' || IsDigit(s[0]);
    assert s[|s| - 1] == '.' || IsDigit(s[|s| - 1]);
    NothingToTrim(s);
    DotAfterDigits(whole, decimals);
    assert s[..|whole|] == whole && s[|whole| + 1..] == decimals;
  }

  /** Blank texts, and no others, are empty. */
  lemma EmptyExactly(text: string)
    ensures ParseAmount(text) == Err(Empty) <==> forall i :: 0 <= i < |text| ==> IsSpace(text[i])
  {
    TrimLeftBlank(text);
    TrimRightBlank(TrimLeft(text));
  }

  lemma {:induction false} TrimLeftBlank(s: string)
    ensures TrimLeft(s) == [] <==> forall i :: 0 <= i < |s| ==> IsSpace(s[i])
    ensures TrimLeft(s) != [] ==> !IsSpace(TrimLeft(s)[0])
  {
    if s != [] && IsSpace(s[0]) {
      TrimLeftBlank(s[1..]);
      assert s == [s[0]] + s[1..];
    }
  }

  lemma {:induction false} TrimRightBlank(s: string)
    ensures s != [] && !IsSpace(s[0]) ==> TrimRight(s) != []
  {
    if s != [] && IsSpace(s[|s| - 1]) {
      TrimRightBlank(s[..|s| - 1]);
    }
  }
}

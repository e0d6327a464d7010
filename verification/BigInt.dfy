/** BigInt's database and JSON codecs: one decimal printer and two parsers, one that detects the base. */
module BigInt {
  import opened Bytes

  // ---- Printing: big.Int.Text(10) ----

  function DigitChar(d: nat): char
    requires d < 10
  {
    '0' + d as char
  }

  function Digits(n: nat): (s: string)
    ensures s != "" && (forall i :: 0 <= i < |s| ==> '0' <= s[i] <= '9')
    ensures s[0] == '0' ==> s == "0" && n == 0
  {
    if n < 10 then [DigitChar(n)] else Digits(n / 10) + [DigitChar(n % 10)]
  }

  function Text(x: int): string {
    if x < 0 then "-" + Digits(-x) else Digits(x)
  }

  // ---- Parsing ----

  /** The value of a digit in bases up to 36; letters count in either case. */
  function DigitValue(c: char): nat {
    if '0' <= c <= '9' then c as nat - '0' as nat
    else if 'a' <= c <= 'z' then c as nat - 'a' as nat + 10
    else if 'A' <= c <= 'Z' then c as nat - 'A' as nat + 10
    else 99
  }

  predicate AllDigits(s: string, base: nat) {
    forall i :: 0 <= i < |s| ==> DigitValue(s[i]) < base
  }

  function Value(s: string, base: nat): nat {
    if s == "" then 0 else Value(s[..|s| - 1], base) * base + DigitValue(s[|s| - 1])
  }

  function NatOf(s: string, base: nat): Option<nat> {
    if s != "" && AllDigits(s, base) then Some(Value(s, base)) else None
  }

  /** Each underscore stands between two digits; before stands for what precedes s. */
  predicate Separated(s: string, before: char) {
    if s == "" then before != '_'
    else (s[0] == '_' ==> before != '_' && before != '.') && Separated(s[1..], s[0])
  }

  function Strip(s: string): string {
    if s == "" then "" else (if s[0] == '_' then "" else [s[0]]) + Strip(s[1..])
  }

  /** Digits of one base with separators; a prefix may be followed by a separator. */
  function Grouped(s: string, before: char, base: nat): Option<nat> {
    if Separated(s, before) then NatOf(Strip(s), base) else None
  }

  /** The magnitude under base detection: 0b, 0o, 0x and a bare leading zero select 2, 8, 16 and 8. */
  function DetectNat(s: string): Option<nat> {
    if |s| >= 2 && s[0] == '0' then
      if s[1] == 'b' || s[1] == 'B' then Grouped(s[2..], '0', 2)
      else if s[1] == 'o' || s[1] == 'O' then Grouped(s[2..], '0', 8)
      else if s[1] == 'x' || s[1] == 'X' then Grouped(s[2..], '0', 16)
      else Grouped(s[1..], '0', 8)
    else Grouped(s, '.', 10)
  }

  predicate HasSign(s: string) { s != "" && (s[0] == '-' || s[0] == '+') }

  function Unsigned(s: string): string { if HasSign(s) then s[1..] else s }

  function Signed(s: string, n: Option<nat>): Option<int> {
    match n
    case None => None
    case Some(v) =>
      var magnitude: int := v;
      Some(if s != "" && s[0] == '-' then -magnitude else magnitude)
  }

  /** big.Int.UnmarshalText: base detection. */
  function ParseDetect(s: string): Option<int> { Signed(s, DetectNat(Unsigned(s))) }

  /** big.Int.SetString(s, 10). */
  function ParseDecimal(s: string): Option<int> { Signed(s, NatOf(Unsigned(s), 10)) }

  lemma {:induction false} DigitsValue(n: nat)
    ensures AllDigits(Digits(n), 10) && Value(Digits(n), 10) == n
  {
    if n < 10 {
      assert Digits(n)[..0] == "";
    } else {
      DigitsValue(n / 10);
      assert Digits(n)[..|Digits(n / 10)|] == Digits(n / 10);
    }
  }

  lemma {:induction false} PlainDigits(s: string, before: char)
    requires AllDigits(s, 36) && before != '_'
    ensures Separated(s, before) && Strip(s) == s
  {
    if s != "" {
      PlainDigits(s[1..], s[0]);
    }
  }

  lemma DigitsRead(n: nat)
    ensures NatOf(Digits(n), 10) == Some(n) && DetectNat(Digits(n)) == Some(n)
  {
    DigitsValue(n);
    PlainDigits(Digits(n), '.');
  }

  /** What Text prints: decimal digits behind a minus sign or nothing, no zero in front, the last one
      the units. */
  lemma TextForm(x: int)
    ensures x < 0 ==> Text(x) == "-" + Text(-x)
    ensures x >= 0 ==> Text(x) != "" && forall i :: 0 <= i < |Text(x)| ==> '0' <= Text(x)[i] <= '9'
    ensures 0 <= x < 10 ==> Text(x) == ['0' + x as char]
    ensures x >= 10 ==> Text(x) == Text(x / 10) + Text(x % 10) && Text(x)[0] != '0'
  {
    if x >= 10 {
      assert Digits(x) == Digits(x / 10) + [DigitChar(x % 10)] && Digits(x % 10) == [DigitChar(x % 10)];
    }
  }

  function Power(base: nat, n: nat): nat { if n == 0 then 1 else base * Power(base, n - 1) }

  /** The digits count from the left: the first weighs a power of the base. */
  lemma {:induction false} FirstDigitWeighs(s: string, base: nat)
    requires s != ""
    ensures Value(s, base) == DigitValue(s[0]) * Power(base, |s| - 1) + Value(s[1..], base)
  {
    if |s| == 1 {
      assert s[..0] == "" && s[1..] == "";
    } else {
      var init := s[..|s| - 1];
      FirstDigitWeighs(init, base);
      assert init[1..] == s[1..][..|s| - 2] && s[1..][|s| - 2] == s[|s| - 1] && init[0] == s[0];
      WeightGrows(DigitValue(s[0]), Power(base, |s| - 2), Value(init[1..], base), base);
      assert Power(base, |s| - 1) == base * Power(base, |s| - 2);
    }
  }

  lemma WeightGrows(d: nat, weight: nat, rest: nat, base: nat)
    ensures (d * weight + rest) * base == d * (base * weight) + rest * base
  {
  }

  /** Reading back what Text prints: either parser returns the number. */
  lemma TextRoundTrip(x: int)
    ensures ParseDecimal(Text(x)) == Some(x) && ParseDetect(Text(x)) == Some(x)
  {
    hide Digits, DetectNat, NatOf;
    if x < 0 {
      DigitsRead(-x);
      assert ("-" + Digits(-x))[1..] == Digits(-x);
    } else {
      DigitsRead(x);
    }
  }

  // ---- Where the parsers agree ----

  lemma {:induction false} OctalBelowDecimal(s: string)
    requires AllDigits(s, 8)
    ensures Value(s, 8) <= Value(s, 10)
    ensures Value(s, 8) == Value(s, 10) <==> Value(s, 10) < 8
  {
    if s != "" {
      OctalBelowDecimal(s[..|s| - 1]);
    }
  }

  lemma {:induction false} SmallIsOctal(s: string)
    requires AllDigits(s, 10) && Value(s, 10) < 8
    ensures AllDigits(s, 8)
  {
    if s != "" {
      SmallIsOctal(s[..|s| - 1]);
    }
  }

  lemma {:induction false} LeadingZero(s: string, base: nat)
    requires s != "" && s[0] == '0'
    ensures Value(s, base) == Value(s[1..], base)
  {
    if |s| == 1 {
      assert s[..0] == "" && s[1..] == "";
    } else {
      LeadingZero(s[..|s| - 1], base);
      assert s[..|s| - 1][1..] == s[1..][..|s| - 2];
    }
  }

  /** A 0b, 0o or 0x in front. */
  predicate BasePrefixed(u: string) { |u| >= 2 && u[0] == '0' && u[1] in "bBoOxX" }

  /** A leading zero with more behind it. */
  predicate ZeroPrefixed(u: string) { |u| >= 2 && u[0] == '0' }

  /** Carries what only base detection reads: an underscore or a base prefix. */
  predicate Marked(u: string) { '_' in u || BasePrefixed(u) }

  function Radix(u: string): nat {
    if BasePrefixed(u) then (if u[1] in "bB" then 2 else if u[1] in "oO" then 8 else 16)
    else if ZeroPrefixed(u) then 8
    else 10
  }

  function PrefixLength(u: string): nat {
    if BasePrefixed(u) then 2 else if ZeroPrefixed(u) then 1 else 0
  }

  /** The grammar of base detection: after the prefix, digits of the base and single underscores, each
      behind a digit or the prefix and in front of a digit. */
  predicate Literal(u: string) {
    && PrefixLength(u) < |u|
    && (forall i :: PrefixLength(u) <= i < |u| ==> u[i] == '_' || DigitValue(u[i]) < Radix(u))
    && (forall i :: PrefixLength(u) <= i < |u| && u[i] == '_' ==> i > 0 && u[i - 1] != '_' && i + 1 < |u| && u[i + 1] != '_')
  }

  function Previous(s: string, before: char, i: nat): char
    requires i < |s|
  {
    if i == 0 then before else s[i - 1]
  }

  lemma {:induction false} SeparatedMeans(s: string, before: char)
    requires s != ""
    ensures Separated(s, before) <==>
            && s[|s| - 1] != '_'
            && forall i :: 0 <= i < |s| && s[i] == '_' ==> Previous(s, before, i) != '_' && Previous(s, before, i) != '.'
  {
    if |s| == 1 {
      assert Separated(s[1..], s[0]) <==> s[0] != '_';
    } else {
      var t := s[1..];
      SeparatedMeans(t, s[0]);
      assert forall i :: 0 <= i < |t| ==> t[i] == s[i + 1] && Previous(t, s[0], i) == Previous(s, before, i + 1);
      assert forall i :: 0 < i < |s| ==> s[i] == t[i - 1];
    }
  }

  lemma {:induction false} StripMeans(s: string, base: nat)
    ensures AllDigits(Strip(s), base) <==> forall i :: 0 <= i < |s| ==> s[i] == '_' || DigitValue(s[i]) < base
    ensures Strip(s) == "" <==> forall i :: 0 <= i < |s| ==> s[i] == '_'
  {
    hide DigitValue;
    if s != "" {
      var t := s[1..];
      StripMeans(t, base);
      assert forall i :: 0 <= i < |t| ==> t[i] == s[i + 1];
      assert forall i :: 0 < i < |s| ==> s[i] == t[i - 1];
      if s[0] != '_' {
        AllDigitsCons(s[0], Strip(t), base);
      } else {
        assert "" + Strip(t) == Strip(t);
      }
    }
  }

  lemma AllDigitsCons(c: char, s: string, base: nat)
    ensures AllDigits([c] + s, base) <==> DigitValue(c) < base && AllDigits(s, base)
  {
    hide DigitValue;
    var t := [c] + s;
    assert t[0] == c && forall i :: 0 <= i < |s| ==> s[i] == t[i + 1];
  }

  /** A grouping is read exactly when it is not empty, has digits of the base and underscores only,
      and no underscore is doubled, last, or first where nothing stands before. */
  lemma GroupedMeans(s: string, before: char, base: nat)
    requires before == '0' || before == '.'
    requires base <= 36
    ensures Grouped(s, before, base).Some? <==>
            && s != ""
            && (forall i :: 0 <= i < |s| ==> s[i] == '_' || DigitValue(s[i]) < base)
            && (forall i :: 0 <= i < |s| && s[i] == '_' ==>
                  Previous(s, before, i) != '_' && Previous(s, before, i) != '.' && i + 1 < |s| && s[i + 1] != '_')
  {
    StripMeans(s, base);
    if s != "" {
      SeparatedMeans(s, before);
      assert DigitValue('.') == 99;
      if Separated(s, before) {
        forall i | 0 <= i < |s| && s[i] == '_' ensures i + 1 < |s| && s[i + 1] != '_' {
          if i + 1 < |s| {
            assert Previous(s, before, i + 1) == s[i];
          }
        }
      } else if s[|s| - 1] == '_' {
        assert |s| - 1 + 1 == |s|;
      }
    }
  }

  function Lead(u: string): char { if PrefixLength(u) == 0 then '.' else '0' }

  lemma DetectGroups(u: string)
    ensures DetectNat(u) == Grouped(u[PrefixLength(u)..], Lead(u), Radix(u))
  {
    hide Grouped;
  }

  /** Base detection reads exactly the strings of that grammar. */
  lemma DetectsLiterals(u: string)
    ensures DetectNat(u).Some? <==> Literal(u)
  {
    DetectGroups(u);
    hide DetectNat, Grouped, Literal;
    if Literal(u) {
      LiteralDetected(u);
    } else if DetectNat(u).Some? {
      DetectedIsLiteral(u);
    }
  }

  lemma LiteralDetected(u: string)
    requires Literal(u)
    ensures Grouped(u[PrefixLength(u)..], Lead(u), Radix(u)).Some?
  {
    var s := u[PrefixLength(u)..];
    GroupedMeans(s, Lead(u), Radix(u));
    hide Grouped, DigitValue, Radix, BasePrefixed, ZeroPrefixed;
    assert forall i :: 0 <= i < |s| ==> s[i] == u[PrefixLength(u) + i];
    forall i | 0 <= i < |s| && s[i] == '_'
      ensures Previous(s, Lead(u), i) != '_' && Previous(s, Lead(u), i) != '.' && i + 1 < |s| && s[i + 1] != '_'
    {
      assert u[PrefixLength(u) + i] == '_';
      BeforeUnderscore(u, i);
    }
  }

  lemma DetectedIsLiteral(u: string)
    requires Grouped(u[PrefixLength(u)..], Lead(u), Radix(u)).Some?
    ensures Literal(u)
  {
    var k, s := PrefixLength(u), u[PrefixLength(u)..];
    GroupedMeans(s, Lead(u), Radix(u));
    assert k > 0 ==> u[k - 1] != '_';
    hide Grouped, DigitValue, Radix, BasePrefixed, ZeroPrefixed;
    forall i | k <= i < |u| ensures u[i] == '_' || DigitValue(u[i]) < Radix(u) {
      assert s[i - k] == u[i];
    }
    forall i | k <= i < |u| && u[i] == '_' ensures i > 0 && u[i - 1] != '_' && i + 1 < |u| && u[i + 1] != '_' {
      assert s[i - k] == u[i] && Previous(s, Lead(u), i - k) != '_';
    }
  }

  lemma BeforeUnderscore(u: string, i: nat)
    requires Literal(u) && i < |u| - PrefixLength(u) && u[PrefixLength(u) + i] == '_'
    ensures var p := Previous(u[PrefixLength(u)..], Lead(u), i); p != '_' && p != '.'
  {
    var k := PrefixLength(u);
    assert DigitValue('.') == 99;
  }

  lemma OctalReading(u: string)
    requires ZeroPrefixed(u) && AllDigits(u, 10)
    ensures DetectNat(u) == (if AllDigits(u[1..], 8) then Some(Value(u[1..], 8)) else None)
    ensures Value(u, 10) == Value(u[1..], 10)
  {
    PlainDigits(u[1..], '0');
    LeadingZero(u, 10);
    assert DigitValue(u[1]) < 10;
  }

  lemma PlainGrouped(s: string, base: nat)
    requires s != "" && base <= 36 && AllDigits(s, base)
    ensures Grouped(s, '0', base) == Some(Value(s, base))
  {
    PlainDigits(s, '0');
  }

  /** A prefix selects its base. */
  lemma PrefixSelects(s: string, c: char)
    requires s != ""
    ensures c in "bB" && AllDigits(s, 2) ==> DetectNat("0" + [c] + s) == Some(Value(s, 2))
    ensures c in "oO" && AllDigits(s, 8) ==> DetectNat("0" + [c] + s) == Some(Value(s, 8))
    ensures c in "xX" && AllDigits(s, 16) ==> DetectNat("0" + [c] + s) == Some(Value(s, 16))
  {
    var u := "0" + [c] + s;
    assert u[0] == '0' && u[1] == c && u[2..] == s;
    hide Grouped;
    if c in "bB" && AllDigits(s, 2) {
      PlainGrouped(s, 2);
    } else if c in "oO" && AllDigits(s, 8) {
      PlainGrouped(s, 8);
    } else if c in "xX" && AllDigits(s, 16) {
      PlainGrouped(s, 16);
    }
  }

  /** And so does a bare leading zero. */
  lemma ZeroSelects(s: string)
    requires s != "" && AllDigits(s, 8)
    ensures DetectNat("0" + s) == Some(Value(s, 8))
  {
    var u := "0" + s;
    assert u[0] == '0' && u[1] == s[0] && u[1..] == s && DigitValue(s[0]) < 8;
    PlainGrouped(s, 8);
    hide Grouped;
  }

  /** Where the magnitudes agree: a marked string unless base detection reads it, any other unless it
      is a decimal with a leading zero that is not below 8. */
  predicate SameMagnitude(u: string) {
    if Marked(u) then !Literal(u) else ZeroPrefixed(u) && AllDigits(u, 10) ==> Value(u, 10) < 8
  }

  lemma MarkedIsNoDecimal(u: string)
    requires Marked(u)
    ensures NatOf(u, 10).None?
  {
    if '_' in u {
      var i :| 0 <= i < |u| && u[i] == '_';
      assert DigitValue(u[i]) == 99;
    } else {
      assert DigitValue(u[1]) >= 10;
    }
  }

  lemma MagnitudesAgree(u: string)
    ensures DetectNat(u) == NatOf(u, 10) <==> SameMagnitude(u)
  {
    DetectsLiterals(u);
    if Marked(u) {
      MarkedIsNoDecimal(u);
    } else if !AllDigits(u, 10) {
      var i :| 0 <= i < |u| && DigitValue(u[i]) >= 10;
      assert u[i] in u && PrefixLength(u) <= i;
    } else if ZeroPrefixed(u) {
      OctalReading(u);
      if AllDigits(u[1..], 8) {
        OctalBelowDecimal(u[1..]);
      } else if Value(u[1..], 10) < 8 {
        SmallIsOctal(u[1..]);
      }
    } else {
      PlainDigits(u, '.');
    }
  }

  /** On every string, the two parsers give the same number or the same refusal exactly when the
      string is not a literal with an underscore or base prefix, nor a decimal with a leading zero
      that is 8 or more in magnitude. */
  lemma ParsersAgree(s: string)
    ensures ParseDetect(s) == ParseDecimal(s) <==> SameMagnitude(Unsigned(s))
  {
    MagnitudesAgree(Unsigned(s));
  }

  // ---- The type ----

  /** What the database driver hands over or is handed. */
  datatype DriverValue = Null | Int64(i: int) | Raw(bytes: string) | Str(text: string) | BigRef(x: int) | Other

  /** A decoded JSON document: a string, null, or anything else. */
  datatype Json = JString(text: string) | JNull | JOther

  datatype CodecError = NoError | Unsupported | Malformed

  /** The number Scan stores for a driver value, or None where it reports an error. */
  function Scanned(v: DriverValue): Option<int> {
    match v
    case Null => Some(0)
    case Int64(i) => Some(i)
    case Raw(b) => ParseDetect(b)
    case Str(t) => ParseDetect(if t == "" then "0" else t)
    case BigRef(_) => None
    case Other => None
  }

  /** The number UnmarshalJSON stores. */
  function Unmarshaled(j: Json): Option<int> {
    match j
    case JString(t) => ParseDecimal(if t == "" then "0" else t)
    case JNull => Some(0)
    case JOther => None
  }

  /** BigInt wraps a *big.Int, which may be nil. */
  class BigInt {
    var num: Option<int>

    constructor (x: Option<int>)
      ensures num == x
    {
      num := x;
    }

    method Scan(value: DriverValue) returns (err: CodecError)
      modifies this
      ensures err == NoError <==> Scanned(value).Some?
      ensures err == NoError ==> num == Scanned(value)
      ensures err == Unsupported <==> value.BigRef? || value.Other?
      ensures value.Null? || value == Str("") ==> err == NoError && num == Some(0)
      ensures value.Int64? ==> err == NoError && num == Some(value.i)
      ensures value.Raw? ==> err == if ParseDetect(value.bytes).Some? then NoError else Malformed
      ensures value.Raw? && err == NoError ==> num == ParseDetect(value.bytes)
      ensures value.Str? && value.text != "" ==> err == if ParseDetect(value.text).Some? then NoError else Malformed
      ensures value.Str? && value.text != "" && err == NoError ==> num == ParseDetect(value.text)
      ensures num.Some?
    {
      match value
      case Null =>
        num := Some(0);
        return NoError;
      case Int64(i) =>
        num := Some(i);
        return NoError;
      case Raw(b) =>
        err := UnmarshalText(b);
      case Str(t) =>
        var v := t;
        if v == "" {
          v := "0";
        }
        err := UnmarshalText(v);
      case _ =>
        num := Some(0);
        return Unsupported;
    }

    /** On failure the number is left undefined, but there is one. */
    method UnmarshalText(text: string) returns (err: CodecError)
      modifies this
      ensures err == if ParseDetect(text).Some? then NoError else Malformed
      ensures err == NoError ==> num == ParseDetect(text)
      ensures num.Some?
    {
      num := Some(0);
      var parsed := ParseDetect(text);
      if parsed.None? {
        var junk: int := *;
        num := Some(junk);
        return Malformed;
      }
      num := parsed;
      return NoError;
    }

    function Value(): (v: DriverValue)
      reads this
    {
      match num case None => BigRef(0) case Some(x) => Str(Text(x))
    }

    function MarshalJSON(): Json
      reads this
    {
      match num case None => JString("0") case Some(x) => JString(Text(x))
    }

    method UnmarshalJSON(data: Json) returns (err: CodecError)
      modifies this
      ensures err == NoError <==> Unmarshaled(data).Some?
      ensures data.JOther? ==> err == Malformed && num == old(num)
      ensures data.JNull? || data == JString("") ==> err == NoError && num == Some(0)
      ensures data.JString? && data.text != "" ==>
                num == ParseDecimal(data.text) && err == if num.Some? then NoError else Malformed
      ensures !data.JOther? ==> num == Unmarshaled(data)
    {
      if data.JOther? {
        return Malformed;
      }
      var str := if data.JString? then data.text else "";
      if str == "" {
        str := "0";
      }
      num := ParseDecimal(str);
      TextRoundTrip(0);
      return if num.Some? then NoError else Malformed;
    }
  }

  /** Scanning what Value gives, as text or as bytes, returns the number, exactly when there is one:
      a nil BigInt is handed over as a *big.Int, which Scan refuses. */
  lemma DatabaseRoundTrip(b: BigInt)
    ensures b.Value() == if b.num.Some? then Str(Text(b.num.value)) else BigRef(0)
    ensures Scanned(b.Value()).Some? <==> b.num.Some?
    ensures b.num.Some? ==> Scanned(b.Value()) == b.num && Scanned(Raw(b.Value().text)) == b.num
  {
    if b.num.Some? {
      TextRoundTrip(b.num.value);
    }
  }

  /** JSON gives every number back, and 0 for none. */
  lemma JsonRoundTrip(b: BigInt)
    ensures b.MarshalJSON() == JString(Text(if b.num.Some? then b.num.value else 0))
    ensures Unmarshaled(b.MarshalJSON()) == Some(match b.num case None => 0 case Some(x) => x)
  {
    TextRoundTrip(0);
    if b.num.Some? {
      TextRoundTrip(b.num.value);
    }
  }

  /** The two decoders treat a string alike exactly when the parsers do, or it is empty: both read the
      empty string as 0, but as bytes Scan refuses it. "010" and "1_0" tell the decoders apart. */
  lemma CodecsAgree(s: string)
    ensures Scanned(Str(s)) == Unmarshaled(JString(s)) <==> SameMagnitude(Unsigned(s))
    ensures s != "" ==> Scanned(Raw(s)) == Scanned(Str(s))
    ensures Scanned(Str("")) == Unmarshaled(JString("")) == Some(0) && Scanned(Raw("")) == None
    ensures Scanned(Str("010")) == Some(8) && Unmarshaled(JString("010")) == Some(10)
    ensures Scanned(Str("1_0")) == Some(10) && Unmarshaled(JString("1_0")) == None
  {
    EmptyStrings();
    ParsersAgree(s);
    Octal();
    Underscored();
    hide ParseDetect, ParseDecimal;
  }

  lemma EmptyStrings()
    ensures ParseDetect("") == None && ParseDetect("0") == ParseDecimal("0") == Some(0)
  {
    assert Text(0) == "0";
    TextRoundTrip(0);
  }

  lemma Octal()
    ensures ParseDetect("010") == Some(8) && ParseDecimal("010") == Some(10)
  {
    var t := "010";
    assert Unsigned(t) == t && t[1..] == "10" && "10"[..1] == "1" && "1"[..0] == "";
    OctalReading(t);
    assert Value("1", 8) == 1 && Value("1", 10) == 1;
    assert Value("10", 8) == 8 && Value("10", 10) == 10;
  }

  lemma Underscored()
    ensures ParseDetect("1_0") == Some(10) && ParseDecimal("1_0") == None
  {
    var u := "1_0";
    assert u[1] == '_' && Unsigned(u) == u && u[0..] == u;
    MarkedIsNoDecimal(u);
    DetectGroups(u);
    GroupedOnce();
    hide DetectNat, Grouped;
  }

  lemma GroupedOnce()
    ensures Grouped("1_0", '.', 10) == Some(10)
  {
    var u, v, w := "1_0", "_0", "0";
    assert u[1..] == v && v[1..] == w && w[1..] == "";
    assert Separated(w, '_') && Separated(v, '1') && Separated(u, '.');
    assert Strip(w) == "0" && Strip(v) == "0" && Strip(u) == "10";
    hide Separated, Strip;
    assert "10"[..1] == "1" && "1"[..0] == "";
    assert Value("1", 10) == 1 && Value("10", 10) == 10;
  }
}

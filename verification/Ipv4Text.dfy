/** Host names that a browser reads as IPv4 addresses, as section 3.5 of the WHATWG URL Standard has it. */
module Ipv4Text {
  import opened Wrappers
  import opened Text

  const TWO32 := 0x1_0000_0000

  /** `256 ** e` for the exponents an address needs. */
  function Pow256(e: nat): (p: nat)
    requires e <= 4
  {
    if e == 0 then 1 else if e == 1 then 0x100 else if e == 2 then 0x1_0000 else if e == 3 then 0x100_0000 else TWO32
  }

  /** `n * 256 ** e` */
  function Shifted(n: int, e: nat): int
    requires e <= 3
  {
    if e == 0 then n else if e == 1 then n * 0x100 else if e == 2 then n * 0x1_0000 else n * 0x100_0000
  }

  // --- one part ---------------------------------------------------------------------

  predicate HasHexPrefix(part: string) {
    |part| >= 2 && part[0] == '0' && (part[1] == 'x' || part[1] == 'X')
  }

  /** `_parse_number`; None where it raises. `int` takes signs, underscores and prefixes of its own. */
  function ParseNumber(part: string): Option<int> {
    if HasHexPrefix(part) then if |part| == 2 then Some(0) else PyIntBase(part[2..], 16)
    else if |part| > 1 && part[0] == '0' then PyIntBase(part[1..], 8)
    else PyIntBase(part, 10)
  }

  // --- the whole host -----------------------------------------------------------------

  /** The parts between the dots, without the empty one a final dot leaves. */
  function PartsOf(host: string): (parts: seq<string>)
    ensures parts != []
  {
    var parts := Split(host, '.');
    if parts[|parts| - 1] == "" && |parts| > 1 then parts[..|parts| - 1] else parts
  }

  /** A part as section 3.5 has it: digits, or `0x` and hex digits. */
  predicate IsPlain(part: string) {
    (part != "" && AllDigits(part, 10)) || (HasHexPrefix(part) && AllDigits(part[2..], 16))
  }

  /** `_ends_in_number`: it looks at the last part alone. */
  predicate EndsInNumber(host: string) {
    var parts := PartsOf(host);
    IsPlain(parts[|parts| - 1])
  }

  predicate IsPlainHost(host: string) {
    forall p | p in PartsOf(host) :: IsPlain(p)
  }

  /** The upper bounds on the numbers of one to four parts; there are no lower ones. */
  predicate InRange(numbers: seq<int>) {
    && 1 <= |numbers| <= 4
    && (forall i :: 0 <= i < |numbers| - 1 ==> numbers[i] <= 255)
    && numbers[|numbers| - 1] < Pow256(5 - |numbers|)
  }

  /** The leading numbers are the top bytes of the address. */
  function TopBytes(numbers: seq<int>): int
    requires |numbers| <= 3
  {
    if numbers == [] then 0
    else
      var n := |numbers| - 1;
      TopBytes(numbers[..n]) + Shifted(numbers[n], 3 - n)
  }

  function Combine(numbers: seq<int>): int
    requires 1 <= |numbers| <= 4
  {
    var n := |numbers| - 1;
    TopBytes(numbers[..n]) + numbers[n]
  }

  function Numbers(parts: seq<string>): (r: Option<seq<int>>)
    ensures r.Some? <==> forall p | p in parts :: ParseNumber(p).Some?
    ensures r.Some? ==> |r.value| == |parts| && forall i :: 0 <= i < |parts| ==> Some(r.value[i]) == ParseNumber(parts[i])
  {
    if forall p | p in parts :: ParseNumber(p).Some? then
      Some(seq(|parts|, i requires 0 <= i < |parts| => assert parts[i] in parts; ParseNumber(parts[i]).value))
    else
      None
  }

  /** `_whatwg_ipv4`; None where it raises. */
  function ReadIpv4(host: string): (r: Option<nat>)
    ensures r.Some? ==> r.value < TWO32
  {
    var parts := PartsOf(host);
    if |parts| > 4 || "" in parts then None
    else
      var numbers := Numbers(parts);
      if numbers.None? || !InRange(numbers.value) then None else AsAddress(Combine(numbers.value))
  }

  /** `ipaddress.IPv4Address(value)`; None where it raises. */
  function AsAddress(value: int): (r: Option<nat>)
    ensures r.Some? ==> r.value < TWO32
  {
    if 0 <= value < TWO32 then Some(value) else None
  }

  /** The loop that `_whatwg_ipv4` runs. */
  method WhatwgIpv4(host: string) returns (r: Option<nat>)
    ensures r == ReadIpv4(host)
  {
    var parts := Split(host, '.');
    if parts[|parts| - 1] == "" && |parts| > 1 {
      parts := parts[..|parts| - 1];
    }
    if |parts| > 4 || "" in parts {
      return None;
    }
    var numbers := ParseAll(parts);
    if numbers.None? || !InRange(numbers.value) {
      return None;
    }
    var value := Accumulate(numbers.value);
    return AsAddress(value);
  }

  /** The numbers of the parts, up to the first that is none. */
  method ParseAll(parts: seq<string>) returns (r: Option<seq<int>>)
    ensures r == Numbers(parts)
  {
    var numbers: seq<int> := [];
    for i := 0 to |parts|
      invariant |numbers| == i && forall k :: 0 <= k < i ==> ParseNumber(parts[k]) == Some(numbers[k])
    {
      var number := ParseNumber(parts[i]);
      if number.None? {
        assert parts[i] in parts;
        return None;
      }
      numbers := numbers + [number.value];
    }
    assert forall p | p in parts :: ParseNumber(p).Some?;
    assert Numbers(parts).Some? && numbers == Numbers(parts).value;
    return Some(numbers);
  }

  /** The last number plus the leading ones as top bytes. */
  method Accumulate(numbers: seq<int>) returns (value: int)
    requires 1 <= |numbers| <= 4
    ensures value == Combine(numbers)
  {
    var last := |numbers| - 1;
    value := numbers[last];
    for index := 0 to last
      invariant value == numbers[last] + TopBytes(numbers[..index])
    {
      assert numbers[..index + 1][..index] == numbers[..index];
      value := value + Shifted(numbers[index], 3 - index);
    }
  }

  // --- pieces of an address -------------------------------------------------------------

  /** Part `i` of `v` written in `k` parts. */
  function Piece(v: nat, k: nat, i: nat): nat
    requires i < k <= 4
  {
    if i < k - 1 then v / Pow256(3 - i) % 256 else v % Pow256(5 - k)
  }

  function Pieces(v: nat, k: nat): (r: seq<nat>)
    requires 1 <= k <= 4
    ensures |r| == k
  {
    seq(k, i requires 0 <= i < k => Piece(v, k, i))
  }

  lemma TopOf(numbers: seq<int>)
    requires |numbers| <= 3
    ensures |numbers| == 1 ==> TopBytes(numbers) == numbers[0] * 0x100_0000
    ensures |numbers| == 2 ==> TopBytes(numbers) == numbers[0] * 0x100_0000 + numbers[1] * 0x1_0000
    ensures |numbers| == 3 ==> TopBytes(numbers) == numbers[0] * 0x100_0000 + numbers[1] * 0x1_0000 + numbers[2] * 0x100
  {
    var n := |numbers|;
    if n == 3 {
      assert numbers[..2][..1] == numbers[..1] && numbers[..1][..0] == [];
    } else if n == 2 {
      assert numbers[..1][..0] == [];
    }
  }

  /** Cutting an address into pieces and combining them gives it back. */
  lemma CombinePieces(v: nat, k: nat)
    requires v < TWO32 && 1 <= k <= 4
    ensures InRange(Pieces(v, k)) && Combine(Pieces(v, k)) == v
  {
    var p := Pieces(v, k);
    TopOf(p[..k - 1]);
    Bytes(v);
  }

  lemma Bytes(v: nat)
    requires v < TWO32
    ensures v / 0x100_0000 % 256 == v / 0x100_0000
    ensures v == v / 0x100_0000 * 0x100_0000 + v % 0x100_0000
    ensures v % 0x100_0000 == v / 0x1_0000 % 256 * 0x1_0000 + v % 0x1_0000
    ensures v % 0x1_0000 == v / 0x100 % 256 * 0x100 + v % 0x100
  {
  }

  /** Numbers in range are the pieces of what they combine to. */
  lemma PiecesCombine(numbers: seq<nat>)
    requires InRange(numbers)
    ensures 0 <= Combine(numbers) < TWO32 && Pieces(Combine(numbers), |numbers|) == numbers
  {
    var k := |numbers|;
    TopOf(numbers[..k - 1]);
    if k == 1 {
      assert Pieces(Combine(numbers), 1)[0] == numbers[0];
    } else if k == 2 {
      TwoPieces(Combine(numbers), numbers[0], numbers[1]);
    } else if k == 3 {
      ThreePieces(Combine(numbers), numbers[0], numbers[1], numbers[2]);
    } else {
      FourPieces(Combine(numbers), numbers[0], numbers[1], numbers[2], numbers[3]);
    }
    assert numbers == if k == 1 then [numbers[0]] else if k == 2 then [numbers[0], numbers[1]]
      else if k == 3 then [numbers[0], numbers[1], numbers[2]] else [numbers[0], numbers[1], numbers[2], numbers[3]];
  }

  lemma TwoPieces(v: nat, a: nat, b: nat)
    requires a < 256 && b < 0x100_0000 && v == a * 0x100_0000 + b
    ensures Pieces(v, 2) == [a, b]
  {
    Digit(v, a, b, 0x100_0000);
    assert Piece(v, 2, 0) == a && Piece(v, 2, 1) == b;
  }

  lemma ThreePieces(v: nat, a: nat, b: nat, c: nat)
    requires a < 256 && b < 256 && c < 0x1_0000 && v == a * 0x100_0000 + b * 0x1_0000 + c
    ensures Pieces(v, 3) == [a, b, c]
  {
    Digit(v, a, b * 0x1_0000 + c, 0x100_0000);
    Digit(v, a * 0x100 + b, c, 0x1_0000);
    Digit(v / 0x1_0000, a, b, 0x100);
    assert Piece(v, 3, 0) == a && Piece(v, 3, 1) == b && Piece(v, 3, 2) == c;
  }

  lemma FourPieces(v: nat, a: nat, b: nat, c: nat, d: nat)
    requires a < 256 && b < 256 && c < 256 && d < 256 && v == a * 0x100_0000 + b * 0x1_0000 + c * 0x100 + d
    ensures Pieces(v, 4) == [a, b, c, d]
  {
    Digit(v, a, b * 0x1_0000 + c * 0x100 + d, 0x100_0000);
    Digit(v, a * 0x100 + b, c * 0x100 + d, 0x1_0000);
    Digit(v / 0x1_0000, a, b, 0x100);
    Digit(v, a * 0x1_0000 + b * 0x100 + c, d, 0x100);
    Digit(v / 0x100, a * 0x100 + b, c, 0x100);
    assert Piece(v, 4, 0) == a && Piece(v, 4, 1) == b && Piece(v, 4, 2) == c && Piece(v, 4, 3) == d;
  }

  lemma Digit(v: nat, high: nat, low: nat, m: nat)
    requires m == 0x100 || m == 0x1_0000 || m == 0x100_0000
    requires low < m && v == high * m + low
    ensures v / m == high && v % m == low
  {
    if m == 0x100 {
    } else if m == 0x1_0000 {
    } else {
    }
  }

  // --- spellings ---------------------------------------------------------------------------

  /** The ways to write one number: decimal, octal and hex, padded, in either letter case. */
  datatype Style =
    | Plain
    | Octal(zeros: nat)
    | Hex(bigX: bool, zeros: nat, upper: set<nat>)
    | BareHex(bigX: bool)

  function Up(c: char): char {
    if 'a' <= c <= 'f' then (c as int - 32) as char else c
  }

  /** `s` with the letters at the positions `upper` in upper case. */
  function Recased(s: string, upper: set<nat>): (r: string)
    ensures |r| == |s|
  {
    seq(|s|, i requires 0 <= i < |s| => if i in upper then Up(s[i]) else s[i])
  }

  function Zeros(n: nat): (s: string)
    ensures |s| == n && forall i :: 0 <= i < n ==> s[i] == '0'
  {
    seq(n, i => '0')
  }

  function Padded(n: nat, base: nat, zeros: nat): string
    requires 2 <= base <= 16
  {
    Zeros(zeros) + ToDigits(n, base)
  }

  /** Zero can also be written as a bare `0x`. */
  predicate Fits(n: nat, style: Style) {
    style.BareHex? ==> n == 0
  }

  function Spell(n: nat, style: Style): string {
    match style
    case Plain => Decimal(n)
    case Octal(zeros) => "0" + Padded(n, 8, zeros)
    case Hex(bigX, zeros, upper) => (if bigX then "0X" else "0x") + Recased(Padded(n, 16, zeros), upper)
    case BareHex(bigX) => if bigX then "0X" else "0x"
  }

  lemma {:induction false} PaddedValue(n: nat, base: nat, zeros: nat)
    requires 2 <= base <= 16
    ensures AllDigits(Padded(n, base, zeros), base) && FromDigits(Padded(n, base, zeros), base) == n
  {
    LeadingZeros(ToDigits(n, base), base, zeros);
  }

  lemma {:induction false} LeadingZeros(s: string, base: nat, zeros: nat)
    requires 2 <= base <= 16 && AllDigits(s, base)
    ensures AllDigits(Zeros(zeros) + s, base) && FromDigits(Zeros(zeros) + s, base) == FromDigits(s, base)
    decreases |s| + zeros
  {
    var t := Zeros(zeros) + s;
    assert IsDigit('0', base);
    if s != "" {
      LeadingZeros(s[..|s| - 1], base, zeros);
      assert t[..|t| - 1] == Zeros(zeros) + s[..|s| - 1];
    } else if zeros > 0 {
      LeadingZeros("", base, zeros - 1);
      assert t[..|t| - 1] == Zeros(zeros - 1) + "";
      assert FromDigits(t[..|t| - 1], base) == 0;
    }
  }

  lemma UpKeeps(c: char)
    ensures DigitValue(Up(c)) == DigitValue(c)
  {
  }

  lemma {:induction false} RecasedValue(s: string, upper: set<nat>, base: nat)
    requires AllDigits(s, base)
    ensures AllDigits(Recased(s, upper), base) && FromDigits(Recased(s, upper), base) == FromDigits(s, base)
    decreases |s|
  {
    var r := Recased(s, upper);
    forall i | 0 <= i < |s| ensures IsDigit(r[i], base) {
      UpKeeps(s[i]);
      assert IsDigit(s[i], base);
    }
    if s != "" {
      var n := |s| - 1;
      RecasedValue(s[..n], upper, base);
      assert r[..n] == Recased(s[..n], upper);
      UpKeeps(s[n]);
    }
  }

  lemma DecimalPart(s: string)
    requires s != "" && AllDigits(s, 10) && (|s| > 1 ==> s[0] != '0')
    ensures ParseNumber(s) == Some(FromDigits(s, 10))
  {
    hide PyIntBase;
    PyIntPlain(s, 10);
    assert |s| >= 2 ==> IsDigit(s[1], 10);
  }

  lemma OctalPart(s: string)
    requires s != "" && AllDigits(s, 10)
    ensures ParseNumber("0" + s) == if AllDigits(s, 8) then Some(FromDigits(s, 8)) else None
  {
    hide PyIntBase;
    var part := "0" + s;
    assert part[1..] == s && part[1] == s[0] && IsDigit(s[0], 10);
    PyIntPlain(s, 8);
  }

  lemma HexPart(bigX: bool, s: string)
    requires AllDigits(s, 16)
    ensures ParseNumber((if bigX then "0X" else "0x") + s) == Some(FromDigits(s, 16))
  {
    hide PyIntBase;
    var part := (if bigX then "0X" else "0x") + s;
    assert part[2..] == s;
    if s != "" {
      PyIntPlain(s, 16);
    }
  }

  lemma OctalReads(n: nat, zeros: nat)
    ensures ParseNumber(Spell(n, Octal(zeros))) == Some(n) && '.' !in Spell(n, Octal(zeros))
  {
    hide ParseNumber;
    var s := Padded(n, 8, zeros);
    PaddedValue(n, 8, zeros);
    DigitsPlain(s, 8);
    DigitsWiden(s, 8, 10);
    OctalPart(s);
  }

  lemma HexReads(n: nat, bigX: bool, zeros: nat, upper: set<nat>)
    ensures ParseNumber(Spell(n, Hex(bigX, zeros, upper))) == Some(n) && '.' !in Spell(n, Hex(bigX, zeros, upper))
  {
    hide ParseNumber;
    var s := Recased(Padded(n, 16, zeros), upper);
    PaddedValue(n, 16, zeros);
    RecasedValue(Padded(n, 16, zeros), upper, 16);
    DigitsPlain(s, 16);
    HexPart(bigX, s);
  }

  /** Every spelling of a number reads back as that number. */
  lemma SpellReads(n: nat, style: Style)
    requires Fits(n, style)
    ensures ParseNumber(Spell(n, style)) == Some(n)
    ensures Spell(n, style) != "" && '.' !in Spell(n, style)
  {
    hide PyIntBase;
    match style
    case Plain =>
      DigitsPlain(Decimal(n), 10);
      DecimalPart(Decimal(n));
    case Octal(zeros) => OctalReads(n, zeros);
    case Hex(bigX, zeros, upper) => HexReads(n, bigX, zeros, upper);
    case BareHex(_) =>
  }

  // --- every accepted host is a spelling -------------------------------------------------

  /** The upper-case letter positions of `s`. */
  function Uppers(s: string): set<nat> {
    set i: nat | i < |s| && 'A' <= s[i] <= 'F'
  }

  lemma LastDigit(n: nat, m: nat, d: nat, base: nat)
    requires (base == 8 || base == 10 || base == 16) && d < base && n == m * base + d
    ensures n / base == m && n % base == d
  {
    if base == 8 {
    } else if base == 10 {
    } else {
    }
  }

  lemma DigitsSnoc(n: nat, m: nat, d: nat, base: nat)
    requires (base == 8 || base == 10 || base == 16) && d < base && n == m * base + d
    ensures ToDigits(n, base) == if m > 0 then ToDigits(m, base) + [DigitChar(d)] else [DigitChar(d)]
  {
    LastDigit(n, m, d, base);
  }

  lemma OwnCase(c: char, base: nat)
    requires base <= 16 && IsDigit(c, base)
    ensures c == if 'A' <= c <= 'F' then Up(DigitChar(DigitValue(c).value)) else DigitChar(DigitValue(c).value)
  {
  }

  lemma ValueSnoc(t: string, c: char, base: nat)
    requires (base == 8 || base == 10 || base == 16) && AllDigits(t, base) && IsDigit(c, base)
    ensures AllDigits(t + [c], base)
    ensures ToDigits(FromDigits(t + [c], base), base) ==
              if FromDigits(t, base) > 0 then ToDigits(FromDigits(t, base), base) + [DigitChar(DigitValue(c).value)]
              else [DigitChar(DigitValue(c).value)]
  {
    FromDigitsSnoc(t, c, base);
    DigitsSnoc(FromDigits(t + [c], base), FromDigits(t, base), DigitValue(c).value, base);
  }

  /** A digit string is the padded numeral of its value, in some letter case. */
  lemma {:induction false} Respell(s: string, base: nat) returns (zeros: nat)
    requires (base == 8 || base == 10 || base == 16) && s != "" && AllDigits(s, base)
    ensures s == Recased(Padded(FromDigits(s, base), base, zeros), Uppers(s))
    decreases |s|
  {
    var k := |s| - 1;
    var t, c := s[..k], s[k];
    assert s == t + [c] && IsDigit(s[k], base);
    assert forall i :: 0 <= i < k ==> t[i] == s[i];
    ValueSnoc(t, c, base);
    OwnCase(c, base);
    if t == "" {
      zeros := 0;
      SingleDigit(c, base);
    } else {
      var z := Respell(t, base);
      zeros := if FromDigits(t, base) > 0 then z else z + 1;
      PaddedSnoc(FromDigits(s, base), FromDigits(t, base), z, DigitChar(DigitValue(c).value), base);
      RecasedSnoc(Padded(FromDigits(t, base), base, z), DigitChar(DigitValue(c).value), t, c);
    }
  }

  lemma PaddedSnoc(n: nat, m: nat, z: nat, x: char, base: nat)
    requires 2 <= base <= 16 && ToDigits(n, base) == if m > 0 then ToDigits(m, base) + [x] else [x]
    ensures Padded(m, base, z) + [x] == Padded(n, base, if m > 0 then z else z + 1)
  {
    assert Zeros(z) + "0" == Zeros(z + 1);
  }

  lemma SingleDigit(c: char, base: nat)
    requires (base == 8 || base == 10 || base == 16) && IsDigit(c, base)
    ensures AllDigits([c], base) && [c] == Recased(Padded(FromDigits([c], base), base, 0), Uppers([c]))
  {
    OwnCase(c, base);
    assert [c][..0] == "" && Zeros(0) == "";
    assert FromDigits([c], base) == DigitValue(c).value;
    assert [c][0] == c;
  }

  lemma RecasedSnoc(p: string, x: char, t: string, c: char)
    requires t == Recased(p, Uppers(t)) && c == if 'A' <= c <= 'F' then Up(x) else x
    ensures t + [c] == Recased(p + [x], Uppers(t + [c]))
  {
    var s := t + [c];
    forall i | 0 <= i < |s| ensures s[i] == Recased(p + [x], Uppers(s))[i] {
      if i < |t| {
        assert s[i] == t[i] && (i in Uppers(s) <==> i in Uppers(t));
      }
    }
  }

  lemma Padding(n: nat, base: nat, zeros: nat)
    requires 2 <= base <= 16
    ensures zeros > 0 ==> |Padded(n, base, zeros)| > 1 && Padded(n, base, zeros)[0] == '0'
    ensures zeros == 0 ==> Padded(n, base, zeros) == ToDigits(n, base)
  {
    assert Zeros(0) == "";
  }

  lemma NoLetters(s: string, base: nat, upper: set<nat>)
    requires base <= 10 && AllDigits(s, base)
    ensures Recased(s, upper) == s
  {
    forall i | 0 <= i < |s| ensures Up(s[i]) == s[i] {
      assert IsDigit(s[i], base);
    }
  }

  /** What `_parse_number` accepts of a plain part is a spelling of what it returns. */
  lemma ReadIsSpelled(part: string) returns (n: nat, style: Style)
    requires IsPlain(part) && ParseNumber(part).Some?
    ensures ParseNumber(part) == Some(n) && Fits(n, style) && part == Spell(n, style)
  {
    if HasHexPrefix(part) {
      assert !IsDigit(part[1], 10);
      n, style := HexIsSpelled(part[1] == 'X', part[2..]);
      assert part == (if part[1] == 'X' then "0X" else "0x") + part[2..];
    } else if |part| > 1 && part[0] == '0' {
      assert part == "0" + part[1..];
      n, style := OctalIsSpelled(part[1..]);
    } else {
      n, style := DecimalIsSpelled(part);
    }
  }

  lemma HexIsSpelled(bigX: bool, s: string) returns (n: nat, style: Style)
    requires AllDigits(s, 16)
    ensures var part := (if bigX then "0X" else "0x") + s;
            ParseNumber(part) == Some(n) && Fits(n, style) && part == Spell(n, style)
  {
    HexPart(bigX, s);
    n := FromDigits(s, 16);
    if s == "" {
      style := BareHex(bigX);
    } else {
      var zeros := Respell(s, 16);
      style := Hex(bigX, zeros, Uppers(s));
    }
  }

  lemma OctalIsSpelled(s: string) returns (n: nat, style: Style)
    requires s != "" && AllDigits(s, 10) && ParseNumber("0" + s).Some?
    ensures ParseNumber("0" + s) == Some(n) && Fits(n, style) && "0" + s == Spell(n, style)
  {
    OctalPart(s);
    n := FromDigits(s, 8);
    var zeros := Respell(s, 8);
    PaddedValue(n, 8, zeros);
    NoLetters(Padded(n, 8, zeros), 8, Uppers(s));
    style := Octal(zeros);
  }

  lemma DecimalIsSpelled(s: string) returns (n: nat, style: Style)
    requires s != "" && AllDigits(s, 10) && (|s| > 1 ==> s[0] != '0')
    ensures ParseNumber(s) == Some(n) && Fits(n, style) && s == Spell(n, style)
  {
    DecimalPart(s);
    n := FromDigits(s, 10);
    var zeros := Respell(s, 10);
    PaddedValue(n, 10, zeros);
    NoLetters(Padded(n, 10, zeros), 10, Uppers(s));
    Padding(n, 10, zeros);
    style := Plain;
  }

  /** `v` written in as many parts as there are styles, with or without a final dot. */
  function Write(v: nat, styles: seq<Style>, dot: bool): string
    requires 1 <= |styles| <= 4
  {
    Join(Spelled(Pieces(v, |styles|), styles), '.') + if dot then "." else ""
  }

  function Spelled(numbers: seq<nat>, styles: seq<Style>): (parts: seq<string>)
    requires |numbers| == |styles|
    ensures |parts| == |styles|
  {
    seq(|styles|, i requires 0 <= i < |styles| => Spell(numbers[i], styles[i]))
  }

  predicate AllFit(numbers: seq<nat>, styles: seq<Style>)
    requires |numbers| == |styles|
  {
    forall i :: 0 <= i < |styles| ==> Fits(numbers[i], styles[i])
  }

  lemma {:induction false} JoinSnoc(parts: seq<string>)
    requires parts != []
    ensures Join(parts + [""], '.') == Join(parts, '.') + "."
  {
    if |parts| == 1 {
      assert parts + [""] == [parts[0], ""];
      assert (parts + [""])[1..] == [""];
    } else {
      JoinSnoc(parts[1..]);
      assert (parts + [""])[1..] == parts[1..] + [""];
    }
  }

  /** The parts of a written host are the parts it was written from. */
  lemma PartsBack(parts: seq<string>, dot: bool)
    requires parts != [] && forall p | p in parts :: p != "" && '.' !in p
    ensures PartsOf(Join(parts, '.') + if dot then "." else "") == parts
  {
    if dot {
      JoinSnoc(parts);
      SplitJoin(parts + [""], '.');
      assert (parts + [""])[..|parts|] == parts;
    } else {
      SplitJoin(parts, '.');
      assert Join(parts, '.') + "" == Join(parts, '.');
      assert parts[|parts| - 1] in parts;
    }
  }

  /** `host` is `v` written in one of the ways of section 3.5. */
  ghost predicate Spells(host: string, v: nat) {
    v < TWO32 && exists styles: seq<Style>, dot: bool :: IsWrite(host, v, styles, dot)
  }

  predicate IsWrite(host: string, v: nat, styles: seq<Style>, dot: bool) {
    1 <= |styles| <= 4 && AllFit(Pieces(v, |styles|), styles) && host == Write(v, styles, dot)
  }

  /**
   Every IPv4 value written as one to four parts, each in decimal, octal or hex, reads back to that
   value, and is recognised as an address in the first place.
   */
  lemma SpellingsReadBack(v: nat, styles: seq<Style>, dot: bool)
    requires v < TWO32 && 1 <= |styles| <= 4 && AllFit(Pieces(v, |styles|), styles)
    ensures ReadIpv4(Write(v, styles, dot)) == Some(v)
    ensures IsPlainHost(Write(v, styles, dot)) && EndsInNumber(Write(v, styles, dot))
  {
    var k := |styles|;
    var numbers, parts := Pieces(v, k), Spelled(Pieces(v, k), styles);
    forall i | 0 <= i < k
      ensures ParseNumber(parts[i]) == Some(numbers[i]) && IsPlain(parts[i]) && parts[i] != "" && '.' !in parts[i]
    {
      SpellReads(numbers[i], styles[i]);
      SpellIsPlain(numbers[i], styles[i]);
    }
    PartsBack(parts, dot);
    assert Numbers(parts).value == numbers;
    CombinePieces(v, k);
  }

  lemma SpellIsPlain(n: nat, style: Style)
    requires Fits(n, style)
    ensures IsPlain(Spell(n, style))
  {
    var s := Spell(n, style);
    match style
    case Plain =>
    case Octal(zeros) =>
      PaddedValue(n, 8, zeros);
      forall i | 0 <= i < |s| ensures IsDigit(s[i], 10) {
        assert i > 0 ==> IsDigit(Padded(n, 8, zeros)[i - 1], 8);
      }
    case Hex(_, zeros, upper) =>
      PaddedValue(n, 16, zeros);
      RecasedValue(Padded(n, 16, zeros), upper, 16);
      assert s[2..] == Recased(Padded(n, 16, zeros), upper);
    case BareHex(_) =>
  }

  lemma HostOfParts(host: string) returns (dot: bool)
    ensures host == Join(PartsOf(host), '.') + if dot then "." else ""
  {
    var split := Split(host, '.');
    JoinSplit(host, '.');
    var last := |split| - 1;
    dot := split[last] == "" && |split| > 1;
    if dot {
      JoinSnoc(split[..last]);
      assert split == split[..last] + [""];
    } else {
      assert Join(split, '.') + "" == host;
    }
  }

  /** Each accepted host of plain parts is a spelling of its value. */
  lemma AcceptedIsSpelling(host: string) returns (styles: seq<Style>, dot: bool)
    requires ReadIpv4(host).Some? && IsPlainHost(host)
    ensures IsWrite(host, ReadIpv4(host).value, styles, dot)
  {
    var parts := PartsOf(host);
    var numbers;
    numbers, styles := StylesOf(parts);
    assert Numbers(parts).value == numbers;
    PiecesCombine(numbers);
    dot := HostOfParts(host);
    assert Spelled(numbers, styles) == parts;
  }

  lemma {:induction false} StylesOf(parts: seq<string>) returns (numbers: seq<nat>, styles: seq<Style>)
    requires forall p | p in parts :: IsPlain(p) && ParseNumber(p).Some?
    ensures |numbers| == |styles| == |parts|
    ensures forall i :: 0 <= i < |parts| ==>
              ParseNumber(parts[i]) == Some(numbers[i]) && Fits(numbers[i], styles[i]) && parts[i] == Spell(numbers[i], styles[i])
  {
    if parts == [] {
      numbers, styles := [], [];
    } else {
      assert parts[0] in parts && forall p | p in parts[1..] :: p in parts;
      var n, style := ReadIsSpelled(parts[0]);
      var ns, rest := StylesOf(parts[1..]);
      numbers, styles := [n] + ns, [style] + rest;
    }
  }

  /** The hosts of plain parts that are accepted are exactly the spellings of 32-bit values. */
  lemma AcceptedExactly(host: string, v: nat)
    ensures ReadIpv4(host) == Some(v) && IsPlainHost(host) <==> Spells(host, v)
  {
    if ReadIpv4(host) == Some(v) && IsPlainHost(host) {
      var styles, dot := AcceptedIsSpelling(host);
    }
    forall styles: seq<Style>, dot: bool | v < TWO32 && IsWrite(host, v, styles, dot)
      ensures ReadIpv4(host) == Some(v) && IsPlainHost(host)
    {
      SpellingsReadBack(v, styles, dot);
    }
  }

  // --- what `int` accepts beyond the standard ------------------------------------------------

  lemma SignedPart(minus: bool, s: string)
    requires s != "" && AllDigits(s, 10)
    ensures ParseNumber(Signed(minus, s)) == Some((if minus then -1 else 1) * FromDigits(s, 10))
  {
    hide PyIntBase;
    PyIntSigned(minus, s);
    assert Signed(minus, s)[0] != '0';
  }

  lemma PrefixedPart(s: string)
    requires s != "" && AllDigits(s, 8)
    ensures ParseNumber("00o" + s) == Some(FromDigits(s, 8))
  {
    hide PyIntBase;
    PyIntPrefixed(s);
    assert ("00o" + s)[1..] == "0o" + s;
  }

  lemma TwoNumbers(m: int, n: int)
    ensures Combine([m, n]) == m * 0x100_0000 + n
  {
    assert [m, n][..1] == [m];
    TopOf([m]);
  }

  /** A decimal last part that fits behind one other. */
  predicate IsTail(last: string) {
    last != "" && AllDigits(last, 10) && (|last| > 1 ==> last[0] != '0') && FromDigits(last, 10) < 0x100_0000
  }

  lemma TailReads(last: string)
    requires IsTail(last)
    ensures ParseNumber(last) == Some(FromDigits(last, 10)) && IsPlain(last) && '.' !in last
  {
    DecimalPart(last);
    DigitsPlain(last, 10);
  }

  lemma TwoParts(first: string, last: string)
    requires first != "" && '.' !in first && last != "" && '.' !in last
    ensures PartsOf(first + "." + last) == [first, last]
  {
    PartsBack([first, last], false);
    assert Join([first, last], '.') + "" == first + "." + last;
  }

  lemma ReadTwo(host: string, first: string, last: string, m: int, n: int)
    requires first != "" && last != "" && PartsOf(host) == [first, last]
    requires ParseNumber(first) == Some(m) && m <= 255 && ParseNumber(last) == Some(n) && n < 0x100_0000
    ensures ReadIpv4(host) == AsAddress(m * 0x100_0000 + n)
  {
    hide ParseNumber;
    var parts := [first, last];
    TwoNumbers(m, n);
    assert Numbers(parts).Some? && Numbers(parts).value == [m, n];
  }

  lemma NotPlainHost(host: string, first: string, last: string)
    requires PartsOf(host) == [first, last] && !IsPlain(first) && IsPlain(last)
    ensures EndsInNumber(host) && !IsPlainHost(host)
  {
    assert first in PartsOf(host);
  }

  lemma SignNotPlain(minus: bool, s: string)
    requires AllDigits(s, 10)
    ensures !IsPlain(Signed(minus, s)) && '.' !in Signed(minus, s)
  {
    DigitsPlain(s, 10);
    assert !IsDigit(Signed(minus, s)[0], 10);
  }

  lemma PrefixNotPlain(s: string)
    requires AllDigits(s, 8)
    ensures !IsPlain("00o" + s) && '.' !in "00o" + s
  {
    DigitsPlain(s, 8);
    assert !IsDigit(("00o" + s)[2], 10);
  }

  /** `host` is read as an address, although it is no spelling of it. */
  predicate Sloppy(host: string, v: nat) {
    ReadIpv4(host) == Some(v) && EndsInNumber(host) && !IsPlainHost(host)
  }

  lemma TwoPartHost(host: string, first: string, last: string, m: nat)
    requires host == first + "." + last && first != "" && '.' !in first && !IsPlain(first)
    requires ParseNumber(first) == Some(m) && m <= 255 && IsTail(last)
    ensures Sloppy(host, m * 0x100_0000 + FromDigits(last, 10))
  {
    hide ParseNumber, ReadIpv4;
    TailReads(last);
    TwoParts(first, last);
    ReadTwo(host, first, last, m, FromDigits(last, 10));
    NotPlainHost(host, first, last);
  }

  /**
   `int` lets more through than section 3.5 does: a host whose first part has a plus sign is still read
   as an address, although it is no spelling of one.
   */
  lemma SignedHostIsRead(s: string, last: string)
    requires s != "" && AllDigits(s, 10) && FromDigits(s, 10) <= 255 && IsTail(last)
    ensures Sloppy(Signed(false, s) + "." + last, FromDigits(s, 10) * 0x100_0000 + FromDigits(last, 10))
  {
    hide ParseNumber, Sloppy;
    SignedPart(false, s);
    SignNotPlain(false, s);
    TwoPartHost(Signed(false, s) + "." + last, Signed(false, s), last, FromDigits(s, 10));
  }

  /** So is one with a second octal prefix. */
  lemma PrefixedHostIsRead(s: string, last: string)
    requires s != "" && AllDigits(s, 8) && FromDigits(s, 8) <= 255 && IsTail(last)
    ensures Sloppy("00o" + s + "." + last, FromDigits(s, 8) * 0x100_0000 + FromDigits(last, 10))
  {
    hide ParseNumber, Sloppy;
    PrefixedPart(s);
    PrefixNotPlain(s);
    TwoPartHost("00o" + s + "." + last, "00o" + s, last, FromDigits(s, 8));
  }

  /** `+1.2` is read as 1.0.0.2. */
  lemma PlusOneIsRead()
    ensures Sloppy("+1.2", 0x100_0002)
  {
    hide Sloppy;
    assert FromDigits("1", 10) == 1 && FromDigits("2", 10) == 2;
    SignedHostIsRead("1", "2");
    assert Signed(false, "1") + "." + "2" == "+1.2";
  }
}

/** Python's string helpers that the models share: splitting, joining, stripping and numerals. */
module Text {
  import opened Wrappers

  // --- parts of a text ------------------------------------------------------

  /** `s.startswith(prefix)` */
  predicate StartsWith(s: string, prefix: string) {
    |prefix| <= |s| && s[..|prefix|] == prefix
  }

  /** `s.endswith(suffix)` */
  predicate EndsWith(s: string, suffix: string) {
    |suffix| <= |s| && s[|s| - |suffix|..] == suffix
  }

  predicate OccursAt(text: string, word: string, i: nat) {
    i + |word| <= |text| && text[i..i + |word|] == word
  }

  /** `word in text` */
  predicate Contains(text: string, word: string) {
    exists i :: 0 <= i <= |text| && OccursAt(text, word, i)
  }

  function Concat(parts: seq<string>): string {
    if parts == [] then "" else parts[0] + Concat(parts[1..])
  }

  lemma Associative<T>(a: seq<T>, b: seq<T>, c: seq<T>)
    ensures (a + b) + c == a + (b + c)
  {
  }

  // --- split and join -------------------------------------------------------

  /** The index of the first `c`, or the length of `s`. */
  function Find(s: string, c: char): (i: nat)
    ensures i <= |s| && c !in s[..i] && (i < |s| ==> s[i] == c)
    ensures i == |s| <==> c !in s
  {
    if s == "" then 0
    else if s[0] == c then 0
    else
      var i := 1 + Find(s[1..], c);
      assert s[..i] == [s[0]] + s[1..][..i - 1];
      i
  }

  /** `s.split(sep)`. */
  function Split(s: string, sep: char): (parts: seq<string>)
    ensures parts != []
    ensures forall p :: p in parts ==> sep !in p
  {
    var i := Find(s, sep);
    if i == |s| then [s] else [s[..i]] + Split(s[i + 1..], sep)
  }

  /** `sep.join(parts)`. */
  function Join(parts: seq<string>, sep: char): string {
    if parts == [] then ""
    else if |parts| == 1 then parts[0]
    else parts[0] + [sep] + Join(parts[1..], sep)
  }

  lemma FindUnique(s: string, c: char, i: nat)
    requires i <= |s| && c !in s[..i] && (i < |s| ==> s[i] == c)
    ensures Find(s, c) == i
  {
    assert forall k :: 0 <= k < i ==> s[k] == s[..i][k];
    assert forall k :: 0 <= k < Find(s, c) ==> s[k] == s[..Find(s, c)][k];
  }

  lemma {:induction false} SplitJoin(parts: seq<string>, sep: char)
    requires parts != [] && forall p :: p in parts ==> sep !in p
    ensures Split(Join(parts, sep), sep) == parts
  {
    var s := Join(parts, sep);
    assert parts[0] in parts;
    if |parts| == 1 {
      assert s[..|s|] == s;
      FindUnique(s, sep, |s|);
    } else {
      var i := |parts[0]|;
      assert s[..i] == parts[0];
      FindUnique(s, sep, i);
      assert s[i + 1..] == Join(parts[1..], sep);
      SplitJoin(parts[1..], sep);
    }
  }

  lemma JoinCons(a: string, rest: seq<string>, sep: char)
    requires rest != []
    ensures Join([a] + rest, sep) == a + [sep] + Join(rest, sep)
  {
    assert ([a] + rest)[1..] == rest;
  }

  lemma CutAt(s: string, i: nat)
    requires i < |s|
    ensures s == s[..i] + [s[i]] + s[i + 1..]
  {
  }

  lemma {:induction false} JoinSplit(s: string, sep: char)
    ensures Join(Split(s, sep), sep) == s
  {
    var i := Find(s, sep);
    if i < |s| {
      JoinSplit(s[i + 1..], sep);
      JoinCons(s[..i], Split(s[i + 1..], sep), sep);
      CutAt(s, i);
    }
  }

  // --- white space ----------------------------------------------------------

  /** The characters below U+0100 that Python counts as white space. */
  predicate IsSpace(c: char) {
    || c == ' ' || '\t' <= c <= '\r' || '\U{1c}' <= c <= '\U{1f}' || c == '\U{85}' || c == '\U{a0}'
  }

  function StripLeft(s: string): string {
    if s != "" && IsSpace(s[0]) then StripLeft(s[1..]) else s
  }

  function StripRight(s: string): string {
    if s != "" && IsSpace(s[|s| - 1]) then StripRight(s[..|s| - 1]) else s
  }

  /** `s.strip()`. */
  function Strip(s: string): string {
    StripRight(StripLeft(s))
  }

  predicate NoSpace(s: string) {
    forall i :: 0 <= i < |s| ==> !IsSpace(s[i])
  }

  /** `s.split()`: the words between runs of white space. */
  function Words(s: string): seq<string>
    decreases |s|
  {
    var t := StripLeft(s);
    StripLeftShorter(s);
    if t == "" then []
    else
      var n := WordLength(t);
      [t[..n]] + Words(t[n..])
  }

  lemma StripLeftShorter(s: string)
    ensures |StripLeft(s)| <= |s|
    ensures StripLeft(s) != "" ==> !IsSpace(StripLeft(s)[0])
  {
  }

  function WordLength(s: string): (n: nat)
    ensures n <= |s| && NoSpace(s[..n]) && (n < |s| ==> IsSpace(s[n]))
    ensures s != "" && !IsSpace(s[0]) ==> n > 0
  {
    if s == "" || IsSpace(s[0]) then 0
    else
      var n := 1 + WordLength(s[1..]);
      assert forall i :: 0 < i < n ==> s[i] == s[1..][i - 1];
      n
  }

  lemma StripNoSpace(s: string)
    requires NoSpace(s)
    ensures Strip(s) == s
  {
  }

  lemma WordLengthUnique(s: string, n: nat)
    requires n <= |s| && NoSpace(s[..n]) && (n < |s| ==> IsSpace(s[n]))
    ensures WordLength(s) == n
  {
    assert forall k :: 0 <= k < n ==> s[k] == s[..n][k];
    assert forall k :: 0 <= k < WordLength(s) ==> s[k] == s[..WordLength(s)][k];
  }

  /** The first word, up to a space, and the words behind it. */
  lemma WordsCons(w: string, rest: string)
    requires w != "" && NoSpace(w)
    ensures Words(w) == [w] && Words(w + [' '] + rest) == [w] + Words(rest)
  {
    var s := w + [' '] + rest;
    assert s[0] == w[0] && s[..|w|] == w && s[|w|..] == [' '] + rest;
    assert w[..|w|] == w && w[|w|..] == "";
    WordLengthUnique(s, |w|);
    WordLengthUnique(w, |w|);
    LeadingSpace(rest);
  }

  lemma LeadingSpace(rest: string)
    ensures Words([' '] + rest) == Words(rest)
  {
    assert ([' '] + rest)[1..] == rest;
  }

  /** Words joined by single spaces split back into the same words. */
  lemma {:induction false} WordsJoin(words: seq<string>)
    requires forall i :: 0 <= i < |words| ==> words[i] != "" && NoSpace(words[i])
    ensures Words(Join(words, ' ')) == words
  {
    if |words| == 1 {
      WordsCons(words[0], "");
    } else if |words| > 1 {
      WordsJoin(words[1..]);
      WordsCons(words[0], Join(words[1..], ' '));
    }
  }

  // --- letter case -----------------------------------------------------------

  function LowerChar(c: char): char {
    if 'A' <= c <= 'Z' then (c as int + 32) as char else c
  }

  function Lower(s: string): (r: string)
    ensures |r| == |s|
  {
    seq(|s|, i requires 0 <= i < |s| => LowerChar(s[i]))
  }

  // --- numerals -------------------------------------------------------------

  /** The value of one digit in base 16 or less, either letter case. */
  function DigitValue(c: char): Option<nat> {
    if '0' <= c <= '9' then Some(c as int - '0' as int)
    else if 'a' <= c <= 'f' then Some(c as int - 'a' as int + 10)
    else if 'A' <= c <= 'F' then Some(c as int - 'A' as int + 10)
    else None
  }

  predicate IsDigit(c: char, base: nat) {
    DigitValue(c).Some? && DigitValue(c).value < base
  }

  predicate AllDigits(s: string, base: nat) {
    forall i :: 0 <= i < |s| ==> IsDigit(s[i], base)
  }

  function FromDigits(s: string, base: nat): nat
    requires AllDigits(s, base)
  {
    if s == "" then 0
    else FromDigits(s[..|s| - 1], base) * base + DigitValue(s[|s| - 1]).value
  }

  lemma FromDigitsSnoc(t: string, c: char, base: nat)
    requires AllDigits(t, base) && IsDigit(c, base)
    ensures AllDigits(t + [c], base)
    ensures FromDigits(t + [c], base) == FromDigits(t, base) * base + DigitValue(c).value
  {
    assert (t + [c])[..|t|] == t;
  }

  function DigitChar(d: nat): (c: char)
    requires d < 16
    ensures DigitValue(c) == Some(d)
  {
    if d < 10 then ('0' as int + d) as char else ('a' as int + d - 10) as char
  }

  function ToDigits(n: nat, base: nat): (s: string)
    requires 2 <= base <= 16
    ensures s != "" && AllDigits(s, base) && FromDigits(s, base) == n
    ensures n > 0 ==> s[0] != '0'
    ensures n == 0 ==> s == "0"
    decreases n
  {
    if n < base then
      assert [DigitChar(n)][..0] == "";
      [DigitChar(n)]
    else
      DivMod(n, base);
      var front := ToDigits(n / base, base);
      var s := front + [DigitChar(n % base)];
      assert s[..|s| - 1] == front;
      s
  }

  lemma DivMod(n: nat, base: nat)
    requires 2 <= base <= n
    ensures 0 < n / base < n && 0 <= n % base < base && (n / base) * base + n % base == n
  {
  }

  /** `str(n)` for a number that is not negative. */
  function Decimal(n: nat): (s: string)
    ensures s != "" && AllDigits(s, 10) && FromDigits(s, 10) == n
    ensures n > 0 ==> s[0] != '0'
  {
    ToDigits(n, 10)
  }

  lemma DecimalInjective(m: nat, n: nat)
    requires Decimal(m) == Decimal(n)
    ensures m == n
  {
  }

  lemma DigitsWiden(s: string, base: nat, wide: nat)
    requires base <= wide && AllDigits(s, base)
    ensures AllDigits(s, wide)
  {
    forall i | 0 <= i < |s| ensures IsDigit(s[i], wide) {
      assert IsDigit(s[i], base);
    }
  }

  lemma DigitsPlain(s: string, base: nat)
    requires AllDigits(s, base)
    ensures NoSpace(s) && forall c :: c in s ==> DigitValue(c).Some?
  {
    forall i | 0 <= i < |s| ensures !IsSpace(s[i]) {
      assert IsDigit(s[i], base);
    }
    forall c | c in s ensures DigitValue(c).Some? {
      var i :| 0 <= i < |s| && s[i] == c;
      assert IsDigit(s[i], base);
    }
  }

  // --- `int` ----------------------------------------------------------------

  /** Digits of the base with single underscores between them. */
  predicate Grouped(s: string, base: nat) {
    && s != "" && s[0] != '_' && s[|s| - 1] != '_'
    && (forall i :: 0 <= i < |s| ==> s[i] == '_' || IsDigit(s[i], base))
    && (forall i :: 0 < i < |s| ==> s[i - 1] != '_' || s[i] != '_')
  }

  /** `s` without its underscores. */
  function Ungrouped(s: string, base: nat): (r: string)
    requires forall i :: 0 <= i < |s| ==> s[i] == '_' || IsDigit(s[i], base)
    ensures AllDigits(r, base)
    ensures AllDigits(s, base) ==> r == s
  {
    if s == "" then ""
    else if s[0] == '_' then Ungrouped(s[1..], base)
    else [s[0]] + Ungrouped(s[1..], base)
  }

  /** `0x` in base 16 and `0o` in base 8. */
  predicate HasBasePrefix(s: string, base: nat) {
    && |s| >= 2 && s[0] == '0'
    && ((base == 16 && (s[1] == 'x' || s[1] == 'X')) || (base == 8 && (s[1] == 'o' || s[1] == 'O')))
  }

  /** `s` behind its base prefix, which an underscore may end. */
  function BehindPrefix(s: string, base: nat): string {
    if !HasBasePrefix(s, base) then s
    else if |s| > 2 && s[2] == '_' then s[3..]
    else s[2..]
  }

  predicate HasSign(s: string) {
    s != "" && (s[0] == '-' || s[0] == '+')
  }

  /** `int(s, base)` of ASCII text, for the bases 8, 10 and 16; None where it raises. */
  function PyIntBase(s: string, base: nat): Option<int> {
    var t := Strip(s);
    var digits := BehindPrefix(if HasSign(t) then t[1..] else t, base);
    if !Grouped(digits, base) then None
    else Some((if HasSign(t) && t[0] == '-' then -1 else 1) * FromDigits(Ungrouped(digits, base), base))
  }

  /** `int(s)` */
  function PyInt(s: string): Option<int> {
    PyIntBase(s, 10)
  }

  /** Digits are not taken for a sign, a prefix or white space. */
  lemma PlainDigits(s: string, base: nat)
    requires s != "" && (base == 8 || base == 10 || base == 16) && AllDigits(s, if base == 16 then 16 else 10)
    ensures Strip(s) == s && !HasSign(s) && BehindPrefix(s, base) == s
    ensures Grouped(s, base) <==> AllDigits(s, base)
  {
    assert AllDigits(s, 16) by {
      forall i | 0 <= i < |s| ensures IsDigit(s[i], 16) {
        assert IsDigit(s[i], if base == 16 then 16 else 10);
      }
    }
    DigitsPlain(s, 16);
    StripNoSpace(s);
    assert IsDigit(s[0], 16) && (|s| > 1 ==> IsDigit(s[1], 16));
    assert base == 8 && |s| > 1 ==> IsDigit(s[1], 10);
    assert forall i :: 0 <= i < |s| ==> IsDigit(s[i], 16) && s[i] != '_';
  }

  lemma PyIntPlain(s: string, base: nat)
    requires s != "" && (base == 8 || base == 10 || base == 16) && AllDigits(s, if base == 16 then 16 else 10)
    ensures PyIntBase(s, base) == if AllDigits(s, base) then Some(FromDigits(s, base)) else None
  {
    PlainDigits(s, base);
  }

  /** `s` behind a sign. */
  function Signed(minus: bool, s: string): string {
    (if minus then "-" else "+") + s
  }

  lemma StripSigned(minus: bool, s: string)
    requires NoSpace(s)
    ensures Strip(Signed(minus, s)) == Signed(minus, s) && HasSign(Signed(minus, s)) && Signed(minus, s)[1..] == s
  {
    var part := Signed(minus, s);
    assert forall i :: 0 < i < |part| ==> part[i] == s[i - 1];
    StripNoSpace(part);
  }

  lemma PyIntSigned(minus: bool, s: string)
    requires s != "" && AllDigits(s, 10)
    ensures PyIntBase(Signed(minus, s), 10) == Some((if minus then -1 else 1) * FromDigits(s, 10))
  {
    DigitsPlain(s, 10);
    StripSigned(minus, s);
    PlainDigits(s, 10);
  }

  lemma StripPrefixed(s: string)
    requires s != "" && NoSpace(s)
    ensures Strip("0o" + s) == "0o" + s && !HasSign("0o" + s)
  {
    var part := "0o" + s;
    assert forall i :: 1 < i < |part| ==> part[i] == s[i - 2];
    StripNoSpace(part);
  }

  lemma BehindOctal(s: string)
    requires s != "" && s[0] != '_'
    ensures BehindPrefix("0o" + s, 8) == s
  {
    var part := "0o" + s;
    assert part[2] == s[0] && part[2..] == s;
  }

  lemma PyIntPrefixed(s: string)
    requires s != "" && AllDigits(s, 8)
    ensures PyIntBase("0o" + s, 8) == Some(FromDigits(s, 8))
  {
    DigitsPlain(s, 8);
    StripPrefixed(s);
    assert IsDigit(s[0], 8);
    BehindOctal(s);
    DigitsWiden(s, 8, 10);
    PlainDigits(s, 8);
  }

  lemma PyIntDecimal(n: nat)
    ensures PyInt(Decimal(n)) == Some(n)
  {
    PyIntPlain(Decimal(n), 10);
  }
}

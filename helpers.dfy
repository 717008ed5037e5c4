/** The string helpers: camel case to title case, `\uXXXX` unescaping, random
    identifiers and thousands grouping. */
module Helpers {
  import opened Datatypes

  // ---------------------------------------------------------------------------
  // camelToTitleCase

  /** `toUpperCase` of one UTF-16 code unit, for ASCII letters. Every other
      unit, each half of a surrogate pair included, is its own upper case. */
  function Upper(c: CodeUnit): CodeUnit {
    if 0x61 <= c <= 0x7A then c - 0x20 else c
  }

  const Space: CodeUnit := 0x20

  /** A code unit is prefixed with a space when it equals its own upper case:
      capitals, but also digits, spaces, punctuation and surrogates. */
  predicate IsUpperForm(c: CodeUnit) {
    Upper(c) == c
  }

  /** What the loop appends for one code unit after the first. */
  function Block(c: CodeUnit): seq<CodeUnit> {
    if IsUpperForm(c) then [Space, c] else [c]
  }

  /** The loop's output for the code units after the first. */
  function Spaced(s: seq<CodeUnit>): seq<CodeUnit>
    decreases |s|
  {
    if s == [] then [] else Spaced(s[..|s| - 1]) + Block(s[|s| - 1])
  }

  /** The title-cased form of a non-empty key. */
  function Titled(key: seq<CodeUnit>): (r: seq<CodeUnit>)
    requires |key| > 0
    ensures |r| >= |key| && r[0] == Upper(key[0])
  {
    SpacedLength(key[1..]);
    [Upper(key[0])] + Spaced(key[1..])
  }

  /** The key with its first code unit upper-cased (`topic` in the source). */
  function Capitalised(key: seq<CodeUnit>): seq<CodeUnit>
    requires |key| > 0
  {
    [Upper(key[0])] + key[1..]
  }

  /** How many code units of `s` get a space. */
  function CountUpperForm(s: seq<CodeUnit>): nat
    decreases |s|
  {
    if s == [] then 0 else CountUpperForm(s[..|s| - 1]) + (if IsUpperForm(s[|s| - 1]) then 1 else 0)
  }

  /** Removes the spaces `Spaced` inserted: a trailing upper-form code unit
      always comes with the space before it. */
  function Unspaced(t: seq<CodeUnit>): seq<CodeUnit>
    decreases |t|
  {
    if t == [] then []
    else if IsUpperForm(t[|t| - 1]) && |t| >= 2 then Unspaced(t[..|t| - 2]) + [t[|t| - 1]]
    else Unspaced(t[..|t| - 1]) + [t[|t| - 1]]
  }

  /** The key must be non-empty: the source reads `key[0]`. The loop runs over
      UTF-16 code units, as `length` and `charAt` do. */
  method CamelToTitleCase(key: seq<CodeUnit>) returns (result: seq<CodeUnit>)
    requires |key| > 0
    ensures result == Titled(key)
  {
    var topic := Capitalised(key);
    result := [];
    var i := 0;
    while i < |topic|
      invariant 1 <= |topic| && topic[1..] == key[1..]
      invariant 0 <= i <= |topic|
      invariant i == 0 ==> result == []
      invariant i > 0 ==> result == [topic[0]] + Spaced(topic[1..i])
    {
      if i == 0 {
        result := result + [topic[i]];
        assert topic[1..1] == [];
      } else {
        assert topic[1..i + 1][..i - 1] == topic[1..i];
        if topic[i] == Upper(topic[i]) {
          result := result + [Space, topic[i]];
        } else {
          result := result + [topic[i]];
        }
      }
      i := i + 1;
    }
    assert topic[1..i] == key[1..];
  }

  /** One extra code unit per upper-form code unit after the first. */
  lemma {:induction false} SpacedLength(s: seq<CodeUnit>)
    ensures |Spaced(s)| == |s| + CountUpperForm(s)
    decreases |s|
  {
    if s != [] {
      SpacedLength(s[..|s| - 1]);
    }
  }

  /** Removing the inserted spaces gives back the input. */
  lemma {:induction false} UnspacedSpaced(s: seq<CodeUnit>)
    ensures Unspaced(Spaced(s)) == s
    decreases |s|
  {
    if s != [] {
      var init, c := s[..|s| - 1], s[|s| - 1];
      var p := Spaced(init);
      var t := p + Block(c);
      assert Spaced(s) == t;
      UnspacedSpaced(init);
      if IsUpperForm(c) {
        assert t == p + [Space, c];
        assert t[|t| - 1] == c && |t| >= 2;
        assert t[..|t| - 2] == p;
        assert Unspaced(t) == Unspaced(p) + [c];
      } else {
        assert t == p + [c];
        assert t[|t| - 1] == c;
        assert t[..|t| - 1] == p;
        assert Unspaced(t) == Unspaced(p) + [c];
      }
      assert s == init + [c];
    }
  }

  /** The title-cased key starts with the upper-cased first code unit, has one
      more code unit per upper-form code unit after it, and without the
      inserted spaces is the capitalised key. */
  lemma TitledRoundTrip(key: seq<CodeUnit>)
    requires |key| > 0
    ensures Titled(key)[0] == Upper(key[0])
    ensures |Titled(key)| == |key| + CountUpperForm(key[1..])
    ensures [Titled(key)[0]] + Unspaced(Titled(key)[1..]) == Capitalised(key)
  {
    SpacedLength(key[1..]);
    UnspacedSpaced(key[1..]);
    assert Titled(key)[1..] == Spaced(key[1..]);
  }

  /** `"a😀"` is `a` followed by a surrogate pair; each half equals its own
      upper case, so each gets a space: the result is `"A \uD83D \uDE00"`. */
  lemma TitledSurrogatePair()
    ensures Titled([0x61, 0xD83D, 0xDE00]) == [0x41, Space, 0xD83D, Space, 0xDE00]
  {
    var rest: seq<CodeUnit> := [0xD83D, 0xDE00];
    assert rest[..1] == [0xD83D] && [0xD83D][..0] == [];
    assert Spaced(rest) == [Space, 0xD83D, Space, 0xDE00];
  }

  // ---------------------------------------------------------------------------
  // generateRandomString

  const Alphabet: string := "ABCDEFGHIJKLMNOPQRSTUVWXYZabcdefghijklmnopqrstuvwxyz0123456789"
  const MaxRandomLength: int := 60

  /** `draws[i]` is the i-th `Math.floor(Math.random() * 62)`. A length above
      60 throws; a negative length gives "". */
  method GenerateRandomString(length: int, draws: seq<int>) returns (r: Result<string, string>)
    requires forall i :: 0 <= i < |draws| ==> 0 <= draws[i] < |Alphabet|
    requires length <= MaxRandomLength ==> length <= |draws|
    ensures r.Err? <==> length > MaxRandomLength
    ensures r.Err? ==>
      r.error == "Maximum generatable character is 60, " + DecimalString(length) + " was required"
    ensures r.Ok? ==> |r.value| == (if length < 0 then 0 else length)
    ensures r.Ok? ==> forall i :: 0 <= i < |r.value| ==> r.value[i] == Alphabet[draws[i]]
    ensures r.Ok? ==> forall i :: 0 <= i < |r.value| ==> r.value[i] in Alphabet
  {
    if length > MaxRandomLength {
      return Err("Maximum generatable character is 60, " + DecimalString(length) + " was required");
    }
    var result := "";
    var i := 0;
    while i < length
      invariant 0 <= i && (i <= length || i == 0)
      invariant |result| == i
      invariant forall j :: 0 <= j < i ==> result[j] == Alphabet[draws[j]]
    {
      result := result + [Alphabet[draws[i]]];
      i := i + 1;
    }
    r := Ok(result);
  }

  // ---------------------------------------------------------------------------
  // convertUnicode

  /** A JavaScript string is a sequence of UTF-16 code units; an escape may
      decode to a lone surrogate, which a Dafny `char` cannot hold. */
  newtype CodeUnit = u: int | 0 <= u < 0x1_0000

  const Backslash: CodeUnit := 0x5C
  const LowerU: CodeUnit := 0x75

  predicate IsHex(u: CodeUnit) {
    (0x30 <= u <= 0x39) || (0x41 <= u <= 0x46) || (0x61 <= u <= 0x66)
  }

  function HexValue(u: CodeUnit): (v: int)
    requires IsHex(u)
    ensures 0 <= v < 16
  {
    if u <= 0x39 then (u - 0x30) as int
    else if u <= 0x46 then (u - 0x41) as int + 10
    else (u - 0x61) as int + 10
  }

  predicate AllHex(h: seq<CodeUnit>) {
    forall i :: 0 <= i < |h| ==> IsHex(h[i])
  }

  /** `String.fromCharCode(parseInt(h, 16))` for four hex digits. */
  function Hex4Value(h: seq<CodeUnit>): CodeUnit
    requires |h| == 4 && AllHex(h)
  {
    (HexValue(h[0]) * 0x1000 + HexValue(h[1]) * 0x100 + HexValue(h[2]) * 0x10 + HexValue(h[3])) as CodeUnit
  }

  /** The number of backslashes `s` starts with. */
  function RunLength(s: seq<CodeUnit>): (k: nat)
    ensures k <= |s|
    decreases |s|
  {
    if s != [] && s[0] == Backslash then 1 + RunLength(s[1..]) else 0
  }

  /** `/\\+u([0-9a-fA-F]{4})/` matches at the start of `s`. The backslash run
      is maximal, since no shorter run can be followed by `u`. */
  predicate EscapeAt(s: seq<CodeUnit>) {
    var k := RunLength(s);
    1 <= k && k + 5 <= |s| && s[k] == LowerU && AllHex(s[k + 1..k + 5])
  }

  /** The global replace, scanning from the left. */
  function ConvertUnicode(s: seq<CodeUnit>): (r: seq<CodeUnit>)
    ensures |r| <= |s|
    ensures s != [] ==> r != []
    decreases |s|
  {
    if s == [] then []
    else if EscapeAt(s) then
      var k := RunLength(s);
      [Hex4Value(s[k + 1..k + 5])] + ConvertUnicode(s[k + 5..])
    else [s[0]] + ConvertUnicode(s[1..])
  }

  function Backslashes(k: nat): seq<CodeUnit> {
    seq(k, _ => Backslash)
  }

  predicate NoBackslash(s: seq<CodeUnit>) {
    forall i :: 0 <= i < |s| ==> s[i] != Backslash
  }

  /** Text without a backslash passes through unchanged. */
  lemma {:induction false} ConvertPlainPrefix(a: seq<CodeUnit>, b: seq<CodeUnit>)
    requires NoBackslash(a)
    ensures ConvertUnicode(a + b) == a + ConvertUnicode(b)
    decreases |a|
  {
    if a != [] {
      var s := a + b;
      assert s[0] == a[0] != Backslash;
      assert s[1..] == a[1..] + b;
      ConvertPlainPrefix(a[1..], b);
    } else {
      assert a + b == b;
    }
  }

  /** A string without a backslash is returned unchanged. */
  lemma ConvertPlain(s: seq<CodeUnit>)
    requires NoBackslash(s)
    ensures ConvertUnicode(s) == s
  {
    ConvertPlainPrefix(s, []);
    assert s + [] == s;
  }

  lemma {:induction false} RunLengthOf(k: nat, rest: seq<CodeUnit>)
    requires rest == [] || rest[0] != Backslash
    ensures RunLength(Backslashes(k) + rest) == k
    decreases k
  {
    if k > 0 {
      var s := Backslashes(k) + rest;
      assert s[1..] == Backslashes(k - 1) + rest;
      RunLengthOf(k - 1, rest);
    } else {
      assert Backslashes(k) + rest == rest;
    }
  }

  /** A run of one or more backslashes, `u` and four hex digits becomes the
      single code unit they spell. */
  lemma ConvertEscape(k: nat, h: seq<CodeUnit>, rest: seq<CodeUnit>)
    requires k >= 1 && |h| == 4 && AllHex(h)
    ensures ConvertUnicode(Backslashes(k) + [LowerU] + h + rest) == [Hex4Value(h)] + ConvertUnicode(rest)
  {
    var tail := [LowerU] + h + rest;
    var s := Backslashes(k) + tail;
    assert Backslashes(k) + [LowerU] + h + rest == s;
    RunLengthOf(k, tail);
    assert s[k] == LowerU;
    assert s[k + 1..k + 5] == h;
    assert s[k + 5..] == rest;
  }

  /** A maximal backslash run not followed by `u` and four hex digits is
      copied as is. */
  lemma {:induction false} ConvertNonEscape(k: nat, rest: seq<CodeUnit>)
    requires k >= 1
    requires rest == [] || rest[0] != Backslash
    requires !(|rest| >= 5 && rest[0] == LowerU && AllHex(rest[1..5]))
    ensures ConvertUnicode(Backslashes(k) + rest) == Backslashes(k) + ConvertUnicode(rest)
    decreases k
  {
    var s := Backslashes(k) + rest;
    RunLengthOf(k, rest);
    if k + 5 <= |s| {
      assert s[k] == rest[0];
      assert s[k + 1..k + 5] == rest[1..5];
    }
    assert !EscapeAt(s);
    assert s[0] == Backslash;
    assert ConvertUnicode(s) == [Backslash] + ConvertUnicode(s[1..]);
    if k == 1 {
      assert s[1..] == rest;
    } else {
      assert s[1..] == Backslashes(k - 1) + rest;
      ConvertNonEscape(k - 1, rest);
    }
    assert Backslashes(k) == [Backslash] + Backslashes(k - 1);
  }

  /** The lowercase hex digit of a value below 16. */
  function HexDigit(d: int): (u: CodeUnit)
    requires 0 <= d < 16
    ensures IsHex(u) && HexValue(u) == d
  {
    if d < 10 then (0x30 + d) as CodeUnit else (0x61 + d - 10) as CodeUnit
  }

  /** Four lowercase hex digits spelling `u`, most significant first. */
  function Hex4(u: CodeUnit): (h: seq<CodeUnit>)
    ensures |h| == 4 && AllHex(h) && Hex4Value(h) == u
  {
    var n0 := u as int;
    var n1 := n0 / 0x10;
    var n2 := n1 / 0x10;
    var n3 := n2 / 0x10;
    assert n0 == n1 * 0x10 + n0 % 0x10;
    assert n1 == n2 * 0x10 + n1 % 0x10;
    assert n2 == n3 * 0x10 + n2 % 0x10;
    assert n3 < 0x10;
    [HexDigit(n3), HexDigit(n2 % 0x10), HexDigit(n1 % 0x10), HexDigit(n0 % 0x10)]
  }

  /** Every code unit written as `\uXXXX`. */
  function Escape(s: seq<CodeUnit>): seq<CodeUnit>
    decreases |s|
  {
    if s == [] then [] else [Backslash, LowerU] + Hex4(s[0]) + Escape(s[1..])
  }

  /** Unescaping undoes escaping. */
  lemma {:induction false} ConvertEscaped(s: seq<CodeUnit>)
    ensures ConvertUnicode(Escape(s)) == s
    decreases |s|
  {
    if s != [] {
      assert [Backslash] == Backslashes(1);
      assert Escape(s) == Backslashes(1) + [LowerU] + Hex4(s[0]) + Escape(s[1..]);
      ConvertEscape(1, Hex4(s[0]), Escape(s[1..]));
      ConvertEscaped(s[1..]);
    }
  }

  // ---------------------------------------------------------------------------
  // moneyFormatter

  const MaxSafeInteger: int := 0x1F_FFFF_FFFF_FFFF

  predicate IsDigit(c: char) {
    '0' <= c <= '9'
  }

  predicate AllDigits(s: string) {
    forall i :: 0 <= i < |s| ==> IsDigit(s[i])
  }

  function DigitChar(d: int): (c: char)
    requires 0 <= d < 10
    ensures IsDigit(c)
  {
    ('0' as int + d) as char
  }

  /** The decimal digits of a natural number, without leading zeros. */
  function Digits(n: nat): (s: string)
    ensures |s| >= 1 && AllDigits(s)
    decreases n
  {
    if n < 10 then [DigitChar(n)] else Digits(n / 10) + [DigitChar(n % 10)]
  }

  /** `String(n)` of an integer. */
  function DecimalString(n: int): string {
    if n < 0 then "-" + Digits(-n) else Digits(n)
  }

  /** The number a digit string spells. */
  function DigitsValue(s: string): int
    requires AllDigits(s)
    decreases |s|
  {
    if s == [] then 0 else DigitsValue(s[..|s| - 1]) * 10 + (s[|s| - 1] as int - '0' as int)
  }

  /** The number a decimal string spells, sign included. */
  function DecimalValue(s: string): int {
    if |s| > 0 && s[0] == '-' && AllDigits(s[1..]) then -DigitsValue(s[1..])
    else if AllDigits(s) then DigitsValue(s)
    else 0
  }

  /** `/\B(?=(\d{3})+(?!\d))/g` replaced by ",": a comma between two digits
      wherever a multiple of three digits follows. */
  function Grouped(d: string): string
    decreases |d|
  {
    if |d| <= 3 then d else Grouped(d[..|d| - 3]) + "," + d[|d| - 3..]
  }

  function RemoveCommas(s: string): string
    decreases |s|
  {
    if s == [] then []
    else RemoveCommas(s[..|s| - 1]) + (if s[|s| - 1] == ',' then [] else [s[|s| - 1]])
  }

  /** Commas exactly at the positions followed by a multiple of four
      characters (three digits and a comma per group), digits elsewhere: the
      leading group has one to three digits and every later group three. */
  predicate WellGrouped(g: string) {
    && |g| % 4 != 0
    && (forall i :: 0 <= i < |g| ==> (g[i] == ',' <==> (|g| - i) % 4 == 0))
    && (forall i :: 0 <= i < |g| && g[i] != ',' ==> IsDigit(g[i]))
  }

  /** `moneyFormatter(x, shorten)` with `decimalPlaces` omitted, on the path
      that does not abbreviate: a safe integer below one million, or any safe
      integer when `shorten` is false. */
  function MoneyFormatter(x: Option<int>, shorten: bool): (r: string)
    requires x.Some? ==> -MaxSafeInteger <= x.value <= MaxSafeInteger
    requires x.Some? ==> x.value < 1000000 || !shorten
    ensures r == "" <==> x.None?
    ensures x.Some? && x.value < 0 ==> r[0] == '-'
  {
    if x.None? then ""
    else if x.value < 0 then "-" + Grouped(Digits(-x.value))
    else Grouped(Digits(x.value))
  }

  lemma {:induction false} DigitsRoundTrip(n: nat)
    ensures DigitsValue(Digits(n)) == n
    decreases n
  {
    if n >= 10 {
      var s := Digits(n);
      assert s[..|s| - 1] == Digits(n / 10);
      DigitsRoundTrip(n / 10);
    }
  }

  /** A decimal string reads back as the integer it was made from. */
  lemma DecimalRoundTrip(n: int)
    ensures DecimalValue(DecimalString(n)) == n
  {
    if n < 0 {
      var s := DecimalString(n);
      assert s[1..] == Digits(-n);
      DigitsRoundTrip(-n);
    } else {
      DigitsRoundTrip(n);
    }
  }

  lemma {:induction false} RemoveCommasAppend(a: string, b: string)
    ensures RemoveCommas(a + b) == RemoveCommas(a) + RemoveCommas(b)
    decreases |b|
  {
    if b == [] {
      assert a + b == a;
    } else {
      var b' := b[..|b| - 1];
      assert (a + b)[..|a + b| - 1] == a + b';
      RemoveCommasAppend(a, b');
    }
  }

  lemma {:induction false} RemoveCommasNone(d: string)
    requires AllDigits(d)
    ensures RemoveCommas(d) == d
    decreases |d|
  {
    if d != [] {
      RemoveCommasNone(d[..|d| - 1]);
    }
  }

  /** Grouping only inserts commas. */
  lemma {:induction false} GroupedDigits(d: string)
    requires AllDigits(d)
    ensures RemoveCommas(Grouped(d)) == d
    decreases |d|
  {
    if |d| <= 3 {
      RemoveCommasNone(d);
    } else {
      var init, last := d[..|d| - 3], d[|d| - 3..];
      GroupedDigits(init);
      RemoveCommasAppend(Grouped(init) + ",", last);
      RemoveCommasAppend(Grouped(init), ",");
      RemoveCommasNone(last);
      assert RemoveCommas(",") == [];
      assert d == init + last;
    }
  }

  /** Grouping a non-empty digit string puts the commas where the pattern says. */
  lemma {:induction false} GroupedShape(d: string)
    requires |d| >= 1 && AllDigits(d)
    ensures WellGrouped(Grouped(d))
    decreases |d|
  {
    if |d| > 3 {
      var init, last := d[..|d| - 3], d[|d| - 3..];
      GroupedShape(init);
      var p := Grouped(init);
      var g := p + "," + last;
      assert Grouped(d) == g;
      assert |g| == |p| + 4;
      forall i | 0 <= i < |g|
        ensures g[i] == ',' <==> (|g| - i) % 4 == 0
        ensures g[i] != ',' ==> IsDigit(g[i])
      {
        GroupedAt(p, last, i);
      }
    }
  }

  lemma GroupedAt(p: string, last: string, i: int)
    requires WellGrouped(p) && |last| == 3 && AllDigits(last)
    requires 0 <= i < |p| + 4
    ensures var g := p + "," + last;
      && (g[i] == ',' <==> (|g| - i) % 4 == 0)
      && (g[i] != ',' ==> IsDigit(g[i]))
  {
    var g := p + "," + last;
    if i < |p| {
      assert g[i] == p[i];
      assert |g| - i == (|p| - i) + 4;
    } else if i > |p| {
      assert g[i] == last[i - |p| - 1];
    }
  }

  /** A negative amount: the sign, then its digits grouped. */
  lemma MoneyNegative(n: int, shorten: bool)
    requires -MaxSafeInteger <= n < 0
    ensures var m := MoneyFormatter(Some(n), shorten);
      |m| > 1 && m[0] == '-' && WellGrouped(m[1..]) && RemoveCommas(m) == DecimalString(n)
  {
    var g := Grouped(Digits(-n));
    var m := MoneyFormatter(Some(n), shorten);
    assert m == "-" + g;
    GroupedDigits(Digits(-n));
    GroupedShape(Digits(-n));
    RemoveCommasAppend("-", g);
    assert RemoveCommas("-") == "-";
    assert m[1..] == g;
  }

  /** A non-negative amount: its digits grouped. */
  lemma MoneyNonNegative(n: int, shorten: bool)
    requires 0 <= n <= MaxSafeInteger && (n < 1000000 || !shorten)
    ensures var m := MoneyFormatter(Some(n), shorten);
      WellGrouped(m) && RemoveCommas(m) == DecimalString(n)
  {
    GroupedDigits(Digits(n));
    GroupedShape(Digits(n));
  }

  /** `moneyFormatter` of an integer: undefined gives ""; otherwise removing
      the commas gives the integer's decimal string, sign kept, which reads
      back as the integer, and after the sign the commas group the digits in
      threes from the right. */
  lemma MoneyFormatterMeaning(x: Option<int>, shorten: bool)
    requires x.Some? ==> -MaxSafeInteger <= x.value <= MaxSafeInteger
    requires x.Some? ==> x.value < 1000000 || !shorten
    ensures x.None? ==> MoneyFormatter(x, shorten) == ""
    ensures x.Some? ==> RemoveCommas(MoneyFormatter(x, shorten)) == DecimalString(x.value)
    ensures x.Some? ==> DecimalValue(RemoveCommas(MoneyFormatter(x, shorten))) == x.value
    ensures x.Some? && x.value < 0 ==>
      MoneyFormatter(x, shorten)[0] == '-' && WellGrouped(MoneyFormatter(x, shorten)[1..])
    ensures x.Some? && x.value >= 0 ==> WellGrouped(MoneyFormatter(x, shorten))
  {
    if x.Some? {
      DecimalRoundTrip(x.value);
      if x.value < 0 {
        MoneyNegative(x.value, shorten);
      } else {
        MoneyNonNegative(x.value, shorten);
      }
    }
  }
}

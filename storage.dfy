/** The browser key-value store behind the game session, and the coercions
    the session applies when it writes numbers into it (`n.toString()`) and
    reads values back (`Number(v) || 0`, `getKey(k) || ""` and the
    case-insensitive `/^true$/i` test). */
module Storage {

  /** The keys the session reads and writes; `KeyName` gives the text of
      each. Other keys of the browser store play no part in the session. */
  datatype Key = Score | UserName | GameTimer | GameStarted | Code | Level | Finish | Challenge | Timer

  function KeyName(k: Key): string {
    match k
    case Score => "score"
    case UserName => "userName"
    case GameTimer => "gameTimer"
    case GameStarted => "gameStarted"
    case Code => "code"
    case Level => "level"
    case Finish => "finish"
    case Challenge => "challenge"
    case Timer => "timer"
  }

  /** The nine key texts are distinct, so a map keyed by `Key` holds the
      same entries as the string-keyed browser store. */
  lemma KeyNamesDistinct(a: Key, b: Key)
    ensures KeyName(a) == KeyName(b) ==> a == b
  {
  }

  /** The key-value store: every value is kept as a string. */
  type Store = map<Key, string>

  predicate IsDigit(c: char) {
    '0' <= c <= '9'
  }

  predicate AllDigits(s: string) {
    forall i :: 0 <= i < |s| ==> IsDigit(s[i])
  }

  function DigitChar(d: nat): (c: char)
    requires d < 10
    ensures IsDigit(c) && c as int - '0' as int == d
  {
    ('0' as int + d) as char
  }

  function DigitValue(c: char): nat
    requires IsDigit(c)
  {
    c as int - '0' as int
  }

  /** Decimal text of a natural number, without leading zeros. */
  function NatToString(n: nat): (r: string)
    ensures |r| > 0 && AllDigits(r)
    ensures r[0] == '0' ==> n == 0
    decreases n
  {
    if n < 10 then [DigitChar(n)] else NatToString(n / 10) + [DigitChar(n % 10)]
  }

  /** `n.toString()` for an integral JavaScript number. */
  function IntToString(n: int): (r: string)
    ensures |r| > 0
    ensures n >= 0 <==> AllDigits(r)
    ensures n < 0 <==> r[0] == '-'
  {
    if n < 0 then
      var r := "-" + NatToString(-n);
      assert !IsDigit(r[0]);
      r
    else NatToString(n)
  }

  /** The value of a string of decimal digits. */
  function DigitsValue(s: string): nat
    requires AllDigits(s)
  {
    if s == [] then 0 else DigitsValue(s[..|s| - 1]) * 10 + DigitValue(s[|s| - 1])
  }

  /** Integer text: decimal digits, optionally after a minus sign. */
  predicate IsIntegerText(s: string) {
    (|s| > 0 && AllDigits(s)) || (|s| > 1 && s[0] == '-' && AllDigits(s[1..]))
  }

  /** `Number(v) || 0` on integer text: an optional minus sign followed by
      decimal digits gives its value; the empty string and every other text
      (which `Number` turns into NaN) give 0. */
  function ParseNumber(s: string): (r: int)
    ensures !IsIntegerText(s) ==> r == 0
    ensures r < 0 ==> IsIntegerText(s) && s[0] == '-'
    ensures |s| > 0 && AllDigits(s) ==> r >= 0
  {
    if |s| > 0 && AllDigits(s) then DigitsValue(s)
    else if |s| > 1 && s[0] == '-' && AllDigits(s[1..]) then -(DigitsValue(s[1..]) as int)
    else 0
  }

  lemma {:induction false} NatToStringRoundTrip(n: nat)
    ensures DigitsValue(NatToString(n)) == n
    decreases n
  {
    if n >= 10 {
      var prefix := NatToString(n / 10);
      var s := prefix + [DigitChar(n % 10)];
      assert s[..|s| - 1] == prefix;
      NatToStringRoundTrip(n / 10);
    }
  }

  /** What the session writes as a number it reads back as the same number. */
  lemma ParseIntToString(n: int)
    ensures ParseNumber(IntToString(n)) == n
  {
    if n < 0 {
      var s := IntToString(n);
      assert s[1..] == NatToString(-n);
      assert !IsDigit(s[0]);
      NatToStringRoundTrip(-n);
    } else {
      NatToStringRoundTrip(n);
    }
  }

  /** `b.toString()` for a boolean; the recovery test reads it back. */
  function BoolToString(b: bool): (r: string)
    ensures IsTrueFromString(r) == b
  {
    if b then "true" else "false"
  }

  function LowerAscii(c: char): char {
    if 'A' <= c <= 'Z' then (c as int - 'A' as int + 'a' as int) as char else c
  }

  function LowerAsciiString(s: string): (r: string)
    ensures |r| == |s|
    ensures forall i :: 0 <= i < |s| ==> r[i] == LowerAscii(s[i])
  {
    if s == [] then [] else [LowerAscii(s[0])] + LowerAsciiString(s[1..])
  }

  /** `/^true$/i.test(value)`: the whole value is the word "true", each letter
      in either case. */
  function IsTrueFromString(value: string): (r: bool)
    ensures r ==> |value| == 4
  {
    |value| == 4 &&
    (value[0] == 't' || value[0] == 'T') &&
    (value[1] == 'r' || value[1] == 'R') &&
    (value[2] == 'u' || value[2] == 'U') &&
    (value[3] == 'e' || value[3] == 'E')
  }

  /** The test accepts exactly the values whose ASCII lower-case form is
      "true". */
  lemma IsTrueFromStringLower(value: string)
    ensures IsTrueFromString(value) <==> LowerAsciiString(value) == "true"
  {
  }


  /** `Number(getKey(key)) || 0`: an absent key reads as 0. */
  function StoredNumber(store: Store, key: Key): (r: int)
    ensures key !in store ==> r == 0
    ensures key in store ==> r == ParseNumber(store[key])
  {
    if key in store then ParseNumber(store[key]) else 0
  }

  /** `getKey(key) || ""`: an absent key reads as the empty string. */
  function StoredText(store: Store, key: Key): (r: string)
    ensures key in store ==> r == store[key]
    ensures key !in store ==> r == ""
  {
    if key in store then store[key] else ""
  }

  /** `isTrueFromString(getKey(key))`: an absent key (null) is not "true". */
  function StoredFlag(store: Store, key: Key): (r: bool)
    ensures r <==> key in store && IsTrueFromString(store[key])
  {
    key in store && IsTrueFromString(store[key])
  }
}

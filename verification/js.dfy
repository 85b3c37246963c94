/** JavaScript values and the built-in conversions and string operations the
    components rely on: truthiness, `String(v)`, `Number(v)`, `new Date(v)`,
    `trim`, `toLowerCase`, `includes` and `split`. */
module Js {

  datatype Option<+T> = None | Some(value: T)

  /** The parts of ECMAScript's Date that depend on the host and on the
      calendar: parsing a date string (None for an invalid date),
      `toISOString` and `toString` of a valid time value. */
  datatype DateEnv = DateEnv(parse: string -> Option<int>, iso: int -> string, show: int -> string)

  /** Largest absolute time value (milliseconds) a Date can hold. */
  const MaxTime: int := 8_640_000_000_000_000

  /** A JavaScript value as the components see it. Numbers are integers;
      a Date is a valid time value; an object is its own properties. */
  datatype Value =
    | Undefined
    | Null
    | Bool(b: bool)
    | Num(n: int)
    | NaN
    | Str(s: string)
    | DateObj(time: int)
    | Obj(props: map<string, Value>)

  /** `v == null` */
  predicate Nullish(v: Value) {
    v.Undefined? || v.Null?
  }

  /** `!!v` */
  predicate Truthy(v: Value) {
    match v
    case Undefined => false
    case Null => false
    case Bool(b) => b
    case Num(n) => n != 0
    case NaN => false
    case Str(s) => s != ""
    case DateObj(_) => true
    case Obj(_) => true
  }

  /** `typeof v === "object"` for a non-null value. */
  predicate IsObject(v: Value) {
    v.DateObj? || v.Obj?
  }

  /** `v || d` */
  function Or(v: Value, d: Value): Value {
    if Truthy(v) then v else d
  }

  /** `m[k]` on a plain object. */
  function Get(m: map<string, Value>, k: string): Value {
    if k in m then m[k] else Undefined
  }

  /** `v.k` (undefined on anything that is not a plain object). */
  function Prop(v: Value, k: string): Value {
    if v.Obj? then Get(v.props, k) else Undefined
  }

  /** `a === b`. NaN is never equal to anything; objects are compared by
      content (the model has no object identity). */
  predicate StrictEquals(a: Value, b: Value) {
    !a.NaN? && a == b
  }

  // ---------------------------------------------------------------------------
  // Numbers and their decimal form

  predicate IsDigit(c: char) {
    '0' <= c <= '9'
  }

  predicate AllDigits(s: string) {
    forall i :: 0 <= i < |s| ==> IsDigit(s[i])
  }

  function DigitChar(d: int): char
    requires 0 <= d < 10
  {
    ('0' as int + d) as char
  }

  /** Decimal digits of a natural number, without leading zeros. */
  function NatToString(n: nat): (r: string)
    ensures |r| >= 1 && AllDigits(r)
    ensures n > 0 ==> r[0] != '0'
  {
    if n < 10 then [DigitChar(n)] else NatToString(n / 10) + [DigitChar(n % 10)]
  }

  /** `String(n)` for an integer. */
  function IntToString(n: int): string {
    if n < 0 then "-" + NatToString(-n) else NatToString(n)
  }

  /** Value of a string of decimal digits. */
  function DigitsValue(s: string): nat
    requires AllDigits(s)
  {
    if |s| == 0 then 0 else DigitsValue(s[..|s| - 1]) * 10 + (s[|s| - 1] as int - '0' as int)
  }

  lemma {:induction false} DigitsRoundTrip(n: nat)
    ensures DigitsValue(NatToString(n)) == n
  {
    if n >= 10 {
      DigitsRoundTrip(n / 10);
      var s := NatToString(n);
      assert s[..|s| - 1] == NatToString(n / 10);
    }
  }

  /** `Number(s)` for a string: surrounding whitespace is ignored, the empty
      string is 0, and an optional sign followed by decimal digits is read
      as an integer. Every other spelling is NaN here. */
  function StringToNumber(s: string): Option<int> {
    SignedDigitsValue(Trim(s))
  }

  /** The number a string with no surrounding whitespace spells. */
  function SignedDigitsValue(t: string): Option<int> {
    if t == "" then Some(0)
    else if AllDigits(t) then Some(DigitsValue(t))
    else if |t| >= 2 && t[0] == '-' && AllDigits(t[1..]) then Some(-(DigitsValue(t[1..]) as int))
    else if |t| >= 2 && t[0] == '+' && AllDigits(t[1..]) then Some(DigitsValue(t[1..]))
    else None
  }

  /** `Number(v)`; None stands for NaN. */
  function ToNumber(v: Value): Option<int> {
    match v
    case Undefined => None
    case Null => Some(0)
    case Bool(b) => Some(if b then 1 else 0)
    case Num(n) => Some(n)
    case NaN => None
    case Str(s) => StringToNumber(s)
    case DateObj(t) => Some(t)
    case Obj(_) => None
  }

  /** A number back as a JavaScript value. */
  function NumberValue(n: Option<int>): Value {
    if n.Some? then Num(n.value) else NaN
  }

  /** Reading the decimal form of an integer gives the integer back. */
  lemma {:induction false} NumberRoundTrip(n: int)
    ensures ToNumber(Str(IntToString(n))) == Some(n)
  {
    if n < 0 {
      NegativeRoundTrip(n);
    } else {
      NaturalRoundTrip(n);
    }
  }

  lemma NaturalRoundTrip(n: int)
    requires n >= 0
    ensures StringToNumber(IntToString(n)) == Some(n)
  {
    var s := IntToString(n);
    DigitsRoundTrip(n);
    DigitsTrimmed(s);
    TrimOfTrimmed(s);
  }

  lemma NegativeRoundTrip(n: int)
    requires n < 0
    ensures StringToNumber(IntToString(n)) == Some(n)
  {
    assert IntToString(n) == "-" + NatToString(-n);
    DigitsRoundTrip(-n);
    ReadNegative(NatToString(-n), n);
  }

  /** A minus sign followed by the digits of `-n` reads as `n`. */
  lemma ReadNegative(d: string, n: int)
    requires |d| >= 1 && AllDigits(d) && DigitsValue(d) == -n
    ensures StringToNumber("-" + d) == Some(n)
  {
    NegativeTrimmed(d);
    TrimOfTrimmed("-" + d);
    ParseNegative(d, n);
  }

  /** A minus sign followed by digits has no whitespace at its ends. */
  lemma NegativeTrimmed(d: string)
    requires |d| >= 1 && AllDigits(d)
    ensures IsTrimmed("-" + d)
  {
    var s := "-" + d;
    assert s[|s| - 1] == d[|d| - 1] && IsDigit(d[|d| - 1]);
  }

  /** A minus sign followed by digits reads as the negated digits. */
  lemma ParseNegative(d: string, n: int)
    requires |d| >= 1 && AllDigits(d) && DigitsValue(d) == -n
    ensures SignedDigitsValue("-" + d) == Some(n)
  {
    var s := "-" + d;
    assert s[1..] == d;
    assert !IsDigit(s[0]);
  }

  /** A run of digits has no whitespace at its ends. */
  lemma DigitsTrimmed(d: string)
    requires |d| >= 1 && AllDigits(d)
    ensures IsTrimmed(d)
  {
    assert IsDigit(d[0]) && IsDigit(d[|d| - 1]);
  }

  /** `new Date(v).getTime()`; None stands for an invalid date. */
  function ToDate(env: DateEnv, v: Value): Option<int> {
    match v
    case Undefined => None
    case Null => Some(0)
    case Bool(b) => Some(if b then 1 else 0)
    case Num(n) => if -MaxTime <= n <= MaxTime then Some(n) else None
    case NaN => None
    case Str(s) => env.parse(s)
    case DateObj(t) => Some(t)
    case Obj(_) => env.parse("[object Object]")
  }

  /** `String(v)` */
  function ToJsString(env: DateEnv, v: Value): string {
    match v
    case Undefined => "undefined"
    case Null => "null"
    case Bool(b) => if b then "true" else "false"
    case Num(n) => IntToString(n)
    case NaN => "NaN"
    case Str(s) => s
    case DateObj(t) => env.show(t)
    case Obj(_) => "[object Object]"
  }

  // ---------------------------------------------------------------------------
  // Whitespace and trim

  /** ECMAScript WhiteSpace and LineTerminator code points. */
  predicate IsSpace(c: char) {
    var x := c as int;
    x == 0x09 || x == 0x0A || x == 0x0B || x == 0x0C || x == 0x0D || x == 0x20
    || x == 0xA0 || x == 0x1680 || (0x2000 <= x <= 0x200A) || x == 0x2028
    || x == 0x2029 || x == 0x202F || x == 0x205F || x == 0x3000 || x == 0xFEFF
  }

  /** A string with no whitespace at either end. */
  predicate IsTrimmed(s: string) {
    |s| == 0 || (!IsSpace(s[0]) && !IsSpace(s[|s| - 1]))
  }

  function TrimStart(s: string): (r: string)
    ensures |r| <= |s| && r == s[|s| - |r|..]
    ensures forall k :: 0 <= k < |s| - |r| ==> IsSpace(s[k])
    ensures |r| == 0 || !IsSpace(r[0])
  {
    if |s| > 0 && IsSpace(s[0]) then TrimStart(s[1..]) else s
  }

  function TrimEnd(s: string): (r: string)
    ensures |r| <= |s| && r == s[..|r|]
    ensures forall k :: |r| <= k < |s| ==> IsSpace(s[k])
    ensures |r| == 0 || !IsSpace(r[|r| - 1])
  {
    if |s| > 0 && IsSpace(s[|s| - 1]) then TrimEnd(s[..|s| - 1]) else s
  }

  /** `s.trim()`: whitespace removed from both ends. */
  function Trim(s: string): (r: string)
    ensures IsTrimmed(r)
  {
    TrimEnd(TrimStart(s))
  }

  /** `s.trim()` is a slice of `s` with only whitespace outside it. */
  lemma TrimIsInfix(s: string)
    ensures exists i, j ::
              && 0 <= i <= j <= |s| && Trim(s) == s[i..j]
              && forall k :: 0 <= k < i || j <= k < |s| ==> IsSpace(s[k])
  {
    var t := TrimStart(s);
    var r := TrimEnd(t);
    var i := |s| - |t|;
    var j := i + |r|;
    TailSpaces(s, i, r);
    assert r == s[i..j] by {
      assert t == s[i..] && r == t[..|r|];
    }
    assert 0 <= i <= j <= |s| && Trim(s) == s[i..j] &&
      forall k :: 0 <= k < i || j <= k < |s| ==> IsSpace(s[k]);
  }

  /** Whitespace cut from the end of `s[i..]` is whitespace of `s`. */
  lemma TailSpaces(s: string, i: int, r: string)
    requires 0 <= i <= |s| && |r| <= |s| - i
    requires forall k :: |r| <= k < |s[i..]| ==> IsSpace(s[i..][k])
    ensures forall k :: i + |r| <= k < |s| ==> IsSpace(s[k])
  {
    forall k | i + |r| <= k < |s|
      ensures IsSpace(s[k])
    {
      assert s[k] == s[i..][k - i];
    }
  }

  /** Trim removes characters and adds none. */
  lemma TrimSubset(s: string, c: char)
    requires c in Trim(s)
    ensures c in s
  {
    var t := TrimStart(s);
    var r := TrimEnd(t);
    var k :| 0 <= k < |r| && r[k] == c;
    assert t[k] == c;
    assert s[|s| - |t| + k] == c;
  }

  lemma {:induction false} TrimOfTrimmed(s: string)
    requires IsTrimmed(s)
    ensures Trim(s) == s
  {
    assert TrimStart(s) == s;
    assert TrimEnd(s) == s;
  }

  /** `s.trim()` is empty iff `s` is all whitespace. */
  lemma TrimBlankIff(s: string)
    ensures Trim(s) == "" <==> forall i :: 0 <= i < |s| ==> IsSpace(s[i])
  {
  }

  // ---------------------------------------------------------------------------
  // Case mapping (ASCII letters)

  function LowerChar(c: char): char {
    if 'A' <= c <= 'Z' then (c as int + 32) as char else c
  }

  function UpperChar(c: char): char {
    if 'a' <= c <= 'z' then (c as int - 32) as char else c
  }

  /** `s.toLowerCase()` */
  function ToLower(s: string): string {
    seq(|s|, i requires 0 <= i < |s| => LowerChar(s[i]))
  }

  /** `s.toUpperCase()` */
  function ToUpper(s: string): string {
    seq(|s|, i requires 0 <= i < |s| => UpperChar(s[i]))
  }

  /** Lower-casing ignores the case the string was written in. */
  lemma {:induction false} LowerOfUpper(s: string)
    ensures ToLower(ToUpper(s)) == ToLower(s)
  {
    assert forall i :: 0 <= i < |s| ==> LowerChar(UpperChar(s[i])) == LowerChar(s[i]);
  }

  /** Trim commutes with upper-casing, since case mapping never turns a
      character into whitespace or back. */
  lemma {:induction false} TrimOfUpper(s: string)
    ensures Trim(ToUpper(s)) == ToUpper(Trim(s))
  {
    TrimStartOfUpper(s);
    TrimEndOfUpper(TrimStart(s));
  }

  lemma {:induction false} TrimStartOfUpper(s: string)
    ensures TrimStart(ToUpper(s)) == ToUpper(TrimStart(s))
    decreases |s|
  {
    var u := ToUpper(s);
    if |s| > 0 {
      assert IsSpace(u[0]) == IsSpace(s[0]);
      if IsSpace(s[0]) {
        assert u[1..] == ToUpper(s[1..]);
        TrimStartOfUpper(s[1..]);
      }
    }
  }

  lemma {:induction false} TrimEndOfUpper(s: string)
    ensures TrimEnd(ToUpper(s)) == ToUpper(TrimEnd(s))
    decreases |s|
  {
    var u := ToUpper(s);
    if |s| > 0 {
      assert IsSpace(u[|s| - 1]) == IsSpace(s[|s| - 1]);
      if IsSpace(s[|s| - 1]) {
        assert u[..|s| - 1] == ToUpper(s[..|s| - 1]);
        TrimEndOfUpper(s[..|s| - 1]);
      }
    }
  }

  // ---------------------------------------------------------------------------
  // Substrings

  ghost predicate OccursAt(hay: string, needle: string, i: int) {
    0 <= i && i + |needle| <= |hay| && hay[i..i + |needle|] == needle
  }

  /** `hay.includes(needle)`: the needle occurs at some position. */
  function Includes(hay: string, needle: string): (b: bool)
    ensures b <==> exists i :: OccursAt(hay, needle, i)
    decreases |hay|
  {
    if needle <= hay then
      assert OccursAt(hay, needle, 0);
      true
    else if |hay| == 0 then
      assert forall i :: !OccursAt(hay, needle, i);
      false
    else
      var b := Includes(hay[1..], needle);
      assert forall i :: OccursAt(hay[1..], needle, i) ==> OccursAt(hay, needle, i + 1);
      assert forall i :: OccursAt(hay, needle, i) && i > 0 ==> OccursAt(hay[1..], needle, i - 1);
      b
  }

  /** A needle with a character the haystack lacks does not occur in it. */
  lemma IncludesNeedsChar(hay: string, needle: string, c: char)
    requires c in needle && c !in hay
    ensures !Includes(hay, needle)
  {
  }

  // ---------------------------------------------------------------------------
  // split and join on one separator character

  function IndexOf(s: string, c: char): (i: nat)
    requires c in s
    ensures i < |s| && s[i] == c && c !in s[..i]
  {
    if s[0] == c then 0 else 1 + IndexOf(s[1..], c)
  }

  /** `parts.join(sep)` */
  function Join(parts: seq<string>, sep: char): string
    requires |parts| >= 1
  {
    if |parts| == 1 then parts[0] else parts[0] + [sep] + Join(parts[1..], sep)
  }

  /** `s.split(sep)`: the pieces between separators, which joined again
      give back `s`. */
  function Split(s: string, sep: char): (parts: seq<string>)
    ensures |parts| >= 1
    ensures forall k :: 0 <= k < |parts| ==> sep !in parts[k]
    ensures Join(parts, sep) == s
    decreases |s|
  {
    if sep !in s then [s]
    else
      var i := IndexOf(s, sep);
      var rest := Split(s[i + 1..], sep);
      var parts := [s[..i]] + rest;
      assert parts[1..] == rest;
      assert s == s[..i] + [sep] + s[i + 1..];
      parts
  }

  /** Splitting a join of separator-free pieces gives the pieces back. */
  lemma {:induction false} SplitJoin(parts: seq<string>, sep: char)
    requires |parts| >= 1
    requires forall k :: 0 <= k < |parts| ==> sep !in parts[k]
    ensures Split(Join(parts, sep), sep) == parts
    decreases |parts|
  {
    var s := Join(parts, sep);
    if |parts| > 1 {
      var rest := Join(parts[1..], sep);
      assert s == parts[0] + [sep] + rest;
      assert sep in s by { assert s[|parts[0]|] == sep; }
      var i := IndexOf(s, sep);
      assert s[..i] == parts[0];
      assert s[i + 1..] == rest;
      SplitJoin(parts[1..], sep);
    }
  }
}

/**
 * The slice of JavaScript's value model that the timer's validators and
 * decoders look at: `typeof` tests, property access, `Number.isInteger`,
 * `Number(...)` coercion and `String.prototype.trim`.
 */
module JsValues {

  datatype Option<+T> = None | Some(value: T)

  datatype Result<+T, +E> = Ok(value: T) | Err(error: E)

  /** A JavaScript number: an integral value, or any other number (a fraction, NaN or an infinity). */
  datatype Num = Int(value: int) | NonInteger

  /** A JavaScript value as produced by `JSON.parse` (plus `undefined`, the value of a missing property). */
  datatype JsValue =
    | Undefined
    | Null
    | Bool(b: bool)
    | Number(n: Num)
    | Str(s: string)
    | Arr(items: seq<JsValue>)
    | Obj(fields: map<string, JsValue>)

  /** `typeof v === "object" && v !== null`, which is also `v && typeof v === "object"`. */
  predicate IsObjectLike(v: JsValue) {
    v.Arr? || v.Obj?
  }

  /** Property access `v[key]`: `undefined` for a missing key and for anything that is not an object. */
  function Get(v: JsValue, key: string): (r: JsValue)
    ensures !v.Obj? ==> r == Undefined
    ensures v.Obj? && key in v.fields ==> r == v.fields[key]
  {
    if v.Obj? && key in v.fields then v.fields[key] else Undefined
  }

  /** `Number.isInteger(v) && v >= lo` */
  predicate IsIntAtLeast(v: JsValue, lo: int) {
    v.Number? && v.n.Int? && v.n.value >= lo
  }

  // ---------------------------------------------------------------------
  // String.prototype.trim

  /** The characters `trim` removes: ECMAScript WhiteSpace and LineTerminator. */
  predicate IsJsSpace(c: char) {
    c == ' ' || c == '\t' || c == '\n' || c == '\r' || c == '\U{000B}' || c == '\U{000C}'
    || c == '\U{00A0}' || c == '\U{1680}' || ('\U{2000}' <= c <= '\U{200A}')
    || c == '\U{2028}' || c == '\U{2029}' || c == '\U{202F}' || c == '\U{205F}'
    || c == '\U{3000}' || c == '\U{FEFF}'
  }

  function TrimStart(s: string): (r: string)
    ensures |r| <= |s| && r == s[|s| - |r|..]
    ensures r == [] || !IsJsSpace(r[0])
  {
    if |s| > 0 && IsJsSpace(s[0]) then TrimStart(s[1..]) else s
  }

  function TrimEnd(s: string): (r: string)
    ensures |r| <= |s| && r == s[..|r|]
    ensures r == [] || !IsJsSpace(r[|r| - 1])
  {
    if |s| > 0 && IsJsSpace(s[|s| - 1]) then TrimEnd(s[..|s| - 1]) else s
  }

  lemma {:induction false} TrimStartCutsSpace(s: string)
    ensures forall i :: 0 <= i < |s| - |TrimStart(s)| ==> IsJsSpace(s[i])
    decreases |s|
  {
    if |s| > 0 && IsJsSpace(s[0]) {
      TrimStartCutsSpace(s[1..]);
      forall i | 0 < i < |s| - |TrimStart(s)|
        ensures IsJsSpace(s[i])
      {
        assert s[i] == s[1..][i - 1];
      }
    }
  }

  lemma {:induction false} TrimEndCutsSpace(s: string)
    ensures forall i :: |TrimEnd(s)| <= i < |s| ==> IsJsSpace(s[i])
    decreases |s|
  {
    if |s| > 0 && IsJsSpace(s[|s| - 1]) {
      TrimEndCutsSpace(s[..|s| - 1]);
      forall i | |TrimEnd(s)| <= i < |s| - 1
        ensures IsJsSpace(s[i])
      {
        assert s[i] == s[..|s| - 1][i];
      }
    }
  }

  /** `s.trim()` */
  function Trim(s: string): (r: string)
  {
    TrimEnd(TrimStart(s))
  }

  /**
   * The trimmed string is the slice of the input between its leading and its
   * trailing white space: no white space at either end, and only white space
   * cut off.
   */
  lemma TrimShape(s: string)
    ensures var r := Trim(s);
      var k := |s| - |TrimStart(s)|;
      && k + |r| <= |s| && r == s[k..k + |r|]
      && (r == [] || (!IsJsSpace(r[0]) && !IsJsSpace(r[|r| - 1])))
      && (forall i :: 0 <= i < k ==> IsJsSpace(s[i]))
      && (forall i :: k + |r| <= i < |s| ==> IsJsSpace(s[i]))
  {
    TrimIsSlice(s);
    TrimEndsUnspaced(s);
    TrimCutsOnlySpace(s);
  }

  lemma TrimIsSlice(s: string)
    ensures var k := |s| - |TrimStart(s)|;
      k + |Trim(s)| <= |s| && Trim(s) == s[k..k + |Trim(s)|]
  {
    var t := TrimStart(s);
    var r := TrimEnd(t);
    PrefixOfSuffix(s, t, r);
  }

  lemma PrefixOfSuffix<T>(s: seq<T>, t: seq<T>, r: seq<T>)
    requires |t| <= |s| && t == s[|s| - |t|..]
    requires |r| <= |t| && r == t[..|r|]
    ensures r == s[|s| - |t|..|s| - |t| + |r|]
  {
  }

  lemma TrimEndsUnspaced(s: string)
    ensures var r := Trim(s); r == [] || (!IsJsSpace(r[0]) && !IsJsSpace(r[|r| - 1]))
  {
    TrimEndKeepsUnspacedStart(TrimStart(s));
  }

  lemma TrimCutsOnlySpace(s: string)
    ensures var k := |s| - |TrimStart(s)|;
      && (forall i :: 0 <= i < k ==> IsJsSpace(s[i]))
      && (forall i :: k + |Trim(s)| <= i < |s| ==> IsJsSpace(s[i]))
  {
    var t := TrimStart(s);
    var r := TrimEnd(t);
    var k := |s| - |t|;
    TrimStartCutsSpace(s);
    TrimEndCutsSpace(t);
    assert t == s[k..];
    forall i | k + |r| <= i < |s|
      ensures IsJsSpace(s[i])
    {
      assert s[i] == t[i - k];
    }
  }

  lemma {:induction false} TrimStartOfUnspaced(s: string)
    requires s == [] || !IsJsSpace(s[0])
    ensures TrimStart(s) == s
  {
  }

  lemma {:induction false} TrimEndKeepsUnspacedStart(s: string)
    requires s == [] || !IsJsSpace(s[0])
    ensures var r := TrimEnd(s); r == [] || !IsJsSpace(r[0])
  {
    var r := TrimEnd(s);
    if r != [] {
      assert r[0] == s[0];
    }
  }

  /** Trimming is idempotent: `s.trim().trim() === s.trim()`. */
  lemma {:induction false} TrimIdempotent(s: string)
    ensures Trim(Trim(s)) == Trim(s)
  {
    var r := Trim(s);
    TrimEndKeepsUnspacedStart(TrimStart(s));
    TrimStartOfUnspaced(r);
    assert TrimStart(r) == r;
    assert TrimEnd(r) == r;
  }

  // ---------------------------------------------------------------------
  // Number(...) coercion

  predicate IsDigit(c: char) {
    '0' <= c <= '9'
  }

  predicate AllDigits(s: string) {
    forall i :: 0 <= i < |s| ==> IsDigit(s[i])
  }

  function DigitsValue(s: string): (n: nat)
    requires AllDigits(s)
  {
    if s == [] then 0 else 10 * DigitsValue(s[..|s| - 1]) + (s[|s| - 1] as int - '0' as int)
  }

  /**
   * `Number(s)` for a string: surrounding white space is ignored, the empty
   * string is 0, and an optionally signed run of decimal digits is that integer.
   * Every other string is taken to be a number that is not an integer.
   */
  function StringToNumber(s: string): (r: Num)
    ensures Trim(s) == [] ==> r == Int(0)
    ensures AllDigits(Trim(s)) ==> r == Int(DigitsValue(Trim(s)))
  {
    var t := Trim(s);
    if t == [] then Int(0)
    else if AllDigits(t) then Int(DigitsValue(t))
    else if |t| > 1 && (t[0] == '+' || t[0] == '-') && AllDigits(t[1..]) then
      var magnitude: int := DigitsValue(t[1..]);
      Int(if t[0] == '-' then -magnitude else magnitude)
    else NonInteger
  }

  /** `Number(v)` */
  function ToNumber(v: JsValue): (r: Num)
    ensures v.Number? ==> r == v.n
    ensures v.Null? ==> r == Int(0)
    ensures v.Undefined? ==> r == NonInteger
  {
    match v
    case Undefined => NonInteger
    case Null => Int(0)
    case Bool(b) => Int(if b then 1 else 0)
    case Number(n) => n
    case Str(s) => StringToNumber(s)
    case Arr(_) => NonInteger
    case Obj(_) => NonInteger
  }

  // ---------------------------------------------------------------------
  // String(n) for integers, as template literals print them

  function DigitChar(d: int): (c: char)
    requires 0 <= d < 10
    ensures IsDigit(c) && c as int - '0' as int == d
  {
    ('0' as int + d) as char
  }

  /** The decimal digits of `n`, without leading zeros. */
  function NatToString(n: nat): (r: string)
    ensures 1 <= |r| && AllDigits(r) && DigitsValue(r) == n
    ensures |r| > 1 ==> r[0] != '0'
    decreases n
  {
    if n < 10 then [DigitChar(n)]
    else
      var prefix := NatToString(n / 10);
      var r := prefix + [DigitChar(n % 10)];
      assert r[..|r| - 1] == prefix;
      r
  }

  /** `String(n)` / `${n}` for an integral number. */
  function IntToString(n: int): (r: string)
  {
    if n < 0 then "-" + NatToString(-n) else NatToString(n)
  }

  /** `Number(String(n)) === n`: printing an integer and coercing it back gives the integer. */
  lemma IntToStringRoundTrip(n: int)
    ensures StringToNumber(IntToString(n)) == Int(n)
  {
    var s := IntToString(n);
    assert s[0] == '-' || IsDigit(s[0]);
    TrimStartOfUnspaced(s);
    assert !IsJsSpace(s[|s| - 1]);
    assert Trim(s) == s;
    if n < 0 {
      assert s[1..] == NatToString(-n);
      assert !IsDigit(s[0]);
    }
  }

  /** Different integers print differently. */
  lemma IntToStringInjective(m: int, n: int)
    requires IntToString(m) == IntToString(n)
    ensures m == n
  {
    IntToStringRoundTrip(m);
    IntToStringRoundTrip(n);
  }
}

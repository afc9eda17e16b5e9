/**
 * The JavaScript value semantics the client code relies on: JSON-like values,
 * truthiness, String() conversion, parseInt, the "is it a number" test behind
 * isNaN(string), String.prototype.trim and the UTF-16 length of a string.
 * Numbers are integers; floating point is not modelled.
 */
module JsValues {
  import opened Common

  /** A value parsed from JSON (or built by the client); undefined is Option.None. */
  datatype Json =
    | JNull
    | JBool(b: bool)
    | JNum(n: int)
    | JStr(s: string)
    | JArr(elems: seq<Json>)
    | JObj(fields: map<string, Json>)

  /** JavaScript truthiness of a defined value. */
  predicate Truthy(v: Json)
  {
    match v
    case JNull => false
    case JBool(b) => b
    case JNum(n) => n != 0
    case JStr(s) => s != ""
    case JArr(_) => true
    case JObj(_) => true
  }

  /** Truthiness of a possibly undefined value. */
  predicate Present(v: Option<Json>)
  {
    v.Some? && Truthy(v.value)
  }

  /** `v?.key` for the named properties the client reads: only objects carry them. */
  function Member(v: Option<Json>, key: string): (r: Option<Json>)
    ensures r.Some? ==> v.Some? && v.value.JObj? && key in v.value.fields
  {
    if v.Some? && v.value.JObj? && key in v.value.fields then Some(v.value.fields[key]) else None
  }

  /** `v?.[0]`: the first element of an array, the first character of a string, or an object's "0" property. */
  function Index0(v: Option<Json>): Option<Json>
  {
    match v
    case Some(JArr(es)) => if es != [] then Some(es[0]) else None
    case Some(JStr(s)) => if s != "" then Some(JStr([s[0]])) else None
    case Some(JObj(f)) => if "0" in f then Some(f["0"]) else None
    case _ => None
  }

  /** `a || b`: a when a is truthy, b otherwise. */
  function OrElse(a: Option<Json>, b: Json): (r: Json)
    ensures Present(a) ==> r == a.value
    ensures !Present(a) ==> r == b
  {
    if Present(a) then a.value else b
  }

  // ---------------------------------------------------------------- digits

  predicate IsDecimalDigit(c: char) { '0' <= c <= '9' }

  predicate IsHexDigit(c: char) { IsDecimalDigit(c) || 'a' <= c <= 'f' || 'A' <= c <= 'F' }

  predicate AllDecimalDigits(s: string) { forall i :: 0 <= i < |s| ==> IsDecimalDigit(s[i]) }

  predicate AllHexDigits(s: string) { forall i :: 0 <= i < |s| ==> IsHexDigit(s[i]) }

  function DigitChar(d: nat): (c: char)
    requires d < 10
    ensures IsDecimalDigit(c)
  {
    ('0' as int + d) as char
  }

  function DigitValue(c: char): (d: nat)
    requires IsDecimalDigit(c)
    ensures d < 10
  {
    c as int - '0' as int
  }

  function HexValue(c: char): (d: nat)
    requires IsHexDigit(c)
    ensures d < 16
  {
    if IsDecimalDigit(c) then DigitValue(c)
    else if 'a' <= c <= 'f' then c as int - 'a' as int + 10
    else c as int - 'A' as int + 10
  }

  /** The decimal notation of a natural number, as Number.prototype.toString gives it. */
  function NatToString(n: nat): (s: string)
    ensures |s| > 0 && AllDecimalDigits(s)
    ensures s[0] == '0' ==> n == 0 && |s| == 1
    decreases n
  {
    if n < 10 then [DigitChar(n)] else NatToString(n / 10) + [DigitChar(n % 10)]
  }

  /** String(n) for an integer n. */
  function IntToString(n: int): (s: string)
    ensures |s| > 0
    ensures s[0] == '-' <==> n < 0
  {
    if n < 0 then "-" + NatToString(-n) else NatToString(n)
  }

  /** The value of a string of decimal digits, most significant first. */
  function DecimalValue(s: string): nat
    requires AllDecimalDigits(s)
  {
    if s == [] then 0 else DecimalValue(s[..|s| - 1]) * 10 + DigitValue(s[|s| - 1])
  }

  /** The value of a string of hexadecimal digits, most significant first. */
  function HexadecimalValue(s: string): nat
    requires AllHexDigits(s)
  {
    if s == [] then 0 else HexadecimalValue(s[..|s| - 1]) * 16 + HexValue(s[|s| - 1])
  }

  /** The longest prefix of s made of decimal digits. */
  function DigitRun(s: string): (r: string)
    ensures |r| <= |s| && r == s[..|r|] && AllDecimalDigits(r)
    ensures |r| < |s| ==> !IsDecimalDigit(s[|r|])
  {
    if s != [] && IsDecimalDigit(s[0]) then [s[0]] + DigitRun(s[1..]) else []
  }

  /** The longest prefix of s made of hexadecimal digits. */
  function HexRun(s: string): (r: string)
    ensures |r| <= |s| && r == s[..|r|] && AllHexDigits(r)
    ensures |r| < |s| ==> !IsHexDigit(s[|r|])
  {
    if s != [] && IsHexDigit(s[0]) then [s[0]] + HexRun(s[1..]) else []
  }

  // ------------------------------------------------------------ whitespace

  /** The characters ECMAScript counts as WhiteSpace or LineTerminator. */
  predicate IsJsWhitespace(c: char)
  {
    var v := c as int;
    (0x09 <= v <= 0x0D) || v == 0x20 || v == 0xA0 || v == 0x1680 || (0x2000 <= v <= 0x200A)
    || v == 0x2028 || v == 0x2029 || v == 0x202F || v == 0x205F || v == 0x3000 || v == 0xFEFF
  }

  /** s without its leading whitespace. */
  function TrimStart(s: string): (r: string)
    ensures |r| <= |s| && r == s[|s| - |r|..]
    ensures r == [] || !IsJsWhitespace(r[0])
  {
    if s != [] && IsJsWhitespace(s[0]) then TrimStart(s[1..]) else s
  }

  /** s without its trailing whitespace. */
  function TrimEnd(s: string): (r: string)
    ensures |r| <= |s| && r == s[..|r|]
    ensures r == [] || !IsJsWhitespace(r[|r| - 1])
  {
    if s != [] && IsJsWhitespace(s[|s| - 1]) then TrimEnd(s[..|s| - 1]) else s
  }

  /** String.prototype.trim. */
  function Trim(s: string): (r: string)
    ensures r == [] || (!IsJsWhitespace(r[0]) && !IsJsWhitespace(r[|r| - 1]))
    ensures r == [] <==> forall i :: 0 <= i < |s| ==> IsJsWhitespace(s[i])
    ensures exists i, j :: TrimmedAt(s, r, i, j)
  {
    TrimSpec(s);
    TrimEnd(TrimStart(s))
  }

  /** The facts Trim promises, about its body. */
  lemma TrimSpec(s: string)
    ensures var r := TrimEnd(TrimStart(s));
      && (r == [] || (!IsJsWhitespace(r[0]) && !IsJsWhitespace(r[|r| - 1])))
      && (r == [] <==> forall i :: 0 <= i < |s| ==> IsJsWhitespace(s[i]))
      && (exists i, j :: TrimmedAt(s, r, i, j))
  {
    TrimAllWhitespace(s);
    TrimStartEmpty(s);
    TrimIsInfix(s);
  }

  /** r is s[i..j], and everything of s before i and from j on is whitespace. */
  predicate TrimmedAt(s: string, r: string, i: int, j: int)
  {
    && 0 <= i <= j <= |s| && r == s[i..j]
    && (forall k :: 0 <= k < i ==> IsJsWhitespace(s[k]))
    && (forall k :: j <= k < |s| ==> IsJsWhitespace(s[k]))
  }

  /** trim removes whitespace from both ends and nothing else. */
  lemma TrimIsInfix(s: string)
    ensures exists i, j :: TrimmedAt(s, TrimEnd(TrimStart(s)), i, j)
  {
    var t := TrimStart(s);
    var r := TrimEnd(t);
    TrimStartDropsWhitespace(s);
    TrimEndDropsWhitespace(t);
    SliceOfSuffix(s, t, r);
  }

  /** A prefix r of a suffix t of s, with whitespace dropped around it, sits in s between whitespace. */
  lemma SliceOfSuffix(s: string, t: string, r: string)
    requires |t| <= |s| && t == s[|s| - |t|..] && |r| <= |t| && r == t[..|r|]
    requires forall k :: 0 <= k < |s| - |t| ==> IsJsWhitespace(s[k])
    requires forall k :: |r| <= k < |t| ==> IsJsWhitespace(t[k])
    ensures TrimmedAt(s, r, |s| - |t|, |s| - |t| + |r|)
  {
    var i := |s| - |t|;
    assert forall k :: i + |r| <= k < |s| ==> s[k] == t[k - i];
  }

  /** What TrimStart drops is whitespace. */
  lemma {:induction false} TrimStartDropsWhitespace(s: string)
    ensures forall k :: 0 <= k < |s| - |TrimStart(s)| ==> IsJsWhitespace(s[k])
  {
    if s != [] && IsJsWhitespace(s[0]) {
      var tail := s[1..];
      TrimStartDropsWhitespace(tail);
      var dropped := |tail| - |TrimStart(tail)|;
      assert |s| - |TrimStart(s)| == dropped + 1;
      forall k | 0 <= k < dropped + 1
        ensures IsJsWhitespace(s[k])
      {
        if k > 0 {
          assert s[k] == tail[k - 1];
        }
      }
    } else {
      assert TrimStart(s) == s;
    }
  }

  /** What TrimEnd drops is whitespace. */
  lemma {:induction false} TrimEndDropsWhitespace(s: string)
    ensures forall k :: |TrimEnd(s)| <= k < |s| ==> IsJsWhitespace(s[k])
  {
    if s != [] && IsJsWhitespace(s[|s| - 1]) {
      TrimEndDropsWhitespace(s[..|s| - 1]);
    }
  }

  lemma {:induction false} TrimStartEmpty(s: string)
    ensures TrimStart(s) == [] <==> forall i :: 0 <= i < |s| ==> IsJsWhitespace(s[i])
  {
    if s != [] && IsJsWhitespace(s[0]) {
      TrimStartEmpty(s[1..]);
      assert forall i :: 1 <= i < |s| ==> s[i] == s[1..][i - 1];
    }
  }

  lemma {:induction false} TrimEndEmpty(s: string)
    ensures TrimEnd(s) == [] <==> forall i :: 0 <= i < |s| ==> IsJsWhitespace(s[i])
  {
    if s != [] && IsJsWhitespace(s[|s| - 1]) {
      TrimEndEmpty(s[..|s| - 1]);
    }
  }

  lemma TrimAllWhitespace(s: string)
    ensures TrimEnd(TrimStart(s)) == [] <==> TrimStart(s) == []
  {
    TrimEndEmpty(TrimStart(s));
  }

  /** The length of s in UTF-16 code units, as String.prototype.length counts it. */
  function Utf16Length(s: string): (n: nat)
    ensures |s| <= n <= 2 * |s|
  {
    if s == [] then 0 else (if s[0] as int > 0xFFFF then 2 else 1) + Utf16Length(s[1..])
  }

  // -------------------------------------------------------------- parseInt

  /** The magnitude read from the front of s in the given notation, or None when no digit is there. */
  function DecimalPrefixValue(s: string): Option<nat>
  {
    var d := DigitRun(s);
    if d == [] then None else Some(DecimalValue(d))
  }

  function HexPrefixValue(s: string): Option<nat>
  {
    var d := HexRun(s);
    if d == [] then None else Some(HexadecimalValue(d))
  }

  /** parseInt(s) with no radix; None stands for NaN. */
  function ParseInt(s: string): (r: Option<int>)
  {
    var t := TrimStart(s);
    var negative := t != [] && t[0] == '-';
    var unsigned := if t != [] && (t[0] == '-' || t[0] == '+') then t[1..] else t;
    var magnitude :=
      if |unsigned| >= 2 && unsigned[0] == '0' && (unsigned[1] == 'x' || unsigned[1] == 'X')
      then HexPrefixValue(unsigned[2..])
      else DecimalPrefixValue(unsigned);
    match magnitude
    case None => None
    case Some(m) => var mag: int := m; Some(if negative then -mag else mag)
  }

  lemma {:induction false} DecimalValueOfNatToString(n: nat)
    ensures DecimalValue(NatToString(n)) == n
    decreases n
  {
    var s := NatToString(n);
    if n < 10 {
      assert s[..|s| - 1] == [];
    } else {
      DecimalValueOfNatToString(n / 10);
      assert s[..|s| - 1] == NatToString(n / 10);
    }
  }

  lemma {:induction false} DigitRunOfDigits(s: string)
    requires AllDecimalDigits(s)
    ensures DigitRun(s) == s
  {
    if s != [] {
      DigitRunOfDigits(s[1..]);
    }
  }

  /** parseInt of a bare string of digits without a leading zero reads its decimal value. */
  lemma ParseUnsignedDigits(digits: string, m: nat)
    requires digits == NatToString(m)
    ensures DecimalPrefixValue(digits) == Some(m)
    ensures !(|digits| >= 2 && digits[0] == '0')
  {
    DigitRunOfDigits(digits);
    DecimalValueOfNatToString(m);
  }

  /** parseInt reads back exactly the integer that String() wrote. */
  lemma ParseIntOfIntToString(n: int)
    ensures ParseInt(IntToString(n)) == Some(n)
  {
    var s := IntToString(n);
    assert TrimStart(s) == s;
    if n < 0 {
      ParseUnsignedDigits(s[1..], -n);
    } else {
      ParseUnsignedDigits(s, n);
    }
  }

  // ------------------------------------------------- Number(s) is not NaN

  predicate IsOptionalExponent(e: string)
  {
    e == [] ||
    (|e| >= 2 && (e[0] == 'e' || e[0] == 'E') &&
     var d := if e[1] == '+' || e[1] == '-' then e[2..] else e[1..];
     d != [] && AllDecimalDigits(d))
  }

  /** StrUnsignedDecimalLiteral of ECMAScript: Infinity, digits with an optional fraction, or a fraction alone, each with an optional exponent. */
  predicate IsUnsignedDecimalLiteral(u: string)
  {
    u == "Infinity" ||
    var ip := DigitRun(u);
    var rest := u[|ip|..];
    if rest != [] && rest[0] == '.' then
      var fp := DigitRun(rest[1..]);
      (ip != [] || fp != []) && IsOptionalExponent(rest[1 + |fp|..])
    else
      ip != [] && IsOptionalExponent(rest)
  }

  predicate IsNonDecimalIntegerLiteral(t: string)
  {
    |t| > 2 && t[0] == '0' &&
    var digits := t[2..];
    ((t[1] == 'x' || t[1] == 'X') && AllHexDigits(digits))
    || ((t[1] == 'o' || t[1] == 'O') && forall i :: 0 <= i < |digits| ==> '0' <= digits[i] <= '7')
    || ((t[1] == 'b' || t[1] == 'B') && forall i :: 0 <= i < |digits| ==> digits[i] == '0' || digits[i] == '1')
  }

  /** Number(s) is a number, that is isNaN(s) is false: the trimmed text is empty or a numeric literal. */
  predicate IsNumericText(s: string)
  {
    var t := Trim(s);
    t == [] || IsNonDecimalIntegerLiteral(t) ||
    IsUnsignedDecimalLiteral(if t[0] == '+' || t[0] == '-' then t[1..] else t)
  }

  // ------------------------------------------------------------ String(v)

  /** Array.prototype.join. */
  function Join(parts: seq<string>, separator: string): (r: string)
    ensures parts == [] ==> r == []
  {
    if parts == [] then []
    else if |parts| == 1 then parts[0]
    else parts[0] + separator + Join(parts[1..], separator)
  }

  /** String(v): what a template literal, URLSearchParams or new Error makes of a value. */
  function ToJsString(v: Json): string
  {
    match v
    case JNull => "null"
    case JBool(b) => if b then "true" else "false"
    case JNum(n) => IntToString(n)
    case JStr(s) => s
    case JArr(es) => Join(seq(|es|, i requires 0 <= i < |es| => if es[i].JNull? then "" else ToJsString(es[i])), ",")
    case JObj(_) => "[object Object]"
  }
}

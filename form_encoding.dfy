/**
 * URLSearchParams as the client uses it: an ordered list of name/value pairs
 * serialised in the application/x-www-form-urlencoded format (each character
 * as its UTF-8 bytes; space as '+'; letters, digits and * - . _ kept; every
 * other byte as %XX), pairs joined by '&'.
 */
module FormEncoding {

  /** One appended parameter, its value already converted with String(). */
  datatype QueryParam = QueryParam(name: string, value: string)

  /** The bytes the serialiser leaves as they are. */
  predicate IsUnreserved(c: char)
  {
    ('A' <= c <= 'Z') || ('a' <= c <= 'z') || ('0' <= c <= '9') || c == '*' || c == '-' || c == '.' || c == '_'
  }

  /** The characters an encoded name or value can contain. */
  predicate IsEncodedChar(c: char)
  {
    IsUnreserved(c) || c == '+' || c == '%'
  }

  predicate AllEncoded(s: string)
  {
    forall i :: 0 <= i < |s| ==> IsEncodedChar(s[i])
  }

  /** The UTF-8 encoding of one Unicode scalar value. */
  function Utf8Bytes(c: char): (bytes: seq<int>)
    ensures 1 <= |bytes| <= 4
    ensures forall i :: 0 <= i < |bytes| ==> 0 <= bytes[i] < 256
    ensures |bytes| == 1 <==> c as int < 0x80
  {
    var v := c as int;
    if v < 0x80 then [v]
    else if v < 0x800 then [0xC0 + v / 0x40, 0x80 + v % 0x40]
    else if v < 0x10000 then [0xE0 + v / 0x1000, 0x80 + (v / 0x40) % 0x40, 0x80 + v % 0x40]
    else [0xF0 + v / 0x40000, 0x80 + (v / 0x1000) % 0x40, 0x80 + (v / 0x40) % 0x40, 0x80 + v % 0x40]
  }

  function UpperHexDigit(d: int): (c: char)
    requires 0 <= d < 16
    ensures IsUnreserved(c)
  {
    "0123456789ABCDEF"[d]
  }

  /** How the serialiser writes one byte. */
  function EncodeByte(b: int): (s: string)
    requires 0 <= b < 256
    ensures 1 <= |s| <= 3 && AllEncoded(s)
  {
    if b == 0x20 then "+"
    else if b < 0x80 && IsUnreserved(b as char) then [b as char]
    else ['%', UpperHexDigit(b / 16), UpperHexDigit(b % 16)]
  }

  function EncodeBytes(bytes: seq<int>): (s: string)
    requires forall i :: 0 <= i < |bytes| ==> 0 <= bytes[i] < 256
    ensures |s| >= |bytes| && AllEncoded(s)
  {
    if bytes == [] then [] else EncodeByte(bytes[0]) + EncodeBytes(bytes[1..])
  }

  /** A name or a value as the serialiser writes it. */
  function FormEncode(s: string): (r: string)
    ensures AllEncoded(r)
    ensures |r| >= |s|
  {
    if s == [] then [] else EncodeBytes(Utf8Bytes(s[0])) + FormEncode(s[1..])
  }

  /** No encoded name or value contains the pair separator. */
  lemma NoAmpersandInEncoded(s: string)
    requires AllEncoded(s)
    ensures '&' !in s
  {
  }

  /** One pair, name=value, which never contains the '&' that separates pairs. */
  function EncodePair(p: QueryParam): (r: string)
    ensures '=' in r && '&' !in r
  {
    var name := FormEncode(p.name);
    var value := FormEncode(p.value);
    NoAmpersandInEncoded(name);
    NoAmpersandInEncoded(value);
    assert (name + "=" + value)[|name|] == '=';
    name + "=" + value
  }

  /** URLSearchParams.toString: the encoded pairs joined by '&'. */
  function QueryString(params: seq<QueryParam>): (r: string)
    ensures r == [] <==> params == []
  {
    if params == [] then ""
    else if |params| == 1 then EncodePair(params[0])
    else EncodePair(params[0]) + "&" + QueryString(params[1..])
  }

  /** The pieces of s between the separators, as String.prototype.split gives them. */
  function Split(s: string, separator: char): (pieces: seq<string>)
    ensures |pieces| >= 1
    decreases |s|
  {
    if s == [] then [""]
    else
      var rest := Split(s[1..], separator);
      if s[0] == separator then [""] + rest else [[s[0]] + rest[0]] + rest[1..]
  }

  lemma {:induction false} SplitWithoutSeparator(s: string, separator: char)
    requires separator !in s
    ensures Split(s, separator) == [s]
    decreases |s|
  {
    if s != [] {
      assert s == [s[0]] + s[1..];
      SplitWithoutSeparator(s[1..], separator);
    }
  }

  lemma {:induction false} SplitAfterPiece(a: string, b: string, separator: char)
    requires separator !in a
    ensures Split(a + [separator] + b, separator) == [a] + Split(b, separator)
    decreases |a|
  {
    if a == [] {
      assert a + [separator] + b == [separator] + b;
      assert ([separator] + b)[1..] == b;
    } else {
      assert a == [a[0]] + a[1..];
      SplitAfterPiece(a[1..], b, separator);
      assert (a + [separator] + b)[1..] == a[1..] + [separator] + b;
    }
  }

  /** The encoded pairs of the parameters, in order. */
  function EncodedPairs(params: seq<QueryParam>): (pairs: seq<string>)
    ensures |pairs| == |params|
    ensures forall i :: 0 <= i < |params| ==> pairs[i] == EncodePair(params[i])
  {
    if params == [] then [] else [EncodePair(params[0])] + EncodedPairs(params[1..])
  }

  /** Splitting the query string on '&' gives back one name=value piece per parameter, in order. */
  lemma {:induction false} QueryStringSplits(params: seq<QueryParam>)
    requires params != []
    ensures Split(QueryString(params), '&') == EncodedPairs(params)
  {
    var first := EncodePair(params[0]);
    if |params| == 1 {
      SplitWithoutSeparator(first, '&');
      assert EncodedPairs(params) == [first] + EncodedPairs(params[1..]);
    } else {
      QueryStringSplits(params[1..]);
      SplitAfterPiece(first, QueryString(params[1..]), '&');
    }
  }
}

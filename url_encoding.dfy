/** `URLSearchParams.toString()`: the application/x-www-form-urlencoded
    serialisation of a list of name/value pairs, as the order slice uses it
    to build the query of its history request. */
module UrlEncoding {
  import opened Common

  datatype QueryParam = QueryParam(name: string, value: string)

  /** The UTF-8 encoding of one Unicode scalar value: the code point's bits
      split into six-bit groups, the first byte marking how many follow. */
  function Utf8(c: char): (bytes: seq<int>)
    ensures 1 <= |bytes| <= 4
    ensures forall i :: 0 <= i < |bytes| ==> 0 <= bytes[i] < 256
    ensures c as int < 0x80 ==> bytes == [c as int]
    ensures c as int >= 0x80 ==> forall i :: 0 <= i < |bytes| ==> bytes[i] >= 0x80
  {
    var n := c as int;
    var q1 := n / 0x40;
    var q2 := q1 / 0x40;
    var q3 := q2 / 0x40;
    if n < 0x80 then [n]
    else if n < 0x800 then [0xC0 + q1, 0x80 + n % 0x40]
    else if n < 0x1_0000 then [0xE0 + q2, 0x80 + q1 % 0x40, 0x80 + n % 0x40]
    else [0xF0 + q3, 0x80 + q2 % 0x40, 0x80 + q1 % 0x40, 0x80 + n % 0x40]
  }

  /** The bytes the form encoding leaves as they are: ASCII letters and
      digits and `*`, `-`, `.`, `_`. */
  predicate Unescaped(b: int)
  {
    || ('A' as int <= b <= 'Z' as int)
    || ('a' as int <= b <= 'z' as int)
    || ('0' as int <= b <= '9' as int)
    || b == '*' as int || b == '-' as int || b == '.' as int || b == '_' as int
  }

  function HexDigit(d: int): (c: char)
    requires 0 <= d < 16
    ensures '0' <= c <= '9' || 'A' <= c <= 'F'
  {
    if d < 10 then ('0' as int + d) as char else ('A' as int + d - 10) as char
  }

  /** One byte: unchanged, `+` for a space, or `%XX` in upper-case hex. */
  function EncodeByte(b: int): (s: string)
    requires 0 <= b < 256
    ensures 1 <= |s| <= 3
    ensures forall i :: 0 <= i < |s| ==> s[i] != '&' && s[i] != '='
    ensures Unescaped(b) ==> s == [b as char]
  {
    if b == 0x20 then "+"
    else if Unescaped(b) then [b as char]
    else ['%', HexDigit(b / 16), HexDigit(b % 16)]
  }

  function EncodeBytes(bytes: seq<int>): (s: string)
    requires forall i :: 0 <= i < |bytes| ==> 0 <= bytes[i] < 256
    ensures forall i :: 0 <= i < |s| ==> s[i] != '&' && s[i] != '='
  {
    if bytes == [] then ""
    else EncodeByte(bytes[0]) + EncodeBytes(bytes[1..])
  }

  /** A name or value as it appears in the query string. The result never
      contains the separators `&` and `=`, so every pair of the query can be
      told apart; text made only of unescaped characters is left as it is. */
  function Encode(text: string): (s: string)
    ensures forall i :: 0 <= i < |s| ==> s[i] != '&' && s[i] != '='
    ensures (forall i :: 0 <= i < |text| ==> Unescaped(text[i] as int)) ==> s == text
  {
    if text == [] then ""
    else
      var head := EncodeBytes(Utf8(text[0]));
      assert Unescaped(text[0] as int) ==> head == [text[0]] by {
        if Unescaped(text[0] as int) {
          var b := text[0] as int;
          assert Utf8(text[0]) == [b];
          assert EncodeBytes([b]) == EncodeByte(b) + EncodeBytes([]);
        }
      }
      assert text == [text[0]] + text[1..];
      head + Encode(text[1..])
  }

  /** One pair as `name=value`; it never contains `&`. */
  function EncodePair(p: QueryParam): (s: string)
    ensures forall i :: 0 <= i < |s| ==> s[i] != '&'
  {
    Encode(p.name) + "=" + Encode(p.value)
  }

  /** `name=value` pairs joined by `&`; the empty list gives the empty string. */
  function Serialize(params: seq<QueryParam>): (s: string)
    ensures s == "" <==> params == []
  {
    if params == [] then ""
    else if |params| == 1 then EncodePair(params[0])
    else EncodePair(params[0]) + "&" + Serialize(params[1..])
  }

  /** The `&` characters of a serialised query are exactly its separators:
      there is one fewer of them than there are pairs. */
  lemma {:induction false} SerializeSeparators(params: seq<QueryParam>)
    requires params != []
    ensures CountOf(Serialize(params), '&') == |params| - 1
  {
    var p := params[0];
    NoneOf(Encode(p.name), '&');
    NoneOf(Encode(p.value), '&');
    var head := Encode(p.name) + "=" + Encode(p.value);
    CountOfConcat(Encode(p.name) + "=", Encode(p.value), '&');
    CountOfConcat(Encode(p.name), "=", '&');
    assert CountOf("=", '&') == 0;
    if |params| > 1 {
      SerializeSeparators(params[1..]);
      CountOfConcat(head + "&", Serialize(params[1..]), '&');
      CountOfConcat(head, "&", '&');
      assert CountOf("&", '&') == 1;
    }
  }

  function CountOf(s: string, c: char): nat
  {
    if s == [] then 0 else (if s[0] == c then 1 else 0) + CountOf(s[1..], c)
  }

  lemma {:induction false} CountOfConcat(a: string, b: string, c: char)
    ensures CountOf(a + b, c) == CountOf(a, c) + CountOf(b, c)
  {
    if a == [] {
      assert a + b == b;
    } else {
      assert (a + b)[1..] == a[1..] + b;
      CountOfConcat(a[1..], b, c);
    }
  }

  lemma {:induction false} NoneOf(s: string, c: char)
    requires forall i :: 0 <= i < |s| ==> s[i] != c
    ensures CountOf(s, c) == 0
  {
    if s != [] {
      NoneOf(s[1..], c);
    }
  }

  // Reading a query back. The parser below is the strict inverse of the
  // serialisation: it accepts only what `Serialize` can produce, and the
  // round-trip lemmas show that the query string determines the pairs.

  /** The UTF-8 encoding of a whole text. */
  function Utf8Text(text: string): (bytes: seq<int>)
    ensures forall i :: 0 <= i < |bytes| ==> 0 <= bytes[i] < 256
  {
    if text == [] then [] else Utf8(text[0]) + Utf8Text(text[1..])
  }

  /** The code points a `char` can hold. */
  predicate IsScalar(n: int)
  {
    0 <= n < 0xD800 || 0xE000 <= n < 0x11_0000
  }

  /** How many bytes a sequence starting with `lead` occupies. */
  function Utf8Length(lead: int): (k: nat)
    ensures 1 <= k <= 4
  {
    if lead < 0x80 then 1 else if lead < 0xE0 then 2 else if lead < 0xF0 then 3 else 4
  }

  /** The code point spelled by one encoded sequence. */
  function CodePoint(bytes: seq<int>): int
    requires 1 <= |bytes| <= 4
  {
    if |bytes| == 1 then bytes[0]
    else if |bytes| == 2 then (bytes[0] - 0xC0) * 0x40 + (bytes[1] - 0x80)
    else if |bytes| == 3 then
      ((bytes[0] - 0xE0) * 0x40 + (bytes[1] - 0x80)) * 0x40 + (bytes[2] - 0x80)
    else
      (((bytes[0] - 0xF0) * 0x40 + (bytes[1] - 0x80)) * 0x40 + (bytes[2] - 0x80)) * 0x40
        + (bytes[3] - 0x80)
  }

  function Utf8Decode(bytes: seq<int>): Option<string>
    decreases |bytes|
  {
    if bytes == [] then Some("")
    else
      var k := Utf8Length(bytes[0]);
      if |bytes| < k || !IsScalar(CodePoint(bytes[..k])) then None
      else
        match Utf8Decode(bytes[k..])
        case None => None
        case Some(rest) => Some([CodePoint(bytes[..k]) as char] + rest)
  }

  /** The lead byte of a character's encoding announces its length, and the
      sequence spells the character's code point. */
  lemma Utf8Char(c: char)
    ensures Utf8Length(Utf8(c)[0]) == |Utf8(c)|
    ensures CodePoint(Utf8(c)) == c as int
  {
    var n := c as int;
    var q1 := n / 0x40;
    var q2 := q1 / 0x40;
    var q3 := q2 / 0x40;
    assert n == q1 * 0x40 + n % 0x40;
    assert q1 == q2 * 0x40 + q1 % 0x40;
    assert q2 == q3 * 0x40 + q2 % 0x40;
  }

  /** Decoding the UTF-8 encoding of a text gives the text back. */
  lemma {:induction false} Utf8RoundTrip(text: string)
    ensures Utf8Decode(Utf8Text(text)) == Some(text)
  {
    if text != [] {
      var head := Utf8(text[0]);
      var bytes := Utf8Text(text);
      Utf8Char(text[0]);
      Utf8RoundTrip(text[1..]);
      assert bytes[0] == head[0];
      assert bytes[..|head|] == head;
      assert bytes[|head|..] == Utf8Text(text[1..]);
      assert text == [text[0]] + text[1..];
    }
  }

  function HexValue(c: char): Option<int>
  {
    if '0' <= c <= '9' then Some(c as int - '0' as int)
    else if 'A' <= c <= 'F' then Some(c as int - 'A' as int + 10)
    else None
  }

  /** Undoes the byte encoding: `+` is a space, `%XX` the byte with that hex
      value, and an unescaped character its own byte. */
  function DecodeBytes(s: string): Option<seq<int>>
    decreases |s|
  {
    if s == [] then Some([])
    else if s[0] == '+' then Prepend(0x20, DecodeBytes(s[1..]))
    else if s[0] == '%' then
      if |s| < 3 then None
      else
        match (HexValue(s[1]), HexValue(s[2]))
        case (Some(high), Some(low)) => Prepend(high * 16 + low, DecodeBytes(s[3..]))
        case _ => None
    else if Unescaped(s[0] as int) then Prepend(s[0] as int, DecodeBytes(s[1..]))
    else None
  }

  function Prepend(b: int, rest: Option<seq<int>>): Option<seq<int>>
  {
    match rest
    case None => None
    case Some(bytes) => Some([b] + bytes)
  }

  /** Decoding one encoded byte followed by anything reads that byte first. */
  lemma DecodeByteThen(b: int, t: string)
    requires 0 <= b < 256
    ensures DecodeBytes(EncodeByte(b) + t) == Prepend(b, DecodeBytes(t))
  {
    var s := EncodeByte(b) + t;
    if b == 0x20 {
      assert s[1..] == t;
    } else if Unescaped(b) {
      assert s[0] == b as char && s[1..] == t;
    } else {
      assert s[0] == '%' && s[1] == HexDigit(b / 16) && s[2] == HexDigit(b % 16);
      assert s[3..] == t;
      assert b == (b / 16) * 16 + b % 16;
    }
  }

  /** Decoding encoded bytes gives the bytes back. */
  lemma {:induction false} BytesRoundTrip(bytes: seq<int>)
    requires forall i :: 0 <= i < |bytes| ==> 0 <= bytes[i] < 256
    ensures DecodeBytes(EncodeBytes(bytes)) == Some(bytes)
  {
    if bytes != [] {
      BytesRoundTrip(bytes[1..]);
      DecodeByteThen(bytes[0], EncodeBytes(bytes[1..]));
      assert bytes == [bytes[0]] + bytes[1..];
    }
  }

  lemma {:induction false} EncodeBytesConcat(a: seq<int>, b: seq<int>)
    requires forall i :: 0 <= i < |a| ==> 0 <= a[i] < 256
    requires forall i :: 0 <= i < |b| ==> 0 <= b[i] < 256
    ensures EncodeBytes(a + b) == EncodeBytes(a) + EncodeBytes(b)
  {
    if a == [] {
      assert a + b == b;
    } else {
      assert (a + b)[0] == a[0] && (a + b)[1..] == a[1..] + b;
      EncodeBytesConcat(a[1..], b);
    }
  }

  /** Encoding a text is encoding its UTF-8 bytes. */
  lemma {:induction false} EncodeIsBytes(text: string)
    ensures Encode(text) == EncodeBytes(Utf8Text(text))
  {
    if text != [] {
      EncodeIsBytes(text[1..]);
      EncodeBytesConcat(Utf8(text[0]), Utf8Text(text[1..]));
    }
  }

  /** A name or value as the query string spells it, decoded. */
  function Decode(s: string): Option<string>
  {
    match DecodeBytes(s)
    case None => None
    case Some(bytes) => Utf8Decode(bytes)
  }

  /** Every name and value is read back as it was given. */
  lemma EncodeRoundTrip(text: string)
    ensures Decode(Encode(text)) == Some(text)
  {
    EncodeIsBytes(text);
    BytesRoundTrip(Utf8Text(text));
    Utf8RoundTrip(text);
  }

  /** The position of the first `c` in `s`, or `|s|` when there is none. */
  function IndexOf(s: string, c: char): (i: nat)
    ensures i <= |s|
    ensures i < |s| ==> s[i] == c
    ensures forall j :: 0 <= j < i ==> s[j] != c
  {
    if s == [] then 0 else if s[0] == c then 0 else 1 + IndexOf(s[1..], c)
  }

  /** `name=value`, split at its first `=` and decoded. */
  function ParsePair(s: string): Option<QueryParam>
  {
    var i := IndexOf(s, '=');
    if i == |s| then None
    else
      match (Decode(s[..i]), Decode(s[i + 1..]))
      case (Some(name), Some(value)) => Some(QueryParam(name, value))
      case _ => None
  }

  /** A query string split at each `&` into pairs. */
  function ParseQuery(s: string): Option<seq<QueryParam>>
    decreases |s|
  {
    if s == [] then Some([])
    else
      var i := IndexOf(s, '&');
      match ParsePair(s[..i])
      case None => None
      case Some(p) =>
        if i == |s| then Some([p])
        else
          match ParseQuery(s[i + 1..])
          case None => None
          case Some(rest) => Some([p] + rest)
  }

  lemma PairRoundTrip(p: QueryParam)
    ensures ParsePair(EncodePair(p)) == Some(p)
  {
    var s := Encode(p.name) + "=" + Encode(p.value);
    var i := |Encode(p.name)|;
    assert s[i] == '=';
    assert IndexOf(s, '=') == i by {
      assert forall j :: 0 <= j < i ==> s[j] == Encode(p.name)[j];
    }
    assert s[..i] == Encode(p.name);
    assert s[i + 1..] == Encode(p.value);
    EncodeRoundTrip(p.name);
    EncodeRoundTrip(p.value);
  }

  /** A query of one pair is that pair. */
  lemma ParseQueryOne(p: QueryParam)
    ensures ParseQuery(Serialize([p])) == Some([p])
  {
    var head := EncodePair(p);
    PairRoundTrip(p);
    assert Serialize([p]) == head;
    assert head[..|head|] == head;
  }

  /** A query of a pair, `&` and more is that pair followed by the rest. */
  lemma ParseQueryCons(head: string, rest: string, p: QueryParam, ps: seq<QueryParam>)
    requires ParsePair(head) == Some(p) && ParseQuery(rest) == Some(ps)
    requires forall j :: 0 <= j < |head| ==> head[j] != '&'
    ensures ParseQuery(head + "&" + rest) == Some([p] + ps)
  {
    var s := head + "&" + rest;
    assert IndexOf(s, '&') == |head| by {
      assert s[|head|] == '&';
      assert forall j :: 0 <= j < |head| ==> s[j] == head[j];
    }
    assert s[..|head|] == head;
    assert s[|head| + 1..] == rest;
  }

  /** The query string determines the pairs: parsing a serialised list gives
      the list back, names, values and order. */
  lemma {:induction false} SerializeRoundTrip(params: seq<QueryParam>)
    ensures ParseQuery(Serialize(params)) == Some(params)
  {
    if params != [] {
      var p := params[0];
      if |params| == 1 {
        ParseQueryOne(p);
        assert params == [p];
      } else {
        var head := EncodePair(p);
        var rest := params[1..];
        PairRoundTrip(p);
        SerializeRoundTrip(rest);
        ParseQueryCons(head, Serialize(rest), p, rest);
        assert params == [p] + rest;
      }
    }
  }
}

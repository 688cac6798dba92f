/**
 * Source ids of log rows: table and column percent-encoded (section 2.1 of RFC 3986) between colons, then the row
 * number and a tag; and the parser that gets the cursor back. A name is a sequence of Unicode scalar values.
 */
module LogCursor {
  import opened Basics

  // ---------------------------------------------------------------- percent-encoding

  /** The characters that `encodeURIComponent` leaves alone. */
  predicate Unreserved(c: char) {
    'A' <= c <= 'Z' || 'a' <= c <= 'z' || '0' <= c <= '9' || c in {'-', '_', '.', '!', '~', '*', '\'', '(', ')'}
  }

  type Byte = b: int | 0 <= b < 256

  function HexDigit(n: int): char
    requires 0 <= n < 16
  {
    if n < 10 then '0' + n as char else 'A' + (n - 10) as char
  }

  function HexValue(c: char): Option<int> {
    if '0' <= c <= '9' then Some(c as int - '0' as int)
    else if 'A' <= c <= 'F' then Some(c as int - 'A' as int + 10)
    else if 'a' <= c <= 'f' then Some(c as int - 'a' as int + 10)
    else None
  }

  function PercentByte(b: Byte): string { ['%', HexDigit(b / 16), HexDigit(b % 16)] }

  function PercentBytes(bytes: seq<Byte>): string {
    if bytes == [] then [] else PercentByte(bytes[0]) + PercentBytes(bytes[1..])
  }

  function Utf8(c: char): seq<Byte> {
    var v := c as int;
    if v < 0x80 then [v]
    else if v < 0x800 then [0xC0 + v / 64, 0x80 + v % 64]
    else if v < 0x1_0000 then [0xE0 + v / 4096, 0x80 + v / 64 % 64, 0x80 + v % 64]
    else [0xF0 + v / 26_2144, 0x80 + v / 4096 % 64, 0x80 + v / 64 % 64, 0x80 + v % 64]
  }

  function EncodeChar(c: char): string { if Unreserved(c) then [c] else PercentBytes(Utf8(c)) }

  /** `encodeURIComponent`. */
  function Encode(s: string): string { if s == [] then [] else EncodeChar(s[0]) + Encode(s[1..]) }

  /** The byte of a percent triple at an index. */
  function ByteAt(s: string, i: nat): Option<Byte> {
    if i + 2 < |s| && s[i] == '%' && HexValue(s[i + 1]).Some? && HexValue(s[i + 2]).Some?
    then Some(HexValue(s[i + 1]).value * 16 + HexValue(s[i + 2]).value) else None
  }

  /** The low six bits of a continuation byte at an index. */
  function TailAt(s: string, i: nat): Option<int> {
    var b := ByteAt(s, i);
    if b.Some? && 0x80 <= b.value < 0xC0 then Some(b.value - 0x80) else None
  }

  /** The scalar value of a lead byte's bits and what follows, if not overlong, a surrogate or too large. */
  function Scalar(v: int, least: int, consumed: nat): Option<(char, nat)> {
    if v >= least && (0 <= v < 0xD800 || 0xE000 <= v < 0x11_0000) then Some((v as char, consumed)) else None
  }

  /** The first decoded character and how much of the text it takes; none where `decodeURIComponent` throws. */
  function DecodeFirst(s: string): Option<(char, nat)>
    requires s != []
  {
    if s[0] != '%' then Some((s[0], 1))
    else
      var b := ByteAt(s, 0);
      if b.None? then None
      else if b.value < 0x80 then Some((b.value as char, 3))
      else if 0xC0 <= b.value < 0xE0 then
        var t := TailAt(s, 3);
        if t.None? then None else Scalar((b.value - 0xC0) * 64 + t.value, 0x80, 6)
      else if 0xE0 <= b.value < 0xF0 then
        var t, u := TailAt(s, 3), TailAt(s, 6);
        if t.None? || u.None? then None else Scalar((b.value - 0xE0) * 4096 + t.value * 64 + u.value, 0x800, 9)
      else if 0xF0 <= b.value < 0xF8 then
        var t, u, w := TailAt(s, 3), TailAt(s, 6), TailAt(s, 9);
        if t.None? || u.None? || w.None? then None
        else Scalar((b.value - 0xF0) * 26_2144 + t.value * 4096 + u.value * 64 + w.value, 0x1_0000, 12)
      else None
  }

  function Decode(s: string): Option<string> {
    if s == [] then Some([])
    else
      var first := DecodeFirst(s);
      if first.None? || first.value.1 == 0 || first.value.1 > |s| then None
      else
        var rest := Decode(s[first.value.1..]);
        if rest.None? then None else Some([first.value.0] + rest.value)
  }

  // ---------------------------------------------------------------- the ids

  function Digits(n: nat): string { (if n < 10 then [] else Digits(n / 10)) + ['0' + (n % 10) as char] }

  /** An integer in decimal. */
  function Decimal(n: int): string { if n < 0 then ['-'] + Digits(-n) else Digits(n) }

  predicate AllDigits(s: string) { forall i: nat | i < |s| :: '0' <= s[i] <= '9' }

  function Number(s: string): nat
    requires AllDigits(s)
  {
    if s == [] then 0 else Number(s[..|s| - 1]) * 10 + (s[|s| - 1] as int - '0' as int)
  }

  const PREFIX := "codex-log:v2:"

  function SourceId(table: string, column: string, rowid: int, tag: string): string {
    PREFIX + (Encode(table) + ":" + (Encode(column) + ":" + (Decimal(rowid) + ":" + tag)))
  }

  /** The colon-separated parts. */
  function Parts(s: string): (parts: seq<string>)
    ensures |parts| > 0
  {
    if s == [] then [[]]
    else if s[0] == ':' then [[]] + Parts(s[1..])
    else
      var rest := Parts(s[1..]);
      [[s[0]] + rest[0]] + rest[1..]
  }

  datatype Parsed = NoMatch | Throws | Cursor(table: string, column: string, rowid: nat)

  /** After the prefix, four parts, none empty, the third in digits. */
  function ParseSourceId(id: string): Parsed {
    if !(PREFIX <= id) then NoMatch
    else
      var parts := Parts(id[|PREFIX|..]);
      if |parts| != 4 || parts[0] == [] || parts[1] == [] || parts[2] == [] || parts[3] == [] || !AllDigits(parts[2])
      then NoMatch
      else
        var table, column := Decode(parts[0]), Decode(parts[1]);
        if table.None? || column.None? then Throws else Cursor(table.value, column.value, Number(parts[2]))
  }

  // ---------------------------------------------------------------- decoding undoes encoding

  lemma HexRoundTrip(n: int)
    requires 0 <= n < 16
    ensures HexValue(HexDigit(n)) == Some(n) && HexDigit(n) != ':'
  {
  }

  lemma ByteRoundTrip(before: string, b: Byte, after: string)
    ensures ByteAt(before + PercentByte(b) + after, |before|) == Some(b)
    ensures ':' !in PercentByte(b)
  {
    var s := before + PercentByte(b) + after;
    HexRoundTrip(b / 16);
    HexRoundTrip(b % 16);
    assert s[|before|] == '%' && s[|before| + 1] == HexDigit(b / 16) && s[|before| + 2] == HexDigit(b % 16);
  }

  /** The bytes of a percent-encoded run are found three characters apart. */
  lemma {:induction false} BytesAt(before: string, bytes: seq<Byte>, after: string, k: nat)
    requires k < |bytes|
    ensures |PercentBytes(bytes)| == 3 * |bytes| && ':' !in PercentBytes(bytes)
    ensures ByteAt(before + PercentBytes(bytes) + after, |before| + 3 * k) == Some(bytes[k])
    decreases |bytes|
  {
    hide ByteAt, PercentByte;
    var rest := PercentBytes(bytes[1..]);
    assert before + PercentBytes(bytes) + after == before + PercentByte(bytes[0]) + (rest + after);
    ByteRoundTrip(before, bytes[0], rest + after);
    PercentByteLength(bytes[0]);
    if |bytes| > 1 {
      assert before + PercentBytes(bytes) + after == (before + PercentByte(bytes[0])) + rest + after;
      BytesAt(before + PercentByte(bytes[0]), bytes[1..], after, if k == 0 then 0 else k - 1);
    }
  }

  lemma PercentByteLength(b: Byte)
    ensures |PercentByte(b)| == 3 && PercentByte(b)[0] == '%'
  {
  }

  /** The scalar value comes back from its bytes' bits. */
  lemma Utf8RoundTrip(c: char)
    ensures var v, bytes := c as int, Utf8(c);
            && (v < 0x80 ==> bytes == [v])
            && (0x80 <= v < 0x800 ==> |bytes| == 2 && 0xC0 <= bytes[0] < 0xE0 && Tail(bytes[1])
                                      && Bits(bytes[0], 0xC0) * 64 + Bits(bytes[1], 0x80) == v)
            && (0x800 <= v < 0x1_0000 ==>
                  && |bytes| == 3 && 0xE0 <= bytes[0] < 0xF0 && Tail(bytes[1]) && Tail(bytes[2])
                  && Bits(bytes[0], 0xE0) * 4096 + Bits(bytes[1], 0x80) * 64 + Bits(bytes[2], 0x80) == v)
            && (0x1_0000 <= v ==>
                  && |bytes| == 4 && 0xF0 <= bytes[0] < 0xF8 && Tail(bytes[1]) && Tail(bytes[2]) && Tail(bytes[3])
                  && Bits(bytes[0], 0xF0) * 26_2144 + Bits(bytes[1], 0x80) * 4096 + Bits(bytes[2], 0x80) * 64
                     + Bits(bytes[3], 0x80) == v)
  {
    var v := c as int;
    assert v / 4096 == v / 64 / 64 && v / 26_2144 == v / 64 / 64 / 64;
  }

  function Bits(b: Byte, mark: int): int { b - mark }

  predicate Tail(b: Byte) { 0x80 <= b < 0xC0 }

  lemma CharRoundTrip(c: char, rest: string)
    ensures DecodeFirst(EncodeChar(c) + rest) == Some((c, |EncodeChar(c)|))
    ensures |EncodeChar(c)| > 0 && ':' !in EncodeChar(c)
  {
    hide PercentBytes, ByteAt, Utf8;
    if !Unreserved(c) {
      var bytes := Utf8(c);
      var s := EncodeChar(c) + rest;
      Utf8RoundTrip(c);
      assert s == [] + PercentBytes(bytes) + rest;
      BytesAt([], bytes, rest, 0);
      FirstIsPercent(bytes);
      if |bytes| > 1 { BytesAt([], bytes, rest, 1); }
      if |bytes| > 2 { BytesAt([], bytes, rest, 2); }
      if |bytes| > 3 { BytesAt([], bytes, rest, 3); }
    }
  }

  lemma FirstIsPercent(bytes: seq<Byte>)
    requires bytes != []
    ensures PercentBytes(bytes) != [] && PercentBytes(bytes)[0] == '%'
  {
  }

  lemma {:induction false} DecodeEncode(s: string)
    ensures Decode(Encode(s)) == Some(s) && ':' !in Encode(s) && (Encode(s) == [] <==> s == [])
  {
    hide DecodeFirst, EncodeChar;
    if s != [] {
      var first, rest := EncodeChar(s[0]), Encode(s[1..]);
      CharRoundTrip(s[0], rest);
      DecodeEncode(s[1..]);
      assert (first + rest)[|first|..] == rest;
      assert s == [s[0]] + s[1..];
    }
  }

  lemma {:induction false} NumberDigits(n: nat)
    ensures AllDigits(Digits(n)) && Digits(n) != [] && Number(Digits(n)) == n && ':' !in Digits(n)
  {
    if n >= 10 { NumberDigits(n / 10); }
    var head := if n < 10 then [] else Digits(n / 10);
    assert Digits(n)[..|Digits(n)| - 1] == head;
  }

  lemma DecimalIsDigitsIff(n: int)
    ensures Decimal(n) != [] && ':' !in Decimal(n) && (AllDigits(Decimal(n)) <==> n >= 0)
    ensures n >= 0 ==> Number(Decimal(n)) == n
  {
    if n >= 0 {
      NumberDigits(n);
    } else {
      NumberDigits(-n);
      assert Decimal(n)[0] == '-';
    }
  }

  lemma {:induction false} PartsAfter(a: string, b: string)
    requires ':' !in a
    ensures Parts(a + ":" + b) == [a] + Parts(b)
  {
    if a == [] {
      assert [] + ":" + b == [':'] + b;
    } else {
      assert (a + ":" + b)[1..] == a[1..] + ":" + b;
      PartsAfter(a[1..], b);
      assert a == [a[0]] + a[1..];
    }
  }

  lemma {:induction false} OnePartIff(tag: string)
    ensures |Parts(tag)| == 1 <==> ':' !in tag
    ensures ':' !in tag ==> Parts(tag) == [tag]
  {
    if tag != [] {
      OnePartIff(tag[1..]);
      assert tag == [tag[0]] + tag[1..];
    }
  }

  lemma PartsOfId(table: string, column: string, rowid: int, tag: string)
    ensures PREFIX <= SourceId(table, column, rowid, tag)
    ensures Parts(SourceId(table, column, rowid, tag)[|PREFIX|..])
            == [Encode(table), Encode(column), Decimal(rowid)] + Parts(tag)
  {
    hide Encode, Decimal, Parts;
    DecodeEncode(table);
    DecodeEncode(column);
    DecimalIsDigitsIff(rowid);
    PartsAfter(Decimal(rowid), tag);
    PartsAfter(Encode(column), Decimal(rowid) + ":" + tag);
    PartsAfter(Encode(table), Encode(column) + ":" + (Decimal(rowid) + ":" + tag));
    var body := Encode(table) + ":" + (Encode(column) + ":" + (Decimal(rowid) + ":" + tag));
    assert (PREFIX + body)[|PREFIX|..] == body;
  }

  /**
   * Parsing a built id gives the cursor back exactly when no name is empty, the row number is not negative and the tag
   * is neither empty nor has a colon; otherwise nothing matches. It never throws on a built id.
   */
  lemma ParseBuiltId(table: string, column: string, rowid: int, tag: string)
    ensures ParseSourceId(SourceId(table, column, rowid, tag))
            == if table != [] && column != [] && rowid >= 0 && tag != [] && ':' !in tag
               then Cursor(table, column, rowid) else NoMatch
  {
    hide Encode, Decode, Parts, SourceId, Decimal, Digits, Number, AllDigits;
    PartsOfId(table, column, rowid, tag);
    DecodeEncode(table);
    DecodeEncode(column);
    DecimalIsDigitsIff(rowid);
    OnePartIff(tag);
  }

  /** Ids built from the same prefix tell apart every table, column, row number and tag, whatever they contain. */
  lemma IdsAreInjective(t: string, c: string, r: int, l: string, t': string, c': string, r': int, l': string)
    requires SourceId(t, c, r, l) == SourceId(t', c', r', l')
    ensures t == t' && c == c' && r == r' && l == l'
  {
    hide Encode, Decode, Parts, Decimal;
    PartsOfId(t, c, r, l);
    PartsOfId(t', c', r', l');
    var parts := [Encode(t), Encode(c), Decimal(r)] + Parts(l);
    var parts' := [Encode(t'), Encode(c'), Decimal(r')] + Parts(l');
    assert parts == parts' && parts[0] == parts'[0] && parts[1] == parts'[1] && parts[2] == parts'[2];
    DecodeEncode(t);
    DecodeEncode(t');
    DecodeEncode(c);
    DecodeEncode(c');
    DecimalInjective(r, r');
    var head := PREFIX + Encode(t) + ":" + Encode(c) + ":" + Decimal(r) + ":";
    assert SourceId(t, c, r, l) == head + l && SourceId(t', c', r', l') == head + l';
    assert l == (head + l)[|head|..] && l' == (head + l')[|head|..];
  }

  lemma DecimalInjective(r: int, r': int)
    requires Decimal(r) == Decimal(r')
    ensures r == r'
  {
    DecimalIsDigitsIff(r);
    DecimalIsDigitsIff(r');
    if r >= 0 {
      NumberDigits(r);
      NumberDigits(r');
    } else {
      NumberDigits(-r);
      NumberDigits(-r');
      assert Decimal(r)[1..] == Digits(-r) && Decimal(r')[1..] == Digits(-r');
    }
  }
}

/** Unpadded base64url (sections 3.2 and 5 of RFC 4648), as the cursor tokens use it. */
module Base64Url {
  import opened Wrappers

  type Byte = b: int | 0 <= b < 256

  predicate InAlphabet(c: char) {
    'A' <= c <= 'Z' || 'a' <= c <= 'z' || '0' <= c <= '9' || c == '-' || c == '_'
  }

  function Symbol(v: int): (c: char)
    requires 0 <= v < 64
    ensures InAlphabet(c)
  {
    if v < 26 then ('A' as int + v) as char
    else if v < 52 then ('a' as int + v - 26) as char
    else if v < 62 then ('0' as int + v - 52) as char
    else if v == 62 then '-' else '_'
  }

  function SymbolValue(c: char): (v: int)
    requires InAlphabet(c)
    ensures 0 <= v < 64
  {
    if 'A' <= c <= 'Z' then c as int - 'A' as int
    else if 'a' <= c <= 'z' then c as int - 'a' as int + 26
    else if '0' <= c <= '9' then c as int - '0' as int + 52
    else if c == '-' then 62 else 63
  }

  lemma SymbolRead(v: int)
    requires 0 <= v < 64
    ensures SymbolValue(Symbol(v)) == v
  {
  }

  lemma SymbolWritten(c: char)
    requires InAlphabet(c)
    ensures Symbol(SymbolValue(c)) == c
  {
  }

  /** Standard encoding: three bytes as four symbols, the last group padded with `=`. */
  function EncodePadded(bytes: seq<Byte>): string {
    if bytes == [] then ""
    else if |bytes| == 1 then
      [Symbol(bytes[0] / 4), Symbol(bytes[0] % 4 * 16), '=', '=']
    else if |bytes| == 2 then
      [Symbol(bytes[0] / 4), Symbol(bytes[0] % 4 * 16 + bytes[1] / 16), Symbol(bytes[1] % 16 * 4), '=']
    else
      [Symbol(bytes[0] / 4), Symbol(bytes[0] % 4 * 16 + bytes[1] / 16), Symbol(bytes[1] % 16 * 4 + bytes[2] / 64),
       Symbol(bytes[2] % 64)]
      + EncodePadded(bytes[3..])
  }

  /** `rstrip("=")` */
  function StripPad(s: string): string {
    if s != "" && s[|s| - 1] == '=' then StripPad(s[..|s| - 1]) else s
  }

  function Repeat(c: char, n: nat): string {
    if n == 0 then "" else [c] + Repeat(c, n - 1)
  }

  /** The padding put back before decoding: `"=" * (-len % 4)`. */
  function Pad(s: string): string {
    s + Repeat('=', (-|s|) % 4)
  }

  /** Strict decoding of padded text; unused low bits of the last symbol are ignored. */
  function DecodePadded(s: string): Option<seq<Byte>> {
    if s == "" then Some([])
    else if |s| < 4 || !InAlphabet(s[0]) || !InAlphabet(s[1]) then None
    else
      var a, b := SymbolValue(s[0]), SymbolValue(s[1]);
      if s[2..] == "==" then Some([a * 4 + b / 16])
      else if !InAlphabet(s[2]) then None
      else
        var c := SymbolValue(s[2]);
        if s[3..] == "=" then Some([a * 4 + b / 16, b % 16 * 16 + c / 4])
        else if !InAlphabet(s[3]) then None
        else
          var rest := DecodePadded(s[4..]);
          if rest.None? then None
          else Some([a * 4 + b / 16, b % 16 * 16 + c / 4, c % 4 * 64 + SymbolValue(s[3])] + rest.value)
  }

  /** A token without its prefix: not empty, and only symbols of the alphabet. */
  predicate IsToken(s: string) {
    s != "" && forall i :: 0 <= i < |s| ==> InAlphabet(s[i])
  }

  function Encode(bytes: seq<Byte>): string {
    StripPad(EncodePadded(bytes))
  }

  function Decode(s: string): Option<seq<Byte>> {
    if IsToken(s) then DecodePadded(Pad(s)) else None
  }

  // ---------------------------------------------------------------- round trip

  lemma GroupRead(x: Byte, y: Byte, z: Byte)
    ensures x / 4 * 4 + (x % 4 * 16 + y / 16) / 16 == x
    ensures (x % 4 * 16 + y / 16) % 16 * 16 + (y % 16 * 4 + z / 64) / 4 == y
    ensures (y % 16 * 4 + z / 64) % 4 * 64 + z % 64 == z
    ensures 0 <= x / 4 < 64 && 0 <= x % 4 * 16 + y / 16 < 64 && 0 <= y % 16 * 4 + z / 64 < 64 && 0 <= z % 64 < 64
  {
  }

  lemma QuadRead(p: char, q: char, r: char, t: char, rest: string)
    requires InAlphabet(p) && InAlphabet(q) && InAlphabet(r) && InAlphabet(t)
    ensures var a, b, c, d := SymbolValue(p), SymbolValue(q), SymbolValue(r), SymbolValue(t);
            DecodePadded([p, q, r, t] + rest)
            == if DecodePadded(rest).None? then None
               else Some([a * 4 + b / 16, b % 16 * 16 + c / 4, c % 4 * 64 + d] + DecodePadded(rest).value)
  {
  }

  lemma EndsRead(p: char, q: char, r: char)
    requires InAlphabet(p) && InAlphabet(q) && InAlphabet(r)
    ensures DecodePadded([p, q, '=', '=']) == Some([SymbolValue(p) * 4 + SymbolValue(q) / 16])
    ensures DecodePadded([p, q, r, '='])
         == Some([SymbolValue(p) * 4 + SymbolValue(q) / 16, SymbolValue(q) % 16 * 16 + SymbolValue(r) / 4])
  {
  }

  lemma OneRead(x: Byte)
    ensures DecodePadded(EncodePadded([x])) == Some([x])
  {
  }

  lemma TwoRead(x: Byte, y: Byte)
    ensures DecodePadded(EncodePadded([x, y])) == Some([x, y])
  {
    hide Symbol, SymbolValue, DecodePadded;
    GroupRead(x, y, 0);
    SymbolRead(x / 4);
    SymbolRead(x % 4 * 16 + y / 16);
    SymbolRead(y % 16 * 4);
    EndsRead(Symbol(x / 4), Symbol(x % 4 * 16 + y / 16), Symbol(y % 16 * 4));
  }

  lemma GroupEncodedPadded(x: Byte, y: Byte, z: Byte, rest: seq<Byte>)
    ensures var a, b, c, d := x / 4, x % 4 * 16 + y / 16, y % 16 * 4 + z / 64, z % 64;
            && 0 <= a < 64 && 0 <= b < 64 && 0 <= c < 64 && 0 <= d < 64
            && EncodePadded([x, y, z] + rest) == [Symbol(a), Symbol(b), Symbol(c), Symbol(d)] + EncodePadded(rest)
  {
    hide Symbol;
    assert ([x, y, z] + rest)[3..] == rest;
  }

  lemma GroupThenRest(x: Byte, y: Byte, z: Byte, rest: seq<Byte>)
    requires DecodePadded(EncodePadded(rest)) == Some(rest)
    ensures DecodePadded(EncodePadded([x, y, z] + rest)) == Some([x, y, z] + rest)
  {
    hide Symbol, SymbolValue, DecodePadded, EncodePadded;
    GroupRead(x, y, z);
    SymbolRead(x / 4);
    SymbolRead(x % 4 * 16 + y / 16);
    SymbolRead(y % 16 * 4 + z / 64);
    SymbolRead(z % 64);
    GroupEncodedPadded(x, y, z, rest);
    QuadRead(Symbol(x / 4), Symbol(x % 4 * 16 + y / 16), Symbol(y % 16 * 4 + z / 64), Symbol(z % 64),
             EncodePadded(rest));
  }

  lemma NothingRead()
    ensures DecodePadded(EncodePadded([])) == Some([])
  {
  }

  lemma {:induction false} PaddedRead(bytes: seq<Byte>)
    ensures DecodePadded(EncodePadded(bytes)) == Some(bytes)
  {
    hide EncodePadded, DecodePadded;
    if bytes == [] {
      NothingRead();
    } else if |bytes| == 1 {
      OneRead(bytes[0]);
      assert bytes == [bytes[0]];
    } else if |bytes| == 2 {
      TwoRead(bytes[0], bytes[1]);
      assert bytes == [bytes[0], bytes[1]];
    } else {
      var rest := bytes[3..];
      PaddedRead(rest);
      GroupThenRest(bytes[0], bytes[1], bytes[2], rest);
      assert bytes == [bytes[0], bytes[1], bytes[2]] + rest;
    }
  }

  /** The encoding without its padding. */
  function EncodeBare(bytes: seq<Byte>): string {
    if bytes == [] then ""
    else if |bytes| == 1 then [Symbol(bytes[0] / 4), Symbol(bytes[0] % 4 * 16)]
    else if |bytes| == 2 then
      [Symbol(bytes[0] / 4), Symbol(bytes[0] % 4 * 16 + bytes[1] / 16), Symbol(bytes[1] % 16 * 4)]
    else
      [Symbol(bytes[0] / 4), Symbol(bytes[0] % 4 * 16 + bytes[1] / 16), Symbol(bytes[1] % 16 * 4 + bytes[2] / 64),
       Symbol(bytes[2] % 64)]
      + EncodeBare(bytes[3..])
  }

  predicate AllInAlphabet(s: string) {
    forall i :: 0 <= i < |s| ==> InAlphabet(s[i])
  }

  lemma PadLonger(head: string, rest: string)
    requires |head| == 4
    ensures Pad(head + rest) == head + Pad(rest) && Pad(head + rest)[4..] == Pad(rest)
  {
  }

  lemma ShortPads()
    ensures Repeat('=', 1) == "=" && Repeat('=', 2) == "==" && Repeat('=', 3) == "==="
  {
  }

  lemma {:induction false} BareShape(bytes: seq<Byte>)
    ensures AllInAlphabet(EncodeBare(bytes)) && |EncodeBare(bytes)| == (4 * |bytes| + 2) / 3
    ensures EncodePadded(bytes) == Pad(EncodeBare(bytes))
  {
    hide Symbol;
    ShortPads();
    if |bytes| > 2 {
      hide Pad, Repeat;
      BareShape(bytes[3..]);
      var head := EncodeBare(bytes)[..4];
      assert EncodeBare(bytes) == head + EncodeBare(bytes[3..]);
      PadLonger(head, EncodeBare(bytes[3..]));
      assert EncodePadded(bytes) == head + EncodePadded(bytes[3..]);
    }
  }

  lemma {:induction false} StripPadded(s: string, n: nat)
    requires AllInAlphabet(s)
    ensures StripPad(s + Repeat('=', n)) == s
  {
    if n == 0 {
      assert s + "" == s;
    } else {
      RepeatLast('=', n - 1);
      var padded := s + Repeat('=', n);
      assert padded[..|padded| - 1] == s + Repeat('=', n - 1);
      assert padded[|padded| - 1] == '=';
      StripPadded(s, n - 1);
    }
  }

  lemma {:induction false} RepeatLast(c: char, n: nat)
    ensures Repeat(c, n + 1) == Repeat(c, n) + [c] && |Repeat(c, n)| == n
  {
    if n > 0 {
      RepeatLast(c, n - 1);
    }
  }

  /** Decoding an encoding gives the bytes back; the re-added padding is right for every length. */
  lemma DecodeEncode(bytes: seq<Byte>)
    ensures Pad(Encode(bytes)) == EncodePadded(bytes) && AllInAlphabet(Encode(bytes))
    ensures bytes != [] ==> Decode(Encode(bytes)) == Some(bytes)
  {
    hide EncodeBare, EncodePadded, DecodePadded, StripPad, Repeat;
    BareShape(bytes);
    StripPadded(EncodeBare(bytes), (-|EncodeBare(bytes)|) % 4);
    PaddedRead(bytes);
    assert bytes != [] ==> |EncodeBare(bytes)| > 0;
  }

  /** The bits of the last symbol that no byte uses. */
  predicate UnusedBitsZero(s: string)
    requires AllInAlphabet(s)
  {
    if |s| % 4 == 2 then SymbolValue(s[|s| - 1]) % 16 == 0
    else if |s| % 4 == 3 then SymbolValue(s[|s| - 1]) % 4 == 0
    else true
  }

  lemma GroupWritten(a: int, b: int, c: int, d: int)
    requires 0 <= a < 64 && 0 <= b < 64 && 0 <= c < 64 && 0 <= d < 64
    ensures var x, y, z := a * 4 + b / 16, b % 16 * 16 + c / 4, c % 4 * 64 + d;
            && 0 <= x < 256 && 0 <= y < 256 && 0 <= z < 256
            && x / 4 == a && x % 4 * 16 + y / 16 == b && y % 16 * 4 + z / 64 == c && z % 64 == d
  {
  }

  lemma OneLeft(p: char)
    ensures DecodePadded([p] + Repeat('=', 3)).None?
  {
  }

  lemma TwoLeft(p: char, q: char)
    requires InAlphabet(p) && InAlphabet(q)
    ensures var x := SymbolValue(p) * 4 + SymbolValue(q) / 16;
            && 0 <= x < 256 && DecodePadded([p, q] + Repeat('=', 2)) == Some([x])
            && (EncodeBare([x]) == [p, q] <==> SymbolValue(q) % 16 == 0)
  {
    hide Symbol, SymbolValue, DecodePadded, Repeat;
    ShortPads();
    assert [p, q] + "==" == [p, q, '=', '='];
    EndsRead(p, q, 'A');
    GroupWritten(SymbolValue(p), SymbolValue(q), 0, 0);
    SymbolWritten(p);
    SymbolWritten(q);
    SymbolRead(SymbolValue(q) / 16 * 16);
  }

  lemma ThreeLeft(p: char, q: char, r: char)
    requires InAlphabet(p) && InAlphabet(q) && InAlphabet(r)
    ensures var x, y := SymbolValue(p) * 4 + SymbolValue(q) / 16, SymbolValue(q) % 16 * 16 + SymbolValue(r) / 4;
            && 0 <= x < 256 && 0 <= y < 256 && DecodePadded([p, q, r] + Repeat('=', 1)) == Some([x, y])
            && (EncodeBare([x, y]) == [p, q, r] <==> SymbolValue(r) % 4 == 0)
  {
    hide Symbol, SymbolValue, DecodePadded, Repeat;
    ShortPads();
    assert [p, q, r] + "=" == [p, q, r, '='];
    EndsRead(p, q, r);
    GroupWritten(SymbolValue(p), SymbolValue(q), SymbolValue(r), 0);
    SymbolWritten(p);
    SymbolWritten(q);
    SymbolWritten(r);
    SymbolRead(SymbolValue(r) / 4 * 4);
  }

  lemma NothingLeft()
    ensures DecodePadded(Pad("")) == Some([]) && EncodeBare([]) == ""
  {
  }

  lemma ShortRead(s: string)
    requires AllInAlphabet(s) && |s| < 4
    ensures DecodePadded(Pad(s)).Some? <==> |s| != 1
    ensures |s| != 1 ==> (EncodeBare(DecodePadded(Pad(s)).value) == s <==> UnusedBitsZero(s))
  {
    hide InAlphabet, SymbolValue, DecodePadded, EncodeBare, Repeat;
    if |s| == 0 {
      NothingLeft();
    } else if |s| == 1 {
      assert s == [s[0]];
      OneLeft(s[0]);
    } else if |s| == 2 {
      assert s == [s[0], s[1]];
      TwoLeft(s[0], s[1]);
    } else {
      assert s == [s[0], s[1], s[2]];
      ThreeLeft(s[0], s[1], s[2]);
    }
  }

  /**
    A token is refused exactly when it is empty, has a character outside the alphabet, or has length
    1 mod 4; an accepted one is what encoding would have printed exactly when its unused bits are zero.
   */
  lemma {:induction false} DecodeAccepts(s: string)
    ensures Decode(s).Some? <==> IsToken(s) && |s| % 4 != 1
    ensures Decode(s).Some? ==> (Encode(Decode(s).value) == s <==> UnusedBitsZero(s))
  {
    hide EncodePadded, EncodeBare, DecodePadded, StripPad, Repeat, UnusedBitsZero;
    if IsToken(s) {
      GroupsRead(s);
      if |s| % 4 != 1 {
        var bytes := DecodePadded(Pad(s)).value;
        BareShape(bytes);
        StripPadded(EncodeBare(bytes), (-|EncodeBare(bytes)|) % 4);
      }
    }
  }

  lemma {:induction false} GroupsRead(s: string)
    requires AllInAlphabet(s)
    ensures DecodePadded(Pad(s)).Some? <==> |s| % 4 != 1
    ensures |s| % 4 != 1 ==> (EncodeBare(DecodePadded(Pad(s)).value) == s <==> UnusedBitsZero(s))
  {
    if |s| < 4 {
      ShortRead(s);
    } else {
      GroupsRead(s[4..]);
      LongRead(s);
    }
  }

  lemma GroupDecoded(s: string)
    requires AllInAlphabet(s) && |s| >= 4
    ensures var a, b, c, d := SymbolValue(s[0]), SymbolValue(s[1]), SymbolValue(s[2]), SymbolValue(s[3]);
            var rest := DecodePadded(Pad(s[4..]));
            DecodePadded(Pad(s))
            == if rest.None? then None
               else Some([a * 4 + b / 16, b % 16 * 16 + c / 4, c % 4 * 64 + d] + rest.value)
  {
    hide SymbolValue, Pad, DecodePadded;
    PadLonger(s[..4], s[4..]);
    assert s == s[..4] + s[4..] && s[..4] == [s[0], s[1], s[2], s[3]];
    QuadRead(s[0], s[1], s[2], s[3], Pad(s[4..]));
  }

  lemma GroupEncoded(a: int, b: int, c: int, d: int, tail: seq<Byte>)
    requires 0 <= a < 64 && 0 <= b < 64 && 0 <= c < 64 && 0 <= d < 64
    ensures var x, y, z := a * 4 + b / 16, b % 16 * 16 + c / 4, c % 4 * 64 + d;
            && 0 <= x < 256 && 0 <= y < 256 && 0 <= z < 256
            && EncodeBare([x, y, z] + tail) == [Symbol(a), Symbol(b), Symbol(c), Symbol(d)] + EncodeBare(tail)
  {
    hide Symbol;
    GroupWritten(a, b, c, d);
    var x, y, z := a * 4 + b / 16, b % 16 * 16 + c / 4, c % 4 * 64 + d;
    assert ([x, y, z] + tail)[3..] == tail;
  }

  lemma LongRead(s: string)
    requires AllInAlphabet(s) && |s| >= 4
    requires AllInAlphabet(s[4..]) && (DecodePadded(Pad(s[4..])).Some? <==> |s[4..]| % 4 != 1)
    requires |s[4..]| % 4 != 1 ==> (EncodeBare(DecodePadded(Pad(s[4..])).value) == s[4..] <==> UnusedBitsZero(s[4..]))
    ensures DecodePadded(Pad(s)).Some? <==> |s| % 4 != 1
    ensures |s| % 4 != 1 ==> (EncodeBare(DecodePadded(Pad(s)).value) == s <==> UnusedBitsZero(s))
  {
    hide Symbol, SymbolValue, UnusedBitsZero, DecodePadded, EncodeBare, Pad;
    var rest := s[4..];
    LastOfRest(s);
    GroupDecoded(s);
    if |rest| % 4 != 1 {
      var tail := DecodePadded(Pad(rest)).value;
      GroupEncoded(SymbolValue(s[0]), SymbolValue(s[1]), SymbolValue(s[2]), SymbolValue(s[3]), tail);
      SymbolWritten(s[0]);
      SymbolWritten(s[1]);
      SymbolWritten(s[2]);
      SymbolWritten(s[3]);
      var head := [s[0], s[1], s[2], s[3]];
      assert s == head + rest;
      assert (head + EncodeBare(tail))[4..] == EncodeBare(tail);
    }
  }

  lemma LastOfRest(s: string)
    requires AllInAlphabet(s) && |s| >= 4
    ensures AllInAlphabet(s[4..]) && (UnusedBitsZero(s) <==> UnusedBitsZero(s[4..]))
  {
  }
}

/** Session list cursors on the command line: printed tokens, and the older JSON object form. */
module Cursor {
  import opened Wrappers
  import opened Json
  import JsonProofs
  import Base64Url

  const PREFIX := "v1."

  function Bytes(text: string): seq<Base64Url.Byte>
    requires JsonProofs.Ascii(text)
  {
    seq(|text|, i requires 0 <= i < |text| => text[i] as int)
  }

  /** ASCII bytes as text; any other byte is outside the modelled fragment and refused. */
  function Text(bytes: seq<Base64Url.Byte>): Option<string> {
    if forall b <- bytes :: 0 < b < 128 then
      Some(seq(|bytes|, i requires 0 <= i < |bytes| => (bytes[i] as int) as char))
    else None
  }

  function EncodeCursor(cursor: Value): string
    requires cursor.Obj?
  {
    JsonProofs.DumpsAscii(cursor);
    PREFIX + Base64Url.Encode(Bytes(Dumps(cursor)))
  }

  function Payload(raw: string): Option<string> {
    if PREFIX <= raw then
      var bytes := Base64Url.Decode(raw[3..]);
      if bytes.None? then None else Text(bytes.value)
    else Some(raw)
  }

  /** A printed token, or a JSON object; None is the usage error. */
  function DecodeCursor(raw: string): Option<Value> {
    var payload := Payload(raw);
    if payload.None? then None
    else
      var value := Loads(payload.value);
      if value.Some? && value.value.Obj? then value else None
  }

  lemma TextOfBytes(text: string)
    requires JsonProofs.Ascii(text)
    ensures Text(Bytes(text)) == Some(text)
  {
    var bytes := Bytes(text);
    assert forall b <- bytes :: 0 < b < 128;
    var back := Text(bytes).value;
    assert forall i :: 0 <= i < |text| ==> back[i] == text[i];
    assert back == text;
  }

  /** Decoding a printed cursor gives the same object back, every field included. */
  lemma CursorRoundTrip(cursor: Value)
    requires cursor.Obj? && Canonical(cursor)
    ensures DecodeCursor(EncodeCursor(cursor)) == Some(cursor)
  {
    hide Dumps, Loads, Base64Url.Encode, Base64Url.Decode;
    JsonProofs.DumpsAscii(cursor);
    JsonProofs.DumpsStart(cursor);
    var bytes := Bytes(Dumps(cursor));
    Base64Url.DecodeEncode(bytes);
    TextOfBytes(Dumps(cursor));
    JsonProofs.LoadsDumps(cursor);
    var token := EncodeCursor(cursor);
    assert token[..3] == PREFIX && token[3..] == Base64Url.Encode(bytes);
    assert Payload(token) == Some(Dumps(cursor));
    assert Loads(Dumps(cursor)) == Some(cursor);
    assert DecodeCursor(token) == Some(cursor);
  }

  /** A printed token needs no quoting in a shell: after `v1.` it has base64url symbols only. */
  lemma TokenCharacters(cursor: Value, i: nat)
    requires cursor.Obj? && i < |EncodeCursor(cursor)|
    ensures PREFIX <= EncodeCursor(cursor) && (i >= 3 ==> Base64Url.InAlphabet(EncodeCursor(cursor)[i]))
  {
    hide Dumps, Base64Url.Encode;
    JsonProofs.DumpsAscii(cursor);
    Base64Url.DecodeEncode(Bytes(Dumps(cursor)));
  }

  lemma ObjectStarts(s: string)
    requires ReadValue(s).Done? && ReadValue(s).value.Obj?
    ensures s != "" && s[0] == '{'
  {
  }

  /**
    The two forms never mix: what starts like a token is read as one, with no length 1 mod 4 and no
    foreign character, and an accepted JSON object starts with its brace.
   */
  lemma FormsDoNotMix(raw: string)
    requires DecodeCursor(raw).Some?
    ensures PREFIX <= raw ==> Base64Url.IsToken(raw[3..]) && |raw[3..]| % 4 != 1
    ensures !(PREFIX <= raw) ==> SkipWhite(raw) != "" && SkipWhite(raw)[0] == '{'
  {
    if PREFIX <= raw {
      hide Loads, Text;
      Base64Url.DecodeAccepts(raw[3..]);
    } else {
      ObjectStarts(SkipWhite(raw));
    }
  }

  /** Different cursors are printed as different tokens. */
  lemma TokensDiffer(a: Value, b: Value)
    requires a.Obj? && Canonical(a) && b.Obj? && Canonical(b)
    ensures EncodeCursor(a) == EncodeCursor(b) <==> a == b
  {
    CursorRoundTrip(a);
    CursorRoundTrip(b);
  }
}

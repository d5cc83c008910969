/**
  JSON text as Python's `json` writes and reads it: null, booleans, integers, strings, arrays and
  objects, written compactly in ASCII with sorted keys (sections 3 to 7 of RFC 8259). Numbers with a
  fraction or exponent and lone surrogates are outside this fragment and refused.
 */
module Json {
  import opened Wrappers

  /** An object is represented by its members in key order: Python compares dictionaries without order. */
  datatype Value =
    | Null
    | Bool(b: bool)
    | Int(n: int)
    | Str(s: string)
    | Arr(items: seq<Value>)
    | Obj(members: seq<Member>)

  datatype Member = Member(key: string, value: Value)

  /** Order of keys by code point, as Python sorts strings. */
  predicate Less(a: string, b: string) {
    b != "" && (a == "" || a[0] < b[0] || (a[0] == b[0] && Less(a[1..], b[1..])))
  }

  /** Every object inside lists its keys in strictly increasing order. */
  predicate Canonical(v: Value) {
    match v
    case Arr(items) => forall i :: 0 <= i < |items| ==> Canonical(items[i])
    case Obj(members) =>
      && (forall i :: 0 <= i < |members| ==> Canonical(members[i].value))
      && (forall i :: 0 < i < |members| ==> Less(members[i - 1].key, members[i].key))
    case _ => true
  }

  // ---------------------------------------------------------------- writing

  function Digit(n: int): char
    requires 0 <= n < 16
  {
    if n < 10 then ('0' as int + n) as char else ('a' as int + n - 10) as char
  }

  function NatText(n: nat): string {
    if n < 10 then [Digit(n)] else NatText(n / 10) + [Digit(n % 10)]
  }

  function Hex4(n: int): string
    requires 0 <= n < 0x10000
  {
    [Digit(n / 4096), Digit(n / 256 % 16), Digit(n / 16 % 16), Digit(n % 16)]
  }

  /** One character inside quotes, the rest of ASCII and everything above it escaped. */
  function Escape(c: char): string {
    if c == '"' then "\\\""
    else if c == '\\' then "\\\\"
    else if c == '\n' then "\\n"
    else if c == '\r' then "\\r"
    else if c == '\t' then "\\t"
    else if c == '\U{0c}' then "\\f"
    else if c == '\U{08}' then "\\b"
    else if ' ' <= c <= '~' then [c]
    else if c as int < 0x10000 then "\\u" + Hex4(c as int)
    else
      var n := c as int - 0x10000;
      "\\u" + Hex4(0xD800 + n / 1024) + "\\u" + Hex4(0xDC00 + n % 1024)
  }

  function EscapeAll(s: string): string {
    if s == "" then "" else Escape(s[0]) + EscapeAll(s[1..])
  }

  function Quote(s: string): string {
    "\"" + EscapeAll(s) + "\""
  }

  function Dumps(v: Value): string
    decreases v, 0
  {
    match v
    case Null => "null"
    case Bool(b) => if b then "true" else "false"
    case Int(n) => if n < 0 then "-" + NatText(-n) else NatText(n)
    case Str(s) => Quote(s)
    case Arr(items) => "[" + DumpItems(items) + "]"
    case Obj(members) => "{" + DumpMembers(members) + "}"
  }

  function DumpItems(items: seq<Value>): string
    decreases items, 1
  {
    if items == [] then ""
    else if |items| == 1 then Dumps(items[0])
    else Dumps(items[0]) + "," + DumpItems(items[1..])
  }

  function DumpMembers(members: seq<Member>): string
    decreases members, 1
  {
    if members == [] then ""
    else if |members| == 1 then Quote(members[0].key) + ":" + Dumps(members[0].value)
    else Quote(members[0].key) + ":" + Dumps(members[0].value) + "," + DumpMembers(members[1..])
  }

  // ---------------------------------------------------------------- reading

  datatype Read<T> = Fail | Done(value: T, rest: string) {
    predicate IsFailure() { Fail? }
    function PropagateFailure<U>(): Read<U>
      requires Fail?
    {
      Fail
    }
    function Extract(): (T, string)
      requires Done?
    {
      (value, rest)
    }
  }

  predicate IsWhite(c: char) {
    c == ' ' || c == '\t' || c == '\n' || c == '\r'
  }

  function SkipWhite(s: string): (rest: string)
    ensures |rest| <= |s|
  {
    if s != "" && IsWhite(s[0]) then SkipWhite(s[1..]) else s
  }

  predicate IsDigit(c: char) {
    '0' <= c <= '9'
  }

  function DigitValue(c: char): Option<int> {
    if '0' <= c <= '9' then Some(c as int - '0' as int)
    else if 'a' <= c <= 'f' then Some(c as int - 'a' as int + 10)
    else if 'A' <= c <= 'F' then Some(c as int - 'A' as int + 10)
    else None
  }

  function ReadHex4(s: string): (r: Read<int>)
    ensures r.Done? ==> |r.rest| < |s| && 0 <= r.value < 0x10000
  {
    if |s| < 4 then Fail
    else
      var a, b, c, d := DigitValue(s[0]), DigitValue(s[1]), DigitValue(s[2]), DigitValue(s[3]);
      if a.None? || b.None? || c.None? || d.None? then Fail
      else Done(4096 * a.value + 256 * b.value + 16 * c.value + d.value, s[4..])
  }

  /** The character of an escape, read after its backslash; two escapes may name one surrogate pair. */
  function ReadEscape(s: string): (r: Read<char>)
    ensures r.Done? ==> |r.rest| < |s|
  {
    if s == "" then Fail
    else
      match s[0]
      case '"' => Done('"', s[1..])
      case '\\' => Done('\\', s[1..])
      case '/' => Done('/', s[1..])
      case 'n' => Done('\n', s[1..])
      case 'r' => Done('\r', s[1..])
      case 't' => Done('\t', s[1..])
      case 'f' => Done('\U{0c}', s[1..])
      case 'b' => Done('\U{08}', s[1..])
      case 'u' =>
        var (n, rest) :- ReadHex4(s[1..]);
        if 0xD800 <= n < 0xDC00 then
          if "\\u" <= rest then
            var (m, after) :- ReadHex4(rest[2..]);
            if 0xDC00 <= m < 0xE000 then Done((0x10000 + 1024 * (n - 0xD800) + (m - 0xDC00)) as char, after) else Fail
          else Fail
        else if 0xDC00 <= n < 0xE000 then Fail
        else Done(n as char, rest)
      case _ => Fail
  }

  /** The characters of a string, read after its opening quote. */
  function ReadChars(s: string): (r: Read<string>)
    ensures r.Done? ==> |r.rest| < |s|
    decreases |s|
  {
    if s == "" then Fail
    else if s[0] == '"' then Done("", s[1..])
    else if s[0] == '\\' then
      var (c, rest) :- ReadEscape(s[1..]);
      var (more, after) :- ReadChars(rest);
      Done([c] + more, after)
    else if s[0] < ' ' then Fail
    else
      var (more, after) :- ReadChars(s[1..]);
      Done([s[0]] + more, after)
  }

  /** The digits at the start of `s`, added to the number read so far. */
  function ReadDigits(s: string, sofar: nat): (r: Read<nat>)
    ensures r.Done? && |r.rest| <= |s|
  {
    if s != "" && IsDigit(s[0]) then ReadDigits(s[1..], 10 * sofar + (s[0] as int - '0' as int)) else Done(sofar, s)
  }

  /** An integer without its sign: one zero, or digits that start with another one. */
  function ReadNat(s: string): (r: Read<nat>)
    ensures r.Done? ==> |r.rest| < |s|
  {
    if s == "" || !IsDigit(s[0]) then Fail
    else
      var (n, rest) :- if s[0] == '0' then Done(0, s[1..]) else ReadDigits(s[1..], s[0] as int - '0' as int);
      if rest != "" && rest[0] in ".eE" then Fail else Done(n, rest)
  }

  function ReadInt(s: string): (r: Read<Value>)
    ensures r.Done? ==> |r.rest| < |s|
  {
    if s != "" && s[0] == '-' then
      var (n, rest) :- ReadNat(s[1..]);
      Done(Int(0 - n), rest)
    else
      var (n, rest) :- ReadNat(s);
      Done(Int(n), rest)
  }

  /** A dictionary entry set before the ones in `members` were: a later entry of the same key wins. */
  function SetFirst(members: seq<Member>, first: Member): seq<Member> {
    if members == [] || Less(first.key, members[0].key) then [first] + members
    else if first.key == members[0].key then members
    else [members[0]] + SetFirst(members[1..], first)
  }

  function ReadValue(s: string): (r: Read<Value>)
    ensures r.Done? ==> |r.rest| < |s|
    decreases |s|, 0
  {
    if s == "" then Fail
    else if s[0] == '"' then
      var (text, rest) :- ReadChars(s[1..]);
      Done(Str(text), rest)
    else if s[0] == '{' then
      var body := SkipWhite(s[1..]);
      if body != "" && body[0] == '}' then Done(Obj([]), body[1..])
      else
        var (members, rest) :- ReadMembers(body);
        Done(Obj(members), rest)
    else if s[0] == '[' then
      var body := SkipWhite(s[1..]);
      if body != "" && body[0] == ']' then Done(Arr([]), body[1..])
      else
        var (items, rest) :- ReadItems(body);
        Done(Arr(items), rest)
    else if "null" <= s then Done(Null, s[4..])
    else if "true" <= s then Done(Bool(true), s[4..])
    else if "false" <= s then Done(Bool(false), s[5..])
    else ReadInt(s)
  }

  /** One item and the ones after it, up to the closing bracket. */
  function ReadItems(s: string): (r: Read<seq<Value>>)
    ensures r.Done? ==> |r.rest| < |s|
    decreases |s|, 1
  {
    var (item, rest) :- ReadValue(s);
    var next := SkipWhite(rest);
    if next == "" then Fail
    else if next[0] == ']' then Done([item], next[1..])
    else if next[0] == ',' then
      var (items, after) :- ReadItems(SkipWhite(next[1..]));
      Done([item] + items, after)
    else Fail
  }

  /** One member and the ones after it, up to the closing brace. */
  function ReadMembers(s: string): (r: Read<seq<Member>>)
    ensures r.Done? ==> |r.rest| < |s|
    decreases |s|, 1
  {
    if s == "" || s[0] != '"' then Fail
    else
      var (key, colon) :- ReadChars(s[1..]);
      var mark := SkipWhite(colon);
      if mark == "" || mark[0] != ':' then Fail
      else
        var (value, rest) :- ReadValue(SkipWhite(mark[1..]));
        var next := SkipWhite(rest);
        if next == "" then Fail
        else if next[0] == '}' then Done([Member(key, value)], next[1..])
        else if next[0] == ',' then
          var (members, after) :- ReadMembers(SkipWhite(next[1..]));
          Done(SetFirst(members, Member(key, value)), after)
        else Fail
  }

  /** `json.loads`: one value with whitespace around it and nothing else. */
  function Loads(s: string): Option<Value> {
    var r := ReadValue(SkipWhite(s));
    if r.Done? && SkipWhite(r.rest) == "" then Some(r.value) else None
  }
}

/** Reading what was written gives the value back. */
module JsonProofs {
  import opened Wrappers
  import opened Json

  lemma DigitRead(n: int)
    requires 0 <= n < 16
    ensures DigitValue(Digit(n)) == Some(n)
  {
  }

  lemma HexDigits(n: int)
    requires 0 <= n < 0x10000
    ensures 0 <= n / 4096 < 16
    ensures 4096 * (n / 4096) + 256 * (n / 256 % 16) + 16 * (n / 16 % 16) + n % 16 == n
  {
    var b := n / 16;
    var c := b / 16;
    assert n / 256 == c;
    assert n / 4096 == c / 16;
  }

  lemma Hex4Read(n: int, rest: string)
    requires 0 <= n < 0x10000
    ensures ReadHex4(Hex4(n) + rest) == Done(n, rest)
  {
    hide Digit, DigitValue;
    HexDigits(n);
    DigitRead(n / 4096);
    DigitRead(n / 256 % 16);
    DigitRead(n / 16 % 16);
    DigitRead(n % 16);
    var s := Hex4(n) + rest;
    assert s[4..] == rest;
  }

  lemma PairText(c: char, high: int, low: int)
    requires c as int >= 0x10000
    requires high == 0xD800 + (c as int - 0x10000) / 1024 && low == 0xDC00 + (c as int - 0x10000) % 1024
    ensures 0xD800 <= high < 0xDC00 && 0xDC00 <= low < 0xE000
    ensures 0x10000 + 1024 * (high - 0xD800) + (low - 0xDC00) == c as int
    ensures Escape(c) == "\\u" + Hex4(high) + "\\u" + Hex4(low)
  {
    hide Hex4;
  }

  lemma PairEscapeRead(high: int, low: int, more: string)
    requires 0xD800 <= high < 0xDC00 && 0xDC00 <= low < 0xE000
    ensures ReadEscape("u" + (Hex4(high) + ("\\u" + (Hex4(low) + more))))
         == Done((0x10000 + 1024 * (high - 0xD800) + (low - 0xDC00)) as char, more)
  {
    hide Hex4, ReadHex4;
    var tail := "\\u" + (Hex4(low) + more);
    assert ("u" + (Hex4(high) + tail))[1..] == Hex4(high) + tail;
    Hex4Read(high, tail);
    assert tail[2..] == Hex4(low) + more;
    Hex4Read(low, more);
  }

  lemma PairRead(c: char, more: string)
    requires c as int >= 0x10000
    ensures ReadEscape(Escape(c)[1..] + more) == Done(c, more)
  {
    hide Hex4, ReadHex4, Escape, ReadEscape;
    var high, low := 0xD800 + (c as int - 0x10000) / 1024, 0xDC00 + (c as int - 0x10000) % 1024;
    PairText(c, high, low);
    PairEscapeRead(high, low, more);
    assert Escape(c)[1..] + more == "u" + (Hex4(high) + ("\\u" + (Hex4(low) + more)));
  }

  lemma UnicodeRead(c: char, more: string)
    requires |Escape(c)| > 2 && (c as int) < 0x10000
    ensures ReadEscape(Escape(c)[1..] + more) == Done(c, more)
  {
    hide Hex4, ReadHex4;
    var body := Escape(c)[1..] + more;
    assert body[0] == 'u' && body[1..] == Hex4(c as int) + more;
    Hex4Read(c as int, more);
  }

  lemma ShortRead(c: char, more: string)
    requires |Escape(c)| == 2
    ensures ReadEscape(Escape(c)[1..] + more) == Done(c, more)
  {
  }

  /** A character stands for itself or as an escape. */
  lemma EscapeShape(c: char)
    ensures Escape(c) != ""
    ensures Escape(c)[0] == '\\' || (Escape(c) == [c] && c != '"' && c != '\\' && c >= ' ')
    ensures Escape(c)[0] == '\\' ==> |Escape(c)| >= 2
  {
  }

  lemma EscapeMore(s: string, tail: string)
    requires s != ""
    ensures EscapeAll(s) + tail == Escape(s[0]) + (EscapeAll(s[1..]) + tail)
  {
  }

  lemma {:induction false} CharsRead(s: string, rest: string)
    ensures ReadChars(EscapeAll(s) + ("\"" + rest)) == Done(s, rest)
  {
    hide Escape, ReadEscape;
    if s == "" {
      assert EscapeAll(s) + ("\"" + rest) == "\"" + rest;
      assert ("\"" + rest)[1..] == rest;
    } else {
      hide ReadChars, EscapeAll;
      CharsRead(s[1..], rest);
      EscapeMore(s, "\"" + rest);
      CharRead(s[0], EscapeAll(s[1..]) + ("\"" + rest), s[1..], rest);
      assert [s[0]] + s[1..] == s;
    }
  }

  lemma CharRead(c: char, tail: string, more: string, rest: string)
    requires ReadChars(tail) == Done(more, rest)
    ensures ReadChars(Escape(c) + tail) == Done([c] + more, rest)
  {
    hide Escape, ReadEscape;
    EscapeShape(c);
    var whole := Escape(c) + tail;
    if Escape(c)[0] == '\\' {
      assert whole[1..] == Escape(c)[1..] + tail;
      if |Escape(c)| == 2 {
        ShortRead(c, tail);
      } else if c as int < 0x10000 {
        UnicodeRead(c, tail);
      } else {
        PairRead(c, tail);
      }
    } else {
      assert whole[1..] == tail;
    }
  }

  predicate AllDigits(s: string) {
    forall i :: 0 <= i < |s| ==> IsDigit(s[i])
  }

  function DigitsValue(s: string, sofar: nat): nat
    requires AllDigits(s)
  {
    if s == "" then sofar else DigitsValue(s[1..], 10 * sofar + (s[0] as int - '0' as int))
  }

  lemma {:induction false} DigitsValueAppend(s: string, d: char, sofar: nat)
    requires AllDigits(s) && IsDigit(d)
    ensures AllDigits(s + [d]) && DigitsValue(s + [d], sofar) == 10 * DigitsValue(s, sofar) + (d as int - '0' as int)
  {
    if s == "" {
      assert (s + [d])[1..] == "";
    } else {
      assert (s + [d])[1..] == s[1..] + [d];
      DigitsValueAppend(s[1..], d, 10 * sofar + (s[0] as int - '0' as int));
    }
  }

  lemma {:induction false} NatTextValue(n: nat)
    ensures NatText(n) != "" && AllDigits(NatText(n)) && DigitsValue(NatText(n), 0) == n
    ensures NatText(n)[0] == '0' <==> n == 0
  {
    if n < 10 {
      assert NatText(n)[1..] == "";
    } else {
      NatTextValue(n / 10);
      DigitsValueAppend(NatText(n / 10), Digit(n % 10), 0);
    }
  }

  /** What may follow a value: nothing that could continue a number. */
  predicate Ends(rest: string) {
    rest != "" ==> !IsDigit(rest[0]) && rest[0] !in ".eE"
  }

  lemma {:induction false} DigitsRead(s: string, rest: string, sofar: nat)
    requires AllDigits(s) && Ends(rest)
    ensures ReadDigits(s + rest, sofar) == Done(DigitsValue(s, sofar), rest)
  {
    if s == "" {
      assert s + rest == rest;
    } else {
      assert (s + rest)[1..] == s[1..] + rest;
      DigitsRead(s[1..], rest, 10 * sofar + (s[0] as int - '0' as int));
    }
  }

  lemma FirstDigit(text: string)
    requires AllDigits(text) && text != ""
    ensures DigitsValue(text, 0) == DigitsValue(text[1..], text[0] as int - '0' as int)
    ensures |text| == 1 && text[0] == '0' ==> DigitsValue(text, 0) == 0
  {
  }

  lemma BehindFirst(text: string, rest: string)
    requires text != ""
    ensures (text + rest)[0] == text[0] && (text + rest)[1..] == text[1..] + rest
    ensures |text| == 1 ==> text[1..] + rest == rest
  {
  }

  /** What the digits behind the first one come to decides the number. */
  lemma NatOfDigits(s: string, n: nat, rest: string)
    requires s != "" && IsDigit(s[0]) && Ends(rest)
    requires s[0] == '0' ==> n == 0 && s[1..] == rest
    requires s[0] != '0' ==> ReadDigits(s[1..], s[0] as int - '0' as int) == Done(n, rest)
    ensures ReadNat(s) == Done(n, rest)
  {
    hide ReadDigits;
  }

  /** Digits without a leading zero, unless zero is all there is. */
  lemma NatTextRead(text: string, rest: string)
    requires AllDigits(text) && text != "" && (text[0] == '0' ==> |text| == 1) && Ends(rest)
    ensures ReadNat(text + rest) == Done(DigitsValue(text, 0), rest)
  {
    hide ReadDigits, ReadNat, DigitsValue, Ends;
    FirstDigit(text);
    BehindFirst(text, rest);
    var n := DigitsValue(text, 0);
    if text[0] != '0' {
      DigitsRead(text[1..], rest, text[0] as int - '0' as int);
      hide AllDigits;
      NatOfDigits(text + rest, n, rest);
    } else {
      hide AllDigits;
      NatOfDigits(text + rest, n, rest);
    }
  }

  lemma NatRead(n: nat, rest: string)
    requires Ends(rest)
    ensures ReadNat(NatText(n) + rest) == Done(n, rest)
  {
    NatTextValue(n);
    assert n == 0 ==> |NatText(n)| == 1;
    hide ReadNat, DigitsValue, NatText;
    NatTextRead(NatText(n), rest);
  }

  lemma NumberStart(s: string)
    requires s != "" && (s[0] == '-' || IsDigit(s[0]))
    ensures ReadValue(s) == ReadInt(s)
  {
  }

  lemma IntRead(n: int, rest: string)
    requires Ends(rest)
    ensures ReadValue(Dumps(Int(n)) + rest) == Done(Int(n), rest)
  {
    hide ReadNat, NatText, ReadValue;
    var s := Dumps(Int(n)) + rest;
    var size: nat := if n < 0 then 0 - n else n;
    NatRead(size, rest);
    NatTextValue(size);
    NumberStart(s);
    if n < 0 {
      assert s[1..] == NatText(size) + rest;
    } else {
      assert s == NatText(size) + rest;
    }
  }

  /** A value's text starts with a character that is neither white nor a closing bracket. */
  lemma DumpsStart(v: Value)
    ensures Dumps(v) != "" && !IsWhite(Dumps(v)[0]) && Dumps(v)[0] != ']'
  {
    if v.Int? {
      NatTextValue(if v.n < 0 then 0 - v.n else v.n);
    }
  }

  lemma SkipNothing(s: string, rest: string)
    requires s != "" && !IsWhite(s[0])
    ensures SkipWhite(s + rest) == s + rest
  {
  }

  lemma {:induction false} SetFirstOfSorted(members: seq<Member>, first: Member)
    requires members != [] ==> Less(first.key, members[0].key)
    ensures SetFirst(members, first) == [first] + members
  {
  }

  lemma EmptyRead(open: char, close: char, rest: string)
    ensures var s := [open] + ([close] + rest); s[1..] == [close] + rest && ([close] + rest)[1..] == rest
  {
  }

  lemma ListRead(v: Value, rest: string)
    requires v.Arr? && Canonical(v)
    ensures ReadValue(Dumps(v) + rest) == Done(v, rest)
    decreases v, 2
  {
    hide ReadItems, ReadMembers, ReadChars, ReadInt, DumpMembers;
    var s := Dumps(v) + rest;
    if v.items == [] {
      assert DumpItems(v.items) == "";
      assert s == "[" + ("]" + rest);
      EmptyRead('[', ']', rest);
    } else {
      hide DumpItems;
      ItemsRead(v.items, rest);
      ItemsStart(v.items);
      var body := DumpItems(v.items) + ("]" + rest);
      assert s == "[" + body && s[1..] == body;
      SkipNothing(DumpItems(v.items), "]" + rest);
    }
  }

  lemma ItemsStart(items: seq<Value>)
    requires items != []
    ensures DumpItems(items) != "" && !IsWhite(DumpItems(items)[0]) && DumpItems(items)[0] != ']'
  {
    DumpsStart(items[0]);
  }

  lemma Regroup(first: string, mark: string, rest: string, tail: string)
    ensures (first + mark + rest) + tail == first + (mark + (rest + tail))
  {
  }

  lemma DumpMoreItems(items: seq<Value>, tail: string)
    requires |items| > 1
    ensures DumpItems(items) + tail == Dumps(items[0]) + ("," + (DumpItems(items[1..]) + tail))
  {
    hide Dumps;
    Regroup(Dumps(items[0]), ",", DumpItems(items[1..]), tail);
  }

  /** Reading one item before a comma, and then the others. */
  lemma ReadFirstItem(item: Value, more: string, others: seq<Value>, rest: string)
    requires SkipWhite(more) == more && ReadItems(more) == Done(others, rest)
    requires ReadValue(Dumps(item) + ("," + more)) == Done(item, "," + more)
    ensures ReadItems(Dumps(item) + ("," + more)) == Done([item] + others, rest)
  {
  }

  /** Reading the last item before the closing bracket. */
  lemma ReadLastItem(item: Value, rest: string)
    requires ReadValue(Dumps(item) + ("]" + rest)) == Done(item, "]" + rest)
    ensures ReadItems(Dumps(item) + ("]" + rest)) == Done([item], rest)
  {
    hide Dumps, ReadValue;
    assert ("]" + rest)[1..] == rest;
  }

  lemma OneItem(items: seq<Value>)
    requires |items| == 1
    ensures DumpItems(items) == Dumps(items[0]) && items == [items[0]]
  {
    hide Dumps;
  }

  lemma {:induction false} ItemsRead(items: seq<Value>, rest: string)
    requires items != [] && forall i :: 0 <= i < |items| ==> Canonical(items[i])
    ensures ReadItems(DumpItems(items) + ("]" + rest)) == Done(items, rest)
    decreases items, 1
  {
    hide Dumps, ReadValue, ReadItems, DumpItems;
    if |items| == 1 {
      ValueRead(items[0], "]" + rest);
      OneItem(items);
      ReadLastItem(items[0], rest);
    } else {
      var others := items[1..];
      ItemsRead(others, rest);
      ItemsStart(others);
      SkipNothing(DumpItems(others), "]" + rest);
      var more := DumpItems(others) + ("]" + rest);
      ValueRead(items[0], "," + more);
      ReadFirstItem(items[0], more, others, rest);
      DumpMoreItems(items, "]" + rest);
      assert [items[0]] + others == items;
    }
  }

  lemma ObjectRead(v: Value, rest: string)
    requires v.Obj? && Canonical(v)
    ensures ReadValue(Dumps(v) + rest) == Done(v, rest)
    decreases v, 2
  {
    hide ReadItems, ReadMembers, ReadChars, ReadInt, DumpItems;
    if v.members == [] {
      var s := Dumps(v) + rest;
      assert DumpMembers(v.members) == "";
      assert s == "{" + ("}" + rest);
      EmptyRead('{', '}', rest);
    } else {
      assert CanonicalMembers(v.members);
      MembersRead(v.members, rest);
      FullObjectRead(v.members, rest);
    }
  }

  lemma FullObjectRead(members: seq<Member>, rest: string)
    requires members != [] && ReadMembers(DumpMembers(members) + ("}" + rest)) == Done(members, rest)
    ensures ReadValue(Dumps(Obj(members)) + rest) == Done(Obj(members), rest)
  {
    hide ReadItems, ReadMembers, ReadChars, ReadInt, DumpItems, DumpMembers;
    MembersStart(members);
    var s := Dumps(Obj(members)) + rest;
    var body := DumpMembers(members) + ("}" + rest);
    assert s == "{" + body && s[1..] == body;
    SkipNothing(DumpMembers(members), "}" + rest);
  }

  lemma MembersStart(members: seq<Member>)
    requires members != []
    ensures DumpMembers(members) != "" && DumpMembers(members)[0] == '"'
  {
  }

  predicate CanonicalMembers(members: seq<Member>) {
    && (forall i :: 0 <= i < |members| ==> Canonical(members[i].value))
    && (forall i :: 0 < i < |members| ==> Less(members[i - 1].key, members[i].key))
  }

  lemma MemberText(m: Member, after: string)
    ensures var s := Quote(m.key) + ":" + Dumps(m.value) + after;
            var tail := ":" + Dumps(m.value) + after;
            s != "" && s[0] == '"' && s[1..] == EscapeAll(m.key) + ("\"" + tail) && tail[1..] == Dumps(m.value) + after
  {
    hide Dumps, EscapeAll;
  }

  /** The key and value of one member, as they stand before `after`. */
  lemma MemberRead(m: Member, after: string)
    requires Canonical(m.value) && Ends(after)
    ensures var s := Quote(m.key) + ":" + Dumps(m.value) + after;
            && s != "" && s[0] == '"'
            && ReadChars(s[1..]) == Done(m.key, ":" + Dumps(m.value) + after)
            && SkipWhite((":" + Dumps(m.value) + after)[1..]) == Dumps(m.value) + after
            && ReadValue(Dumps(m.value) + after) == Done(m.value, after)
    decreases m, 3
  {
    hide Dumps, ReadValue, ReadChars, EscapeAll, Quote;
    MemberText(m, after);
    CharsRead(m.key, ":" + Dumps(m.value) + after);
    DumpsStart(m.value);
    SkipNothing(Dumps(m.value), after);
    ValueRead(m.value, after);
  }

  lemma {:induction false} MembersRead(members: seq<Member>, rest: string)
    requires members != [] && CanonicalMembers(members)
    ensures ReadMembers(DumpMembers(members) + ("}" + rest)) == Done(members, rest)
    decreases members, 1
  {
    hide Quote, Dumps, ReadChars, ReadValue;
    var m := members[0];
    if |members| == 1 {
      MemberRead(m, "}" + rest);
      assert DumpMembers(members) + ("}" + rest) == Quote(m.key) + ":" + Dumps(m.value) + ("}" + rest);
      assert ("}" + rest)[1..] == rest;
      assert members == [Member(m.key, m.value)];
    } else {
      MembersRead(members[1..], rest) by { MembersTail(members); }
      MoreMembers(members, rest);
    }
  }

  lemma MembersTail(members: seq<Member>)
    requires members != [] && CanonicalMembers(members)
    ensures CanonicalMembers(members[1..])
  {
  }

  lemma MembersText(members: seq<Member>)
    requires |members| > 1
    ensures DumpMembers(members)
         == Quote(members[0].key) + ":" + Dumps(members[0].value) + "," + DumpMembers(members[1..])
  {
    hide Quote, Dumps;
  }

  lemma DumpMore(members: seq<Member>, tail: string)
    requires |members| > 1
    ensures DumpMembers(members) + tail
         == Quote(members[0].key) + ":" + Dumps(members[0].value) + ("," + (DumpMembers(members[1..]) + tail))
  {
    hide Quote, Dumps, DumpMembers;
    MembersText(members);
    Regroup(Quote(members[0].key) + ":" + Dumps(members[0].value), ",", DumpMembers(members[1..]), tail);
  }

  /** Reading one member before a comma, and then the others. */
  lemma ReadFirst(m: Member, more: string, others: seq<Member>, rest: string)
    requires Canonical(m.value) && SkipWhite(more) == more && ReadMembers(more) == Done(others, rest)
    ensures ReadMembers(Quote(m.key) + ":" + Dumps(m.value) + ("," + more)) == Done(SetFirst(others, m), rest)
    decreases m, 4
  {
    hide Dumps, ReadChars, ReadValue, Quote, SetFirst;
    MemberRead(m, "," + more);
    assert ("," + more)[1..] == more;
  }

  lemma MoreMembers(members: seq<Member>, rest: string)
    requires |members| > 1 && CanonicalMembers(members)
    requires ReadMembers(DumpMembers(members[1..]) + ("}" + rest)) == Done(members[1..], rest)
    ensures ReadMembers(DumpMembers(members) + ("}" + rest)) == Done(members, rest)
    decreases members, 0
  {
    hide Dumps, ReadMembers, Quote, DumpMembers;
    var m, others := members[0], members[1..];
    MembersStart(others);
    SkipNothing(DumpMembers(others), "}" + rest);
    ReadFirst(m, DumpMembers(others) + ("}" + rest), others, rest);
    DumpMore(members, "}" + rest);
    SetFirstOfSorted(others, m);
    assert [m] + others == members;
  }

  lemma LiteralRead(v: Value, rest: string)
    requires v.Null? || v.Bool?
    ensures ReadValue(Dumps(v) + rest) == Done(v, rest)
  {
  }

  lemma StringRead(text: string, rest: string)
    ensures ReadValue(Dumps(Str(text)) + rest) == Done(Str(text), rest)
  {
    hide ReadInt, ReadChars, ReadItems, ReadMembers;
    var s := Dumps(Str(text)) + rest;
    assert s[1..] == EscapeAll(text) + ("\"" + rest);
    CharsRead(text, rest);
  }

  lemma {:induction false} ValueRead(v: Value, rest: string)
    requires Canonical(v) && Ends(rest)
    ensures ReadValue(Dumps(v) + rest) == Done(v, rest)
    decreases v, 3
  {
    hide ReadValue, Dumps;
    match v
    case Int(n) => IntRead(n, rest);
    case Str(text) => StringRead(text, rest);
    case Arr(_) => ListRead(v, rest);
    case Obj(_) => ObjectRead(v, rest);
    case _ => LiteralRead(v, rest);
  }

  /** `json.loads(json.dumps(v)) == v`, for every value with its keys in order. */
  lemma LoadsDumps(v: Value)
    requires Canonical(v)
    ensures Loads(Dumps(v)) == Some(v)
  {
    DumpsStart(v);
    SkipNothing(Dumps(v), "");
    assert Dumps(v) + "" == Dumps(v);
    ValueRead(v, "");
  }

  // ---------------------------------------------------------------- the text is plain ASCII

  predicate Ascii(s: string) {
    forall i :: 0 <= i < |s| ==> ' ' <= s[i] <= '~'
  }

  lemma HexAscii(n: int)
    requires 0 <= n < 0x10000
    ensures Ascii(Hex4(n))
  {
  }

  lemma EscapeAscii(c: char)
    ensures Ascii(Escape(c))
  {
    hide Hex4;
    if c as int < 0x10000 {
      HexAscii(c as int);
    } else {
      HexAscii(0xD800 + (c as int - 0x10000) / 1024);
      HexAscii(0xDC00 + (c as int - 0x10000) % 1024);
    }
  }

  lemma {:induction false} EscapeAllAscii(s: string)
    ensures Ascii(EscapeAll(s))
  {
    hide Escape;
    if s != "" {
      EscapeAscii(s[0]);
      EscapeAllAscii(s[1..]);
    }
  }

  lemma {:induction false} DumpsAscii(v: Value)
    ensures Ascii(Dumps(v))
    decreases v, 0
  {
    match v
    case Int(n) => NatTextValue(if n < 0 then 0 - n else n);
    case Str(text) => EscapeAllAscii(text);
    case Arr(items) => ItemsAscii(items);
    case Obj(members) => MembersAscii(members);
    case _ =>
  }

  lemma {:induction false} ItemsAscii(items: seq<Value>)
    ensures Ascii(DumpItems(items))
    decreases items, 1
  {
    if items != [] {
      DumpsAscii(items[0]);
      ItemsAscii(items[1..]);
    }
  }

  lemma MemberAscii(key: string, value: string)
    requires Ascii(EscapeAll(key)) && Ascii(value)
    ensures Ascii(Quote(key) + ":" + value)
  {
  }

  lemma {:induction false} MembersAscii(members: seq<Member>)
    ensures Ascii(DumpMembers(members))
    decreases members, 1
  {
    hide Dumps, Quote;
    if members != [] {
      EscapeAllAscii(members[0].key);
      DumpsAscii(members[0].value);
      MemberAscii(members[0].key, Dumps(members[0].value));
      MembersAscii(members[1..]);
    }
  }
}

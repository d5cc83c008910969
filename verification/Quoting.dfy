/** Follow-up commands as they are printed: hidden characters escaped, tokens quoted for PowerShell. */
module Quoting {
  import opened Wrappers
  import opened Json
  import JsonProofs
  import Seqs

  /** The parts of Unicode's tables that matter: format and separator characters, and word characters. */
  datatype Unicode = Unicode(format: char -> bool, word: char -> bool)

  // ---------------------------------------------------------------- inline text

  /** Control characters, and outside ASCII the format characters and line separators. */
  predicate Hidden(u: Unicode, c: char) {
    c < ' ' || '\U{7f}' <= c <= '\U{9f}' || (c >= '\U{a0}' && u.format(c))
  }

  /** The Python escape of a character that is not printed. */
  function PythonEscape(c: char): string {
    if c == '\t' then "\\t"
    else if c == '\n' then "\\n"
    else if c == '\r' then "\\r"
    else
      var n := c as int;
      if n < 0x100 then "\\x" + Hex4(n)[2..]
      else if n < 0x10000 then "\\u" + Hex4(n)
      else "\\U" + Hex4(n / 0x10000) + Hex4(n % 0x10000)
  }

  /** `inline_text`: hidden characters replaced by their escapes. */
  function InlineText(u: Unicode, s: string): string {
    if s == "" then "" else (if Hidden(u, s[0]) then PythonEscape(s[0]) else [s[0]]) + InlineText(u, s[1..])
  }

  predicate NoHidden(u: Unicode, s: string) {
    forall i :: 0 <= i < |s| ==> !Hidden(u, s[i])
  }

  lemma EscapeVisible(u: Unicode, c: char)
    ensures NoHidden(u, PythonEscape(c)) && 2 <= |PythonEscape(c)| <= 10
  {
  }

  lemma HexDiffers(m: int, n: int)
    requires 0 <= m < 0x10000 && 0 <= n < 0x10000 && Hex4(m) == Hex4(n)
    ensures m == n
  {
    hide Hex4, ReadHex4;
    JsonProofs.Hex4Read(m, "");
    JsonProofs.Hex4Read(n, "");
  }

  lemma HexShape(n: int)
    requires 0 <= n < 0x10000
    ensures |Hex4(n)| == 4 && (n < 0x100 ==> Hex4(n) == "00" + Hex4(n)[2..])
  {
  }

  /** The part of an escape behind its letter. */
  function Digits(n: int): string
    requires 0 <= n < 0x110000
  {
    if n < 0x100 then Hex4(n)[2..] else if n < 0x10000 then Hex4(n) else Hex4(n / 0x10000) + Hex4(n % 0x10000)
  }

  lemma DigitsLength(n: int)
    requires 0 <= n < 0x110000
    ensures |Digits(n)| == if n < 0x100 then 2 else if n < 0x10000 then 4 else 8
  {
    HexShape(n / 0x10000);
    HexShape(n % 0x10000);
    hide Hex4;
  }

  lemma DigitsDiffer(m: int, n: int)
    requires 0 <= m < 0x110000 && 0 <= n < 0x110000 && Digits(m) == Digits(n)
    ensures m == n
  {
    hide Hex4;
    DigitsLength(m);
    DigitsLength(n);
    if m < 0x100 {
      HexShape(m);
      HexShape(n);
      HexDiffers(m, n);
    } else if m < 0x10000 {
      HexDiffers(m, n);
    } else {
      HexShape(m / 0x10000);
      HexShape(n / 0x10000);
      Seqs.SameSum(Hex4(m / 0x10000), Hex4(n / 0x10000), Hex4(m % 0x10000), Hex4(n % 0x10000));
      HexDiffers(m / 0x10000, n / 0x10000);
      HexDiffers(m % 0x10000, n % 0x10000);
    }
  }

  /** Different characters have different escapes, so an escaped name still tells hidden characters apart. */
  lemma EscapesDiffer(c: char, d: char)
    ensures PythonEscape(c) == PythonEscape(d) <==> c == d
  {
    if PythonEscape(c) == PythonEscape(d) {
      EscapeParts(c);
      EscapeParts(d);
      if c != '\t' && c != '\n' && c != '\r' && d != '\t' && d != '\n' && d != '\r' {
        hide PythonEscape, Digits;
        assert PythonEscape(c)[2..] == PythonEscape(d)[2..];
        DigitsDiffer(c as int, d as int);
      }
    }
  }

  lemma EscapeParts(c: char)
    ensures |PythonEscape(c)| == 2 <==> c == '\t' || c == '\n' || c == '\r'
    ensures c != '\t' && c != '\n' && c != '\r' ==> PythonEscape(c)[2..] == Digits(c as int)
  {
    HexShape(c as int % 0x10000);
    HexShape(c as int / 0x10000);
    hide Hex4;
  }

  /** No hidden character is left. */
  lemma {:induction false} InlineVisible(u: Unicode, s: string)
    ensures NoHidden(u, InlineText(u, s))
  {
    hide Hidden;
    if s != "" {
      EscapeVisible(u, s[0]);
      InlineVisible(u, s[1..]);
    }
  }

  lemma {:induction false} InlineLonger(u: Unicode, s: string)
    ensures |s| <= |InlineText(u, s)| <= 10 * |s|
    ensures |InlineText(u, s)| == |s| ==> NoHidden(u, s)
  {
    hide Hidden, PythonEscape;
    if s != "" {
      EscapeVisible(u, s[0]);
      InlineLonger(u, s[1..]);
      assert s == [s[0]] + s[1..];
    }
  }

  lemma {:induction false} InlineKept(u: Unicode, s: string)
    requires NoHidden(u, s)
    ensures InlineText(u, s) == s
  {
    if s != "" {
      InlineKept(u, s[1..]);
    }
  }

  /** Text is shown as it is exactly when nothing in it is hidden. */
  lemma InlineFixes(u: Unicode, s: string)
    ensures InlineText(u, s) == s <==> NoHidden(u, s)
    ensures InlineText(u, InlineText(u, s)) == InlineText(u, s)
  {
    hide InlineText, NoHidden;
    InlineLonger(u, s);
    InlineVisible(u, s);
    InlineKept(u, InlineText(u, s));
    if NoHidden(u, s) {
      InlineKept(u, s);
    }
  }

  // ---------------------------------------------------------------- quoting

  predicate BareChar(u: Unicode, c: char) {
    || 'a' <= c <= 'z' || 'A' <= c <= 'Z' || '0' <= c <= '9' || c == '_'
    || c == '.' || c == '/' || c == ':' || c == '@' || c == '=' || c == ',' || c == '+' || c == '%' || c == '-'
    || (c >= '\U{80}' && u.word(c))
  }

  predicate Bare(u: Unicode, token: string) {
    token != "" && forall i :: 0 <= i < |token| ==> BareChar(u, token[i])
  }

  /** Every single quote doubled. */
  function Doubled(s: string): string {
    if s == "" then "" else (if s[0] == '\'' then "''" else [s[0]]) + Doubled(s[1..])
  }

  function FormatToken(u: Unicode, token: string): string {
    if Bare(u, token) then token else "'" + Doubled(token) + "'"
  }

  /** `format_command` for PowerShell. */
  function FormatCommand(u: Unicode, tokens: seq<string>): string {
    if tokens == [] then ""
    else if |tokens| == 1 then FormatToken(u, tokens[0])
    else FormatToken(u, tokens[0]) + " " + FormatCommand(u, tokens[1..])
  }

  predicate SafeCommand(u: Unicode, command: seq<string>) {
    forall i :: 0 <= i < |command| ==> InlineText(u, command[i]) == command[i]
  }

  /** The commands of a recovery whose every token is printed as it is. */
  function SafeCommands(u: Unicode, commands: seq<seq<string>>): seq<seq<string>> {
    if commands == [] then []
    else
      (if SafeCommand(u, commands[0]) then [commands[0]] else []) + SafeCommands(u, commands[1..])
  }

  // ---------------------------------------------------------------- reading a command line

  /** The text of a quoted part, read after its opening quote, and what follows the closing one. */
  function ReadQuoted(s: string): (r: Option<(string, string)>)
    ensures r.Some? ==> |r.value.1| < |s|
  {
    if s == "" then None
    else if s[0] == '\'' && (|s| == 1 || s[1] != '\'') then Some(("", s[1..]))
    else
      var width := if s[0] == '\'' then 2 else 1;
      var more := ReadQuoted(s[width..]);
      if more.None? then None else Some(([s[0]] + more.value.0, more.value.1))
  }

  /** A word up to a space or the end: bare characters and quoted parts in any mixture. */
  function ReadWord(s: string): (r: Option<(string, string)>)
    ensures r.Some? ==> |r.value.1| <= |s|
    ensures r.Some? && s != "" && s[0] != ' ' ==> |r.value.1| < |s|
    decreases |s|
  {
    if s == "" || s[0] == ' ' then Some(("", s))
    else if s[0] == '\'' then
      var quoted := ReadQuoted(s[1..]);
      if quoted.None? then None
      else
        var more := ReadWord(quoted.value.1);
        if more.None? then None else Some((quoted.value.0 + more.value.0, more.value.1))
    else
      var more := ReadWord(s[1..]);
      if more.None? then None else Some(([s[0]] + more.value.0, more.value.1))
  }

  function ReadCommand(s: string): Option<seq<string>>
    decreases |s|
  {
    if s == "" then Some([])
    else if s[0] == ' ' then ReadCommand(s[1..])
    else
      var word := ReadWord(s);
      if word.None? then None
      else
        var more := ReadCommand(word.value.1);
        if more.None? then None else Some([word.value.0] + more.value)
  }

  predicate WordEnds(rest: string) {
    rest == "" || rest[0] == ' '
  }

  lemma QuotedStep(c: char, tail: string, text: string, after: string)
    requires ReadQuoted(tail) == Some((text, after))
    ensures ReadQuoted((if c == '\'' then "''" else [c]) + tail) == Some(([c] + text, after))
  {
  }

  lemma QuoteEnds(rest: string)
    requires WordEnds(rest)
    ensures ReadQuoted("'" + rest) == Some(("", rest))
  {
  }

  lemma {:induction false} DoubledRead(s: string, rest: string)
    requires WordEnds(rest)
    ensures ReadQuoted(Doubled(s) + ("'" + rest)) == Some((s, rest))
  {
    hide ReadQuoted, WordEnds;
    var end := "'" + rest;
    if s == "" {
      QuoteEnds(rest);
      assert Doubled(s) + end == end;
    } else {
      DoubledRead(s[1..], rest);
      var first := if s[0] == '\'' then "''" else [s[0]];
      QuotedStep(s[0], Doubled(s[1..]) + end, s[1..], rest);
      assert Doubled(s) + end == first + (Doubled(s[1..]) + end);
      assert s == [s[0]] + s[1..];
    }
  }

  lemma {:induction false} BareRead(u: Unicode, s: string, rest: string)
    requires WordEnds(rest) && forall i :: 0 <= i < |s| ==> BareChar(u, s[i])
    ensures ReadWord(s + rest) == Some((s, rest))
  {
    if s == "" {
      assert s + rest == rest;
    } else {
      assert (s + rest)[1..] == s[1..] + rest && (s + rest)[0] == s[0];
      BareRead(u, s[1..], rest);
      assert s == [s[0]] + s[1..];
    }
  }

  lemma TokenRead(u: Unicode, token: string, rest: string)
    requires WordEnds(rest)
    ensures ReadWord(FormatToken(u, token) + rest) == Some((token, rest))
    ensures FormatToken(u, token) != "" && FormatToken(u, token)[0] != ' '
  {
    if Bare(u, token) {
      BareRead(u, token, rest);
    } else {
      hide Doubled, ReadQuoted;
      DoubledRead(token, rest);
      var whole := FormatToken(u, token) + rest;
      assert whole[1..] == Doubled(token) + ("'" + rest);
      assert ReadWord(rest) == Some(("", rest));
      assert token + "" == token;
    }
  }

  lemma FirstWordRead(first: string, token: string, rest: string, others: seq<string>)
    requires first != "" && first[0] != ' ' && ReadWord(first + rest) == Some((token, rest))
    requires ReadCommand(rest) == Some(others)
    ensures ReadCommand(first + rest) == Some([token] + others)
  {
  }

  /** Reading a printed command gives exactly its tokens, empty ones and quotes included. */
  lemma {:induction false} CommandRead(u: Unicode, tokens: seq<string>)
    ensures ReadCommand(FormatCommand(u, tokens)) == Some(tokens)
  {
    hide ReadWord, FormatToken;
    if tokens != [] {
      var first := FormatToken(u, tokens[0]);
      var rest := if |tokens| == 1 then "" else " " + FormatCommand(u, tokens[1..]);
      TokenRead(u, tokens[0], rest);
      if |tokens| > 1 {
        CommandRead(u, tokens[1..]);
        assert rest[1..] == FormatCommand(u, tokens[1..]);
      }
      assert ReadCommand(rest) == Some(tokens[1..]);
      FirstWordRead(first, tokens[0], rest, tokens[1..]);
      assert FormatCommand(u, tokens) == first + rest && [tokens[0]] + tokens[1..] == tokens;
    }
  }

  /** Different commands are printed differently. */
  lemma CommandsDiffer(u: Unicode, tokens: seq<string>, other: seq<string>)
    ensures FormatCommand(u, tokens) == FormatCommand(u, other) <==> tokens == other
  {
    CommandRead(u, tokens);
    CommandRead(u, other);
  }

  lemma {:induction false} DoubledVisible(u: Unicode, s: string)
    requires NoHidden(u, s)
    ensures NoHidden(u, Doubled(s))
  {
    if s != "" {
      DoubledVisible(u, s[1..]);
    }
  }

  lemma {:induction false} FormatVisible(u: Unicode, tokens: seq<string>)
    requires forall i :: 0 <= i < |tokens| ==> NoHidden(u, tokens[i])
    ensures NoHidden(u, FormatCommand(u, tokens))
  {
    if tokens != [] {
      hide Doubled;
      DoubledVisible(u, tokens[0]);
      FormatVisible(u, tokens[1..]);
    }
  }

  /**
    The commands a recovery prints are those of the given ones, in order, that hold no hidden character
    in any token; printing them adds none, so each line is shown as it is and reads back as its tokens.
   */
  lemma {:induction false} SafeCommandsPrinted(u: Unicode, commands: seq<seq<string>>, i: nat)
    requires i < |SafeCommands(u, commands)|
    ensures var command := SafeCommands(u, commands)[i];
            && command in commands
            && InlineText(u, FormatCommand(u, command)) == FormatCommand(u, command)
            && ReadCommand(FormatCommand(u, command)) == Some(command)
  {
    hide InlineText, FormatCommand, ReadCommand, NoHidden;
    var first := commands[0];
    if i == 0 && SafeCommand(u, first) {
      forall k | 0 <= k < |first| ensures NoHidden(u, first[k]) {
        InlineFixes(u, first[k]);
      }
      FormatVisible(u, first);
      InlineFixes(u, FormatCommand(u, first));
      CommandRead(u, first);
    } else {
      SafeCommandsPrinted(u, commands[1..], if SafeCommand(u, first) then i - 1 else i);
    }
  }

  /** A command is left out exactly when one of its tokens holds a hidden character. */
  lemma {:induction false} SafeCommandsKeep(u: Unicode, commands: seq<seq<string>>, i: nat)
    requires i < |commands|
    ensures commands[i] in SafeCommands(u, commands)
       <==> forall k :: 0 <= k < |commands[i]| ==> NoHidden(u, commands[i][k])
  {
    hide InlineText, NoHidden;
    forall k | 0 <= k < |commands[i]|
      ensures InlineText(u, commands[i][k]) == commands[i][k] <==> NoHidden(u, commands[i][k])
    {
      InlineFixes(u, commands[i][k]);
    }
    if commands[i] in SafeCommands(u, commands) {
      OnlySafe(u, commands, commands[i]);
    }
    if i > 0 {
      SafeCommandsKeep(u, commands[1..], i - 1);
    }
  }

  lemma {:induction false} OnlySafe(u: Unicode, commands: seq<seq<string>>, command: seq<string>)
    requires command in SafeCommands(u, commands)
    ensures SafeCommand(u, command)
  {
    hide InlineText;
    if command in SafeCommands(u, commands[1..]) {
      OnlySafe(u, commands[1..], command);
    }
  }
}

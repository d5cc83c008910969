/** The normal form of a server address reads back as itself, and tells addresses apart. */
module AddressProofs {
  import opened Wrappers
  import opened PyText
  import opened Json
  import opened JsonProofs
  import opened ServerAddress
  import Seqs

  // ---------------------------------------------------------------- text

  lemma {:induction false} PartitionParts(s: string, c: char)
    ensures c in s ==> s == Before(s, c) + [c] + After(s, c)
    ensures c !in s ==> Before(s, c) == s && After(s, c) == ""
    ensures c !in Before(s, c)
  {
    if s != "" && s[0] != c {
      PartitionParts(s[1..], c);
      assert s == [s[0]] + s[1..];
    }
  }

  lemma {:induction false} PartitionSum(a: string, c: char, b: string)
    requires c !in a
    ensures Before(a + [c] + b, c) == a && After(a + [c] + b, c) == b
  {
    var s := a + [c] + b;
    if a != "" {
      assert s[1..] == a[1..] + [c] + b;
      PartitionSum(a[1..], c, b);
      assert a == [a[0]] + a[1..];
    }
  }

  lemma {:induction false} LowerSame(s: string)
    requires forall i :: 0 <= i < |s| ==> LowerChar(s[i]) == s[i]
    ensures Lower(s) == s
  {
    if s != "" {
      LowerSame(s[1..]);
    }
  }

  lemma {:induction false} HostNameParts(s: string)
    ensures |HostName(s)| == |s| && HostName(HostName(s)) == HostName(s) && Lower(HostName(s)) == Lower(s)
    ensures forall i :: 0 <= i < |s| ==> HostName(s)[i] == s[i] || HostName(s)[i] == LowerChar(s[i])
  {
    if s != "" && s[0] != '%' {
      HostNameParts(s[1..]);
      assert HostName(s)[1..] == HostName(s[1..]);
    }
  }

  lemma HostNameHas(s: string, c: char)
    requires !IsAlpha(c)
    ensures c in HostName(s) <==> c in s
  {
  }

  lemma {:induction false} HexThenDotKept(s: string, some: bool)
    requires HexThenDot(s, some)
    ensures HexThenDot(HostName(s), some)
  {
    HostNameParts(s);
    if s[0] != '.' {
      HexThenDotKept(s[1..], true);
      assert HostName(s)[1..] == HostName(s[1..]);
    }
  }

  /** Bracketed host text stays allowed in brackets in its normal form. */
  lemma BracketedKept(names: Names, s: string)
    requires Bracketed(names, s)
    ensures Bracketed(names, HostName(s))
  {
    hide HexThenDot, Lower;
    HostNameParts(s);
    if s != "" && s[0] == 'v' {
      HexThenDotKept(s[1..], false);
      assert HostName(s)[1..] == HostName(s[1..]);
    } else {
      HostNameHas(s, ':');
    }
  }

  // ---------------------------------------------------------------- what an accepted host looks like

  predicate HostChar(c: char) {
    33 <= c as int < 127 && !EndsNetloc(c) && c != '@'
  }

  predicate AllHostChars(s: string) {
    forall i :: 0 <= i < |s| ==> HostChar(s[i])
  }

  /** A host as it may be written, plainly or in brackets. */
  predicate Spelled(names: Names, written: string) {
    && written != "" && AllHostChars(written) && ']' !in written
    && (('[' !in written && ':' !in written) || Bracketed(names, written))
  }

  /** A host in normal form. */
  predicate Hosted(names: Names, host: string) {
    Spelled(names, host) && HostName(host) == host
  }

  lemma {:induction false} NetlocParts(s: string)
    ensures Netloc(s) <= s && forall i :: 0 <= i < |Netloc(s)| ==> !EndsNetloc(Netloc(s)[i])
  {
    if s != "" && !EndsNetloc(s[0]) {
      NetlocParts(s[1..]);
    }
  }

  lemma NoUser(netloc: string)
    requires '@' !in netloc
    ensures AfterLast(netloc, '@') == netloc
  {
  }

  lemma WrittenHost(names: Names, netloc: string)
    requires AllHostChars(netloc) && HostPort(names, netloc).Some? && HostPort(names, netloc).value.0 != ""
    ensures Spelled(names, HostPort(names, netloc).value.0)
  {
    hide Bracketed, AfterLast, Before, After;
    NoUser(netloc);
    PartitionParts(netloc, '[');
    PartitionParts(netloc, ':');
    if '[' in netloc {
      var behind := After(netloc, '[');
      assert behind == netloc[|netloc| - |behind|..];
      PartitionParts(behind, ']');
      assert AllHostChars(behind);
    }
  }

  lemma NormalHost(names: Names, written: string)
    requires Spelled(names, written)
    ensures Hosted(names, HostName(written))
  {
    hide Bracketed, HostName;
    HostNameParts(written);
    HostNameHas(written, '[');
    HostNameHas(written, ':');
    HostNameHas(written, ']');
    if Bracketed(names, written) {
      BracketedKept(names, written);
    }
  }

  lemma PartsShape(names: Names, parts: Parts, notes: seq<Note>)
    requires ReadParts(names, parts, notes).Ok?
    requires parts.netloc != "" ==> HostPort(names, parts.netloc).Some?
    requires InAscii(parts.netloc) && '@' !in parts.netloc ==> AllHostChars(parts.netloc)
    ensures var a := ReadParts(names, parts, notes).value;
            && KnownScheme(a.scheme) && Hosted(names, a.host) && 0 < a.port <= 65535
            && a.origin == Origin(a.scheme, a.host, a.port)
  {
    hide HostPort, HostName, Origin, ReadPort, Hosted, Spelled, KnownScheme, InAscii, AllHostChars;
    NoLocation(names);
    WrittenHost(names, parts.netloc);
    NormalHost(names, Located(names, parts.netloc).0);
    PortRange(Located(names, parts.netloc).1);
  }

  lemma NoLocation(names: Names)
    ensures HostPort(names, "") == Some(("", ""))
  {
  }

  lemma AbsoluteShape(names: Names, raw: string, notes: seq<Note>)
    requires Printable(raw) && ReadAbsolute(names, raw, notes).Ok?
    ensures var a := ReadAbsolute(names, raw, notes).value;
            && KnownScheme(a.scheme) && Hosted(names, a.host) && 0 < a.port <= 65535
            && a.origin == Origin(a.scheme, a.host, a.port)
  {
    hide UrlSplit, ReadParts, HostPort, Hosted, Origin, KnownScheme, Printable, InAscii, AllHostChars;
    NetlocOf(names, raw);
    PartsShape(names, UrlSplit(names, raw).value, notes);
  }

  lemma PortRange(text: string)
    ensures ReadPort(text).Some? && ReadPort(text).value.Some? ==> ReadPort(text).value.value <= 65535
  {
  }

  lemma PrintableParts(raw: string)
    requires Printable(raw)
    ensures Printable(After(raw, ':'))
  {
  }

  lemma NetlocOf(names: Names, raw: string)
    requires Printable(raw) && UrlSplit(names, raw).Some?
    ensures var netloc := UrlSplit(names, raw).value.netloc;
            && (InAscii(netloc) && '@' !in netloc ==> AllHostChars(netloc))
            && (netloc != "" ==> HostPort(names, netloc).Some?)
  {
    hide HostPort, Rest, Before, After, Netloc;
    PrintableParts(raw);
    var url := if ':' in raw && SchemeText(Before(raw, ':')) then After(raw, ':') else raw;
    if "//" <= url {
      NetlocParts(url[2..]);
    }
  }

  /** An accepted address: a known scheme, a host in normal form and a port that is not 0. */
  lemma ParsedShape(names: Names, text: string)
    requires Parse(names, text).Ok?
    ensures var a := Parse(names, text).value;
            && KnownScheme(a.scheme) && Hosted(names, a.host) && 0 < a.port <= 65535
            && a.origin == Origin(a.scheme, a.host, a.port)
  {
    hide ReadAbsolute, UrlSplit, Located, HostName, Strip, Contains, Hosted, Origin, KnownScheme;
    var raw := Strip(text);
    if Contains(raw, "://") {
      AbsoluteShape(names, raw, []);
    } else {
      var scheme := AssumedScheme(names, raw).value;
      AbsoluteShape(names, scheme + "://" + raw, [ReadAs(scheme)]);
    }
  }

  // ---------------------------------------------------------------- reading a normal form

  /** The host and port text behind the scheme of an origin. */
  function HostAndPort(scheme: string, host: string, port: nat): string
  {
    HostText(host) + PortText(scheme, port)
  }

  lemma PortTextShape(scheme: string, port: nat)
    ensures var text := PortText(scheme, port);
            && AllHostChars(text) && '@' !in text && '[' !in text && ']' !in text
            && (text != "" ==> text[0] == ':' && text == [':'] + NatText(port) && AllDigits(NatText(port)))
  {
    NatTextValue(port);
    hide NatText;
  }

  lemma PlainRead(names: Names, host: string, text: string)
    requires '@' !in host && '[' !in host && ']' !in host && ':' !in host
    requires '@' !in text && '[' !in text && ']' !in text && (text != "" ==> text[0] == ':')
    ensures HostPort(names, host + text) == Some((host, if text == "" then "" else text[1..]))
  {
    hide Bracketed;
    NoUser(host + text);
    PartitionParts(host + text, ':');
    if text == "" {
      assert host + text == host;
    } else {
      assert host + text == host + [':'] + text[1..];
      PartitionSum(host, ':', text[1..]);
    }
  }

  lemma BracketedRead(names: Names, host: string, text: string)
    requires '@' !in host && ']' !in host && Bracketed(names, host)
    requires '@' !in text && '[' !in text && ']' !in text && (text != "" ==> text[0] == ':')
    ensures HostPort(names, "[" + host + "]" + text) == Some((host, if text == "" then "" else text[1..]))
  {
    hide Bracketed, Before, After, AfterLast;
    var netloc := "[" + host + "]" + text;
    NoUser(netloc);
    assert netloc == "" + ['['] + (host + [']'] + text);
    PartitionSum("", '[', host + [']'] + text);
    PartitionSum(host, ']', text);
    if text == "" {
      PartitionParts("", ':');
    } else {
      assert text == "" + [':'] + text[1..];
      PartitionSum("", ':', text[1..]);
    }
  }

  /** The host of an origin fits its place: only in brackets may it hold an opening bracket. */
  predicate Fits(host: string) {
    '[' in host ==> ':' in host
  }

  /** What may stand behind the host: nothing, or a colon and the text of a port that is not 0. */
  predicate PortPart(text: string) {
    text == ""
    || (text[0] == ':' && ReadPort(text[1..]).Some? && ReadPort(text[1..]).value != Some(0))
  }

  function PortOf(scheme: string, text: string): nat {
    if text == "" || ReadPort(text[1..]).None? || ReadPort(text[1..]).value.None? then DefaultPort(scheme)
    else ReadPort(text[1..]).value.value
  }

  lemma PortPartShape(text: string)
    requires PortPart(text)
    ensures AllHostChars(text) && '@' !in text && '[' !in text && ']' !in text && (text != "" ==> text[0] == ':')
  {
    assert text != "" ==> AllDigits(text[1..]);
    assert text != "" ==> text == [':'] + text[1..];
    hide DigitsValue;
  }

  lemma LocationChars(written: string, portText: string)
    requires AllHostChars(written) && PortPart(portText) && written != ""
    ensures var netloc := HostText(written) + portText;
            AllHostChars(netloc) && '@' !in netloc && netloc != "" && '@' !in written
    ensures '@' !in portText && '[' !in portText && ']' !in portText && (portText != "" ==> portText[0] == ':')
  {
    PortPartShape(portText);
    hide PortPart;
  }

  lemma LocationRead(names: Names, written: string, portText: string)
    requires Spelled(names, written) && PortPart(portText)
    ensures var netloc := HostText(written) + portText;
            && AllHostChars(netloc) && '@' !in netloc && netloc != ""
            && HostPort(names, netloc)
               == if Fits(written) then Some((written, if portText == "" then "" else portText[1..])) else None
  {
    LocationChars(written, portText);
    hide PortPart, HostPort, Bracketed, AllHostChars;
    if ':' in written {
      BracketedRead(names, written, portText);
    } else if '[' !in written {
      PlainRead(names, written, portText);
    } else {
      BracketAlone(names, written + portText);
    }
  }

  lemma BracketAlone(names: Names, netloc: string)
    requires '[' in netloc && ']' !in netloc
    ensures HostPort(names, netloc).None?
  {
  }

  lemma PortRead(scheme: string, port: nat)
    requires 0 < port <= 65535
    ensures PortPart(PortText(scheme, port)) && PortOf(scheme, PortText(scheme, port)) == port
    ensures PortPart(":" + NatText(port)) && PortOf(scheme, ":" + NatText(port)) == port
  {
    NatTextValue(port);
    assert (":" + NatText(port))[1..] == NatText(port);
    hide NatText, DigitsValue;
  }

  lemma {:induction false} NetlocWhole(s: string, rest: string)
    requires AllHostChars(s) && (rest == "" || EndsNetloc(rest[0]))
    ensures Netloc(s + rest) == s
  {
    if s == "" {
      assert s + rest == rest;
    } else {
      assert (s + rest)[1..] == s[1..] + rest;
      NetlocWhole(s[1..], rest);
    }
  }

  lemma {:induction false} LowerParts(s: string)
    ensures |Lower(s)| == |s| && forall i :: 0 <= i < |s| ==> Lower(s)[i] == LowerChar(s[i])
  {
    if s != "" {
      LowerParts(s[1..]);
    }
  }

  /** A scheme may be written in any case. */
  lemma SchemeWord(word: string)
    requires KnownScheme(Lower(word))
    ensures SchemeText(word) && AllHostChars(word) && ':' !in word
  {
    LowerParts(word);
    assert forall i :: 0 <= i < |word| ==> 'h' <= Lower(word)[i] <= 't';
    assert forall i :: 0 <= i < |word| ==> IsAlpha(word[i]);
  }

  lemma SchemeLower(scheme: string)
    requires KnownScheme(scheme)
    ensures Lower(scheme) == scheme
  {
    assert forall i :: 0 <= i < |scheme| ==> 'h' <= scheme[i] <= 't';
    LowerSame(scheme);
  }

  lemma SchemeRead(scheme: string, behind: string)
    requires ':' !in scheme
    ensures var raw := scheme + "://" + behind;
            && ':' in raw && Before(raw, ':') == scheme && After(raw, ':') == "//" + behind
            && raw[|scheme|..] == "://" + behind
  {
    var raw := scheme + "://" + behind;
    assert raw == scheme + [':'] + ("//" + behind);
    PartitionSum(scheme, ':', "//" + behind);
    assert raw[|scheme|] == ':';
  }

  lemma UrlParts(names: Names, raw: string, scheme: string, netloc: string, rest: string)
    requires AllHostChars(netloc) && (rest == "" || EndsNetloc(rest[0]))
    requires var hasScheme := ':' in raw && SchemeText(Before(raw, ':'));
             && scheme == (if hasScheme then Lower(Before(raw, ':')) else "")
             && (if hasScheme then After(raw, ':') else raw) == "//" + (netloc + rest)
    ensures UrlSplit(names, raw)
         == if HostPort(names, netloc).None? then None else Some(Parts(scheme, netloc, Rest(rest)))
  {
    hide Before, After, Netloc, HostPort, SchemeText, Rest;
    var url := "//" + (netloc + rest);
    NetlocWhole(netloc, rest);
    assert url[2..] == netloc + rest;
    assert url[2 + |netloc|..] == rest;
  }

  lemma SplitRead(names: Names, word: string, netloc: string, rest: string)
    requires KnownScheme(Lower(word)) && AllHostChars(netloc) && (rest == "" || EndsNetloc(rest[0]))
    ensures UrlSplit(names, word + "://" + (netloc + rest))
         == if HostPort(names, netloc).None? then None else Some(Parts(Lower(word), netloc, Rest(rest)))
  {
    SchemeWord(word);
    SchemeRead(word, netloc + rest);
    hide Before, After, Netloc, HostPort, SchemeText, Rest, UrlSplit, EndsNetloc, Lower;
    UrlParts(names, word + "://" + (netloc + rest), Lower(word), netloc, rest);
  }

  lemma BareSplitRead(names: Names, netloc: string, rest: string)
    requires AllHostChars(netloc) && (rest == "" || EndsNetloc(rest[0]))
    ensures UrlSplit(names, "//" + (netloc + rest))
         == if HostPort(names, netloc).None? then None else Some(Parts("", netloc, Rest(rest)))
  {
    var raw := "//" + (netloc + rest);
    PartitionParts(raw, ':');
    assert Before(raw, ':') != "" ==> Before(raw, ':')[0] == raw[0] == '/';
    hide Before, After, Netloc, HostPort, Rest, UrlSplit, EndsNetloc;
    UrlParts(names, raw, "", netloc, rest);
  }

  lemma {:induction false} ContainsLater(s: string, part: string, i: nat)
    requires i <= |s| && part <= s[i..]
    ensures Contains(s, part)
  {
    if i > 0 {
      assert s[1..][i - 1..] == s[i..];
      ContainsLater(s[1..], part, i - 1);
    }
  }

  lemma HostAscii(s: string)
    requires AllHostChars(s)
    ensures InAscii(s) && Printable(s) && forall i :: 0 <= i < |s| ==> !IsSpace(s[i])
  {
  }

  lemma {:induction false} RStripStart(s: string)
    requires s != "" && !IsSpace(s[0])
    ensures RStrip(s) != "" && RStrip(s)[0] == s[0]
    decreases |s|
  {
    if IsSpace(s[|s| - 1]) {
      RStripStart(s[..|s| - 1]);
    }
  }

  /** Whitespace behind an address is stripped from what follows its location. */
  lemma StripBehind(front: string, rest: string)
    requires front != "" && AllHostChars(front[|front| - 1..]) && !IsSpace(front[0])
    requires rest == "" || EndsNetloc(rest[0])
    ensures Strip(front + rest) == front + RStrip(rest)
    ensures RStrip(rest) == "" || EndsNetloc(RStrip(rest)[0])
  {
    var after := RStripParts(rest);
    HostAscii(front[|front| - 1..]);
    assert !IsSpace(front[|front| - 1]) by { assert front[|front| - 1] == front[|front| - 1..][0]; }
    if rest != "" {
      RStripStart(rest);
    }
    var kept := RStrip(rest);
    hide RStrip, Strip, IsSpace;
    assert "" + (front + kept) + after == front + rest;
    StripPadded("", front + kept, after);
  }

  lemma ReadLocated(names: Names, scheme: string, written: string, portText: string, dropped: string, notes: seq<Note>)
    requires KnownScheme(scheme) && Spelled(names, written) && Fits(written) && PortPart(portText)
    ensures var port, host := PortOf(scheme, portText), HostName(written);
            ReadParts(names, Parts(scheme, HostText(written) + portText, dropped), notes)
            == Ok(Address(Origin(scheme, host, port), scheme, host, port, notes + Noted(dropped)))
  {
    var netloc := HostText(written) + portText;
    assert written != "";
    assert ReadPort("") == Some(None);
    LocationRead(names, written, portText);
    HostAscii(netloc);
    hide HostText, HostPort, HostName, Origin, Spelled, ReadPort, Fits, KnownScheme, DefaultPort, AllHostChars, InAscii,
         Printable;
  }

  /** What is noted of a path, query and fragment. */
  function Noted(dropped: string): seq<Note> {
    if dropped == "" then [] else [Ignored(dropped)]
  }

  lemma AbsoluteIs(names: Names, raw: string, notes: seq<Note>)
    ensures ReadAbsolute(names, raw, notes)
         == if UrlSplit(names, raw).None? then Err(Invalid) else ReadParts(names, UrlSplit(names, raw).value, notes)
  {
    hide UrlSplit, ReadParts;
  }

  lemma HasSlashes(word: string, behind: string)
    ensures Contains(word + "://" + behind, "://")
  {
    hide Contains;
    var raw := word + "://" + behind;
    assert "://" <= raw[|word|..];
    ContainsLater(raw, "://", |word|);
  }

  lemma FrontStripped(word: string, netloc: string, rest: string)
    requires KnownScheme(Lower(word)) && AllHostChars(netloc) && netloc != "" && (rest == "" || EndsNetloc(rest[0]))
    ensures RStrip(rest) == "" || EndsNetloc(RStrip(rest)[0])
    ensures Strip(word + "://" + (netloc + rest)) == word + "://" + (netloc + RStrip(rest))
  {
    var front := word + "://" + netloc;
    SchemeWord(word);
    HostAscii(word);
    assert word != "" by { LowerParts(word); }
    hide Strip, RStrip, IsSpace, Lower, SchemeText, KnownScheme, EndsNetloc;
    assert front[0] == word[0] && front[|front| - 1..] == netloc[|netloc| - 1..];
    StripBehind(front, rest);
    assert front + RStrip(rest) == word + "://" + (netloc + RStrip(rest));
    assert front + rest == word + "://" + (netloc + rest);
  }

  lemma FrontPrintable(word: string, netloc: string, kept: string)
    requires KnownScheme(Lower(word)) && AllHostChars(netloc)
    ensures Printable(word + "://" + (netloc + kept)) <==> Printable(kept)
  {
    SchemeWord(word);
    HostAscii(word);
    HostAscii(netloc);
    assert Printable("://");
    PrintableSum(word + "://", netloc + kept);
    PrintableSum(word, "://");
    PrintableSum(netloc, kept);
  }

  /** An address with a scheme is read without its outer whitespace. */
  lemma HasScheme(names: Names, word: string, netloc: string, rest: string)
    requires KnownScheme(Lower(word)) && AllHostChars(netloc) && netloc != "" && (rest == "" || EndsNetloc(rest[0]))
    ensures RStrip(rest) == "" || EndsNetloc(RStrip(rest)[0])
    ensures Parse(names, word + "://" + (netloc + rest))
         == if Printable(RStrip(rest)) then ReadAbsolute(names, word + "://" + (netloc + RStrip(rest)), [])
            else Err(ControlCharacters)
  {
    FrontStripped(word, netloc, rest);
    FrontPrintable(word, netloc, RStrip(rest));
    HasSlashes(word, netloc + RStrip(rest));
    hide Strip, RStrip, Lower, KnownScheme, EndsNetloc, ReadAbsolute, AllHostChars, Contains, Printable;
  }

  lemma PrintableSum(a: string, b: string)
    ensures Printable(a + b) <==> Printable(a) && Printable(b)
  {
    assert forall i :: 0 <= i < |a| ==> (a + b)[i] == a[i];
    assert forall i :: 0 <= i < |b| ==> (a + b)[|a| + i] == b[i];
  }

  /**
    Every way to write an address with a scheme, in any case and with any port text: the host becomes its
    normal form, and a path, query or fragment changes nothing but is noted unless empty. Only control
    characters in what is not stripped make it refused.
   */
  lemma AddressRead(names: Names, word: string, written: string, portText: string, rest: string)
    requires KnownScheme(Lower(word)) && Spelled(names, written) && Fits(written) && PortPart(portText)
    requires rest == "" || EndsNetloc(rest[0])
    ensures var scheme, host, port := Lower(word), HostName(written), PortOf(Lower(word), portText);
            Parse(names, word + "://" + (HostText(written) + portText + rest))
            == if Printable(RStrip(rest)) then
                 Ok(Address(Origin(scheme, host, port), scheme, host, port, Noted(Rest(RStrip(rest)))))
               else Err(ControlCharacters)
  {
    hide *;
    var netloc, kept := HostText(written) + portText, RStrip(rest);
    LocationRead(names, written, portText);
    HasScheme(names, word, netloc, rest);
    SplitRead(names, word, netloc, kept);
    AbsoluteIs(names, word + "://" + (netloc + kept), []);
    ReadLocated(names, Lower(word), written, portText, Rest(kept), []);
    assert [] + Noted(Rest(kept)) == Noted(Rest(kept));
  }

  lemma NothingDropped()
    ensures RStrip("") == "" && Printable("") && Rest("") == "" && Noted("") == []
  {
  }

  /** A host with an opening bracket outside brackets is refused. */
  lemma AddressRefused(names: Names, word: string, written: string, portText: string)
    requires KnownScheme(Lower(word)) && Spelled(names, written) && !Fits(written) && PortPart(portText)
    ensures Parse(names, word + "://" + (HostText(written) + portText)) == Err(Invalid)
  {
    hide *;
    var netloc := HostText(written) + portText;
    NothingDropped();
    LocationRead(names, written, portText);
    HasScheme(names, word, netloc, "");
    assert netloc + "" == netloc;
    SplitRead(names, word, netloc, "");
    AbsoluteIs(names, word + "://" + netloc, []);
  }

  lemma OriginSpelled(scheme: string, host: string, port: nat)
    ensures Origin(scheme, host, port) == scheme + "://" + HostAndPort(scheme, host, port)
  {
  }

  lemma OriginRead(names: Names, scheme: string, host: string, port: nat)
    requires KnownScheme(scheme) && Hosted(names, host) && 0 < port <= 65535
    ensures Contains(Origin(scheme, host, port), "://")
    ensures Parse(names, Origin(scheme, host, port))
         == if Fits(host) then Ok(Address(Origin(scheme, host, port), scheme, host, port, [])) else Err(Invalid)
  {
    assert HostName(host) == host && Spelled(names, host);
    hide *;
    var netloc := HostAndPort(scheme, host, port);
    OriginSpelled(scheme, host, port);
    SchemeLower(scheme);
    PortRead(scheme, port);
    assert netloc == HostText(host) + PortText(scheme, port) by { LocationIs(scheme, host, port); }
    HasSlashes(scheme, netloc);
    NothingDropped();
    if Fits(host) {
      assert netloc + "" == netloc;
      AddressRead(names, scheme, host, PortText(scheme, port), "");
    } else {
      AddressRefused(names, scheme, host, PortText(scheme, port));
    }
  }

  lemma LocationIs(scheme: string, host: string, port: nat)
    ensures HostAndPort(scheme, host, port) == HostText(host) + PortText(scheme, port)
  {
  }

  /**
    The origin of an accepted address is accepted with the same origin, host and port and nothing
    noted, exactly when its host holds no opening bracket without a colon.
   */
  lemma NormalForm(names: Names, text: string)
    requires Parse(names, text).Ok?
    ensures var a := Parse(names, text).value;
            Parse(names, a.origin) == Ok(a.(notes := [])) <==> Fits(a.host)
    ensures var a := Parse(names, text).value;
            ServerOrigin(names, a.origin) == if Fits(a.host) then Some(a.origin) else None
  {
    hide Parse, Hosted, Fits;
    ParsedShape(names, text);
    var a := Parse(names, text).value;
    OriginRead(names, a.scheme, a.host, a.port);
  }

  lemma FutureText()
    ensures IsFuture("v1.a[b")
  {
  }

  lemma FutureHost(names: Names)
    ensures var host := "v1.a[b"; Bracketed(names, host) && Hosted(names, host) && !Fits(host)
  {
    hide HexThenDot, HostName;
    var host := "v1.a[b";
    FutureText();
    SmallHost(host);
    assert host[4] == '[';
  }

  lemma {:induction false} SmallHost(s: string)
    requires forall i :: 0 <= i < |s| ==> LowerChar(s[i]) == s[i] && s[i] != '%'
    ensures HostName(s) == s
  {
    if s != "" {
      SmallHost(s[1..]);
    }
  }

  lemma RefusedText(host: string, netloc: string)
    requires host == "v1.a[b" && netloc == "[v1.a[b]"
    ensures netloc == "[" + host + "]" + "" && AllHostChars(netloc) && '@' !in host && ']' !in host
    ensures "https" + "://" + netloc == "https://[v1.a[b]" && Origin("https", host, 443) == "https://v1.a[b"
  {
  }

  /** An address whose origin is refused when it is read again. */
  lemma NormalFormRefused(names: Names)
    ensures var r := Parse(names, "https://[v1.a[b]");
            r.Ok? && r.value.origin == "https://v1.a[b" && Parse(names, r.value.origin) == Err(Invalid)
  {
    var host, netloc := "v1.a[b", "[v1.a[b]";
    assert KnownScheme("https") && DefaultPort("https") == 443;
    RefusedText(host, netloc);
    FutureHost(names);
    assert Spelled(names, host) && HostName(host) == host;
    hide *;
    BracketedRead(names, host, "");
    NothingDropped();
    SchemeLower("https");
    HasScheme(names, "https", netloc, "");
    assert netloc + "" == netloc;
    SplitRead(names, "https", netloc, "");
    NormalFormOf(names, "https", netloc, host);
    OriginRead(names, "https", host, 443);
  }

  lemma NormalFormOf(names: Names, scheme: string, netloc: string, host: string)
    requires KnownScheme(scheme) && AllHostChars(netloc) && Hosted(names, host)
    requires UrlSplit(names, scheme + "://" + netloc) == Some(Parts(scheme, netloc, ""))
    requires HostPort(names, netloc) == Some((host, ""))
    ensures ReadAbsolute(names, scheme + "://" + netloc, [])
         == Ok(Address(Origin(scheme, host, DefaultPort(scheme)), scheme, host, DefaultPort(scheme), []))
  {
    HostAscii(netloc);
    assert HostName(host) == host && host != "" && '@' !in netloc;
    hide UrlSplit, HostPort, HostName, Hosted, InAscii, AllHostChars, Origin, KnownScheme;
    var none: seq<Note> := [];
    assert none + [] == none;
  }

  lemma BaseSpelled(host: string, port: nat)
    ensures BaseUrl(host, port) == "http" + "://" + (HostText(ConnectHost(host)) + (":" + NatText(port)))
  {
    hide HostText, NatText, ConnectHost;
  }

  /** The base URL of a configured host and port has the `http` origin of the host it connects to. */
  lemma BaseUrlRead(names: Names, host: string, port: nat)
    requires Spelled(names, ConnectHost(host)) && Fits(ConnectHost(host)) && 0 < port <= 65535
    ensures ServerOrigin(names, BaseUrl(host, port)) == Some(Origin("http", HostName(ConnectHost(host)), port))
  {
    assert KnownScheme("http");
    BaseSpelled(host, port);
    hide HostText, NatText, UrlSplit, HostName, Origin, Spelled, Fits, ReadPort, Contains, ConnectHost, BaseUrl,
         Parse, KnownScheme, PortPart, PortOf, Printable, RStrip, Rest, Lower;
    var connect, portText := ConnectHost(host), ":" + NatText(port);
    PortRead("http", port);
    SchemeLower("http");
    NothingDropped();
    assert HostText(connect) + portText + "" == HostText(connect) + portText;
    HasSlashes("http", HostText(connect) + portText);
    AddressRead(names, "http", connect, portText, "");
  }

  // ---------------------------------------------------------------- what an address may leave out or add

  /** A text that names no scheme, without its outer whitespace. */
  lemma NoScheme(names: Names, netloc: string, rest: string)
    requires netloc != "" && AllHostChars(netloc) && HostPort(names, netloc).Some?
    requires (rest == "" || EndsNetloc(rest[0])) && !Contains(netloc + RStrip(rest), "://")
    ensures RStrip(rest) == "" || EndsNetloc(RStrip(rest)[0])
    ensures var scheme := if names.loopback(HostName(HostPort(names, netloc).value.0)) then "http" else "https";
            Parse(names, netloc + rest)
            == if Printable(RStrip(rest)) then
                 ReadAbsolute(names, scheme + "://" + (netloc + RStrip(rest)), [ReadAs(scheme)])
               else Err(ControlCharacters)
  {
    HostAscii(netloc);
    assert AllHostChars(netloc[|netloc| - 1..]);
    StripBehind(netloc, rest);
    PrintableSum(netloc, RStrip(rest));
    hide Contains, Strip, ReadAbsolute, HostPort, HostName, UrlSplit, RStrip, EndsNetloc, Rest, Printable;
    BareSplitRead(names, netloc, RStrip(rest));
  }

  /**
    An address without a scheme means `http` on this computer and `https` anywhere else, and says so,
    however its host and port are written and whatever path, query or fragment follows.
   */
  lemma SchemeAssumed(names: Names, scheme: string, written: string, portText: string, rest: string)
    requires Spelled(names, written) && Fits(written) && PortPart(portText)
    requires rest == "" || EndsNetloc(rest[0])
    requires scheme == if names.loopback(HostName(written)) then "http" else "https"
    requires !Contains(HostText(written) + portText + RStrip(rest), "://")
    ensures var host, port := HostName(written), PortOf(scheme, portText);
            Parse(names, HostText(written) + portText + rest)
            == if Printable(RStrip(rest)) then
                 Ok(Address(Origin(scheme, host, port), scheme, host, port,
                            [ReadAs(scheme)] + Noted(Rest(RStrip(rest)))))
               else Err(ControlCharacters)
  {
    var netloc, kept := HostText(written) + portText, RStrip(rest);
    assert KnownScheme(scheme);
    hide *;
    LocationRead(names, written, portText);
    NoScheme(names, netloc, rest);
    SchemeLower(scheme);
    SplitRead(names, scheme, netloc, kept);
    AbsoluteIs(names, scheme + "://" + (netloc + kept), [ReadAs(scheme)]);
    ReadLocated(names, scheme, written, portText, Rest(kept), [ReadAs(scheme)]);
  }

  // ---------------------------------------------------------------- telling addresses apart

  lemma HostTextAlone(host: string, text: string)
    requires ']' !in host && (text != "" ==> text[0] == ':') && ('[' in host && ':' !in host ==> host[0] != '[')
    requires host != ""
    ensures ':' in host ==> (HostText(host) + text)[0] == '[' && Before(HostText(host) + text, ']') == "[" + host
    ensures ':' !in host ==> (HostText(host) + text)[0] != '[' && Before(HostText(host) + text, ':') == host
  {
    var whole := HostText(host) + text;
    if ':' in host {
      assert whole == ("[" + host) + [']'] + text;
      PartitionSum("[" + host, ']', text);
    } else if text == "" {
      assert whole == host;
      PartitionParts(host, ':');
    } else {
      assert whole == host + [':'] + text[1..];
      PartitionSum(host, ':', text[1..]);
    }
  }

  lemma HostedStart(names: Names, host: string)
    requires Hosted(names, host)
    ensures host != "" && ']' !in host && ('[' in host && ':' !in host ==> host[0] != '[')
  {
  }

  lemma SamePorts(scheme: string, m: nat, n: nat)
    requires PortText(scheme, m) == PortText(scheme, n)
    ensures m == n
  {
    NatTextValue(m);
    NatTextValue(n);
    hide NatText;
    if m != DefaultPort(scheme) && n != DefaultPort(scheme) {
      Seqs.SameSum(":", ":", NatText(m), NatText(n));
    }
  }

  lemma SameLocation(names: Names, scheme: string, g: string, h: string, m: nat, n: nat)
    requires Hosted(names, g) && Hosted(names, h)
    requires HostAndPort(scheme, g, m) == HostAndPort(scheme, h, n)
    ensures g == h && m == n
  {
    hide Hosted, PortText, HostText, Before;
    HostedStart(names, g);
    HostedStart(names, h);
    PortTextShape(scheme, m);
    PortTextShape(scheme, n);
    HostTextAlone(g, PortText(scheme, m));
    HostTextAlone(h, PortText(scheme, n));
    if ':' in g {
      Seqs.SameSum("[", "[", g, h);
    }
    Seqs.SameSum(HostText(g), HostText(h), PortText(scheme, m), PortText(scheme, n));
    SamePorts(scheme, m, n);
  }

  /** Two accepted addresses have the same origin exactly when scheme, host and port agree. */
  lemma OriginsDiffer(names: Names, text: string, other: string)
    requires Parse(names, text).Ok? && Parse(names, other).Ok?
    ensures var a, b := Parse(names, text).value, Parse(names, other).value;
            a.origin == b.origin <==> a.scheme == b.scheme && a.host == b.host && a.port == b.port
  {
    hide Parse, Hosted, HostAndPort;
    ParsedShape(names, text);
    ParsedShape(names, other);
    var a, b := Parse(names, text).value, Parse(names, other).value;
    OriginSpelled(a.scheme, a.host, a.port);
    OriginSpelled(b.scheme, b.host, b.port);
    if a.origin == b.origin {
      var behindA, behindB := HostAndPort(a.scheme, a.host, a.port), HostAndPort(b.scheme, b.host, b.port);
      SchemeLower(a.scheme);
      SchemeLower(b.scheme);
      SchemeWord(a.scheme);
      SchemeWord(b.scheme);
      SchemeRead(a.scheme, behindA);
      SchemeRead(b.scheme, behindB);
      Seqs.SameSum(a.scheme + "://", b.scheme + "://", behindA, behindB);
      SameLocation(names, a.scheme, a.host, b.host, a.port, b.port);
    }
  }
}

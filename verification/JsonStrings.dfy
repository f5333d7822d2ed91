/** The two JSON objects the program stores, with strings escaped as in section 7 of RFC 8259 and
    every non-ASCII character written as \uXXXX. */
module JsonStrings {
  import opened Prelude
  import opened Texts

  predicate High(c: int) { 0xD800 <= c < 0xDC00 }
  predicate Low(c: int) { 0xDC00 <= c < 0xE000 }

  function Join(high: int, low: int): CodePoint
    requires High(high) && Low(low)
  {
    0x10000 + (high - 0xD800) * 0x400 + (low - 0xDC00)
  }

  function HexDigit(d: nat): char
    requires d < 16
  {
    if d < 10 then '0' + d as char else 'a' + (d - 10) as char
  }

  function HexValue(c: char): Option<nat> {
    if '0' <= c <= '9' then Some((c - '0') as nat)
    else if 'a' <= c <= 'f' then Some((c - 'a') as nat + 10)
    else if 'A' <= c <= 'F' then Some((c - 'A') as nat + 10)
    else None
  }

  /** \uXXXX */
  function Unit(u: nat): string
    requires u < 0x10000
  {
    "\\u" + [HexDigit(u / 0x1000), HexDigit(u / 0x100 % 16), HexDigit(u / 16 % 16), HexDigit(u % 16)]
  }

  /** The short escapes, as (character, letter after the backslash). */
  function ShortEscape(c: CodePoint): Option<char> {
    if c == 0x22 then Some('"') else if c == 0x5C then Some('\\')
    else if c == 0x0A then Some('n') else if c == 0x0D then Some('r') else if c == 0x09 then Some('t')
    else if c == 0x0C then Some('f') else if c == 0x08 then Some('b')
    else None
  }

  function Unescape(c: char): Option<CodePoint> {
    if c == '"' then Some(0x22) else if c == '\\' then Some(0x5C) else if c == '/' then Some(0x2F)
    else if c == 'n' then Some(0x0A) else if c == 'r' then Some(0x0D) else if c == 't' then Some(0x09)
    else if c == 'f' then Some(0x0C) else if c == 'b' then Some(0x08)
    else None
  }

  function Escape(c: CodePoint): string {
    if ShortEscape(c).Some? then ['\\', ShortEscape(c).value]
    else if 0x20 <= c < 0x7F then [c as char]
    else if c < 0x10000 then Unit(c)
    else Unit(0xD800 + (c - 0x10000) / 0x400) + Unit(0xDC00 + (c - 0x10000) % 0x400)
  }

  function EscapeAll(t: Text): string {
    if t == [] then "" else Escape(t[0]) + EscapeAll(t[1..])
  }

  function HexFour(s: string): Option<nat> {
    if |s| < 4 then None
    else match (HexValue(s[0]), HexValue(s[1]), HexValue(s[2]), HexValue(s[3]))
         case (Some(a), Some(b), Some(c), Some(d)) => Some(a * 0x1000 + b * 0x100 + c * 16 + d)
         case _ => None
  }

  predicate StartsUnit(s: string) {
    |s| >= 2 && s[0] == '\\' && s[1] == 'u'
  }

  function Before(c: CodePoint, r: Option<(Text, string)>): Option<(Text, string)> {
    match r
    case None => None
    case Some((text, rest)) => Some(([c] + text, rest))
  }

  /** Reads a string body up to its closing quote; the second part is what follows. */
  function Scan(s: string): Option<(Text, string)>
    decreases |s|, 1
  {
    if s == [] then None
    else if s[0] == '"' then Some(([], s[1..]))
    else if s[0] == '\\' then
      if |s| < 2 then None
      else if s[1] != 'u' then
        if Unescape(s[1]).None? then None else Before(Unescape(s[1]).value, Scan(s[2..]))
      else ScanUnit(s)
    else if s[0] < ' ' then None
    else Before(s[0] as int, Scan(s[1..]))
  }

  /** A \uXXXX escape; a high surrogate takes a directly following low one with it. */
  function ScanUnit(s: string): Option<(Text, string)>
    requires StartsUnit(s)
    decreases |s|, 0
  {
    match HexFour(s[2..])
    case None => None
    case Some(u) =>
      var rest := s[6..];
      if u >= 0x10000 then None
      else if High(u) && StartsUnit(rest) then
        match HexFour(rest[2..])
        case None => None
        case Some(v) => if Low(v) then Before(Join(u, v), Scan(rest[6..])) else Before(u, Scan(rest))
      else Before(u, Scan(rest))
  }

  // ---------------------------------------------------------------------------
  // What reading back yields
  // ---------------------------------------------------------------------------

  /** Adjacent surrogate code points come back as the one character they encode. */
  function Reread(t: Text): Text {
    if t == [] then []
    else if |t| >= 2 && High(t[0]) && Low(t[1]) then [Join(t[0], t[1])] + Reread(t[2..])
    else [t[0]] + Reread(t[1..])
  }

  ghost predicate SplitPair(t: Text, i: int)
    requires 0 <= i < |t| - 1
  {
    High(t[i]) && Low(t[i + 1])
  }

  ghost predicate NoSplitPair(t: Text) {
    forall i | 0 <= i < |t| - 1 :: !SplitPair(t, i)
  }

  lemma {:induction false} RereadShrinks(t: Text)
    ensures |Reread(t)| <= |t|
    ensures |Reread(t)| == |t| <==> NoSplitPair(t)
    ensures |Reread(t)| == |t| ==> Reread(t) == t
  {
    if t != [] {
      if |t| >= 2 && High(t[0]) && Low(t[1]) {
        assert SplitPair(t, 0);
        RereadShrinks(t[2..]);
      } else {
        var rest := t[1..];
        RereadShrinks(rest);
        forall i | 0 <= i < |rest| - 1
          ensures SplitPair(rest, i) == SplitPair(t, i + 1)
        {
        }
        assert NoSplitPair(rest) ==> NoSplitPair(t) by {
          assert forall i | 1 <= i < |t| - 1 :: SplitPair(t, i) == SplitPair(rest, i - 1);
        }
      }
    }
  }

  /** Text survives storage if and only if no high surrogate is directly followed by a low one; in
      particular every text of Unicode scalar values does. */
  lemma RereadIsIdentity(t: Text)
    ensures Reread(t) == t <==> NoSplitPair(t)
    ensures (forall c | c in t :: !High(c) && !Low(c)) ==> Reread(t) == t
  {
    RereadShrinks(t);
  }

  lemma HexFourOfUnit(u: nat, tail: string)
    requires u < 0x10000
    ensures |Unit(u)| == 6 && StartsUnit(Unit(u) + tail)
    ensures HexFour((Unit(u) + tail)[2..]) == Some(u)
    ensures (Unit(u) + tail)[6..] == tail
  {
    var a, b, c, d := u / 0x1000, u / 0x100 % 16, u / 16 % 16, u % 16;
    NibblesAddUp(u);
    hide HexDigit, HexValue;
    var s := (Unit(u) + tail)[2..];
    HexDigitReads(a);
    HexDigitReads(b);
    HexDigitReads(c);
    HexDigitReads(d);
    assert s[0] == HexDigit(a) && s[1] == HexDigit(b) && s[2] == HexDigit(c) && s[3] == HexDigit(d);
  }

  lemma NibblesAddUp(u: nat)
    requires u < 0x10000
    ensures u / 0x1000 < 16
    ensures u / 0x1000 * 0x1000 + u / 0x100 % 16 * 0x100 + u / 16 % 16 * 16 + u % 16 == u
  {
    assert u / 0x100 == u / 16 / 16 && u / 0x1000 == u / 16 / 16 / 16;
  }

  lemma HexDigitReads(d: nat)
    requires d < 16
    ensures HexValue(HexDigit(d)) == Some(d)
  {
  }

  lemma ScanPlainUnit(u: nat, tail: string)
    requires u < 0x10000
    requires High(u) ==> !StartsUnit(tail)
    ensures Scan(Unit(u) + tail) == Before(u, Scan(tail))
  {
    HexFourOfUnit(u, tail);
  }

  lemma ScanUnitThenUnit(u: nat, v: nat, tail: string)
    requires u < 0x10000 && v < 0x10000 && High(u)
    ensures Scan(Unit(u) + (Unit(v) + tail)) ==
            if Low(v) then Before(Join(u, v), Scan(tail)) else Before(u, Scan(Unit(v) + tail))
  {
    HexFourOfUnit(u, Unit(v) + tail);
    HexFourOfUnit(v, tail);
  }

  /** One escaped character in front of text that cannot complete a surrogate pair. */
  lemma ScanEscape(c: CodePoint, tail: string)
    requires High(c) ==> !StartsUnit(tail)
    ensures Scan(Escape(c) + tail) == Before(c, Scan(tail))
  {
    var s := Escape(c) + tail;
    if ShortEscape(c).Some? {
      assert s[0] == '\\' && s[1] == ShortEscape(c).value && s[2..] == tail;
    } else if 0x20 <= c < 0x7F {
      assert s[0] == c as char && s[1..] == tail;
    } else if c < 0x10000 {
      ScanPlainUnit(c, tail);
    } else {
      var hi, lo := 0xD800 + (c - 0x10000) / 0x400, 0xDC00 + (c - 0x10000) % 0x400;
      assert s == Unit(hi) + (Unit(lo) + tail);
      ScanUnitThenUnit(hi, lo, tail);
      assert Join(hi, lo) == c;
    }
  }

  lemma HighIsUnit(c: CodePoint)
    requires High(c) || Low(c)
    ensures Escape(c) == Unit(c)
  {
  }

  /** An escape that opens with \u is a unit, and a low surrogate only if the character is one. */
  lemma EscapeOpens(c: CodePoint, tail: string) returns (v: nat, more: string)
    requires !Low(c)
    ensures StartsUnit(Escape(c) + tail) ==> v < 0x10000 && !Low(v) && Escape(c) + tail == Unit(v) + more
  {
    var s := Escape(c) + tail;
    if ShortEscape(c).Some? {
      assert s[1] == ShortEscape(c).value;
      v, more := 0, tail;
    } else if 0x20 <= c < 0x7F {
      assert s[0] == c as char;
      v, more := 0, tail;
    } else if c < 0x10000 {
      v, more := c, tail;
    } else {
      var lo := 0xDC00 + (c - 0x10000) % 0x400;
      v, more := 0xD800 + (c - 0x10000) / 0x400, Unit(lo) + tail;
      assert s == Unit(v) + more;
    }
  }

  lemma ScanClose(rest: string)
    ensures Scan("\"" + rest) == Some(([], rest)) && !StartsUnit("\"" + rest)
  {
    assert ("\"" + rest)[1..] == rest;
  }

  /** A high surrogate followed by another escaped character. */
  lemma ScanHighThen(c: CodePoint, next: CodePoint, more: string)
    requires High(c)
    ensures Scan(Escape(c) + (Escape(next) + more)) ==
            if Low(next) then Before(Join(c, next), Scan(more)) else Before(c, Scan(Escape(next) + more))
  {
    hide Scan, ScanUnit, Escape, Unit;
    HighIsUnit(c);
    if Low(next) {
      HighIsUnit(next);
      ScanUnitThenUnit(c, next, more);
    } else {
      var v, after := EscapeOpens(next, more);
      if StartsUnit(Escape(next) + more) {
        ScanUnitThenUnit(c, v, after);
      } else {
        ScanPlainUnit(c, Escape(next) + more);
      }
    }
  }

  /** Encoding, then decoding. */
  lemma {:induction false} ScanReadsBack(t: Text, rest: string)
    ensures Scan(EscapeAll(t) + ("\"" + rest)) == Some((Reread(t), rest))
    decreases |t|
  {
    hide Scan, ScanUnit, Escape, Unit, StartsUnit, Join;
    var close := "\"" + rest;
    ScanClose(rest);
    if t == [] {
      assert EscapeAll(t) + close == close;
    } else {
      var c, tail := t[0], EscapeAll(t[1..]) + close;
      assert EscapeAll(t) + close == Escape(c) + tail;
      ScanReadsBack(t[1..], rest);
      if !High(c) || |t| == 1 {
        assert |t| == 1 ==> EscapeAll(t[1..]) == "" && tail == close;
        ScanEscape(c, tail);
      } else {
        assert t[1..][0] == t[1] && t[1..][1..] == t[2..];
        var next, more := t[1], EscapeAll(t[2..]) + close;
        assert tail == Escape(next) + more;
        ScanHighThen(c, next, more);
        ScanReadsBack(t[2..], rest);
      }
    }
  }

  // ---------------------------------------------------------------------------
  // The two object shapes
  // ---------------------------------------------------------------------------

  function Quoted(t: Text): string {
    "\"" + EscapeAll(t) + "\""
  }

  function CachePayload(response: Text): string {
    "{\"response\":" + Quoted(response) + "}"
  }

  function MessagePayload(role: Text, content: Text): string {
    "{\"role\":" + Quoted(role) + ",\"content\":" + Quoted(content) + "}"
  }

  /** A quoted string after a fixed opening. */
  function ReadAfter(opening: string, s: string): Option<(Text, string)> {
    if |opening| < |s| && s[..|opening|] == opening && s[|opening|] == '"' then Scan(s[|opening| + 1..]) else None
  }

  function ReadCachePayload(s: string): Option<Text> {
    match ReadAfter("{\"response\":", s)
    case Some((response, "}")) => Some(response)
    case _ => None
  }

  function ReadMessagePayload(s: string): Option<(Text, Text)> {
    match ReadAfter("{\"role\":", s)
    case None => None
    case Some((role, rest)) =>
      match ReadAfter(",\"content\":", rest)
      case Some((content, "}")) => Some((role, content))
      case _ => None
  }

  lemma ReadAfterQuoted(opening: string, t: Text, rest: string)
    ensures ReadAfter(opening, opening + Quoted(t) + rest) == Some((Reread(t), rest))
  {
    var s := opening + Quoted(t) + rest;
    assert s == opening + ("\"" + (EscapeAll(t) + ("\"" + rest)));
    assert s[|opening| + 1..] == EscapeAll(t) + ("\"" + rest);
    ScanReadsBack(t, rest);
  }

  lemma CachePayloadReadsBack(response: Text)
    ensures ReadCachePayload(CachePayload(response)) == Some(Reread(response))
  {
    hide ReadAfter, Quoted, Reread;
    ReadAfterQuoted("{\"response\":", response, "}");
  }

  lemma MessagePayloadReadsBack(role: Text, content: Text)
    ensures ReadMessagePayload(MessagePayload(role, content)) == Some((Reread(role), Reread(content)))
  {
    hide ReadAfter, Quoted, Reread;
    var rest := ",\"content\":" + Quoted(content) + "}";
    assert MessagePayload(role, content) == "{\"role\":" + Quoted(role) + rest;
    ReadAfterQuoted("{\"role\":", role, rest);
    ReadAfterQuoted(",\"content\":", content, "}");
  }

  lemma EscapeIsAscii(c: CodePoint)
    ensures forall x | x in Escape(c) :: ' ' <= x <= '~'
  {
  }

  lemma {:induction false} EscapedIsAscii(t: Text)
    ensures forall x | x in EscapeAll(t) :: ' ' <= x <= '~'
  {
    if t != [] {
      EscapedIsAscii(t[1..]);
      EscapeIsAscii(t[0]);
    }
  }

  /** Payloads are printable ASCII, so their length is their size in bytes. */
  lemma PayloadsAreAscii(role: Text, content: Text)
    ensures forall x | x in MessagePayload(role, content) :: ' ' <= x <= '~'
    ensures forall x | x in CachePayload(content) :: ' ' <= x <= '~'
  {
    EscapedIsAscii(role);
    EscapedIsAscii(content);
    hide EscapeAll;
  }

  // ---------------------------------------------------------------------------
  // What the payloads look like
  // ---------------------------------------------------------------------------

  /** Two characters for the seven short escapes, one for any other printable ASCII character, six for the rest
      of the Basic Multilingual Plane, twelve beyond it. */
  lemma EscapeSizes(c: CodePoint)
    ensures |Escape(c)| == if c in {0x22, 0x5C, 0x08, 0x09, 0x0A, 0x0C, 0x0D} then 2
                           else if 0x20 <= c <= 0x7E then 1
                           else if c <= 0xFFFF then 6
                           else 12
  {
  }

  lemma {:induction false} EscapeOne(c: CodePoint)
    ensures EscapeAll([c]) == Escape(c)
  {
    assert [c][1..] == [];
  }

  /** Characters, and how they are written. */
  lemma EscapeExamples()
    ensures Escape(0x41) == "A" && Escape(0x2F) == "/" && Escape(0x7E) == "~"
    ensures Escape(0x22) == "\\\"" && Escape(0x5C) == "\\\\"
    ensures Escape(0x08) == "\\b" && Escape(0x09) == "\\t" && Escape(0x0A) == "\\n"
    ensures Escape(0x0C) == "\\f" && Escape(0x0D) == "\\r"
    ensures Escape(0x01) == "\\u0001" && Escape(0x7F) == "\\u007f" && Escape(0xE9) == "\\u00e9"
    ensures Escape(0x20AC) == "\\u20ac" && Escape(0x1D11E) == "\\ud834\\udd1e"
  {
    assert Unit(0xD834) + Unit(0xDD1E) == "\\ud834\\udd1e";
  }

  /** The two objects around their strings. */
  lemma PayloadShapes(role: Text, content: Text)
    ensures CachePayload(content) == "{\"response\":\"" + EscapeAll(content) + "\"}"
    ensures MessagePayload(role, content) ==
            "{\"role\":\"" + EscapeAll(role) + "\",\"content\":\"" + EscapeAll(content) + "\"}"
  {
    var c, r := EscapeAll(content), EscapeAll(role);
    hide EscapeAll;
    assert CachePayload(content) == ("{\"response\":" + "\"") + c + ("\"" + "}");
    assert "{\"response\":" + "\"" == "{\"response\":\"" && "\"" + "}" == "\"}";
    assert MessagePayload(role, content) ==
           ("{\"role\":" + "\"") + r + ("\"" + ",\"content\":" + "\"") + c + ("\"" + "}");
    assert "{\"role\":" + "\"" == "{\"role\":\"" && "\"" + ",\"content\":" + "\"" == "\",\"content\":\"";
  }

  /** The reader takes more than the writer writes: capital hex digits and an escaped slash. It takes no raw
      control character and no unknown escape. */
  lemma ReaderExamples(rest: string)
    ensures Scan("\\u00E9\"" + rest) == Some(([0xE9], rest))
    ensures Scan("\\/\"" + rest) == Some(([0x2F], rest))
    ensures Scan("\n\"" + rest) == None && Scan("\\x\"" + rest) == None && Scan("") == None
  {
    var a, b := "\\u00E9\"" + rest, "\\/\"" + rest;
    ScanClose(rest);
    assert a[2..][0] == '0' && a[2..][1] == '0' && a[2..][2] == 'E' && a[2..][3] == '9';
    assert HexFour(a[2..]) == Some(0xE9) && a[6..] == "\"" + rest;
    assert Scan(a) == Before(0xE9, Scan("\"" + rest));
    var eAcute, slash: Text := [0xE9], [0x2F];
    assert eAcute + [] == eAcute && slash + [] == slash;
    assert b[0] == '\\' && b[1] == '/' && b[2..] == "\"" + rest;
    assert Scan(b) == Before(0x2F, Scan("\"" + rest));
    assert ("\n\"" + rest)[0] == '\n' && ("\\x\"" + rest)[1] == 'x';
  }

  /** `rest` is what follows a closing quote of `s`, up to the end. */
  predicate Follows(s: string, rest: string) {
    |rest| < |s| && s[|s| - |rest| - 1] == '"' && s[|s| - |rest|..] == rest
  }

  lemma FollowsTail(s: string, n: nat, rest: string)
    requires n <= |s| && Follows(s[n..], rest)
    ensures Follows(s, rest)
  {
  }

  lemma FollowsFirst(s: string)
    requires s != [] && s[0] == '"'
    ensures Follows(s, s[1..])
  {
  }

  /** What follows a string is the rest of the input after its closing quote. */
  lemma {:induction false} ScanRest(s: string)
    ensures Scan(s).Some? ==> Follows(s, Scan(s).value.1)
    decreases |s|, 1
  {
    hide Follows, ScanUnit, Unescape;
    if s != [] && s[0] == '"' {
      FollowsFirst(s);
    } else if StartsUnit(s) {
      UnitRest(s);
    } else if s != [] {
      var n := if s[0] == '\\' && |s| >= 2 then 2 else 1;
      ScanRest(s[n..]);
      if Scan(s).Some? {
        FollowsTail(s, n, Scan(s[n..]).value.1);
      }
    }
  }

  lemma {:induction false} UnitRest(s: string)
    requires StartsUnit(s)
    ensures ScanUnit(s).Some? ==> Follows(s, ScanUnit(s).value.1)
    decreases |s|, 0
  {
    hide Follows, Scan, HexFour, Join;
    if ScanUnit(s).Some? {
      HexFourNeedsFour(s[2..]);
      var rest := s[6..];
      ScanRest(rest);
      if Scan(rest).Some? {
        FollowsTail(s, 6, Scan(rest).value.1);
      }
      if StartsUnit(rest) && HexFour(rest[2..]).Some? {
        HexFourNeedsFour(rest[2..]);
        ScanRest(rest[6..]);
        if Scan(rest[6..]).Some? {
          FollowsTail(rest, 6, Scan(rest[6..]).value.1);
          FollowsTail(s, 6, Scan(rest[6..]).value.1);
        }
      }
    }
  }

  lemma HexFourNeedsFour(s: string)
    ensures HexFour(s).Some? ==> |s| >= 4
  {
  }

  /** A payload that is read as a response is that object and nothing more. */
  lemma CachePayloadIsWhole(s: string)
    requires ReadCachePayload(s).Some?
    ensures |s| >= 15 && s[..12] == "{\"response\":" && s[12] == '"' && s[|s| - 2] == '"' && s[|s| - 1] == '}'
  {
    hide Scan, Follows;
    var opening := "{\"response\":";
    assert |opening| == 12;
    ScanRest(s[13..]);
    FollowsBrace(s, 13);
  }

  lemma FollowsBrace(s: string, n: nat)
    requires n <= |s| && Follows(s[n..], "}")
    ensures |s| >= n + 2 && s[|s| - 2] == '"' && s[|s| - 1] == '}'
  {
    var t := s[n..];
    assert t[|t| - 1..][0] == '}';
  }

  /** The same for a message. */
  lemma MessagePayloadIsWhole(s: string)
    requires ReadMessagePayload(s).Some?
    ensures |s| >= 24 && s[..8] == "{\"role\":" && s[8] == '"' && s[|s| - 2] == '"' && s[|s| - 1] == '}'
  {
    hide Scan, Follows;
    var opening, between := "{\"role\":", ",\"content\":";
    assert |opening| == 8 && |between| == 11;
    ScanRest(s[9..]);
    var rest := Scan(s[9..]).value.1;
    assert rest[..11] == between && |rest| > 11;
    ScanRest(rest[12..]);
    FollowsBrace(rest, 12);
    FollowsEnd(s, 9, rest);
  }

  lemma FollowsEnd(s: string, n: nat, rest: string)
    requires n <= |s| && Follows(s[n..], rest) && |rest| >= 14
    ensures |s| >= n + |rest| + 1 && s[|s| - 2] == rest[|rest| - 2] && s[|s| - 1] == rest[|rest| - 1]
  {
    var t := s[n..];
    assert t[|t| - |rest|..] == rest;
  }
}

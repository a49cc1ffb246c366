/** One message as a line of JSON: how it is written, read back, and asked for its timestamp. */
module EntryText {
  import opened Collections
  import opened Gzip
  import opened RoomSpec

  /** `text` is None for a stored message whose bytes failed authentication. */
  datatype Message = Message(id: string, clientName: string, text: Option<string>, ts: int, tampered: bool)

  // ----------------------------------------------------------------- Writing

  function HexDigit(n: nat): char
    requires n < 16
  {
    "0123456789abcdef"[n]
  }

  /** The escapes of RFC 8259 section 7 that JSON.stringify uses. */
  function Escape(c: char): string {
    if c == '\"' then "\\\""
    else if c == '\\' then "\\\\"
    else if c == 8 as char then "\\b"
    else if c == 12 as char then "\\f"
    else if c == '\n' then "\\n"
    else if c == '\r' then "\\r"
    else if c == '\t' then "\\t"
    else if c < ' ' then "\\u00" + [HexDigit(c as int / 16), HexDigit(c as int % 16)]
    else [c]
  }

  function EscapeAll(s: string): string {
    if s == "" then "" else Escape(s[0]) + EscapeAll(s[1..])
  }

  function Quote(s: string): string {
    "\"" + EscapeAll(s) + "\""
  }

  function Digits(n: nat): string {
    if n < 10 then ['0' + n as char] else Digits(n / 10) + ['0' + (n % 10) as char]
  }

  function Decimal(n: int): string {
    if n < 0 then "-" + Digits(-n) else Digits(n)
  }

  const TS_KEY := "\"ts\":"

  function Ending(tampered: bool): string {
    if tampered then ",\"integrity\":\"failed\"}" else "}"
  }

  const ID_KEY := "{\"id\":\""
  const NAME_KEY := ",\"client-name\":\""
  const MSG_KEY := ",\"msg\":"

  function TextValue(text: Option<string>): string {
    if text.Some? then Quote(text.value) else "null"
  }

  /** Everything before the timestamp: id, client-name and msg, in that order. */
  function Opening(m: Message): string {
    (ID_KEY + EscapeAll(m.id) + "\"") + (NAME_KEY + EscapeAll(m.clientName) + "\"")
    + (MSG_KEY + TextValue(m.text)) + ","
  }

  function Serialise(m: Message): string {
    Opening(m) + TS_KEY + Decimal(m.ts) + Ending(m.tampered)
  }

  /** The members of the object, by name and in order; a text that could not be decrypted is null and says so. */
  lemma MembersAreNamed(m: Message)
    ensures Serialise(m)
            == "{\"id\":" + Quote(m.id) + ",\"client-name\":" + Quote(m.clientName)
               + ",\"msg\":" + (if m.text.Some? then Quote(m.text.value) else "null")
               + ",\"ts\":" + Decimal(m.ts) + (if m.tampered then ",\"integrity\":\"failed\"" else "") + "}"
  {
    hide EscapeAll, Decimal, TextValue;
    assert ID_KEY == "{\"id\":" + "\"" && NAME_KEY == ",\"client-name\":" + "\"" && ",\"ts\":" == "," + TS_KEY;
    var ending := if m.tampered then ",\"integrity\":\"failed\"" else "";
    assert Ending(m.tampered) == ending + "}";
    Reassociate("{\"id\":", "\"", EscapeAll(m.id), ",\"client-name\":", EscapeAll(m.clientName), MSG_KEY,
                TextValue(m.text), ",", TS_KEY, Decimal(m.ts), ending);
    assert TextValue(m.text) == if m.text.Some? then Quote(m.text.value) else "null" by { TextIsQuoted(m.text); }
  }

  lemma TextIsQuoted(text: Option<string>)
    ensures TextValue(text) == if text.Some? then Quote(text.value) else "null"
  {}

  lemma Reassociate(k1: string, q: string, id: string, k2: string, name: string, k3: string, text: string,
                    comma: string, k4: string, ts: string, ending: string)
    ensures ((k1 + q) + id + q) + ((k2 + q) + name + q) + (k3 + text) + comma + k4 + ts + (ending + "}")
            == k1 + (q + id + q) + k2 + (q + name + q) + k3 + text + (comma + k4) + ts + ending + "}"
  {}

  // --------------------------------------------------------------- Timestamp

  /** The last position at or before `from` where `pattern` starts, or -1. */
  function LastIndexFrom(s: string, pattern: string, from: int): (at: int)
    requires -1 <= from <= |s|
    ensures -1 <= at <= from
    ensures at >= 0 ==> pattern <= s[at..]
    ensures forall i :: at < i <= from && 0 <= i ==> !(pattern <= s[i..])
    decreases from + 1
  {
    if from < 0 then -1 else if pattern <= s[from..] then from else LastIndexFrom(s, pattern, from - 1)
  }

  function LastIndexOf(s: string, pattern: string): (at: int)
    ensures -1 <= at <= |s|
    ensures at >= 0 ==> pattern <= s[at..]
    ensures forall i :: at < i <= |s| ==> !(pattern <= s[i..])
  {
    LastIndexFrom(s, pattern, |s|)
  }

  predicate IsDigit(c: char) {
    '0' <= c <= '9'
  }

  /** The white space and line terminators of ECMAScript, which trim() and parseInt() skip alike. */
  predicate IsSpace(c: char) {
    || c == ' ' || '\t' <= c <= '\r'
    || c == 0xa0 as char || c == 0x1680 as char
    || 0x2000 as char <= c <= 0x200a as char
    || c == 0x2028 as char || c == 0x2029 as char || c == 0x202f as char || c == 0x205f as char
    || c == 0x3000 as char || c == 0xfeff as char
  }

  lemma SpaceByNumber(c: char)
    ensures IsSpace(c) <==> c as int in {9, 10, 11, 12, 13, 32, 160, 5760, 8192, 8193, 8194, 8195, 8196, 8197, 8198,
                                         8199, 8200, 8201, 8202, 8232, 8233, 8239, 8287, 12288, 65279}
  {}

  function LeadingDigits(s: string): nat {
    if s == "" || !IsDigit(s[0]) then 0 else 1 + LeadingDigits(s[1..])
  }

  lemma {:induction s} LeadingDigitsBound(s: string)
    ensures LeadingDigits(s) <= |s|
    ensures forall i :: 0 <= i < LeadingDigits(s) ==> IsDigit(s[i])
  {}

  function Value(s: string): int
    requires forall i :: 0 <= i < |s| ==> IsDigit(s[i])
  {
    if s == "" then 0 else 10 * Value(s[..|s| - 1]) + (s[|s| - 1] as int - '0' as int)
  }

  /** The number the text opens with, if it does. */
  function Unsigned(t: string): Option<int> {
    var n := LeadingDigits(t);
    LeadingDigitsBound(t);
    if n == 0 then None else Some(Value(t[..n]))
  }

  function Negated(n: Option<int>): Option<int> {
    if n.Some? then Some(-n.value) else None
  }

  /** Number.parseInt(s, 10), with None for NaN. */
  function ParseInt(s: string): Option<int>
    decreases |s|
  {
    if s != "" && IsSpace(s[0]) then ParseInt(s[1..])
    else if s != "" && s[0] == '-' then Negated(Unsigned(s[1..]))
    else if s != "" && s[0] == '+' then Unsigned(s[1..])
    else Unsigned(s)
  }

  function TimestampOf(entry: string): int {
    var at := LastIndexOf(entry, TS_KEY);
    if at == -1 then 0
    else
      match ParseInt(entry[at + 5..])
      case None => 0
      case Some(n) => n
  }

  lemma {:induction false} DigitsAreDigits(n: nat)
    ensures Digits(n) != ""
    ensures forall i :: 0 <= i < |Digits(n)| ==> IsDigit(Digits(n)[i])
    ensures Value(Digits(n)) == n
  {
    if n >= 10 {
      DigitsAreDigits(n / 10);
      assert Digits(n)[..|Digits(n)| - 1] == Digits(n / 10);
    } else {
      assert Digits(n)[..0] == "";
    }
  }

  lemma {:induction false} NoLeadingZero(n: nat)
    ensures |Digits(n)| == 1 || Digits(n)[0] != '0'
    ensures n > 0 ==> Digits(n)[0] != '0'
  {
    if n >= 10 {
      NoLeadingZero(n / 10);
    }
  }

  lemma {:induction false} DigitsThenOther(s: string, rest: string)
    requires forall i :: 0 <= i < |s| ==> IsDigit(s[i])
    requires rest != "" && !IsDigit(rest[0])
    ensures LeadingDigits(s + rest) == |s|
  {
    if s == "" {
      assert s + rest == rest;
    } else {
      assert (s + rest)[1..] == s[1..] + rest;
      DigitsThenOther(s[1..], rest);
    }
  }

  lemma ParseDigits(n: nat, rest: string)
    requires rest != "" && !IsDigit(rest[0])
    ensures var t := Digits(n) + rest;
            && IsDigit(t[0])
            && LeadingDigits(t) == |Digits(n)| > 0
            && t[..|Digits(n)|] == Digits(n)
            && t[|Digits(n)|..] == rest
  {
    hide Digits, LeadingDigits, Value;
    DigitsAreDigits(n);
    DigitsThenOther(Digits(n), rest);
    assert IsDigit(Digits(n)[0]);
  }

  lemma UnsignedOfDigits(n: nat, rest: string)
    requires rest != "" && !IsDigit(rest[0])
    ensures Unsigned(Digits(n) + rest) == Some(n)
    ensures IsDigit((Digits(n) + rest)[0])
  {
    hide Digits, LeadingDigits, Value;
    ParseDigits(n, rest);
    DigitsAreDigits(n);
  }

  /** Neither a sign nor white space in front: the number starts here. */
  lemma ParsePlain(t: string)
    requires t != "" && IsDigit(t[0])
    ensures ParseInt(t) == Unsigned(t)
  {
    hide Unsigned;
  }

  lemma ParseNegative(t: string, s: string)
    requires t == "-" + s
    ensures ParseInt(t) == Negated(Unsigned(s))
  {
    hide Unsigned;
    assert t[1..] == s;
  }

  lemma ParseIntOfDecimal(n: int, rest: string)
    requires rest != "" && !IsDigit(rest[0])
    ensures ParseInt(Decimal(n) + rest) == Some(n)
  {
    hide Digits, Unsigned, ParseInt;
    if n < 0 {
      UnsignedOfDigits(-n, rest);
      assert Decimal(n) + rest == "-" + (Digits(-n) + rest);
      ParseNegative(Decimal(n) + rest, Digits(-n) + rest);
    } else {
      UnsignedOfDigits(n, rest);
      ParsePlain(Digits(n) + rest);
    }
  }

  /** No quote in the text is followed by a "t", so the key for ts does not start in it. */
  ghost predicate NoKey(s: string) {
    forall i :: 0 <= i < |s| - 1 && s[i] == '\"' ==> s[i + 1] != 't'
  }

  lemma NoKeyAppend(a: string, b: string)
    requires NoKey(a) && NoKey(b) && a != [] && a[|a| - 1] != '\"'
    ensures NoKey(a + b)
  {}

  lemma DecimalHasNoKey(n: int)
    ensures NoKey(Decimal(n)) && Decimal(n) != "" && Decimal(n)[|Decimal(n)| - 1] != '\"'
  {
    DigitsAreDigits(if n < 0 then -n else n);
  }

  lemma TailHasNoKey(ts: int, tampered: bool)
    ensures NoKey(TS_KEY[1..] + (Decimal(ts) + Ending(tampered)))
  {
    hide Decimal;
    assert TS_KEY[1..] == "ts\":";
    assert NoKey(Ending(tampered));
    DecimalHasNoKey(ts);
    NoKeyAppend(Decimal(ts), Ending(tampered));
    NoKeyAppend(TS_KEY[1..], Decimal(ts) + Ending(tampered));
  }

  lemma KeyIsLast(opening: string, rest: string)
    requires NoKey(TS_KEY[1..] + rest)
    ensures LastIndexOf(opening + TS_KEY + rest, TS_KEY) == |opening|
  {
    var s, n, tail := opening + TS_KEY + rest, |opening|, TS_KEY[1..] + rest;
    assert s[n..] == TS_KEY + rest;
    assert s[n + 1..] == tail;
    forall i | n < i < |s| - 1
      ensures s[i] != TS_KEY[0] || s[i + 1] != TS_KEY[1]
    {
      assert s[i] == tail[i - n - 1] && s[i + 1] == tail[i - n];
    }
    forall i | n < i <= |s|
      ensures !(TS_KEY <= s[i..])
    {
      if i < |s| - 1 {
        assert s[i..][0] == s[i] && s[i..][1] == s[i + 1];
      }
    }
  }

  /** The timestamp read back out of an entry is the one that was written into it. */
  lemma TimestampRoundTrip(m: Message)
    ensures TimestampOf(Serialise(m)) == m.ts
  {
    hide Decimal, Opening, LastIndexOf, ParseInt;
    var opening, rest := Opening(m), Decimal(m.ts) + Ending(m.tampered);
    TailHasNoKey(m.ts, m.tampered);
    KeyIsLast(opening, rest);
    assert Serialise(m) == opening + TS_KEY + rest;
    assert (opening + TS_KEY + rest)[|opening| + 5..] == rest;
    ParseIntOfDecimal(m.ts, Ending(m.tampered));
  }

  // ----------------------------------------------------------- Narrowed views

  function Newer(entries: seq<string>, since: int): seq<string> {
    if entries == [] then []
    else (if TimestampOf(entries[0]) > since then [entries[0]] else []) + Newer(entries[1..], since)
  }

  /** The selection behind ?since= and ?limit=. */
  function Selected(entries: seq<string>, limit: int, since: int): seq<string> {
    var recent := if since > 0 then Newer(entries, since) else entries;
    if limit > 0 && |recent| > limit then recent[|recent| - limit..] else recent
  }

  function Lines(messages: seq<Message>): seq<string> {
    if messages == [] then [] else [Serialise(messages[0])] + Lines(messages[1..])
  }

  function Since(messages: seq<Message>, since: int): seq<Message> {
    if messages == [] then []
    else (if messages[0].ts > since then [messages[0]] else []) + Since(messages[1..], since)
  }

  function Last<T>(s: seq<T>, n: int): seq<T> {
    if 0 < n < |s| then s[|s| - n..] else s
  }

  /** Where the messages newer than `since` stand, in order. */
  function Places(messages: seq<Message>, since: int): seq<nat> {
    if messages == [] then []
    else
      var n := |messages| - 1;
      Places(messages[..n], since) + (if messages[n].ts > since then [n] else [])
  }

  lemma {:induction false} SinceSnoc(messages: seq<Message>, m: Message, since: int)
    ensures Since(messages + [m], since) == Since(messages, since) + (if m.ts > since then [m] else [])
  {
    var all := messages + [m];
    if messages == [] {
      assert all == [m] && all[1..] == [];
    } else {
      assert all[0] == messages[0] && all[1..] == messages[1..] + [m];
      SinceSnoc(messages[1..], m, since);
      var first := if all[0].ts > since then [all[0]] else [];
      assert Since(all, since) == first + Since(all[1..], since);
      assert Since(messages, since) == first + Since(messages[1..], since);
    }
  }

  lemma {:induction false} PlacesOfTheNewer(messages: seq<Message>, since: int)
    ensures var p := Places(messages, since);
            && (forall k :: 0 <= k < |p| ==> p[k] < |messages| && messages[p[k]].ts > since)
            && (forall k, l :: 0 <= k < l < |p| ==> p[k] < p[l])
            && (forall i :: 0 <= i < |messages| && messages[i].ts > since ==> i in p)
  {
    if messages != [] {
      var n := |messages| - 1;
      PlacesOfTheNewer(messages[..n], since);
      var p, before := Places(messages, since), Places(messages[..n], since);
      forall i | 0 <= i < |messages| && messages[i].ts > since
        ensures i in p
      {
        if i < n {
          assert messages[..n][i] == messages[i];
          assert i in before;
        } else {
          assert p[|p| - 1] == n;
        }
      }
    }
  }

  lemma {:induction false} SinceAtPlaces(messages: seq<Message>, since: int)
    ensures var p := Places(messages, since);
            && |Since(messages, since)| == |p|
            && (forall k :: 0 <= k < |p| ==> p[k] < |messages| && Since(messages, since)[k] == messages[p[k]])
  {
    if messages != [] {
      var n := |messages| - 1;
      SinceAtPlaces(messages[..n], since);
      SinceSnoc(messages[..n], messages[n], since);
      assert messages == messages[..n] + [messages[n]];
    }
  }

  /** Every message newer than `since`, no other, once each and in the order they were in. */
  lemma SinceIsTheNewer(messages: seq<Message>, since: int)
    ensures var p := Places(messages, since);
            && |Since(messages, since)| == |p|
            && (forall k :: 0 <= k < |p| ==>
                  p[k] < |messages| && Since(messages, since)[k] == messages[p[k]] && messages[p[k]].ts > since)
            && (forall k, l :: 0 <= k < l < |p| ==> p[k] < p[l])
            && (forall i :: 0 <= i < |messages| && messages[i].ts > since ==> i in p)
  {
    hide Since, Places;
    PlacesOfTheNewer(messages, since);
    SinceAtPlaces(messages, since);
  }

  /** The end of a list, `n` long if it has as many and n is positive, and otherwise all of it. */
  lemma LastIsTheEnd<T>(s: seq<T>, n: int)
    ensures |Last(s, n)| == if 0 < n < |s| then n else |s|
    ensures Last(s, n) == s[|s| - |Last(s, n)|..]
  {}

  lemma {:induction false} NewerAreSince(messages: seq<Message>, since: int)
    ensures Newer(Lines(messages), since) == Lines(Since(messages, since))
  {
    hide Serialise, TimestampOf;
    if messages != [] {
      var m, rest := messages[0], messages[1..];
      TimestampRoundTrip(m);
      NewerAreSince(rest, since);
      assert Lines(messages)[0] == Serialise(m) && Lines(messages)[1..] == Lines(rest);
      assert Newer(Lines(messages), since) == (if m.ts > since then [Serialise(m)] else []) + Lines(Since(rest, since));
      assert [] + Since(rest, since) == Since(rest, since);
      assert [] + Lines(Since(rest, since)) == Lines(Since(rest, since));
      if m.ts > since {
        assert Since(messages, since) == [m] + Since(rest, since);
        assert ([m] + Since(rest, since))[1..] == Since(rest, since);
      }
    }
  }

  lemma {:induction false} LinesLength(messages: seq<Message>)
    ensures |Lines(messages)| == |messages|
  {
    if messages != [] {
      hide Serialise;
      LinesLength(messages[1..]);
    }
  }

  lemma {:induction false} LinesDrop(messages: seq<Message>, n: nat)
    requires n <= |messages|
    ensures |Lines(messages)| == |messages| && Lines(messages)[n..] == Lines(messages[n..])
  {
    hide Serialise;
    LinesLength(messages);
    if n == 0 {
      assert Lines(messages)[0..] == Lines(messages) && messages[0..] == messages;
    } else {
      var rest := messages[1..];
      LinesDrop(rest, n - 1);
      assert Lines(messages) == [Serialise(messages[0])] + Lines(rest);
      assert messages[n..] == rest[n - 1..];
      assert Lines(messages)[n..] == Lines(rest)[n - 1..];
    }
  }

  /**
   Selecting among the finished lines by looking for their timestamps is
   selecting among the messages: the last `limit` of those newer than `since`.
   */
  lemma NarrowedViewIsRight(messages: seq<Message>, limit: int, since: int)
    ensures Selected(Lines(messages), limit, since)
            == Lines(Last(if since > 0 then Since(messages, since) else messages, limit))
  {
    hide Serialise, TimestampOf, Lines, Since, Newer;
    NewerAreSince(messages, since);
    var chosen := if since > 0 then Since(messages, since) else messages;
    LinesDrop(chosen, if 0 < limit < |chosen| then |chosen| - limit else 0);
  }

  // ----------------------------------------------------------------- Reading

  function HexValue(c: char): Option<nat> {
    if '0' <= c <= '9' then Some(c as int - '0' as int)
    else if 'a' <= c <= 'f' then Some(c as int - 'a' as int + 10)
    else None
  }

  datatype Read<+T> = Read(value: T, rest: string) | Bad

  /** One character of a JSON string, given the text after the opening quote. */
  function ReadChar(s: string): Read<char> {
    if |s| == 0 || s[0] == '\"' || s[0] < ' ' then Bad
    else if s[0] != '\\' then Read(s[0], s[1..])
    else if |s| < 2 then Bad
    else if s[1] == '\"' || s[1] == '\\' || s[1] == '/' then Read(s[1], s[2..])
    else if s[1] == 'b' then Read(8 as char, s[2..])
    else if s[1] == 'f' then Read(12 as char, s[2..])
    else if s[1] == 'n' then Read('\n', s[2..])
    else if s[1] == 'r' then Read('\r', s[2..])
    else if s[1] == 't' then Read('\t', s[2..])
    else if "u00" <= s[1..] && |s| >= 6 && HexValue(s[4]).Some? && HexValue(s[5]).Some?
    then Read((16 * HexValue(s[4]).value + HexValue(s[5]).value) as char, s[6..])
    else Bad
  }

  /** The rest of a JSON string after its opening quote. */
  function ReadString(s: string): Read<string>
    decreases |s|
  {
    if s != "" && s[0] == '\"' then Read("", s[1..])
    else
      match ReadChar(s)
      case Bad => Bad
      case Read(c, rest) =>
        if |rest| >= |s| then Bad
        else
          match ReadString(rest)
          case Bad => Bad
          case Read(tail, end) => Read([c] + tail, end)
  }

  lemma ReadEscape(c: char, rest: string)
    ensures ReadChar(Escape(c) + rest) == Read(c, rest)
    ensures (Escape(c) + rest)[0] != '\"' && |Escape(c)| >= 1
  {
    var s := Escape(c) + rest;
    if |Escape(c)| == 6 {
      ReadControl(c, rest);
    } else if |Escape(c)| == 2 {
      assert s[2..] == rest;
    } else {
      assert s[1..] == rest;
    }
  }

  lemma HexRoundTrip(n: nat)
    requires n < 16
    ensures HexValue(HexDigit(n)) == Some(n)
  {}

  lemma ReadControl(c: char, rest: string)
    requires |Escape(c)| == 6
    ensures ReadChar(Escape(c) + rest) == Read(c, rest)
  {
    hide HexDigit, HexValue;
    HexRoundTrip(c as int / 16);
    HexRoundTrip(c as int % 16);
    var s := Escape(c) + rest;
    assert s[1] == 'u' && s[2] == '0' && s[3] == '0';
    assert s[1..] == "u00" + s[4..] && s[6..] == rest;
    assert s[4] == HexDigit(c as int / 16) && s[5] == HexDigit(c as int % 16);
  }

  lemma EscapeAllCons(s: string, rest: string)
    requires s != ""
    ensures EscapeAll(s) + "\"" + rest == Escape(s[0]) + (EscapeAll(s[1..]) + "\"" + rest)
  {
    hide Escape;
  }

  lemma ReadNext(s: string, c: char, rest: string, tail: string, end: string)
    requires s != "" && s[0] != '\"' && ReadChar(s) == Read(c, rest) && |rest| < |s|
    requires ReadString(rest) == Read(tail, end)
    ensures ReadString(s) == Read([c] + tail, end)
  {
    hide ReadChar;
  }

  lemma ReadEnd(rest: string)
    ensures ReadString("\"" + rest) == Read("", rest)
  {
    hide ReadChar;
    assert ("\"" + rest)[1..] == rest;
  }

  /** A string written by the encoder reads back as itself, whatever follows it. */
  lemma {:induction false} StringRoundTrip(s: string, rest: string)
    ensures ReadString(EscapeAll(s) + "\"" + rest) == Read(s, rest)
    decreases |s|
  {
    hide ReadString, ReadChar, Escape;
    if s == "" {
      assert EscapeAll(s) + "\"" + rest == "\"" + rest;
      ReadEnd(rest);
    } else {
      var after := EscapeAll(s[1..]) + "\"" + rest;
      EscapeAllCons(s, rest);
      ReadEscape(s[0], after);
      StringRoundTrip(s[1..], rest);
      ReadNext(Escape(s[0]) + after, s[0], after, s[1..], rest);
      assert [s[0]] + s[1..] == s;
    }
  }

  /** Only quotes, backslashes and control characters are escaped, and those in their shortest form. */
  predicate Plain(c: char) {
    c != '\"' && c != '\\' && c >= ' '
  }

  lemma {:induction false} PlainTextIsWrittenAsItIs(s: string)
    requires forall i :: 0 <= i < |s| ==> Plain(s[i])
    ensures EscapeAll(s) == s
  {
    if s != "" {
      PlainTextIsWrittenAsItIs(s[1..]);
    }
  }

  lemma EscapesAreShort(c: char)
    ensures |Escape(c)| == if Plain(c) then 1 else if c in "\"\\\n\r\t" || c as int == 8 || c as int == 12 then 2 else 6
  {}

  // ---------------------------------------------------------- A whole feed

  const AFTER_MSG := ",\"ts\":"

  function ReadText(s: string): Read<Option<string>> {
    if "null" <= s then Read(None, s[4..])
    else if "\"" <= s then
      match ReadString(s[1..])
      case Bad => Bad
      case Read(text, rest) => Read(Some(text), rest)
    else Bad
  }

  /** Digits with no leading zero. */
  function ReadUnsigned(t: string): Read<int> {
    var n := LeadingDigits(t);
    LeadingDigitsBound(t);
    if n == 0 || (n > 1 && t[0] == '0') then Bad else Read(Value(t[..n]), t[n..])
  }

  function ReadNumber(s: string): Read<int> {
    if "-" <= s then
      match ReadUnsigned(s[1..])
      case Bad => Bad
      case Read(n, rest) => Read(-n, rest)
    else ReadUnsigned(s)
  }

  function ReadEnding(s: string): Read<bool> {
    if Ending(true) <= s then Read(true, s[|Ending(true)|..])
    else if Ending(false) <= s then Read(false, s[1..])
    else Bad
  }

  function ReadField(s: string, key: string): Read<string> {
    if key <= s then ReadString(s[|key|..]) else Bad
  }

  /** An object with the members of a feed entry, in their order. */
  function ReadMessage(s: string): Read<Message> {
    match ReadField(s, ID_KEY)
    case Bad => Bad
    case Read(id, s1) =>
      match ReadField(s1, NAME_KEY)
      case Bad => Bad
      case Read(name, s2) =>
        if !(MSG_KEY <= s2) then Bad else
        match ReadText(s2[|MSG_KEY|..])
        case Bad => Bad
        case Read(text, s3) =>
          if !(AFTER_MSG <= s3) then Bad else
          match ReadNumber(s3[|AFTER_MSG|..])
          case Bad => Bad
          case Read(ts, s4) =>
            match ReadEnding(s4)
            case Bad => Bad
            case Read(tampered, rest) => Read(Message(id, name, text, ts, tampered), rest)
  }

  function ReadItems(s: string): Option<seq<Message>>
    decreases |s|
  {
    match ReadMessage(s)
    case Bad => None
    case Read(m, rest) =>
      if rest == "]" then Some([m])
      else if |rest| == 0 || |rest| > |s| || rest[0] != ',' then None
      else
        match ReadItems(rest[1..])
        case None => None
        case Some(ms) => Some([m] + ms)
  }

  /** A JSON array of feed entries, and nothing after it. */
  function ReadFeed(s: string): Option<seq<Message>> {
    if s == "[]" then Some([]) else if "[" <= s then ReadItems(s[1..]) else None
  }

  lemma FieldRoundTrip(key: string, value: string, rest: string)
    ensures ReadField(key + (EscapeAll(value) + "\"" + rest), key) == Read(value, rest)
  {
    StringRoundTrip(value, rest);
    assert (key + (EscapeAll(value) + "\"" + rest))[|key|..] == EscapeAll(value) + "\"" + rest;
  }

  lemma TextRoundTrip(text: Option<string>, rest: string)
    ensures ReadText(TextValue(text) + rest) == Read(text, rest)
  {
    hide EscapeAll, ReadString;
    match text
    case None => assert ("null" + rest)[4..] == rest;
    case Some(t) =>
      StringRoundTrip(t, rest);
      var s := Quote(t) + rest;
      assert s[0] == '\"' && s[1..] == EscapeAll(t) + "\"" + rest;
  }

  lemma UnsignedRoundTrip(n: nat, rest: string)
    requires rest != "" && !IsDigit(rest[0])
    ensures ReadUnsigned(Digits(n) + rest) == Read(n, rest)
    ensures Digits(n) + rest != "" && IsDigit((Digits(n) + rest)[0])
  {
    hide Digits, LeadingDigits, Value;
    ParseDigits(n, rest);
    DigitsAreDigits(n);
    NoLeadingZero(n);
  }

  lemma NumberRoundTrip(n: int, rest: string)
    requires rest != "" && !IsDigit(rest[0])
    ensures ReadNumber(Decimal(n) + rest) == Read(n, rest)
  {
    hide Digits, ReadUnsigned;
    UnsignedRoundTrip(if n < 0 then -n else n, rest);
    if n < 0 {
      assert (Decimal(n) + rest)[1..] == Digits(-n) + rest && (Decimal(n) + rest)[0] == '-';
    }
  }

  lemma EndingRoundTrip(tampered: bool, rest: string)
    ensures ReadEnding(Ending(tampered) + rest) == Read(tampered, rest)
    ensures Ending(tampered) != "" && !IsDigit((Ending(tampered) + rest)[0])
  {
    var s := Ending(tampered) + rest;
    if tampered {
      assert s[|Ending(true)|..] == rest;
    } else {
      assert s[0] == '}' && Ending(true)[0] == ',' && s[1..] == rest;
    }
  }

  lemma SerialiseInPieces(m: Message, rest: string, s2: string, s1: string)
    requires s2 == MSG_KEY + (TextValue(m.text) + (AFTER_MSG + (Decimal(m.ts) + (Ending(m.tampered) + rest))))
    requires s1 == NAME_KEY + (EscapeAll(m.clientName) + "\"" + s2)
    ensures Serialise(m) + rest == ID_KEY + (EscapeAll(m.id) + "\"" + s1)
  {
    hide EscapeAll, Decimal, Ending, TextValue;
    var a, b := ID_KEY + EscapeAll(m.id) + "\"", NAME_KEY + EscapeAll(m.clientName) + "\"";
    var c, d, e := MSG_KEY + TextValue(m.text), Decimal(m.ts), Ending(m.tampered);
    AfterMessage(d, e, rest);
    assert s2 == c + ("," + TS_KEY + d + e + rest);
    assert s1 == b + s2;
    Regroup(a, b, c, ",", TS_KEY, d, e, rest);
  }

  lemma AfterMessage(d: string, e: string, rest: string)
    ensures AFTER_MSG + (d + (e + rest)) == "," + TS_KEY + d + e + rest
  {
    assert AFTER_MSG == "," + TS_KEY;
  }

  lemma Regroup(a: string, b: string, c: string, comma: string, key: string, d: string, e: string, rest: string)
    ensures (a + b + c + comma) + key + d + e + rest == a + (b + (c + (comma + key + d + e + rest)))
  {}

  /** An entry reads back as the message it was written for, whatever follows it. */
  lemma MessageRoundTrip(m: Message, rest: string)
    ensures ReadMessage(Serialise(m) + rest) == Read(m, rest)
    ensures |Serialise(m)| >= 1
  {
    hide EscapeAll, Decimal, ReadField, ReadText, ReadNumber, ReadEnding, Ending;
    var text := TextValue(m.text);
    var s5 := Ending(m.tampered) + rest;
    var s4 := Decimal(m.ts) + s5;
    var s3 := AFTER_MSG + s4;
    var s2 := MSG_KEY + (text + s3);
    var s1 := NAME_KEY + (EscapeAll(m.clientName) + "\"" + s2);
    SerialiseInPieces(m, rest, s2, s1);
    FieldRoundTrip(ID_KEY, m.id, s1);
    FieldRoundTrip(NAME_KEY, m.clientName, s2);
    assert s2[|MSG_KEY|..] == text + s3 && s3[|AFTER_MSG|..] == s4;
    TextRoundTrip(m.text, s3);
    EndingRoundTrip(m.tampered, rest);
    NumberRoundTrip(m.ts, s5);
  }

  lemma {:induction false} ItemsRoundTrip(messages: seq<Message>)
    requires messages != []
    ensures ReadItems(Join(Lines(messages)) + "]") == Some(messages)
  {
    hide Serialise, ReadMessage;
    var m, more := messages[0], messages[1..];
    var lines := Lines(messages);
    assert lines[0] == Serialise(m) && lines[1..] == Lines(more);
    LinesDrop(messages, 0);
    LinesDrop(more, 0);
    if more == [] {
      MessageRoundTrip(m, "]");
      assert messages == [m];
    } else {
      var rest := "," + (Join(Lines(more)) + "]");
      MessageRoundTrip(m, rest);
      ItemsRoundTrip(more);
      assert Join(lines) + "]" == Serialise(m) + rest;
      assert rest[1..] == Join(Lines(more)) + "]" && rest[0] == ',' && rest != "]";
      assert [m] + more == messages;
    }
  }

  /**
   What goes in through /message is what comes back out of /feed: the array reads as the
   messages, in order.
   */
  lemma FeedRoundTrip(messages: seq<Message>)
    ensures ReadFeed(ArrayText(Lines(messages))) == Some(messages)
  {
    hide Serialise, ReadMessage, Join;
    if messages == [] {
      assert Join([]) == "" by { EmptyJoin(); }
    } else {
      ItemsRoundTrip(messages);
      var s := ArrayText(Lines(messages));
      assert s[1..] == Join(Lines(messages)) + "]";
      if s == "[]" {
        assert s[1..] == "]" && ReadItems("]") == Some(messages);
        NoItems();
        assert false;
      }
    }
  }

  /** What a client makes of the bytes of a response. */
  function ReadBytes(bytes: seq<Byte>): Option<seq<Message>> {
    match DecodeUtf8(bytes)
    case None => None
    case Some(text) => ReadFeed(text)
  }

  lemma BytesRoundTrip(messages: seq<Message>)
    ensures ReadBytes(Utf8(ArrayText(Lines(messages)))) == Some(messages)
  {
    hide ReadFeed, DecodeUtf8;
    Utf8RoundTrip(ArrayText(Lines(messages)));
    FeedRoundTrip(messages);
  }

  lemma {:induction false} LinesSnoc(messages: seq<Message>, m: Message)
    ensures Lines(messages + [m]) == Lines(messages) + [Serialise(m)]
  {
    hide Serialise;
    if messages == [] {
      assert [] + [m] == [m] && [m][1..] == [];
    } else {
      assert (messages + [m])[1..] == messages[1..] + [m];
      LinesSnoc(messages[1..], m);
    }
  }

  lemma {:induction false} LinesTake(messages: seq<Message>, n: nat)
    requires n <= |messages|
    ensures |Lines(messages)| == |messages| && Lines(messages)[..n] == Lines(messages[..n])
  {
    hide Serialise;
    LinesLength(messages);
    if n > 0 {
      LinesTake(messages[1..], n - 1);
      assert messages[..n] == [messages[0]] + messages[1..][..n - 1];
      assert Lines(messages)[..n] == [Serialise(messages[0])] + Lines(messages[1..])[..n - 1];
    }
  }

  lemma LinesSlice(messages: seq<Message>, i: nat, j: nat)
    requires i <= j <= |messages|
    ensures |Lines(messages)| == |messages| && Lines(messages)[i..j] == Lines(messages[i..j])
  {
    hide Lines;
    LinesTake(messages, j);
    LinesDrop(messages[..j], i);
    assert messages[i..j] == messages[..j][i..] && Lines(messages)[i..j] == Lines(messages)[..j][i..];
  }

  lemma EmptyJoin()
    ensures Join([]) == ""
  {}

  lemma NoItems()
    ensures ReadItems("]") == None
  {
    assert ReadField("]", ID_KEY) == Bad;
  }
}

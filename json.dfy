/**
 * `json.dumps` with Python's default options, for the flat objects the reward bot
 * serialises: string keys mapped to strings or non-negative ints, in insertion order,
 * separators ", " and ": ", and `ensure_ascii=True` escaping. Beside it, a reference
 * decoder, so that the encoding can be shown to lose nothing.
 */
module Json {
  import opened Wrappers
  import opened Text

  datatype Value = Str(s: string) | Num(n: nat)

  /** One `key: value` pair of a dict, in the dict's insertion order. */
  type Member = (string, Value)

  /** Characters `json.dumps` copies unescaped: printable ASCII, space to tilde. */
  predicate IsPrintableAscii(c: char) { ' ' <= c <= '~' }

  predicate AllPrintableAscii(s: string) { forall i :: 0 <= i < |s| ==> IsPrintableAscii(s[i]) }

  function Pow16(k: nat): (p: nat)
    ensures p >= 1
  {
    if k == 0 then 1 else 16 * Pow16(k - 1)
  }

  predicate IsHexDigit(c: char) { '0' <= c <= '9' || 'a' <= c <= 'f' || 'A' <= c <= 'F' }

  function HexDigit(d: nat): (c: char)
    requires d < 16
    ensures IsHexDigit(c) && IsPrintableAscii(c)
  {
    if d < 10 then ('0' as int + d) as char else ('a' as int + d - 10) as char
  }

  function HexDigitValue(c: char): (d: nat)
    requires IsHexDigit(c)
    ensures d < 16
  {
    if '0' <= c <= '9' then c as int - '0' as int
    else if 'a' <= c <= 'f' then c as int - 'a' as int + 10
    else c as int - 'A' as int + 10
  }

  /** The `k` lower-case hex digits of `n`, most significant first (format spec `0{k}x`). */
  function HexDigits(n: nat, k: nat): (s: string)
    requires n < Pow16(k)
    ensures |s| == k
    ensures forall i :: 0 <= i < k ==> IsHexDigit(s[i]) && IsPrintableAscii(s[i])
  {
    if k == 0 then [] else HexDigits(n / 16, k - 1) + [HexDigit(n % 16)]
  }

  /** The number a string of hex digits denotes. */
  function HexValue(s: string): (v: nat)
    requires forall i :: 0 <= i < |s| ==> IsHexDigit(s[i])
    ensures v < Pow16(|s|)
  {
    if s == [] then 0 else HexValue(s[..|s| - 1]) * 16 + HexDigitValue(s[|s| - 1])
  }

  lemma {:induction false} HexRoundTrip(n: nat, k: nat)
    requires n < Pow16(k)
    ensures HexValue(HexDigits(n, k)) == n
  {
    if k > 0 {
      var s := HexDigits(n, k);
      assert s[..k - 1] == HexDigits(n / 16, k - 1);
      HexRoundTrip(n / 16, k - 1);
      assert HexDigitValue(HexDigit(n % 16)) == n % 16;
    }
  }

  /** `'{0:04x}'.format(n)`, the digits of a `\uXXXX` escape. */
  function Hex4(n: nat): (s: string)
    requires n < 0x1_0000
    ensures |s| == 4 && AllPrintableAscii(s)
  {
    assert Pow16(4) == 0x1_0000;
    HexDigits(n, 4)
  }

  /** One character as `json.dumps(..., ensure_ascii=True)` writes it inside a string. */
  function EscapeChar(c: char): (e: string)
  {
    if c == '"' then "\\\""
    else if c == '\\' then "\\\\"
    else if c == '\n' then "\\n"
    else if c == '\r' then "\\r"
    else if c == '\t' then "\\t"
    else if c as int == 0x08 then "\\b"
    else if c as int == 0x0C then "\\f"
    else if IsPrintableAscii(c) then [c]
    else if c as int < 0x1_0000 then "\\u" + Hex4(c as int)
    else
      // outside the Basic Multilingual Plane: a UTF-16 surrogate pair
      var n := c as int - 0x1_0000;
      "\\u" + Hex4(0xD800 + n / 0x400) + "\\u" + Hex4(0xDC00 + n % 0x400)
  }

  function Escape(s: string): (e: string)
  {
    if s == [] then [] else EscapeChar(s[0]) + Escape(s[1..])
  }

  /** Every escape is printable ASCII and never starts with a bare quote. */
  lemma EscapeCharPrintable(c: char)
    ensures |EscapeChar(c)| > 0 && EscapeChar(c)[0] != '"' && AllPrintableAscii(EscapeChar(c))
  {
  }

  /** `ensure_ascii` output: the escaped text is printable ASCII throughout. */
  lemma {:induction false} EscapePrintable(s: string)
    ensures AllPrintableAscii(Escape(s))
  {
    if s != [] {
      EscapeCharPrintable(s[0]);
      EscapePrintable(s[1..]);
      PrintableConcat(EscapeChar(s[0]), Escape(s[1..]));
    }
  }

  /** A JSON string literal. */
  function Quote(s: string): string { "\"" + Escape(s) + "\"" }

  function ValueText(v: Value): string {
    match v
    case Str(s) => Quote(s)
    case Num(n) => Decimal(n)
  }

  function MemberText(m: Member): string { Quote(m.0) + ": " + ValueText(m.1) }

  /** The members, separated by ", ", then the closing brace. */
  function MembersText(ms: seq<Member>): string
    requires |ms| > 0
  {
    if |ms| == 1 then MemberText(ms[0]) + "}"
    else MemberText(ms[0]) + (", " + MembersText(ms[1..]))
  }

  /** `json.dumps(d)` for a dict `d` whose pairs, in insertion order, are `ms`. */
  function Dumps(ms: seq<Member>): string {
    if |ms| == 0 then "{}" else "{" + MembersText(ms)
  }

  // ---------------------------------------------------------------------------
  // Reference decoder: a reader for the texts `Dumps` writes
  // ---------------------------------------------------------------------------

  function ParseHex4(t: string): (r: Option<nat>)
    ensures r.Some? ==> r.value < 0x1_0000
  {
    if |t| >= 4 && forall i :: 0 <= i < 4 ==> IsHexDigit(t[i]) then
      assert |t[..4]| == 4 && Pow16(4) == 0x1_0000;
      Some(HexValue(t[..4]))
    else None
  }

  function Unescape(e: char): Option<char> {
    if e == '"' then Some('"')
    else if e == '\\' then Some('\\')
    else if e == '/' then Some('/')
    else if e == 'b' then Some(0x08 as char)
    else if e == 'f' then Some(0x0C as char)
    else if e == 'n' then Some('\n')
    else if e == 'r' then Some('\r')
    else if e == 't' then Some('\t')
    else None
  }

  /** Decodes the four hex digits after `\u` (and a low surrogate after a high one). */
  function ParseUnicodeEscape(t: string): (r: Option<(char, string)>)
    ensures r.Some? ==> |r.value.1| <= |t| - 4
  {
    match ParseHex4(t)
    case None => None
    case Some(h) =>
      if h < 0xD800 || 0xE000 <= h then Some((h as char, t[4..]))
      else if 0xDC00 <= h then None
      else if |t| >= 10 && t[4] == '\\' && t[5] == 'u' then
        match ParseHex4(t[6..])
        case None => None
        case Some(lo) =>
          if 0xDC00 <= lo < 0xE000 then
            Some(((0x1_0000 + (h - 0xD800) * 0x400 + (lo - 0xDC00)) as char, t[10..]))
          else None
      else None
  }

  /** Decodes one character of a string literal (not its closing quote). */
  function ParseChar(t: string): (r: Option<(char, string)>)
    requires |t| > 0
    ensures r.Some? ==> |r.value.1| < |t|
  {
    if t[0] != '\\' then Some((t[0], t[1..]))
    else if |t| < 2 then None
    else if t[1] == 'u' then ParseUnicodeEscape(t[2..])
    else
      match Unescape(t[1])
      case None => None
      case Some(c) => Some((c, t[2..]))
  }

  /** Decodes a string literal whose opening quote has been read; returns the text after it. */
  function ParseStringBody(t: string): (r: Option<(string, string)>)
    ensures r.Some? ==> |r.value.1| < |t|
    decreases |t|
  {
    if |t| == 0 then None
    else if t[0] == '"' then Some(([], t[1..]))
    else
      match ParseChar(t)
      case None => None
      case Some((c, rest)) =>
        match ParseStringBody(rest)
        case None => None
        case Some((s, after)) => Some(([c] + s, after))
  }

  function ParseValue(t: string): (r: Option<(Value, string)>)
    ensures r.Some? ==> |r.value.1| < |t|
  {
    if |t| > 0 && t[0] == '"' then
      match ParseStringBody(t[1..])
      case None => None
      case Some((s, rest)) => Some((Str(s), rest))
    else
      match ParseNat(t)
      case None => None
      case Some((n, rest)) => Some((Num(n), rest))
  }

  function ParseMember(t: string): (r: Option<(Member, string)>)
    ensures r.Some? ==> |r.value.1| < |t|
  {
    if |t| == 0 || t[0] != '"' then None
    else
      match ParseStringBody(t[1..])
      case None => None
      case Some((k, rest)) =>
        if |rest| < 2 || rest[..2] != ": " then None
        else
          match ParseValue(rest[2..])
          case None => None
          case Some((v, after)) => Some(((k, v), after))
  }

  /** Decodes one or more members followed by the closing brace, which must end the text. */
  function ParseMembers(t: string): Option<seq<Member>>
    decreases |t|
  {
    match ParseMember(t)
    case None => None
    case Some((m, rest)) =>
      if rest == "}" then Some([m])
      else if |rest| >= 2 && rest[..2] == ", " then
        match ParseMembers(rest[2..])
        case None => None
        case Some(ms) => Some([m] + ms)
      else None
  }

  /** Decodes a whole document holding one flat object. */
  function ParseObject(t: string): Option<seq<Member>> {
    if |t| < 2 || t[0] != '{' then None
    else if t[1..] == "}" then Some([])
    else ParseMembers(t[1..])
  }

  // ---------------------------------------------------------------------------
  // Round trip
  // ---------------------------------------------------------------------------

  lemma UnicodeEscapeRoundTrip(h: nat, rest: string)
    requires h < 0xD800 || 0xE000 <= h < 0x1_0000
    ensures ParseUnicodeEscape(Hex4(h) + rest) == Some((h as char, rest))
  {
    var t := Hex4(h) + rest;
    assert t[..4] == Hex4(h) && t[4..] == rest;
    HexRoundTrip(h, 4);
  }

  lemma SurrogatePairRoundTrip(c: char, rest: string)
    requires c as int >= 0x1_0000
    ensures var n := c as int - 0x1_0000;
      ParseUnicodeEscape(Hex4(0xD800 + n / 0x400) + "\\u" + Hex4(0xDC00 + n % 0x400) + rest)
        == Some((c, rest))
  {
    var n := c as int - 0x1_0000;
    var hi, lo := 0xD800 + n / 0x400, 0xDC00 + n % 0x400;
    var t := Hex4(hi) + "\\u" + Hex4(lo) + rest;
    assert t[..4] == Hex4(hi);
    assert t[6..][..4] == Hex4(lo) && t[10..] == rest;
    HexRoundTrip(hi, 4);
    HexRoundTrip(lo, 4);
    assert 0x1_0000 + (hi - 0xD800) * 0x400 + (lo - 0xDC00) == c as int;
  }

  lemma EscapeCharRoundTrip(c: char, rest: string)
    ensures ParseChar(EscapeChar(c) + rest) == Some((c, rest))
  {
    var e := EscapeChar(c);
    var t := e + rest;
    if c == '"' || c == '\\' || c == '\n' || c == '\r' || c == '\t' || c as int == 0x08 || c as int == 0x0C {
      assert |e| == 2 && e[0] == '\\' && Unescape(e[1]) == Some(c);
      assert t[0] == '\\' && t[1] == e[1] && t[2..] == rest;
    } else if IsPrintableAscii(c) {
      assert t[0] == c && t[1..] == rest;
    } else if c as int < 0x1_0000 {
      assert t[..2] == "\\u" && t[2..] == Hex4(c as int) + rest;
      UnicodeEscapeRoundTrip(c as int, rest);
    } else {
      var n := c as int - 0x1_0000;
      assert t[..2] == "\\u" && t[2..] == Hex4(0xD800 + n / 0x400) + "\\u" + Hex4(0xDC00 + n % 0x400) + rest;
      SurrogatePairRoundTrip(c, rest);
    }
  }

  lemma {:induction false} EscapeRoundTrip(s: string, rest: string)
    ensures ParseStringBody(Escape(s) + "\"" + rest) == Some((s, rest))
  {
    var t := Escape(s) + "\"" + rest;
    if s == [] {
      assert t == "\"" + rest;
    } else {
      var tail := Escape(s[1..]) + "\"" + rest;
      assert t == EscapeChar(s[0]) + tail;
      EscapeCharPrintable(s[0]);
      EscapeCharRoundTrip(s[0], tail);
      EscapeRoundTrip(s[1..], rest);
      assert [s[0]] + s[1..] == s;
    }
  }

  lemma ValueRoundTrip(v: Value, rest: string)
    requires rest == [] || !IsDigit(rest[0])
    ensures ParseValue(ValueText(v) + rest) == Some((v, rest))
  {
    match v
    case Str(s) =>
      var t := ValueText(v) + rest;
      assert t[1..] == Escape(s) + "\"" + rest;
      EscapeRoundTrip(s, rest);
    case Num(n) =>
      ParseNatDecimal(n, rest);
  }

  lemma MemberRoundTrip(m: Member, rest: string)
    requires rest == [] || !IsDigit(rest[0])
    ensures ParseMember(MemberText(m) + rest) == Some((m, rest))
  {
    var after := ValueText(m.1) + rest;
    var t := MemberText(m) + rest;
    MemberTextShape(m, rest);
    EscapeRoundTrip(m.0, ": " + after);
    ValueRoundTrip(m.1, rest);
    ParseMemberAt(t, m.0, after, m.1, rest);
  }

  lemma MemberTextShape(m: Member, rest: string)
    ensures var t := MemberText(m) + rest;
      |t| > 0 && t[0] == '"' && t[1..] == Escape(m.0) + "\"" + (": " + (ValueText(m.1) + rest))
  {
    var t := MemberText(m) + rest;
    assert t == "\"" + (Escape(m.0) + "\"" + (": " + (ValueText(m.1) + rest)));
  }

  /** `ParseMember` reads a key, the ": " separator and a value. */
  lemma ParseMemberAt(t: string, k: string, after: string, v: Value, rest: string)
    requires |t| > 0 && t[0] == '"'
    requires ParseStringBody(t[1..]) == Some((k, ": " + after))
    requires ParseValue(after) == Some((v, rest))
    ensures ParseMember(t) == Some(((k, v), rest))
  {
    assert (": " + after)[..2] == ": " && (": " + after)[2..] == after;
  }

  /** How `ParseMembers` continues once its first member has been read. */
  lemma ParseMembersStep(t: string, m: Member, rest: string)
    requires ParseMember(t) == Some((m, rest))
    ensures rest == "}" ==> ParseMembers(t) == Some([m])
    ensures rest != "}" && |rest| >= 2 && rest[..2] == ", " ==>
      ParseMembers(t) == match ParseMembers(rest[2..]) case None => None case Some(ms) => Some([m] + ms)
  {
  }

  lemma {:induction false} MembersRoundTrip(ms: seq<Member>)
    requires |ms| > 0
    ensures ParseMembers(MembersText(ms)) == Some(ms)
  {
    var t := MembersText(ms);
    if |ms| == 1 {
      MemberRoundTrip(ms[0], "}");
      ParseMembersStep(t, ms[0], "}");
      assert [ms[0]] == ms;
    } else {
      var tail := ", " + MembersText(ms[1..]);
      MembersTextCons(ms);
      MemberRoundTrip(ms[0], tail);
      ParseMembersStep(t, ms[0], tail);
      MembersRoundTrip(ms[1..]);
      assert [ms[0]] + ms[1..] == ms;
    }
  }

  lemma MembersTextCons(ms: seq<Member>)
    requires |ms| > 1
    ensures var tail := ", " + MembersText(ms[1..]);
      && MembersText(ms) == MemberText(ms[0]) + tail
      && tail[0] == ',' && tail != "}" && tail[..2] == ", " && tail[2..] == MembersText(ms[1..])
  {
  }

  /** Decoding what `Dumps` wrote gives back exactly the pairs, in order. */
  lemma DumpsRoundTrip(ms: seq<Member>)
    ensures ParseObject(Dumps(ms)) == Some(ms)
  {
    var t := Dumps(ms);
    if |ms| == 0 {
      assert t[1..] == "}";
    } else {
      var m := MembersText(ms);
      assert m[0] == '"';
      assert t[1..] == m && t[1..] != "}";
      MembersRoundTrip(ms);
    }
  }

  /** Distinct dicts never serialise to the same text. */
  lemma DumpsInjective(ms: seq<Member>, ns: seq<Member>)
    ensures Dumps(ms) == Dumps(ns) <==> ms == ns
  {
    DumpsRoundTrip(ms);
    DumpsRoundTrip(ns);
  }

  lemma {:induction false} MembersTextPrintable(ms: seq<Member>)
    requires |ms| > 0
    ensures AllPrintableAscii(MembersText(ms))
  {
    MemberTextPrintable(ms[0]);
    if |ms| == 1 {
      PrintableConcat(MemberText(ms[0]), "}");
    } else {
      MembersTextPrintable(ms[1..]);
      PrintableConcat(", ", MembersText(ms[1..]));
      PrintableConcat(MemberText(ms[0]), ", " + MembersText(ms[1..]));
    }
  }

  lemma PrintableConcat(a: string, b: string)
    requires AllPrintableAscii(a) && AllPrintableAscii(b)
    ensures AllPrintableAscii(a + b)
  {
  }

  lemma MemberTextPrintable(m: Member)
    ensures AllPrintableAscii(MemberText(m))
  {
    EscapePrintable(m.0);
    PrintableConcat("\"", Escape(m.0));
    PrintableConcat("\"" + Escape(m.0), "\"");
    PrintableConcat(Quote(m.0), ": ");
    match m.1
    case Str(s) =>
      EscapePrintable(s);
      PrintableConcat("\"", Escape(s));
      PrintableConcat("\"" + Escape(s), "\"");
      PrintableConcat(Quote(m.0) + ": ", Quote(s));
    case Num(n) =>
      assert forall i :: 0 <= i < |Decimal(n)| ==> IsDigit(Decimal(n)[i]);
      PrintableConcat(Quote(m.0) + ": ", Decimal(n));
  }

  /** With `ensure_ascii=True` the output is printable ASCII, whatever the strings hold. */
  lemma DumpsPrintableAscii(ms: seq<Member>)
    ensures AllPrintableAscii(Dumps(ms))
  {
    if |ms| > 0 {
      MembersTextPrintable(ms);
      PrintableConcat("{", MembersText(ms));
    }
  }
}

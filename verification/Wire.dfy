/** Text the service exchanges with PostgreSQL: decimal numbers, string literals, channel names and
    the NOTIFY statements made of them. */
module Wire {
  import opened Models

  // ---------- Decimal numbers: %d and strconv.Atoi ----------

  const INT_LIMIT := 0x8000_0000_0000_0000

  predicate IsDigit(c: char) { '0' <= c <= '9' }

  function Digit(d: nat): (c: char)
    requires d < 10
    ensures IsDigit(c) && DigitValue(c) == d
  {
    (d + '0' as int) as char
  }

  function DigitValue(c: char): nat
    requires IsDigit(c)
  {
    c as int - '0' as int
  }

  function Digits(n: nat): string {
    if n < 10 then [Digit(n)] else Digits(n / 10) + [Digit(n % 10)]
  }

  /** What %d prints. */
  function Itoa(n: int): string {
    if n < 0 then "-" + Digits(-n) else Digits(n)
  }

  function ParseDigits(s: string): Option<nat> {
    if s == [] || !IsDigit(s[|s| - 1]) then None
    else if |s| == 1 then Some(DigitValue(s[0]))
    else match ParseDigits(s[..|s| - 1])
      case Some(v) => Some(v * 10 + DigitValue(s[|s| - 1]))
      case None => None
  }

  /** strconv.Atoi on a 64-bit machine: an optional sign, decimal digits, no overflow. */
  function Atoi(s: string): Option<int> {
    var signed := s != [] && (s[0] == '-' || s[0] == '+');
    match ParseDigits(if signed then s[1..] else s)
    case None => None
    case Some(v) =>
      var m: int := v;
      var n := if signed && s[0] == '-' then -m else m;
      if -INT_LIMIT <= n < INT_LIMIT then Some(n) else None
  }

  lemma {:induction false} DigitsRoundTrip(n: nat)
    ensures ParseDigits(Digits(n)) == Some(n)
    ensures Digits(n) != [] && forall i :: 0 <= i < |Digits(n)| ==> IsDigit(Digits(n)[i])
  {
    if n >= 10 {
      DigitsRoundTrip(n / 10);
      assert Digits(n)[..|Digits(n)| - 1] == Digits(n / 10);
    }
  }

  /** Every status, and every other integer Go can hold, survives being sent as text. */
  lemma {:induction false} AtoiRoundTrip(n: int)
    requires -INT_LIMIT <= n < INT_LIMIT
    ensures Atoi(Itoa(n)) == Some(n)
  {
    if n < 0 {
      DigitsRoundTrip(-n);
      assert Itoa(n)[1..] == Digits(-n);
    } else {
      DigitsRoundTrip(n);
    }
  }

  // ---------- String literals ----------

  const QUOTE := '\''

  /** strings.Replace(s, "'", "''", -1) */
  function Doubled(s: string): string {
    if s == [] then []
    else DoubledChar(s[0]) + Doubled(s[1..])
  }

  /** quoteString */
  function Quote(s: string): string {
    [QUOTE] + Doubled(s) + [QUOTE]
  }

  /** The characters of a literal whose opening quote has been read, and what follows it: a doubled
      quote stands for one, a single quote ends the literal (section 5.3 of ISO/IEC 9075-2). */
  function LexBody(t: string): Option<(string, string)> {
    if t == [] then None
    else if t[0] != QUOTE then Prepend(t[0], LexBody(t[1..]))
    else if |t| > 1 && t[1] == QUOTE then Prepend(QUOTE, LexBody(t[2..]))
    else Some(([], t[1..]))
  }

  function Prepend(c: char, r: Option<(string, string)>): Option<(string, string)> {
    match r
    case Some((v, rest)) => Some(([c] + v, rest))
    case None => None
  }

  function LexLiteral(t: string): Option<(string, string)> {
    if t != [] && t[0] == QUOTE then LexBody(t[1..]) else None
  }

  function DoubledChar(c: char): string {
    if c == QUOTE then [QUOTE, QUOTE] else [c]
  }

  lemma {:induction false} LexChar(c: char, t: string)
    ensures LexBody(DoubledChar(c) + t) == Prepend(c, LexBody(t))
  {
    var u := DoubledChar(c) + t;
    assert u[|DoubledChar(c)|..] == t;
  }

  /** Doubled text inside a literal reads back as the text itself, whatever follows. */
  lemma {:induction false} LexDoubled(s: string, t: string)
    ensures LexBody(Doubled(s) + t) ==
            match LexBody(t)
            case Some((v, rest)) => Some((s + v, rest))
            case None => None
  {
    if s == [] {
      assert Doubled(s) + t == t;
      assert forall v: string :: s + v == v;
    } else {
      LexDoubled(s[1..], t);
      LexChar(s[0], Doubled(s[1..]) + t);
      assert Doubled(s) + t == DoubledChar(s[0]) + (Doubled(s[1..]) + t);
      assert forall v: string :: [s[0]] + (s[1..] + v) == s + v;
    }
  }

  /** Reading back a quoted string yields the string and the rest of the statement exactly when that
      rest does not begin with a quote. */
  lemma {:induction false} QuoteRoundTrip(s: string, suffix: string)
    ensures LexLiteral(Quote(s) + suffix) == Some((s, suffix)) <==>
            (suffix == [] || suffix[0] != QUOTE)
  {
    var t := [QUOTE] + suffix;
    assert (Quote(s) + suffix)[1..] == Doubled(s) + t;
    LexDoubled(s, t);
    assert t[1..] == suffix;
    if suffix != [] && suffix[0] == QUOTE {
      match LexBody(t) {
        case Some((v, _)) => assert |s + v| > |s|;
        case None =>
      }
    } else {
      assert s + [] == s;
    }
  }

  lemma {:induction false} NothingToDouble(s: string)
    requires QUOTE !in s
    ensures Doubled(s) == s
  {
    if s != [] {
      assert s[0] in s && forall c :: c in s[1..] ==> c in s;
      NothingToDouble(s[1..]);
    }
  }

  // ---------- Build ids ----------

  type Byte = b: nat | b < 256

  type Uuid = u: seq<Byte> | |u| == 16 witness seq(16, i => 0)

  function HexDigit(d: nat): char
    requires d < 16
  {
    "0123456789abcdef"[d]
  }

  function Hex(bs: seq<Byte>): (s: string)
    ensures |s| == 2 * |bs|
  {
    if bs == [] then [] else [HexDigit(bs[0] / 16), HexDigit(bs[0] % 16)] + Hex(bs[1..])
  }

  /** The canonical form (section 3 of RFC 4122). */
  function UuidString(u: Uuid): (s: string)
    ensures |s| == 36
  {
    Hex(u[..4]) + "-" + Hex(u[4..6]) + "-" + Hex(u[6..8]) + "-" + Hex(u[8..10]) + "-" + Hex(u[10..])
  }

  lemma {:induction false} HexInjective(a: seq<Byte>, b: seq<Byte>)
    requires |a| == |b| && Hex(a) == Hex(b)
    ensures a == b
  {
    if a != [] {
      assert Hex(a)[0] == Hex(b)[0] && Hex(a)[1] == Hex(b)[1];
      assert Hex(a)[2..] == Hex(a[1..]) && Hex(b)[2..] == Hex(b[1..]);
      HexDigitInjective(a[0] / 16, b[0] / 16);
      HexDigitInjective(a[0] % 16, b[0] % 16);
      HexInjective(a[1..], b[1..]);
      assert a == [a[0]] + a[1..] && b == [b[0]] + b[1..];
    }
  }

  /** What a hexadecimal digit stands for. */
  function HexValue(c: char): nat
    requires IsHexDigit(c)
  {
    if c <= '9' then c as nat - '0' as nat else 10 + (c as nat - 'a' as nat)
  }

  /** The i-th byte is read back from its two digits. */
  lemma {:induction false} HexRoundTrip(bs: seq<Byte>, i: nat)
    requires i < |bs|
    ensures IsHexDigit(Hex(bs)[2 * i]) && IsHexDigit(Hex(bs)[2 * i + 1])
    ensures 16 * HexValue(Hex(bs)[2 * i]) + HexValue(Hex(bs)[2 * i + 1]) == bs[i]
  {
    hide HexDigit, HexValue, IsHexDigit;
    HexDigitValue(bs[0] / 16);
    HexDigitValue(bs[0] % 16);
    if i > 0 {
      HexRoundTrip(bs[1..], i - 1);
      var k := 2 * (i - 1);
      assert Hex(bs)[k + 2] == Hex(bs[1..])[k] && Hex(bs)[k + 3] == Hex(bs[1..])[k + 1];
    }
  }

  lemma {:induction false} HexDigitValue(d: nat)
    requires d < 16
    ensures IsHexDigit(HexDigit(d)) && HexValue(HexDigit(d)) == d
  {
  }

  lemma {:induction false} HexDigitInjective(d: nat, e: nat)
    requires d < 16 && e < 16 && HexDigit(d) == HexDigit(e)
    ensures d == e
  {
  }

  predicate IsHexDigit(c: char) { '0' <= c <= '9' || 'a' <= c <= 'f' }

  lemma {:induction false} HexIsHex(bs: seq<Byte>, i: nat)
    requires i < |Hex(bs)|
    ensures IsHexDigit(Hex(bs)[i])
  {
    if i >= 2 {
      HexIsHex(bs[1..], i - 2);
    }
  }

  // ---------- Channels ----------

  datatype Channel = EventChannel | CancelChannel | RunningChannel | CompletedChannel

  function Prefix(ch: Channel): string {
    match ch
    case EventChannel => "build_"
    case CancelChannel => "cxl_build_"
    case RunningChannel => "running_build_"
    case CompletedChannel => "completed_build_"
  }

  /** strings.ReplaceAll(s, "-", "_") */
  function Underscored(s: string): (t: string)
    ensures |t| == |s|
    ensures forall i :: 0 <= i < |s| ==> t[i] == if s[i] == '-' then '_' else s[i]
  {
    if s == [] then [] else [if s[0] == '-' then '_' else s[0]] + Underscored(s[1..])
  }

  /** The four pg...ChanFromID functions. */
  function ChannelName(ch: Channel, u: Uuid): (s: string)
    ensures |s| == |Prefix(ch)| + 36
  {
    Prefix(ch) + Underscored(UuidString(u))
  }

  predicate IsNameChar(c: char) { IsHexDigit(c) || 'a' <= c <= 'z' || c == '_' }

  function Lower(c: char): char {
    if 'A' <= c <= 'Z' then (c as int + 32) as char else c
  }

  function LowerCased(s: string): (t: string)
    ensures |t| == |s| && forall i :: 0 <= i < |s| ==> t[i] == Lower(s[i])
  {
    if s == [] then [] else [Lower(s[0])] + LowerCased(s[1..])
  }

  const MAX_IDENTIFIER := 63

  /** What PostgreSQL makes of an unquoted identifier: lower case, at most 63 bytes. */
  function Identifier(s: string): string {
    var t := LowerCased(s);
    if |t| > MAX_IDENTIFIER then t[..MAX_IDENTIFIER] else t
  }

  predicate HyphenAt(i: nat) { i == 8 || i == 13 || i == 18 || i == 23 }

  /** Where the canonical form has its hyphens. */
  lemma {:induction false} UuidStringAt(u: Uuid, i: nat)
    requires i < 36
    ensures HyphenAt(i) ==> UuidString(u)[i] == '-'
    ensures !HyphenAt(i) ==> IsHexDigit(UuidString(u)[i])
  {
    hide Hex, IsHexDigit;
    if i < 8 { HexIsHex(u[..4], i); }
    else if 8 < i < 13 { HexIsHex(u[4..6], i - 9); }
    else if 13 < i < 18 { HexIsHex(u[6..8], i - 14); }
    else if 18 < i < 23 { HexIsHex(u[8..10], i - 19); }
    else if 23 < i { HexIsHex(u[10..], i - 24); }
  }

  lemma {:induction false} UuidStringInjective(u: Uuid, v: Uuid)
    requires UuidString(u) == UuidString(v)
    ensures u == v
  {
    var s, t := UuidString(u), UuidString(v);
    hide HexDigit, Hex;
    assert Hex(u[..4]) == s[..8] == t[..8] == Hex(v[..4]);
    assert Hex(u[4..6]) == s[9..13] == t[9..13] == Hex(v[4..6]);
    assert Hex(u[6..8]) == s[14..18] == t[14..18] == Hex(v[6..8]);
    assert Hex(u[8..10]) == s[19..23] == t[19..23] == Hex(v[8..10]);
    assert Hex(u[10..]) == s[24..] == t[24..] == Hex(v[10..]);
    HexInjective(u[..4], v[..4]);
    HexInjective(u[4..6], v[4..6]);
    HexInjective(u[6..8], v[6..8]);
    HexInjective(u[8..10], v[8..10]);
    HexInjective(u[10..], v[10..]);
    assert u == u[..4] + u[4..6] + u[6..8] + u[8..10] + u[10..];
    assert v == v[..4] + v[4..6] + v[6..8] + v[8..10] + v[10..];
  }

  /** A channel is named by its kind and the id with underscores for hyphens. */
  lemma {:induction false} ChannelNameSpelled(ch: Channel, u: Uuid, i: nat)
    requires i < 36
    ensures ChannelName(ch, u)[..|ChannelName(ch, u)| - 36] ==
            match ch
            case EventChannel => "build_"
            case CancelChannel => "cxl_build_"
            case RunningChannel => "running_build_"
            case CompletedChannel => "completed_build_"
    ensures ChannelName(ch, u)[|ChannelName(ch, u)| - 36 + i] == if HyphenAt(i) then '_' else UuidString(u)[i]
  {
    UuidStringAt(u, i);
    assert ChannelName(ch, u)[|Prefix(ch)| + i] == Underscored(UuidString(u))[i];
  }

  /** Different builds and different kinds of notification never share a channel. */
  lemma {:induction false} ChannelNameInjective(c: Channel, u: Uuid, d: Channel, v: Uuid)
    requires ChannelName(c, u) == ChannelName(d, v)
    ensures c == d && u == v
  {
    var n := |Prefix(c)|;
    assert Underscored(UuidString(u)) == ChannelName(c, u)[n..] == Underscored(UuidString(v));
    forall i | 0 <= i < 36 ensures UuidString(u)[i] == UuidString(v)[i] {
      UuidStringAt(u, i);
      UuidStringAt(v, i);
      assert Underscored(UuidString(u))[i] == Underscored(UuidString(v))[i];
    }
    UuidStringInjective(u, v);
  }

  lemma {:induction false} PrefixChars(ch: Channel)
    ensures forall i :: 0 <= i < |Prefix(ch)| ==> IsNameChar(Prefix(ch)[i])
  {
  }

  lemma {:induction false} ChannelNameChars(ch: Channel, u: Uuid)
    ensures forall i :: 0 <= i < |ChannelName(ch, u)| ==> IsNameChar(ChannelName(ch, u)[i])
  {
    hide Prefix;
    PrefixChars(ch);
    var n := |Prefix(ch)|;
    forall i | 0 <= i < |ChannelName(ch, u)| ensures IsNameChar(ChannelName(ch, u)[i]) {
      if i >= n {
        UuidStringAt(u, i - n);
        assert ChannelName(ch, u)[i] == Underscored(UuidString(u))[i - n];
      } else {
        assert ChannelName(ch, u)[i] == Prefix(ch)[i];
      }
    }
  }

  /** Folding and truncation leave channel names as they are, so they cannot merge two of them. */
  lemma {:induction false} ChannelNameIsIdentifier(ch: Channel, u: Uuid)
    ensures Identifier(ChannelName(ch, u)) == ChannelName(ch, u)
    ensures |ChannelName(ch, u)| <= 52
  {
    ChannelNameChars(ch, u);
    var s := ChannelName(ch, u);
    assert LowerCased(s) == s;
  }

  // ---------- NOTIFY statements ----------

  /** The statement the data layer sends. */
  function NotifyStatement(name: string, literal: string): string {
    "NOTIFY " + name + ", " + literal + ";"
  }

  /** The leading identifier of t. */
  function NameLength(t: string): (n: nat)
    ensures n <= |t| && (n < |t| ==> !IsNameChar(t[n]))
    ensures forall i :: 0 <= i < n ==> IsNameChar(t[i])
  {
    if t != [] && IsNameChar(t[0]) then 1 + NameLength(t[1..]) else 0
  }

  /** How PostgreSQL reads such a statement: the channel and the payload. */
  function ParseNotify(t: string): Option<(string, string)> {
    if !("NOTIFY " <= t) then None
    else
      var rest := t[7..];
      var n := NameLength(rest);
      if n == 0 || !(", " <= rest[n..]) then None
      else match LexLiteral(rest[n + 2..])
        case Some((payload, end)) => if end == ";" then Some((Identifier(rest[..n]), payload)) else None
        case None => None
  }

  lemma {:induction false} NameEnds(name: string, t: string)
    requires forall i :: 0 <= i < |name| ==> IsNameChar(name[i])
    requires t != [] && !IsNameChar(t[0])
    ensures NameLength(name + t) == |name|
  {
    assert forall i :: 0 <= i < |name| ==> (name + t)[i] == name[i];
    assert (name + t)[|name|] == t[0];
  }

  lemma {:induction false} NotifyParts(name: string, payload: string)
    requires name != [] && forall i :: 0 <= i < |name| ==> IsNameChar(name[i])
    ensures ParseNotify(NotifyStatement(name, Quote(payload))) == Some((Identifier(name), payload))
  {
    hide Quote, LexLiteral, Identifier;
    var tail := Quote(payload) + ";";
    var rest := NotifyStatement(name, Quote(payload))[7..];
    assert rest == name + (", " + tail);
    NameEnds(name, ", " + tail);
    assert rest[..|name|] == name && rest[|name|..] == ", " + tail && rest[|name| + 2..] == tail;
    QuoteRoundTrip(payload, ";");
  }

  /** Any event text is delivered unchanged, on the channel it was meant for. */
  lemma {:induction false} NotifyDelivers(ch: Channel, u: Uuid, payload: string)
    ensures ParseNotify(NotifyStatement(ChannelName(ch, u), Quote(payload))) ==
            Some((ChannelName(ch, u), payload))
  {
    ChannelNameChars(ch, u);
    ChannelNameIsIdentifier(ch, u);
    NotifyParts(ChannelName(ch, u), payload);
  }

  /** A status is sent as '%d', without quoteString; it needs none. */
  lemma {:induction false} StatusLiteral(s: BuildStatus)
    ensures [QUOTE] + Itoa(Code(s)) + [QUOTE] == Quote(Itoa(Code(s)))
    ensures Atoi(Itoa(Code(s))) == Some(Code(s)) && FromCode(Code(s)) == s
  {
    AtoiRoundTrip(Code(s));
    DigitsRoundTrip(Code(s));
    NothingToDouble(Itoa(Code(s)));
  }
}

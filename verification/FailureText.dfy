/**
 Failure reasons and the text the database stores for them.

 The service keeps a typed `FailureReason`; the repository writes its JSON text, and the
 reconciler only ever looks at that text.  This module holds the enum, its serialisation, the
 SQL pattern match, and the proof that every reason the exit handler writes is recognised.
 */
module FailureText {

  datatype Leg = Yes | No

  function LegLabel(leg: Leg): string {
    if leg.Yes? then "YES" else "NO"
  }

  datatype FailureReason =
    | OrderRejected(message: string)
    | OrderTimeout(elapsedMs: nat)
    | InsufficientBalance
    | MarketClosed
    | PriceSlippage(expected: string, actual: string)
    | ConnectivityError(message: string)
    | OneLeggedEntry(heldLeg: string, message: string)
    | StalePosition(lastUpdateSecs: nat)
    | Unknown(message: string)

  // ── JSON text ─────────────────────────────────────────────────────────

  function Digit(n: nat): char
    requires n < 16
  {
    if n < 10 then (n + '0' as int) as char else (n - 10 + 'a' as int) as char
  }

  function Decimal(n: nat): string {
    if n < 10 then [Digit(n)] else Decimal(n / 10) + [Digit(n % 10)]
  }

  predicate Plain(c: char) {
    ' ' <= c && c != '"' && c != '\\'
  }

  /** One character of a JSON string body, escaped as serde_json does. */
  function EscapeChar(c: char): string {
    if Plain(c) then [c]
    else if c == '"' then "\\\""
    else if c == '\\' then "\\\\"
    else if c == '\n' then "\\n"
    else if c == '\r' then "\\r"
    else if c == '\t' then "\\t"
    else if c as int == 8 then "\\b"
    else if c as int == 12 then "\\f"
    else "\\u00" + [Digit(c as int / 16), Digit(c as int % 16)]
  }

  function Escape(s: string): string {
    if s == [] then [] else EscapeChar(s[0]) + Escape(s[1..])
  }

  function MessageJson(tag: string, message: string): string {
    "{\"" + tag + "\":{\"message\":\"" + Escape(message) + "\"}}"
  }

  const LEG_OPENS := "{\"one_legged_entry\":{\"held_leg\":\""
  const LEG_TO_MESSAGE := "\",\"message\":\""
  const MESSAGE_CLOSES := "\"}}"

  /** The text of the `failure_reason` column. */
  function ToJson(r: FailureReason): string {
    match r
    case OrderRejected(m) => MessageJson("order_rejected", m)
    case OrderTimeout(ms) => "{\"order_timeout\":{\"elapsed_ms\":" + Decimal(ms) + "}}"
    case InsufficientBalance => "\"insufficient_balance\""
    case MarketClosed => "\"market_closed\""
    case PriceSlippage(e, a) =>
      "{\"price_slippage\":{\"expected\":\"" + Escape(e) + "\",\"actual\":\"" + Escape(a) + "\"}}"
    case ConnectivityError(m) => MessageJson("connectivity_error", m)
    case OneLeggedEntry(l, m) =>
      LEG_OPENS + (Escape(l) + LEG_TO_MESSAGE + Escape(m)) + MESSAGE_CLOSES
    case StalePosition(secs) => "{\"stale_position\":{\"last_update_secs\":" + Decimal(secs) + "}}"
    case Unknown(m) => MessageJson("unknown", m)
  }

  // ── Pattern matching ──────────────────────────────────────────────────

  function LowerChar(c: char): char {
    if 'A' <= c <= 'Z' then (c as int + 32) as char else c
  }

  /** `pattern` matches `text` at `i`, ignoring case; '_' stands for any one character. */
  predicate MatchesAt(text: string, pattern: string, i: nat) {
    i + |pattern| <= |text| &&
    forall k :: 0 <= k < |pattern| ==> pattern[k] == '_' || LowerChar(text[i + k]) == pattern[k]
  }

  /** `text ILIKE '%pattern%'`. */
  predicate ILike(text: string, pattern: string) {
    exists i: nat :: i <= |text| && MatchesAt(text, pattern, i)
  }

  /** Rust's `text.to_lowercase().contains(pattern)` for ASCII patterns. */
  predicate ContainsLower(text: string, pattern: string) {
    exists i: nat :: i <= |text| && LowerAt(text, pattern, i)
  }

  predicate LowerAt(text: string, pattern: string, i: nat) {
    i + |pattern| <= |text| &&
    forall k :: 0 <= k < |pattern| ==> LowerChar(text[i + k]) == pattern[k]
  }

  /** The three tests for a one-legged entry shared by both CASE columns. */
  predicate OneLeggedText(r: FailureReason) {
    r.OneLeggedEntry? || ILike(ToJson(r), "one-legged") || ILike(ToJson(r), "one_legged")
  }

  /** The reconciler's test that an exit failure still holds inventory, on the reason alone. */
  predicate LiveExposureText(r: FailureReason) {
    || OneLeggedText(r)
    || ILike(ToJson(r), "sell")
    || ILike(ToJson(r), "exit")
    || ILike(ToJson(r), "token id")
  }

  /** `Position::is_one_legged_entry_fail`, on the reason alone: Rust's `contains` has no wildcard. */
  predicate OneLeggedReason(r: FailureReason) {
    match r
    case OneLeggedEntry(_, _) => true
    case OrderRejected(m) => ContainsLower(m, "one-legged") || ContainsLower(m, "one_legged")
    case ConnectivityError(m) => ContainsLower(m, "one-legged") || ContainsLower(m, "one_legged")
    case _ => false
  }

  // ── Reasons the exit handler writes ───────────────────────────────────

  /** The seven call sites of `mark_exit_failed` in the exit handler, with their free text. */
  datatype HandlerFailure =
    | NoTokenIds
    | SellError(leg: Leg, text: string)
    | SellRejected(leg: Leg, text: string)
    | FillNotRecorded(leg: Leg, text: string)

  function HandlerReason(h: HandlerFailure): FailureReason {
    match h
    case NoTokenIds => ConnectivityError("No token IDs for market")
    case SellError(leg, e) => ConnectivityError(LegLabel(leg) + " sell error: " + e)
    case SellRejected(leg, m) => OrderRejected(LegLabel(leg) + " sell failed: " + m)
    case FillNotRecorded(leg, e) => Unknown("failed to record " + LegLabel(leg) + " exit fill: " + e)
  }

  /** What the arb monitor writes on start-up for a row it finds in Closing. */
  const INTERRUPTED_CLOSING :=
    Unknown("Interrupted " + ("during " + ("closing - " + ("detected " + "on startup"))))

  lemma {:induction false} EscapeConcat(a: string, b: string)
    ensures Escape(a + b) == Escape(a) + Escape(b)
  {
    if a == [] {
      assert a + b == b;
    } else {
      assert (a + b)[1..] == a[1..] + b;
      EscapeConcat(a[1..], b);
    }
  }

  lemma {:induction false} EscapePlain(s: string)
    requires forall c :: c in s ==> Plain(c)
    ensures Escape(s) == s
  {
    if s != [] {
      EscapePlain(s[1..]);
      assert s == [s[0]] + s[1..];
    }
  }

  // ── The stored text determines the message ────────────────────────────

  function HexValue(c: char): int {
    if '0' <= c <= '9' then c as int - '0' as int else if 'a' <= c <= 'f' then c as int - 'a' as int + 10 else 0
  }

  /** What a JSON reader makes of an escaped string body. */
  function Unescape(t: string): string {
    if t == [] then []
    else if t[0] != '\\' || |t| == 1 then [t[0]] + Unescape(t[1..])
    else if t[1] == 'u' && |t| >= 6 then [CharOf(HexValue(t[4]) * 16 + HexValue(t[5]))] + Unescape(t[6..])
    else [Named(t[1])] + Unescape(t[2..])
  }

  function CharOf(n: int): char { if 0 <= n < 0xD800 then n as char else '?' }

  /** The character that a one-letter escape stands for. */
  function Named(c: char): char {
    if c == 'n' then '\n' else if c == 'r' then '\r' else if c == 't' then '\t'
    else if c == 'b' then 8 as char else if c == 'f' then 12 as char else c
  }

  lemma HexDigits(n: nat)
    requires n < 16
    ensures HexValue(Digit(n)) == n
  {
  }

  lemma UnescapeChar(c: char, rest: string)
    ensures Unescape(EscapeChar(c) + rest) == [c] + Unescape(rest)
  {
    var t := EscapeChar(c) + rest;
    if Plain(c) {
      assert t[0] == c && t[1..] == rest;
    } else if |EscapeChar(c)| == 2 {
      assert t[0] == '\\' && t[1] == EscapeChar(c)[1] && t[2..] == rest;
    } else {
      var hi, lo := c as int / 16, c as int % 16;
      assert c < ' ';
      HexDigits(hi);
      HexDigits(lo);
      assert EscapeChar(c) == ['\\', 'u', '0', '0', Digit(hi), Digit(lo)];
      assert t[0] == '\\' && t[1] == 'u' && t[4] == Digit(hi) && t[5] == Digit(lo) && t[6..] == rest;
      assert hi * 16 + lo == c as int;
    }
  }

  /** Escaping loses nothing: a JSON reader gets the message back, whatever characters the exchange put into it. */
  lemma {:induction false} EscapeRoundTrip(s: string)
    ensures Unescape(Escape(s)) == s
  {
    if s != [] {
      UnescapeChar(s[0], Escape(s[1..]));
      EscapeRoundTrip(s[1..]);
      assert s == [s[0]] + s[1..];
    }
  }

  /** A match inside the plain literal head of a message survives escaping and wrapping. */
  lemma MatchInMessage(tag: string, head: string, tail: string, pattern: string, i: nat)
    requires forall c :: c in head ==> Plain(c)
    requires MatchesAt(head, pattern, i)
    ensures ILike(MessageJson(tag, head + tail), pattern)
  {
    EscapeConcat(head, tail);
    EscapePlain(head);
    var before := "{\"" + tag + "\":{\"message\":\"";
    var text := MessageJson(tag, head + tail);
    assert text == before + head + (Escape(tail) + "\"}}");
    assert text[|before|..|before| + |head|] == head;
    assert MatchesAt(text, pattern, |before| + i);
  }

  lemma LiveByText(r: FailureReason, pattern: string)
    requires pattern in {"sell", "exit", "token id"}
    requires ILike(ToJson(r), pattern)
    ensures LiveExposureText(r)
  {
  }

  /** The reasons that the executors, the service, the handler and the monitor write. */
  predicate IsWritten(r: FailureReason) {
    || r.OrderRejected? || r.ConnectivityError? || r.Unknown?
    || (r.OneLeggedEntry? && r.heldLeg in {"yes", "no"})
  }

  lemma EscapeIsInjective(a: string, b: string)
    requires Escape(a) == Escape(b)
    ensures a == b
  {
    EscapeRoundTrip(a);
    EscapeRoundTrip(b);
  }

  lemma CutOut(before: string, x: string, x': string, after: string)
    requires before + x + after == before + x' + after
    ensures x == x'
  {
    var t, t' := before + x + after, before + x' + after;
    assert t[|before|..|t| - |after|] == x;
    assert t'[|before|..|t'| - |after|] == x';
  }

  lemma SameMessage(tag: string, m: string, m': string)
    requires MessageJson(tag, m) == MessageJson(tag, m')
    ensures m == m'
  {
    CutOut("{\"" + tag + "\":{\"message\":\"", Escape(m), Escape(m'), "\"}}");
    EscapeIsInjective(m, m');
  }

  /** Two legs with different first letters, and the same middle. */
  lemma SamePair(l: string, l': string, middle: string, x: string, x': string)
    requires l != [] && l' != [] && (l[0] == l'[0] ==> l == l') && l + middle + x == l' + middle + x'
    ensures l == l' && x == x'
  {
    var t, t' := l + middle + x, l' + middle + x';
    assert t[0] == l[0] && t'[0] == l'[0];
    CutOut(l + middle, x, x', []);
  }

  lemma LegIsPlain(l: string)
    requires l in {"yes", "no"}
    ensures Escape(l) == l && |l| > 0 && l[0] == (if l == "yes" then 'y' else 'n')
  {
    EscapePlain(l);
  }

  lemma SameInner(opens: string, l: string, l': string, middle: string, x: string, x': string, closes: string)
    requires l != [] && l' != [] && (l[0] == l'[0] ==> l == l')
    requires opens + (l + middle + x) + closes == opens + (l' + middle + x') + closes
    ensures l == l' && x == x'
  {
    CutOut(opens, l + middle + x, l' + middle + x', closes);
    SamePair(l, l', middle, x, x');
  }

  lemma SameOneLegged(l: string, m: string, l': string, m': string)
    requires l in {"yes", "no"} && l' in {"yes", "no"} && ToJson(OneLeggedEntry(l, m)) == ToJson(OneLeggedEntry(l', m'))
    ensures l == l' && m == m'
  {
    LegIsPlain(l);
    LegIsPlain(l');
    SameInner(LEG_OPENS, l, l', LEG_TO_MESSAGE, Escape(m), Escape(m'), MESSAGE_CLOSES);
    EscapeIsInjective(m, m');
  }

  /** The two characters after the opening of the text tell the kind of reason. */
  predicate Marked(t: string, a: char, b: char) { |t| >= 4 && t[2] == a && t[3] == b }

  lemma MessageIsMarked(tag: string, m: string)
    requires |tag| >= 2
    ensures Marked(MessageJson(tag, m), tag[0], tag[1])
  {
    var t, rest := MessageJson(tag, m), "\":{\"message\":\"" + Escape(m) + "\"}}";
    assert t == "{\"" + tag + rest;
    assert t[2] == tag[0] && t[3] == tag[1];
  }

  lemma OneLeggedIsMarked(l: string, m: string)
    ensures Marked(ToJson(OneLeggedEntry(l, m)), 'o', 'n')
  {
    var rest := Escape(l) + LEG_TO_MESSAGE + Escape(m) + MESSAGE_CLOSES;
    assert ToJson(OneLeggedEntry(l, m)) == LEG_OPENS + rest;
    assert LEG_OPENS[2] == 'o' && LEG_OPENS[3] == 'n';
  }

  lemma KindIsInText(r: FailureReason)
    requires IsWritten(r)
    ensures Marked(ToJson(r), if r.ConnectivityError? then 'c' else if r.Unknown? then 'u' else 'o',
                   if r.OrderRejected? then 'r' else if r.ConnectivityError? then 'o' else 'n')
  {
    match r
    case OrderRejected(m) => MessageIsMarked("order_rejected", m);
    case ConnectivityError(m) => MessageIsMarked("connectivity_error", m);
    case Unknown(m) => MessageIsMarked("unknown", m);
    case OneLeggedEntry(l, m) => OneLeggedIsMarked(l, m);
  }

  /** The stored text determines the reason. */
  lemma StoredTextTellsReason(r: FailureReason, r': FailureReason)
    requires IsWritten(r) && IsWritten(r') && ToJson(r) == ToJson(r')
    ensures r == r'
  {
    KindIsInText(r);
    KindIsInText(r');
    match r
    case OrderRejected(m) => SameMessage("order_rejected", m, r'.message);
    case ConnectivityError(m) => SameMessage("connectivity_error", m, r'.message);
    case Unknown(m) => SameMessage("unknown", m, r'.message);
    case OneLeggedEntry(l, m) => SameOneLegged(l, m, r'.heldLeg, r'.message);
  }

  // ── The Rust test and the SQL test for one-legged entries ─────────────

  lemma MatchInside(before: string, mid: string, after: string, pattern: string)
    requires MatchesAt(mid, pattern, 0)
    ensures MatchesAt(before + mid + after, pattern, |before|)
  {
    var t := before + mid + after;
    assert t[|before|..|before| + |mid|] == mid;
  }

  lemma MatchOfPart(m: string, pattern: string, i: nat)
    requires LowerAt(m, pattern, i)
    ensures MatchesAt(m[i..i + |pattern|], pattern, 0)
  {
  }

  /** A plain pattern found in a message is found in the escaped message. */
  lemma MatchSurvivesEscape(m: string, pattern: string, i: nat)
    requires LowerAt(m, pattern, i) && forall c :: c in m[i..i + |pattern|] ==> Plain(c)
    ensures exists j: nat :: j <= |Escape(m)| && MatchesAt(Escape(m), pattern, j)
  {
    var pre, mid, post := m[..i], m[i..i + |pattern|], m[i + |pattern|..];
    assert m == pre + mid + post;
    EscapeConcat(pre + mid, post);
    EscapeConcat(pre, mid);
    EscapePlain(mid);
    MatchOfPart(m, pattern, i);
    MatchInside(Escape(pre), mid, Escape(post), pattern);
    assert Escape(m) == Escape(pre) + mid + Escape(post);
  }

  lemma MatchSurvivesWrapping(tag: string, m: string, pattern: string, j: nat)
    requires MatchesAt(Escape(m), pattern, j)
    ensures ILike(MessageJson(tag, m), pattern)
  {
    var before := "{\"" + tag + "\":{\"message\":\"";
    var text := MessageJson(tag, m);
    assert text == before + (Escape(m) + "\"}}");
    assert text[|before|..|before| + |Escape(m)|] == Escape(m);
    assert MatchesAt(text, pattern, |before| + j);
  }

  /** Letters, hyphen and underscore need no escape, in either case. */
  predicate Wordy(pattern: string) { forall c :: c in pattern ==> 'a' <= c <= 'z' || c == '-' || c == '_' }

  lemma WordIsSeen(tag: string, m: string, pattern: string)
    requires Wordy(pattern) && ContainsLower(m, pattern)
    ensures ILike(MessageJson(tag, m), pattern)
  {
    var i: nat :| i <= |m| && LowerAt(m, pattern, i);
    forall c | c in m[i..i + |pattern|] ensures Plain(c) {
      var k :| 0 <= k < |pattern| && m[i..i + |pattern|][k] == c;
      assert LowerChar(m[i + k]) == pattern[k] && pattern[k] in pattern;
    }
    MatchSurvivesEscape(m, pattern, i);
    var j: nat :| j <= |Escape(m)| && MatchesAt(Escape(m), pattern, j);
    MatchSurvivesWrapping(tag, m, pattern, j);
  }

  /** Every reason the service takes for a one-legged entry is one to the reconciler too. */
  lemma OneLeggedReasonIsSeenBySql(r: FailureReason)
    requires OneLeggedReason(r)
    ensures OneLeggedText(r)
  {
    match r
    case OneLeggedEntry(_, _) =>
    case OrderRejected(m) =>
      if ContainsLower(m, "one-legged") { WordIsSeen("order_rejected", m, "one-legged"); }
      else { WordIsSeen("order_rejected", m, "one_legged"); }
    case ConnectivityError(m) =>
      if ContainsLower(m, "one-legged") { WordIsSeen("connectivity_error", m, "one-legged"); }
      else { WordIsSeen("connectivity_error", m, "one_legged"); }
  }

  /** Not the other way round: such a text in a reason of any other kind is one-legged to the reconciler alone. */
  lemma SqlSeesMore(m: string)
    requires ContainsLower(m, "one-legged") || ContainsLower(m, "one_legged")
    ensures OneLeggedText(Unknown(m)) && !OneLeggedReason(Unknown(m))
    ensures OneLeggedReason(OrderRejected(m)) && OneLeggedReason(ConnectivityError(m))
  {
    if ContainsLower(m, "one-legged") { WordIsSeen("unknown", m, "one-legged"); } else { WordIsSeen("unknown", m, "one_legged"); }
  }

  /** The reason tells which branch failed, for which leg, and with which text. */
  lemma HandlerReasonTellsAll(h: HandlerFailure, h': HandlerFailure)
    requires HandlerReason(h) == HandlerReason(h')
    ensures h == h'
  {
    match h
    case NoTokenIds => if h'.SellError? { TokenTextIsNoSellError(h'.leg, h'.text); }
    case SellError(leg, text) =>
      if h'.SellError? { SameHead(leg, h'.leg, " sell error: ", text, h'.text); } else { TokenTextIsNoSellError(leg, text); }
    case SellRejected(leg, text) => SameHead(leg, h'.leg, " sell failed: ", text, h'.text);
    case FillNotRecorded(leg, text) => SameFill(leg, h'.leg, text, h'.text);
  }

  lemma TokenTextIsNoSellError(leg: Leg, text: string)
    ensures HandlerReason(NoTokenIds) != HandlerReason(SellError(leg, text))
  {
    var a, b := "No token IDs for market", LegLabel(leg) + " sell error: " + text;
    assert a[1] == 'o' && b[1] == LegLabel(leg)[1] != 'o';
  }

  lemma SameFill(leg: Leg, leg': Leg, text: string, text': string)
    requires "failed to record " + LegLabel(leg) + " exit fill: " + text == "failed to record " + LegLabel(leg') + " exit fill: " + text'
    ensures leg == leg' && text == text'
  {
    var head, middle := "failed to record ", " exit fill: ";
    var a, b := head + LegLabel(leg) + middle + text, head + LegLabel(leg') + middle + text';
    assert a[|head|..] == LegLabel(leg) + middle + text;
    assert b[|head|..] == LegLabel(leg') + middle + text';
    SameHead(leg, leg', middle, text, text');
  }

  lemma SameHead(leg: Leg, leg': Leg, middle: string, text: string, text': string)
    requires LegLabel(leg) + middle + text == LegLabel(leg') + middle + text'
    ensures leg == leg' && text == text'
  {
    var a, b := LegLabel(leg) + middle + text, LegLabel(leg') + middle + text';
    assert a[0] == LegLabel(leg)[0] && b[0] == LegLabel(leg')[0];
    assert leg == leg';
    var n := |LegLabel(leg) + middle|;
    assert a[n..] == text && b[n..] == text';
  }

  lemma SellTextIsLive(leg: Leg, tag: string, rest: string, text: string, r: FailureReason)
    requires |rest| >= 5 && rest[..5] == " sell" && forall c :: c in rest ==> Plain(c)
    requires ToJson(r) == MessageJson(tag, LegLabel(leg) + rest + text)
    ensures LiveExposureText(r)
  {
    SellHead(leg, rest);
    MatchInMessage(tag, LegLabel(leg) + rest, text, "sell", |LegLabel(leg)| + 1);
    LiveByText(r, "sell");
  }

  lemma FillTextIsLive(leg: Leg, text: string)
    ensures LiveExposureText(HandlerReason(FillNotRecorded(leg, text)))
  {
    ExitHead(leg);
    MatchInMessage("unknown", "failed to record " + LegLabel(leg) + " exit fill: ", text, "exit", 18 + |LegLabel(leg)|);
    LiveByText(HandlerReason(FillNotRecorded(leg, text)), "exit");
  }

  /** Whatever error text the exchange returns, the reconciler sees the handler's failure as live. */
  lemma HandlerReasonsAreLive(h: HandlerFailure)
    ensures LiveExposureText(HandlerReason(h))
  {
    match h
    case NoTokenIds => TokenTextIsLive();
    case SellError(leg, e) => SellErrorIsLive(leg, e);
    case SellRejected(leg, m) => SellRejectedIsLive(leg, m);
    case FillNotRecorded(leg, e) => FillTextIsLive(leg, e);
  }

  lemma TokenTextIsLive()
    ensures LiveExposureText(HandlerReason(NoTokenIds))
  {
    var head := "No token IDs for market";
    assert head + "" == head;
    MatchInMessage("connectivity_error", head, "", "token id", 3);
    LiveByText(HandlerReason(NoTokenIds), "token id");
  }

  lemma SellErrorIsLive(leg: Leg, text: string)
    ensures LiveExposureText(HandlerReason(SellError(leg, text)))
  {
    SellTextIsLive(leg, "connectivity_error", " sell error: ", text, HandlerReason(SellError(leg, text)));
  }

  lemma SellRejectedIsLive(leg: Leg, text: string)
    ensures LiveExposureText(HandlerReason(SellRejected(leg, text)))
  {
    SellTextIsLive(leg, "order_rejected", " sell failed: ", text, HandlerReason(SellRejected(leg, text)));
  }

  lemma SellHead(leg: Leg, rest: string)
    requires |rest| >= 5 && rest[..5] == " sell" && forall c :: c in rest ==> Plain(c)
    ensures MatchesAt(LegLabel(leg) + rest, "sell", |LegLabel(leg)| + 1)
    ensures forall c :: c in LegLabel(leg) + rest ==> Plain(c)
  {
    var text, n := LegLabel(leg) + rest, |LegLabel(leg)|;
    assert text[n..n + 5] == " sell";
    assert text[n + 1] == 's' && text[n + 2] == 'e' && text[n + 3] == 'l' && text[n + 4] == 'l';
  }

  lemma ExitHead(leg: Leg)
    ensures var head := "failed to record " + LegLabel(leg) + " exit fill: ";
      MatchesAt(head, "exit", 18 + |LegLabel(leg)|) && forall c :: c in head ==> Plain(c)
  {
    var text, n := "failed to record " + LegLabel(leg) + " exit fill: ", 17 + |LegLabel(leg)|;
    assert text[n..] == " exit fill: ";
    assert text[n + 1] == 'e' && text[n + 2] == 'x' && text[n + 3] == 'i' && text[n + 4] == 't';
  }

  // ── A text without these adjacent letters matches none of the patterns ──

  /** Adjacent letters of the patterns: the gg of legged, the ll of sell, the ex of exit, the ke of token. */
  predicate Telling(a: char, b: char) {
    (LowerChar(a), LowerChar(b)) in {('g', 'g'), ('l', 'l'), ('e', 'x'), ('k', 'e')}
  }

  predicate Untelling(text: string) {
    forall i {:trigger text[i]} :: 0 <= i < |text| - 1 ==> !Telling(text[i], text[i + 1])
  }

  lemma UntellingConcat(a: string, b: string)
    requires Untelling(a) && Untelling(b)
    requires a != [] && b != [] ==> !Telling(a[|a| - 1], b[0])
    ensures Untelling(a + b)
  {
    var t := a + b;
    forall i | 0 <= i < |t| - 1 ensures !Telling(t[i], t[i + 1]) {
      if i + 1 < |a| {
        assert t[i] == a[i] && t[i + 1] == a[i + 1];
      } else if i < |a| {
        assert t[i] == a[|a| - 1] && t[i + 1] == b[0];
      } else {
        assert t[i] == b[i - |a|] && t[i + 1] == b[i + 1 - |a|];
      }
    }
  }

  lemma NoMatch(text: string, pattern: string, k: nat)
    requires Untelling(text)
    requires k + 1 < |pattern| && pattern[k] != '_' && pattern[k + 1] != '_'
    requires Telling(pattern[k], pattern[k + 1])
    requires LowerChar(pattern[k]) == pattern[k] && LowerChar(pattern[k + 1]) == pattern[k + 1]
    ensures !ILike(text, pattern)
  {
    forall i: nat | i <= |text| ensures !MatchesAt(text, pattern, i) {
      if i + |pattern| <= |text| {
        assert !Telling(text[i + k], text[i + k + 1]);
      }
    }
  }

  lemma CleanHead()
    ensures Untelling("{\"" + "unknown" + "\":{\"message\":\"")
  {
  }

  lemma UntellingJson(m: string)
    requires Untelling(m) && forall c :: c in m ==> Plain(c)
    ensures Untelling(ToJson(Unknown(m)))
  {
    EscapePlain(m);
    CleanHead();
    var head, tail := "{\"" + "unknown" + "\":{\"message\":\"", "\"}}";
    assert head[|head| - 1] == '"' && !Telling('"', if m == [] then '"' else m[0]);
    UntellingConcat(head, m);
    UntellingConcat(head + m, tail);
  }

  lemma UntellingMatchesNothing(text: string)
    requires Untelling(text)
    ensures !ILike(text, "one-legged") && !ILike(text, "one_legged")
    ensures !ILike(text, "sell") && !ILike(text, "exit") && !ILike(text, "token id")
  {
    NoMatch(text, "one-legged", 6);
    NoMatch(text, "one_legged", 6);
    NoMatch(text, "sell", 2);
    NoMatch(text, "exit", 0);
    NoMatch(text, "token id", 2);
  }

  /** An unclassified failure whose message has none of those letters is invisible to the reconciler. */
  lemma UntellingIsNotLive(m: string)
    requires Untelling(m) && forall c :: c in m ==> Plain(c)
    ensures !LiveExposureText(Unknown(m))
  {
    UntellingJson(m);
    UntellingMatchesNothing(ToJson(Unknown(m)));
  }

  /** Text a word can be put in front of without telling anything new. */
  ghost predicate Clean(m: string) {
    m != [] && Untelling(m) && forall c :: c in m ==> Plain(c)
  }

  lemma CleanConcat(word: string, rest: string)
    requires Clean(word) && Clean(rest) && word[|word| - 1] == ' '
    ensures Clean(word + rest)
  {
    UntellingConcat(word, rest);
  }

  lemma CleanInterrupted()
    ensures Clean("Interrupted ")
  {
  }

  lemma CleanDuring()
    ensures Clean("during ")
  {
  }

  lemma CleanClosing()
    ensures Clean("closing - ")
  {
  }

  lemma CleanDetected()
    ensures Clean("detected ")
  {
  }

  lemma CleanOnStartup()
    ensures Clean("on startup")
  {
  }

  /** The arb monitor's start-up reason matches none of the reconciler's patterns. */
  lemma InterruptedClosingIsNotLive()
    ensures !LiveExposureText(INTERRUPTED_CLOSING)
  {
    CleanInterrupted(); CleanDuring(); CleanClosing(); CleanDetected(); CleanOnStartup();
    CleanConcat("detected ", "on startup");
    CleanConcat("closing - ", "detected " + "on startup");
    CleanConcat("during ", "closing - " + ("detected " + "on startup"));
    CleanConcat("Interrupted ", "during " + ("closing - " + ("detected " + "on startup")));
    UntellingIsNotLive(INTERRUPTED_CLOSING.message);
  }
}

/**
 Signing and verifying the approval of one tool call (app/assistant_security.py). The token is the URL-safe
 base64 of a JSON payload (section 5 of RFC 4648, without the padding, section 3.2), a dot and a keyed digest
 of that text. The digest and the JSON codec are functions given to every member that needs them.
 */
module ApprovalToken {
  import opened Common

  type Byte = x: int | 0 <= x < 256
  type Sextet = x: int | 0 <= x < 64

  // ---------------------------------------------------------------- the alphabet

  function Symbol(v: Sextet): char {
    if v < 26 then 'A' + v as char
    else if v < 52 then 'a' + (v - 26) as char
    else if v < 62 then '0' + (v - 52) as char
    else if v == 62 then '-'
    else '_'
  }

  /** The value of a symbol; the decoder also takes the two of the standard alphabet. */
  function ValueOf(c: char): Option<Sextet> {
    if 'A' <= c <= 'Z' then Some(c as int - 'A' as int)
    else if 'a' <= c <= 'z' then Some(c as int - 'a' as int + 26)
    else if '0' <= c <= '9' then Some(c as int - '0' as int + 52)
    else if c == '-' || c == '+' then Some(62)
    else if c == '_' || c == '/' then Some(63)
    else None
  }

  lemma SymbolValue(v: Sextet)
    ensures ValueOf(Symbol(v)) == Some(v) && Symbol(v) != '=' && Symbol(v) != '.'
  {
  }

  // ---------------------------------------------------------------- encoding

  /** base64.urlsafe_b64encode */
  function Encode(b: seq<Byte>): string {
    if b == [] then ""
    else if |b| == 1 then [Symbol(b[0] / 4), Symbol(b[0] % 4 * 16), '=', '=']
    else if |b| == 2 then [Symbol(b[0] / 4), Symbol(b[0] % 4 * 16 + b[1] / 16), Symbol(b[1] % 16 * 4), '=']
    else
      [Symbol(b[0] / 4), Symbol(b[0] % 4 * 16 + b[1] / 16), Symbol(b[1] % 16 * 4 + b[2] / 64), Symbol(b[2] % 64)]
      + Encode(b[3..])
  }

  // ---------------------------------------------------------------- what the encoding is

  /** The URL-safe alphabet, table 2 of RFC 4648: capitals, small letters and digits in order, and two signs. */
  lemma AlphabetRuns(v: Sextet)
    ensures Symbol(0) == 'A' && Symbol(26) == 'a' && Symbol(52) == '0' && Symbol(62) == '-' && Symbol(63) == '_'
    ensures v !in {25, 51, 61, 62, 63} ==> Symbol(v + 1) as int == Symbol(v) as int + 1
  {
  }

  /** A byte, or zero past the end. */
  function ByteAt(b: seq<Byte>, i: nat): Byte {
    if i < |b| then b[i] else 0
  }

  /** Three bytes and the four symbols in their place are the same number of twenty-four bits, in which missing bytes
      are zero; a symbol for missing bytes alone is padding. */
  ghost predicate SameNumber(b: seq<Byte>, g: nat, symbols: string, v: seq<Sextet>) {
    && |v| == 4 && |symbols| == 4
    && v[0] as int * 262144 + v[1] as int * 4096 + v[2] as int * 64 + v[3] as int
       == ByteAt(b, 3 * g) as int * 65536 + ByteAt(b, 3 * g + 1) as int * 256 + ByteAt(b, 3 * g + 2) as int
    && symbols[0] == Symbol(v[0]) && symbols[1] == Symbol(v[1])
    && symbols[2] == (if 3 * g + 1 < |b| then Symbol(v[2]) else '=')
    && symbols[3] == (if 3 * g + 2 < |b| then Symbol(v[3]) else '=')
  }

  function GroupAt(s: string, g: nat): string
    requires 4 * g + 4 <= |s|
  {
    s[4 * g..4 * g + 4]
  }

  lemma FirstGroup(b: seq<Byte>)
    requires b != []
    ensures |Encode(b)| >= 4
    ensures exists v :: SameNumber(b, 0, GroupAt(Encode(b), 0), v)
  {
    hide Symbol;
    var x, y, z := ByteAt(b, 0), ByteAt(b, 1), ByteAt(b, 2);
    assert SameNumber(b, 0, GroupAt(Encode(b), 0), [x / 4, x % 4 * 16 + y / 16, y % 16 * 4 + z / 64, z % 64]);
  }

  lemma LaterGroup(b: seq<Byte>, g: nat, symbols: string, v: seq<Sextet>)
    requires |b| >= 3 && g > 0 && SameNumber(b[3..], g - 1, symbols, v)
    ensures SameNumber(b, g, symbols, v)
  {
    hide Symbol;
    assert ByteAt(b, 3 * g) == ByteAt(b[3..], 3 * (g - 1));
    assert ByteAt(b, 3 * g + 1) == ByteAt(b[3..], 3 * (g - 1) + 1);
    assert ByteAt(b, 3 * g + 2) == ByteAt(b[3..], 3 * (g - 1) + 2);
  }

  /** Every group of the encoded text is the number of its bytes. */
  lemma {:induction false} GroupsAreNumbers(b: seq<Byte>, g: nat)
    requires 3 * g < |b|
    ensures |Encode(b)| >= 4 * g + 4
    ensures exists v :: SameNumber(b, g, GroupAt(Encode(b), g), v)
    decreases g
  {
    hide SameNumber, Symbol;
    if g == 0 {
      FirstGroup(b);
    } else {
      GroupsAreNumbers(b[3..], g - 1);
      var symbols := GroupAt(Encode(b[3..]), g - 1);
      var v :| SameNumber(b[3..], g - 1, symbols, v);
      LaterGroup(b, g, symbols, v);
      assert Encode(b)[4..] == Encode(b[3..]);
      assert GroupAt(Encode(b), g) == symbols;
      assert SameNumber(b, g, GroupAt(Encode(b), g), v);
    }
  }

  /** Nothing follows the last group. */
  lemma {:induction false} EncodedLength(b: seq<Byte>)
    ensures |Encode(b)| == (|b| + 2) / 3 * 4
  {
    if |b| >= 3 {
      EncodedLength(b[3..]);
      assert (|b| + 2) / 3 == (|b[3..]| + 2) / 3 + 1;
    }
    hide Symbol;
  }

  /** rstrip of the padding sign */
  function StripPadding(s: string): string {
    if s != "" && s[|s| - 1] == '=' then StripPadding(s[..|s| - 1]) else s
  }

  function Padding(n: int): string
    requires 0 <= n < 4
  {
    if n == 0 then "" else Padding(n - 1) + "="
  }

  /** -len % 4, with Python's remainder, which is never negative. */
  function PadCount(length: int): int {
    (0 - length) % 4
  }

  function RestorePadding(s: string): string {
    s + Padding(PadCount(|s|))
  }

  // ---------------------------------------------------------------- decoding

  /** The decoder between two characters: how many symbols of the group it has, the bits not yet written and
      the padding signs in a row. */
  datatype Decoder = Decoder(position: int, left: int, pads: int)

  predicate Sane(d: Decoder) {
    && 0 <= d.position < 4 && 0 <= d.pads
    && (d.position == 1 ==> 0 <= d.left < 64) && (d.position == 2 ==> 0 <= d.left < 16)
       && (d.position == 3 ==> 0 <= d.left < 4)
  }

  /** One symbol: the bytes it completes and what it leaves. */
  function Feed(d: Decoder, v: Sextet): (out: (seq<Byte>, Decoder))
    requires Sane(d)
    ensures Sane(out.1)
  {
    if d.position == 0 then ([], Decoder(1, v, 0))
    else if d.position == 1 then ([d.left * 4 + v / 16], Decoder(2, v % 16, 0))
    else if d.position == 2 then ([d.left * 16 + v / 4], Decoder(3, v % 4, 0))
    else ([d.left * 64 + v], Decoder(0, 0, 0))
  }

  /** base64.urlsafe_b64decode: characters outside the alphabet are skipped, enough padding ends the text, and
      a text that ends inside a group is refused. */
  function DecodeFrom(d: Decoder, s: string): Option<seq<Byte>>
    requires Sane(d)
    decreases |s|
  {
    if s == "" then (if d.position == 0 then Some([]) else None)
    else if s[0] == '=' then
      if d.position >= 2 && d.position + d.pads + 1 >= 4 then Some([])
      else DecodeFrom(if d.position >= 2 then d.(pads := d.pads + 1) else d, s[1..])
    else
      match ValueOf(s[0])
      case None => DecodeFrom(d, s[1..])
      case Some(v) =>
        var (bytes, next) := Feed(d, v);
        var rest := DecodeFrom(next, s[1..]);
        if rest.None? then None else Some(bytes + rest.value)
  }

  const START := Decoder(0, 0, 0)

  function Decode(s: string): Option<seq<Byte>> {
    DecodeFrom(START, s)
  }

  // ---------------------------------------------------------------- the round trip

  lemma DecodeSymbol(d: Decoder, v: Sextet, s: string)
    requires Sane(d)
    ensures var (bytes, next) := Feed(d, v); var rest := DecodeFrom(next, s);
      DecodeFrom(d, [Symbol(v)] + s) == if rest.None? then None else Some(bytes + rest.value)
  {
    SymbolValue(v);
    assert ([Symbol(v)] + s)[1..] == s;
  }

  /** A full group gives its three bytes back. */
  lemma DecodeGroup(a: Byte, b: Byte, c: Byte, s: string)
    ensures Decode([Symbol(a / 4), Symbol(a % 4 * 16 + b / 16), Symbol(b % 16 * 4 + c / 64), Symbol(c % 64)] + s)
         == if Decode(s).None? then None else Some([a, b, c] + Decode(s).value)
  {
    hide DecodeFrom, Symbol;
    var w, x, y, z := a / 4, a % 4 * 16 + b / 16, b % 16 * 4 + c / 64, c % 64;
    DecodeSymbol(Decoder(3, y % 4, 0), z, s);
    DecodeSymbol(Decoder(2, x % 16, 0), y, [Symbol(z)] + s);
    DecodeSymbol(Decoder(1, w, 0), x, [Symbol(y)] + ([Symbol(z)] + s));
    DecodeSymbol(START, w, [Symbol(x)] + ([Symbol(y)] + ([Symbol(z)] + s)));
    assert [Symbol(w), Symbol(x), Symbol(y), Symbol(z)] + s
      == [Symbol(w)] + ([Symbol(x)] + ([Symbol(y)] + ([Symbol(z)] + s)));
    assert w * 4 + x / 16 == a && (x % 16) * 16 + y / 4 == b && (y % 4) * 64 + z == c;
    if Decode(s).Some? {
      assert [] + ([a] + ([b] + ([c] + Decode(s).value))) == [a, b, c] + Decode(s).value;
    }
  }

  lemma DecodePadded(d: Decoder)
    requires Sane(d) && d.pads == 0
    ensures d.position == 2 ==> DecodeFrom(d, "==") == Some([])
    ensures d.position == 3 ==> DecodeFrom(d, "=") == Some([])
  {
    assert "=="[1..] == "=";
  }

  lemma DecodeOne(a: Byte)
    ensures Decode([Symbol(a / 4), Symbol(a % 4 * 16), '=', '=']) == Some([a])
  {
    hide DecodeFrom, Symbol;
    var w, x := a / 4, a % 4 * 16;
    DecodePadded(Decoder(2, x % 16, 0));
    DecodeSymbol(Decoder(1, w, 0), x, "==");
    DecodeSymbol(START, w, [Symbol(x)] + "==");
    assert [Symbol(w), Symbol(x), '=', '='] == [Symbol(w)] + ([Symbol(x)] + "==");
    assert w * 4 + x / 16 == a;
    assert [] + ([a] + []) == [a];
  }

  lemma DecodeTwo(a: Byte, b: Byte)
    ensures Decode([Symbol(a / 4), Symbol(a % 4 * 16 + b / 16), Symbol(b % 16 * 4), '=']) == Some([a, b])
  {
    hide DecodeFrom, Symbol;
    var w, x, y := a / 4, a % 4 * 16 + b / 16, b % 16 * 4;
    DecodePadded(Decoder(3, y % 4, 0));
    DecodeSymbol(Decoder(2, x % 16, 0), y, "=");
    DecodeSymbol(Decoder(1, w, 0), x, [Symbol(y)] + "=");
    DecodeSymbol(START, w, [Symbol(x)] + ([Symbol(y)] + "="));
    assert [Symbol(w), Symbol(x), Symbol(y), '='] == [Symbol(w)] + ([Symbol(x)] + ([Symbol(y)] + "="));
    assert w * 4 + x / 16 == a && (x % 16) * 16 + y / 4 == b;
    assert [] + ([a] + ([b] + [])) == [a, b];
  }

  lemma {:induction false} DecodeEncode(b: seq<Byte>)
    ensures Decode(Encode(b)) == Some(b)
  {
    hide DecodeFrom, Symbol;
    if b == [] {
      DecodeNothing();
    } else if |b| == 1 {
      DecodeOne(b[0]);
      assert b == [b[0]];
    } else if |b| == 2 {
      DecodeTwo(b[0], b[1]);
      assert b == [b[0], b[1]];
    } else {
      DecodeEncode(b[3..]);
      DecodeGroup(b[0], b[1], b[2], Encode(b[3..]));
      assert [b[0], b[1], b[2]] + b[3..] == b;
    }
  }

  lemma DecodeNothing()
    ensures Decode("") == Some([])
  {
  }

  /** The length of the text without padding. */
  function BareLength(n: nat): nat {
    n / 3 * 4 + if n % 3 == 0 then 0 else n % 3 + 1
  }

  predicate IsSymbol(c: char) {
    ValueOf(c).Some? && c != '='
  }

  /** A text of symbols followed by the padding its length needs. */
  predicate Shaped(s: string, n: nat) {
    n <= |s| && s == s[..n] + Padding(PadCount(n)) && forall i :: 0 <= i < n ==> IsSymbol(s[i])
  }

  lemma ShapedGroup(group: string, rest: string, n: nat)
    requires |group| == 4 && (forall i :: 0 <= i < 4 ==> IsSymbol(group[i])) && Shaped(rest, n)
    ensures Shaped(group + rest, n + 4)
  {
    hide IsSymbol, Padding;
    var s := group + rest;
    assert PadCount(n + 4) == PadCount(n);
    assert s[..n + 4] == group + rest[..n] && s == s[..n + 4] + Padding(PadCount(n));
    forall i | 0 <= i < n + 4 ensures IsSymbol(s[i]) {
      if i >= 4 {
        assert s[i] == rest[i - 4];
      } else {
        assert s[i] == group[i];
      }
    }
  }

  lemma ShapedTail(s: string, n: nat)
    requires 2 <= n <= 3 && |s| == n && forall i :: 0 <= i < n ==> IsSymbol(s[i])
    ensures Shaped(if n == 2 then s + ['=', '='] else s + ['='], n)
  {
    hide IsSymbol;
    assert Padding(0) == "" && Padding(1) == "=";
    assert n == 2 ==> Padding(2) == "==" && (s + ['=', '='])[..2] == s;
    assert n == 3 ==> (s + ['='])[..3] == s;
  }

  /** The encoding is symbols followed by exactly the padding its length needs. */
  lemma {:induction false} EncodeShape(b: seq<Byte>)
    ensures Shaped(Encode(b), BareLength(|b|))
  {
    hide Shaped, IsSymbol, Symbol;
    forall v: Sextet ensures IsSymbol(Symbol(v)) {
      SymbolIsSymbol(v);
    }
    if b == [] {
      ShapedNothing();
    } else if |b| == 1 {
      var s := [Symbol(b[0] / 4), Symbol(b[0] % 4 * 16)];
      ShapedTail(s, 2);
      assert Encode(b) == s + ['=', '='];
    } else if |b| == 2 {
      var s := [Symbol(b[0] / 4), Symbol(b[0] % 4 * 16 + b[1] / 16), Symbol(b[1] % 16 * 4)];
      ShapedTail(s, 3);
      assert Encode(b) == s + ['='];
    } else {
      EncodeShape(b[3..]);
      var group := [Symbol(b[0] / 4), Symbol(b[0] % 4 * 16 + b[1] / 16), Symbol(b[1] % 16 * 4 + b[2] / 64),
                    Symbol(b[2] % 64)];
      ShapedGroup(group, Encode(b[3..]), BareLength(|b[3..]|));
    }
  }

  lemma SymbolIsSymbol(v: Sextet)
    ensures IsSymbol(Symbol(v))
  {
    SymbolValue(v);
  }

  lemma ShapedNothing()
    ensures Shaped("", 0)
  {
    assert Padding(0) == "";
  }

  lemma {:induction false} StripPaddingOf(s: string, n: int)
    requires 0 <= n < 4 && forall i :: 0 <= i < |s| ==> s[i] != '='
    ensures StripPadding(s + Padding(n)) == s
  {
    if n == 0 {
      assert s + Padding(0) == s;
    } else {
      StripPaddingOf(s, n - 1);
      var t := s + Padding(n);
      assert t[..|t| - 1] == s + Padding(n - 1);
    }
  }

  /** The text of a token's payload: the encoding without its padding. */
  function Bare(b: seq<Byte>): string {
    StripPadding(Encode(b))
  }

  lemma BareIsSymbols(b: seq<Byte>)
    ensures Bare(b) + Padding(PadCount(|Bare(b)|)) == Encode(b) && |Bare(b)| == BareLength(|b|)
    ensures forall i :: 0 <= i < |Bare(b)| ==> IsSymbol(Bare(b)[i])
  {
    hide Encode, StripPadding;
    EncodeShape(b);
    var n := BareLength(|b|);
    StripPaddingOf(Encode(b)[..n], PadCount(n));
  }

  /** For any bytes, restoring the stripped padding by -len % 4 decodes to them again. */
  lemma StrippedRoundTrip(b: seq<Byte>)
    ensures Decode(RestorePadding(Bare(b))) == Some(b)
  {
    hide Encode, StripPadding, DecodeFrom, Bare;
    BareIsSymbols(b);
    DecodeEncode(b);
  }

  /** A text one symbol longer than whole groups is refused: no number of padding signs completes it. */
  lemma {:induction false} OneSymbolOverIsRefused(s: string)
    requires |s| % 4 == 1 && forall i :: 0 <= i < |s| ==> IsSymbol(s[i])
    ensures Decode(RestorePadding(s)).None?
  {
    assert PadCount(|s|) == 3;
    assert Padding(3) == "===" by { assert Padding(1) == "=" && Padding(2) == "=="; }
    EndsInsideGroup(START, s);
  }

  lemma {:induction false} EndsInsideGroup(d: Decoder, s: string)
    requires Sane(d) && (d.position + |s|) % 4 == 1 && (forall i :: 0 <= i < |s| ==> IsSymbol(s[i]))
    ensures DecodeFrom(d, s + "===").None?
    decreases |s|
  {
    if s == "" {
      assert "===" == "" + "===" && "==="[1..] == "==" && "=="[1..] == "=" && "="[1..] == "";
      assert DecodeFrom(d, "").None? && DecodeFrom(d, "=").None? && DecodeFrom(d, "==").None?;
    } else {
      var v := ValueOf(s[0]).value;
      assert (s + "===")[1..] == s[1..] + "===";
      EndsInsideGroup(Feed(d, v).1, s[1..]);
    }
  }

  // ---------------------------------------------------------------- sign and verify

  type Time = int

  /** int() of a timestamp in seconds, from microseconds: the fraction is cut off toward zero. */
  function Seconds(t: Time): int {
    if t >= 0 then t / 1_000_000 else -(-t / 1_000_000)
  }

  datatype Payload = Payload(version: int, toolCallId: string, operatorId: int, previewHash: string, expiresAt: int)

  /** The keyed digest and the JSON codec. */
  datatype Codec = Codec(digest: string -> string, dumps: Payload -> seq<Byte>, loads: seq<Byte> -> Option<Payload>)

  /** Reading back what was written gives the payload. */
  ghost predicate Faithful(c: Codec) {
    forall p :: c.loads(c.dumps(p)) == Some(p)
  }

  function Sign(c: Codec, toolCallId: string, operatorId: int, previewHash: string, expiresAt: Time): string {
    var encoded := Bare(c.dumps(Payload(1, toolCallId, operatorId, previewHash, Seconds(expiresAt))));
    encoded + "." + c.digest(encoded)
  }

  /** split at the first dot: the text before it and the text after, if there is one. */
  function SplitDot(s: string): Option<(string, string)> {
    if s == "" then None
    else if s[0] == '.' then Some(("", s[1..]))
    else
      match SplitDot(s[1..])
      case None => None
      case Some(parts) => Some(([s[0]] + parts.0, parts.1))
  }

  predicate Verify(c: Codec, token: string, toolCallId: string, operatorId: int, previewHash: string, now: Time) {
    match SplitDot(token)
    case None => false
    case Some(parts) =>
      parts.1 == c.digest(parts.0)
      && match Decode(RestorePadding(parts.0))
         case None => false
         case Some(bytes) =>
           match c.loads(bytes)
           case None => false
           case Some(p) =>
             && p.version == 1 && p.toolCallId == toolCallId && p.operatorId == operatorId
             && p.previewHash == previewHash && p.expiresAt >= Seconds(now)
  }

  lemma {:induction false} SplitAtFirstDot(a: string, b: string)
    requires forall i :: 0 <= i < |a| ==> a[i] != '.'
    ensures SplitDot(a + "." + b) == Some((a, b))
  {
    var s := a + "." + b;
    if a == "" {
      assert s == "." + b;
    } else {
      assert s[1..] == a[1..] + "." + b;
      SplitAtFirstDot(a[1..], b);
      assert [a[0]] + a[1..] == a;
    }
  }

  /** The payload text has no dot, so the split of a token is unambiguous whatever the digest looks like. */
  lemma SignedTokenSplits(c: Codec, toolCallId: string, operatorId: int, previewHash: string, expiresAt: Time)
    ensures var encoded := Bare(c.dumps(Payload(1, toolCallId, operatorId, previewHash, Seconds(expiresAt))));
      SplitDot(Sign(c, toolCallId, operatorId, previewHash, expiresAt)) == Some((encoded, c.digest(encoded)))
  {
    hide Bare, SplitDot;
    var bytes := c.dumps(Payload(1, toolCallId, operatorId, previewHash, Seconds(expiresAt)));
    var encoded := Bare(bytes);
    BareIsSymbols(bytes);
    SplitAtFirstDot(encoded, c.digest(encoded));
  }

  /** A signed token is accepted exactly for the call, the operator and the preview it was signed for, until
      its second has passed. */
  lemma SignedTokenIsAccepted(c: Codec, toolCallId: string, operatorId: int, previewHash: string, expiresAt: Time,
                              askedCall: string, askedOperator: int, askedHash: string, now: Time)
    requires Faithful(c)
    ensures Verify(c, Sign(c, toolCallId, operatorId, previewHash, expiresAt), askedCall, askedOperator, askedHash, now)
      <==> (askedCall == toolCallId && askedOperator == operatorId && askedHash == previewHash
            && Seconds(now) <= Seconds(expiresAt))
  {
    hide Sign, Bare, SplitDot, Decode, RestorePadding;
    var payload := Payload(1, toolCallId, operatorId, previewHash, Seconds(expiresAt));
    SignedTokenSplits(c, toolCallId, operatorId, previewHash, expiresAt);
    StrippedRoundTrip(c.dumps(payload));
  }

  /** Whatever is accepted carries the digest of its own text, and a payload that says what was asked. */
  lemma AcceptedTokenIsAuthentic(c: Codec, token: string, toolCallId: string, operatorId: int, previewHash: string,
                                 now: Time)
    requires Verify(c, token, toolCallId, operatorId, previewHash, now)
    ensures SplitDot(token).Some?
    ensures var encoded := SplitDot(token).value.0;
      && token == encoded + "." + c.digest(encoded) && '.' !in encoded
      && Decode(RestorePadding(encoded)).Some? && c.loads(Decode(RestorePadding(encoded)).value).Some?
      && c.loads(Decode(RestorePadding(encoded)).value).value.(expiresAt := 0)
        == Payload(1, toolCallId, operatorId, previewHash, 0)
  {
    hide Decode, RestorePadding;
    SplitGivesBack(token);
  }

  lemma {:induction false} SplitGivesBack(s: string)
    ensures SplitDot(s).Some? ==> s == SplitDot(s).value.0 + "." + SplitDot(s).value.1 && '.' !in SplitDot(s).value.0
  {
    if s != "" && s[0] != '.' {
      SplitGivesBack(s[1..]);
      assert s == [s[0]] + s[1..];
    }
  }

  /** Two approvals with the same token are the same approval. */
  lemma TokenFixesApproval(c: Codec, call1: string, operator1: int, hash1: string, expiry1: Time,
                           call2: string, operator2: int, hash2: string, expiry2: Time)
    requires Faithful(c)
    requires Sign(c, call1, operator1, hash1, expiry1) == Sign(c, call2, operator2, hash2, expiry2)
    ensures call1 == call2 && operator1 == operator2 && hash1 == hash2 && Seconds(expiry1) == Seconds(expiry2)
  {
    hide Sign, Bare, SplitDot, Decode, RestorePadding;
    SignedTokenSplits(c, call1, operator1, hash1, expiry1);
    SignedTokenSplits(c, call2, operator2, hash2, expiry2);
    StrippedRoundTrip(c.dumps(Payload(1, call1, operator1, hash1, Seconds(expiry1))));
    StrippedRoundTrip(c.dumps(Payload(1, call2, operator2, hash2, Seconds(expiry2))));
  }

  /** Because both times are cut to seconds, a signed token is never refused before its expiry, and never
      accepted a second or more after it. */
  lemma ExpiryToTheSecond(c: Codec, toolCallId: string, operatorId: int, previewHash: string, expiresAt: Time,
                          now: Time)
    requires Faithful(c) && now >= 0 && expiresAt >= 0
    ensures var token := Sign(c, toolCallId, operatorId, previewHash, expiresAt);
      && (now <= expiresAt ==> Verify(c, token, toolCallId, operatorId, previewHash, now))
      && (Verify(c, token, toolCallId, operatorId, previewHash, now) ==> now < expiresAt + 1_000_000)
  {
    hide Sign, Verify;
    SignedTokenIsAccepted(c, toolCallId, operatorId, previewHash, expiresAt, toolCallId, operatorId, previewHash, now);
  }
}

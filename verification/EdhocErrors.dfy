/** EDHOC error messages (section 6 of RFC 9528) in src/edhoc/mod.rs: the encoder with its truncation of the
    diagnostic to whole UTF-8 characters, and the decoder. */
module EdhocErrors {
  import opened Coap

  // ---------------------------------------------------------------- UTF-8, section 3 of RFC 3629

  type Scalar = c: nat | c < 0x11_0000 && !(0xD800 <= c < 0xE000)

  function Utf8Of(c: Scalar): (b: Bytes)
    ensures 1 <= |b| <= 4
  {
    if c < 0x80 then [c]
    else if c < 0x800 then [0xC0 + c / 0x40, 0x80 + c % 0x40]
    else if c < 0x1_0000 then [0xE0 + c / 0x1000, 0x80 + c / 0x40 % 0x40, 0x80 + c % 0x40]
    else [0xF0 + c / 0x4_0000, 0x80 + c / 0x1000 % 0x40, 0x80 + c / 0x40 % 0x40, 0x80 + c % 0x40]
  }

  function Utf8(text: seq<Scalar>): Bytes {
    if text == [] then [] else Utf8(text[..|text| - 1]) + Utf8Of(text[|text| - 1])
  }

  predicate IsContinuation(b: Byte) {
    0x80 <= b < 0xC0
  }

  /** `str::is_char_boundary`, which looks at one byte only. */
  predicate IsCharBoundary(b: Bytes, i: nat) {
    i == 0 || i == |b| || (i < |b| && !IsContinuation(b[i]))
  }

  lemma OneCharacter(c: Scalar)
    ensures !IsContinuation(Utf8Of(c)[0])
    ensures forall i | 0 < i < |Utf8Of(c)| :: IsContinuation(Utf8Of(c)[i])
  {
  }

  // The number of bytes of the first k characters.
  function Width(text: seq<Scalar>, k: nat): nat
    requires k <= |text|
  {
    |Utf8(text[..k])|
  }

  lemma WidthGrows(text: seq<Scalar>, k: nat)
    requires k < |text|
    ensures Utf8(text[..k + 1]) == Utf8(text[..k]) + Utf8Of(text[k])
    ensures Width(text, k) < Width(text, k + 1) <= Width(text, k) + 4
  {
    assert text[..k + 1][..k] == text[..k];
  }

  lemma {:induction false} PrefixEncodes(text: seq<Scalar>, k: nat)
    requires k <= |text|
    ensures Width(text, k) <= |Utf8(text)|
    ensures Utf8(text)[..Width(text, k)] == Utf8(text[..k])
    decreases |text| - k
  {
    hide Utf8, Utf8Of;
    if k == |text| {
      assert text[..k] == text;
    } else {
      PrefixEncodes(text, k + 1);
      WidthGrows(text, k);
      PrefixOfPrefix(Utf8(text), Utf8(text[..k]), Utf8Of(text[k]));
    }
  }

  lemma PrefixOfPrefix(all: Bytes, a: Bytes, b: Bytes)
    requires |a| + |b| <= |all| && all[..|a| + |b|] == a + b
    ensures all[..|a|] == a
  {
    assert all[..|a|] == all[..|a| + |b|][..|a|];
  }

  lemma SecondPart(a: Bytes, b: Bytes, i: nat)
    requires |a| <= i < |a| + |b|
    ensures (a + b)[i] == b[i - |a|]
  {
  }

  /** The first byte of a character is a boundary and the bytes after it are not. */
  lemma CharacterAt(text: seq<Scalar>, k: nat, i: nat)
    requires k < |text| && Width(text, k) <= i < Width(text, k + 1)
    ensures i < |Utf8(text)|
    ensures IsContinuation(Utf8(text)[i]) <==> i != Width(text, k)
  {
    PrefixEncodes(text, k + 1);
    WidthGrows(text, k);
    OneCharacter(text[k]);
    hide Utf8, Utf8Of;
    SecondPart(Utf8(text[..k]), Utf8Of(text[k]), i);
    assert Utf8(text)[i] == Utf8(text)[..Width(text, k + 1)][i];
  }

  // The character a byte belongs to.
  lemma {:induction false} CharacterOf(text: seq<Scalar>, upTo: nat, i: nat) returns (k: nat)
    requires upTo <= |text| && i < Width(text, upTo)
    ensures k < upTo && Width(text, k) <= i < Width(text, k + 1)
    decreases upTo
  {
    k := upTo - 1;
    if i < Width(text, k) {
      k := CharacterOf(text, k, i);
    }
  }

  lemma FirstAndLastWidth(text: seq<Scalar>)
    ensures Width(text, 0) == 0 && Width(text, |text|) == |Utf8(text)|
  {
    assert text[..|text|] == text && text[..0] == [];
  }

  // If a character starts at byte `i`, it is the one that byte belongs to.
  lemma StartsAt(text: seq<Scalar>, j: nat, i: nat)
    requires j <= |text| && Width(text, j) == i < |Utf8(text)|
    ensures !IsContinuation(Utf8(text)[i])
  {
    hide Utf8, IsContinuation;
    FirstAndLastWidth(text);
    WidthGrows(text, j);
    CharacterAt(text, j, i);
  }

  /** On valid UTF-8 the byte test finds exactly the ends of characters. */
  lemma BoundariesEndCharacters(text: seq<Scalar>, i: nat)
    requires i <= |Utf8(text)|
    ensures IsCharBoundary(Utf8(text), i) <==> exists k :: 0 <= k <= |text| && Width(text, k) == i
  {
    hide Utf8, IsContinuation, Width;
    FirstAndLastWidth(text);
    if i < |Utf8(text)| {
      if exists j :: 0 <= j <= |text| && Width(text, j) == i {
        var j :| 0 <= j <= |text| && Width(text, j) == i;
        StartsAt(text, j, i);
      } else {
        var k := CharacterOf(text, |text|, i);
        CharacterAt(text, k, i);
      }
    }
  }

  // ---------------------------------------------------------------- the encoder

  // The most whole characters that fit into 255 bytes.
  ghost predicate IsLongestPrefix(text: seq<Scalar>, k: nat) {
    && k <= |text| && Width(text, k) <= 255
    && (k < |text| ==> Width(text, k + 1) > 255)
  }

  // The longest such prefix, looked for from `upTo` characters down.
  ghost function LongestUpTo(text: seq<Scalar>, upTo: nat): (k: nat)
    requires upTo <= |text| && (upTo < |text| ==> Width(text, upTo + 1) > 255)
    ensures IsLongestPrefix(text, k)
  {
    if Width(text, upTo) <= 255 then upTo
    else
      assert text[..0] == [];
      LongestUpTo(text, upTo - 1)
  }

  ghost function Truncated(text: seq<Scalar>): Bytes {
    Utf8(text[..LongestUpTo(text, |text|)])
  }

  /** The truncation loop: it takes at most three steps on valid UTF-8, never runs below zero, and stops at
      the end of the longest prefix of whole characters that fits into 255 bytes. */
  method TruncatedLength(diagnostic: Bytes, ghost text: seq<Scalar>) returns (len: nat, ghost steps: nat)
    requires diagnostic == Utf8(text)
    ensures len <= |diagnostic| && diagnostic[..len] == Truncated(text)
    ensures steps <= 3
  {
    len := if |diagnostic| <= 255 then |diagnostic| else 255;
    steps := 0;
    ghost var start := len;
    ghost var k := LongestUpTo(text, |text|);
    PrefixEncodes(text, k);
    assert text[..|text|] == text;
    if k < |text| {
      WidthGrows(text, k);
    }
    while !IsCharBoundary(diagnostic, len)
      invariant Width(text, k) <= len <= start && len + steps == start
      decreases len
    {
      if len == Width(text, k) {
        BoundariesEndCharacters(text, len);
      }
      len := len - 1;
      steps := steps + 1;
    }
    if len != Width(text, k) {
      if k < |text| {
        PrefixEncodes(text, k + 1);
        CharacterAt(text, k, len);
      }
    }
  }

  const UNSPECIFIED_ERROR: nat := 1
  const WRONG_SELECTED_CIPHER_SUITE: nat := 2
  const UNKNOWN_CREDENTIAL_REFERENCED: nat := 3

  // A CBOR text string of at most 255 bytes.
  function TextString(b: Bytes): Bytes
    requires |b| <= 255
  {
    (if |b| < 24 then [0x60 + |b|] else [0x78, |b|]) + b
  }

  /** ERR_CODE 1 and the diagnostic, cut to the longest prefix that fits. */
  method UnspecifiedError(diagnostic: Bytes, ghost text: seq<Scalar>) returns (payload: Bytes)
    requires diagnostic == Utf8(text)
    ensures |Truncated(text)| <= 255 && payload == [UNSPECIFIED_ERROR] + TextString(Truncated(text))
    ensures payload[0] == 1
    ensures var prefix := Truncated(text);
      if |prefix| < 24 then payload[1] == 0x60 + |prefix| && payload[2..] == prefix
      else payload[1] == 0x78 && payload[2] == |prefix| && payload[3..] == prefix
  {
    var len;
    ghost var steps;
    len, steps := TruncatedLength(diagnostic, text);
    payload := [UNSPECIFIED_ERROR];
    if len < 24 {
      payload := payload + [0x60 + len];
    } else {
      payload := payload + [0x78, len];
    }
    payload := payload + diagnostic[..len];
  }

  // ---------------------------------------------------------------- the decoder, section 3 of RFC 8949

  datatype Head = Head(major: nat, argument: nat, size: nat)

  /** The head of a data item, with arguments up to one byte as lakers reads them. */
  function ReadHead(b: Bytes): (h: Option<Head>)
    ensures h.Some? ==> 0 < h.value.size <= |b| && h.value.major < 8
  {
    if b == [] then None
    else
      var major, info := b[0] / 32, b[0] % 32;
      if info < 24 then Some(Head(major, info, 1))
      else if info == 24 && |b| > 1 then Some(Head(major, b[1], 2))
      else None
  }

  // The bytes that follow the head of a string.
  function ContentOf(major: nat, argument: nat): nat {
    if major == 2 || major == 3 then argument else 0
  }

  // The data items nested in an array, a map or a tag.
  function NestedIn(major: nat, argument: nat): nat {
    if major == 4 then argument else if major == 5 then 2 * argument else if major == 6 then 1 else 0
  }

  /** The bytes taken by the next `count` data items. */
  function ItemsLength(b: Bytes, count: nat): (n: Option<nat>)
    ensures n.Some? ==> n.value <= |b|
    decreases |b|
  {
    if count == 0 then Some(0)
    else
      match ReadHead(b)
      case None => None
      case Some(Head(major, argument, size)) =>
        var content := ContentOf(major, argument);
        if size + content > |b| then None
        else
          match ItemsLength(b[size + content..], count - 1 + NestedIn(major, argument))
          case None => None
          case Some(rest) => Some(size + content + rest)
  }

  // `decoder.i8()`: a one-byte integer.
  function ReadSmallInt(b: Bytes): Option<int> {
    if b == [] then None
    else if b[0] < 0x18 then Some(b[0])
    else if 0x20 <= b[0] < 0x38 then Some(0x1F - b[0] as int)
    else None
  }

  datatype EdhocErrorMessage = EdhocErrorMessage(status: EdhocStatus, errCode: int, errInfo: Bytes) {
    /** The diagnostic of an Unspecified Error: the text string that starts ERR_INFO, if it is UTF-8. */
    ghost function Diagnostic(): Option<Bytes> {
      if errCode != UNSPECIFIED_ERROR then None
      else
        match ReadHead(errInfo)
        case Some(Head(3, length, size)) =>
          if size + length <= |errInfo| && IsUtf8(errInfo[size..size + length]) then Some(errInfo[size..size + length])
          else None
        case _ => None
    }
  }

  datatype EdhocStatus = BadRequest | InternalServerError | OtherResponse(code: nat)

  ghost predicate IsUtf8(b: Bytes) {
    exists text :: Utf8(text) == b
  }

  /** ERR_CODE, one data item of ERR_INFO, and nothing after it. */
  function Decode(status: EdhocStatus, payload: Bytes): Option<EdhocErrorMessage> {
    match ReadSmallInt(payload)
    case None => None
    case Some(code) =>
      match ItemsLength(payload[1..], 1)
      case None => None
      case Some(n) => if 1 + n != |payload| then None else Some(EdhocErrorMessage(status, code, payload[1..]))
  }

  // How far the first data item goes, and how many there are then to come.
  function FirstLength(head: Head): nat {
    head.size + ContentOf(head.major, head.argument)
  }

  function CountAfter(head: Head, count: nat): nat
    requires count > 0
  {
    count - 1 + NestedIn(head.major, head.argument)
  }

  lemma FirstItem(b: Bytes, count: nat)
    requires count > 0 && ItemsLength(b, count).Some?
    ensures ReadHead(b).Some?
    ensures var (n, k) := (FirstLength(ReadHead(b).value), CountAfter(ReadHead(b).value, count));
      && 0 < n <= |b| && ItemsLength(b[n..], k).Some?
      && ItemsLength(b, count).value == n + ItemsLength(b[n..], k).value
  {
  }

  lemma ItemInFront(b: Bytes, more: Bytes, count: nat, n: nat, k: nat)
    requires count > 0 && ReadHead(b).Some?
    requires n == FirstLength(ReadHead(b).value) <= |b| && k == CountAfter(ReadHead(b).value, count)
    requires ItemsLength(b[n..] + more, k).Some?
    ensures ItemsLength(b + more, count) == Some(n + ItemsLength(b[n..] + more, k).value)
  {
    assert ReadHead(b + more) == ReadHead(b);
    assert (b + more)[n..] == b[n..] + more;
  }

  lemma {:induction false} ItemsInFront(b: Bytes, more: Bytes, count: nat)
    requires ItemsLength(b, count).Some?
    ensures ItemsLength(b + more, count) == ItemsLength(b, count)
    decreases |b|
  {
    hide ItemsLength, ReadHead, FirstLength, CountAfter;
    if count == 0 {
      NoItems(b, more);
    } else {
      FirstItem(b, count);
      var n, k := FirstLength(ReadHead(b).value), CountAfter(ReadHead(b).value, count);
      ItemsInFront(b[n..], more, k);
      ItemInFront(b, more, count, n, k);
    }
  }

  lemma NoItems(b: Bytes, more: Bytes)
    ensures ItemsLength(b, 0) == ItemsLength(b + more, 0) == Some(0)
  {
  }

  // A small integer as its one byte, section 3.1 of RFC 8949.
  function SmallInt(n: int): Byte
    requires -24 <= n < 24
  {
    if n >= 0 then n else 0x20 + (-1 - n)
  }

  /** Decoding loses nothing and lets nothing pass: what it returns, put together again, is the whole payload, and a
      payload with anything after it is refused. */
  lemma DecodeIsExact(status: EdhocStatus, payload: Bytes, more: Bytes)
    requires Decode(status, payload).Some?
    ensures var m := Decode(status, payload).value;
      m.status == status && -24 <= m.errCode < 24 && payload == [SmallInt(m.errCode)] + m.errInfo
    ensures more != [] ==> Decode(status, payload + more).None?
  {
    assert (payload + more)[1..] == payload[1..] + more;
    ItemsInFront(payload[1..], more, 1);
  }

  lemma TextStringReads(b: Bytes)
    requires |b| <= 255
    ensures var item := TextString(b);
      && ItemsLength(item, 1) == Some(|item|)
      && ReadHead(item).Some? && ReadHead(item).value.major == 3 && ReadHead(item).value.argument == |b|
      && item[ReadHead(item).value.size..] == b
  {
    var item := TextString(b);
    var size := if |b| < 24 then 1 else 2;
    assert ReadHead(item) == Some(Head(3, |b|, size));
    assert item[size + |b|..] == [];
    assert ItemsLength([], 0) == Some(0);
  }

  /** Round trip: what is decoded from an encoded Unspecified Error is the longest prefix of the diagnostic
      that is at most 255 bytes long and ends on a character boundary. */
  lemma UnspecifiedErrorRoundTrip(text: seq<Scalar>, status: EdhocStatus)
    ensures |Truncated(text)| <= 255
    ensures var payload := [UNSPECIFIED_ERROR] + TextString(Truncated(text));
      && Decode(status, payload) == Some(EdhocErrorMessage(status, UNSPECIFIED_ERROR, payload[1..]))
      && Decode(status, payload).value.Diagnostic() == Some(Truncated(text))
  {
    hide TextString, ItemsLength, Utf8;
    var prefix := Truncated(text);
    var payload := [UNSPECIFIED_ERROR] + TextString(prefix);
    TextStringReads(prefix);
    assert payload[1..] == TextString(prefix);
    var size := ReadHead(TextString(prefix)).value.size;
    assert TextString(prefix)[size..size + |prefix|] == prefix;
  }

  /** There is no other such prefix: any k characters that fit, with the next not fitting, are it. In
      particular a diagnostic of at most 255 bytes comes back whole. */
  lemma LongestPrefixIsUnique(text: seq<Scalar>, k: nat)
    requires IsLongestPrefix(text, k)
    ensures Utf8(text[..k]) == Truncated(text)
    ensures |Utf8(text)| <= 255 ==> Truncated(text) == Utf8(text)
  {
    hide Utf8, LongestUpTo, Width;
    FirstAndLastWidth(text);
    assert text[..|text|] == text;
    var j := LongestUpTo(text, |text|);
    if j < k {
      WidthsGrow(text, j + 1, k);
    } else if k < j {
      WidthsGrow(text, k + 1, j);
    }
    if k < |text| {
      WidthsGrow(text, k + 1, |text|);
    }
  }

  lemma {:induction false} WidthsGrow(text: seq<Scalar>, j: nat, k: nat)
    requires j <= k <= |text|
    ensures Width(text, j) <= Width(text, k)
    decreases k - j
  {
    if j < k {
      WidthGrows(text, j);
      WidthsGrow(text, j + 1, k);
    }
  }

  // ---------------------------------------------------------------- which error becomes which message

  datatype ProtocolError = UnsupportedCipherSuite | OtherProtocolError(code: nat)

  datatype EdhocError =
    | Protocol(cause: ProtocolError)
    | Io(kind: ErrorKind)
    | UnexpectedResponse(status: EdhocStatus)
    | Malformed(what: string)
    | UnknownSession
    | UntrustedCredential
    | NoConnectionIdentifierAvailable
    | Peer(message: EdhocErrorMessage)

  /** The status and payload sent for an error whose printed form is the UTF-8 of `text`. A cipher suite this side
      does not support is answered with 4.00, ERR_CODE 2 and the suite it does; a credential it does not trust with
      4.00, ERR_CODE 3 and true. Anything else is an Unspecified Error with the printed form as its diagnostic, under
      4.00 when the peer is to blame and 5.00 when this side is (section 6 and Appendix A.2.3 of RFC 9528). */
  method ToErrorMessage(error: EdhocError, display: Bytes, ghost text: seq<Scalar>)
    returns (status: EdhocStatus, payload: Bytes)
    requires display == Utf8(text)
    ensures match error
      case Protocol(UnsupportedCipherSuite) => IsMessage(status, payload, BadRequest, 2, [0x02])
      case UntrustedCredential => IsMessage(status, payload, BadRequest, 3, [0xF5])
      case Protocol(OtherProtocolError(_)) => IsUnspecified(status, payload, BadRequest, text)
      case Malformed(_) => IsUnspecified(status, payload, BadRequest, text)
      case UnknownSession => IsUnspecified(status, payload, BadRequest, text)
      case Io(_) => IsUnspecified(status, payload, InternalServerError, text)
      case UnexpectedResponse(_) => IsUnspecified(status, payload, InternalServerError, text)
      case NoConnectionIdentifierAvailable => IsUnspecified(status, payload, InternalServerError, text)
      case Peer(_) => IsUnspecified(status, payload, InternalServerError, text)
  {
    hide Decode, TextString, Truncated, EdhocErrorMessage.Diagnostic;
    match error
    case Protocol(UnsupportedCipherSuite) =>
      status, payload := BadRequest, [WRONG_SELECTED_CIPHER_SUITE, 0x02];
      OneByteItem(status, payload);
    case UntrustedCredential =>
      status, payload := BadRequest, [UNKNOWN_CREDENTIAL_REFERENCED, 0xF5];
      OneByteItem(status, payload);
    case Protocol(OtherProtocolError(_)) =>
      payload := UnspecifiedError(display, text);
      status := BadRequest;
      UnspecifiedErrorRoundTrip(text, status);
    case Malformed(_) =>
      payload := UnspecifiedError(display, text);
      status := BadRequest;
      UnspecifiedErrorRoundTrip(text, status);
    case UnknownSession =>
      payload := UnspecifiedError(display, text);
      status := BadRequest;
      UnspecifiedErrorRoundTrip(text, status);
    case _ =>
      payload := UnspecifiedError(display, text);
      status := InternalServerError;
      UnspecifiedErrorRoundTrip(text, status);
  }

  // The message decodes at the peer with this code and info.
  ghost predicate IsMessage(status: EdhocStatus, payload: Bytes, expected: EdhocStatus, code: int, info: Bytes) {
    status == expected && Decode(status, payload) == Some(EdhocErrorMessage(expected, code, info))
  }

  ghost predicate IsUnspecified(status: EdhocStatus, payload: Bytes, expected: EdhocStatus, text: seq<Scalar>) {
    && payload != [] && IsMessage(status, payload, expected, 1, payload[1..])
    && Decode(status, payload).value.Diagnostic() == Some(Truncated(text))
  }

  lemma OneByteItem(status: EdhocStatus, payload: Bytes)
    requires |payload| == 2 && payload[0] < 24 && (payload[1] == 0x02 || payload[1] == 0xF5)
    ensures Decode(status, payload) == Some(EdhocErrorMessage(status, payload[0], payload[1..]))
  {
    var item := payload[1..];
    assert item[1..] == [];
    assert ItemsLength([], 0) == Some(0);
    assert ItemsLength(item, 1) == Some(1);
  }
}

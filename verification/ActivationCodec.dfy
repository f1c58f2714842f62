/** The activation frame: encoder, decoder, and the proof that they are inverse. */
module ActivationCodec {
  import opened Common

  type Byte = x: int | 0 <= x < 256
  type Word = x: int | 0 <= x < 65536
  type Id16 = s: seq<Byte> | |s| == 16 witness seq(16, _ => 0)

  const MAGIC: seq<Byte> := [0x4e, 0x54, 0x53, 0x49]  // NTSI
  const VERSION: Word := 1
  const HEADER_LEN := 12
  const MAX_FRAME := 256 * 1024
  const MAX_PAYLOAD := MAX_FRAME - HEADER_LEN
  const MAX_ARGS := 256
  const MAX_ARG_BYTES := 32 * 1024
  const REQUEST_KIND: Byte := 1
  const ACK_KIND: Byte := 2

  datatype Arg = Bytes(bytes: seq<Byte>) | Wide(units: seq<Word>) {
    // `encoded_len`
    function EncodedLen(): nat {
      match this case Bytes(b) => |b| case Wide(u) => 2 * |u|
    }
  }

  datatype Request = Request(id: Id16, args: seq<Arg>)

  datatype Status = Accepted | QueueFull | ShuttingDown | InvalidRequest

  datatype Ack = Ack(id: Id16, status: Status)

  datatype Error =
    | Truncated
    | InvalidMagic
    | UnsupportedVersion(version: Word)
    | UnexpectedKind(kind: Byte)
    | FrameTooLarge
    | TooManyArguments
    | ArgumentTooLarge
    | InvalidEncoding(tag: Byte)
    | InvalidWide
    | TrailingData
    | InvalidStatus(status: Byte)

  // ----- little-endian numbers

  function U16(n: Word): seq<Byte> { [n % 256, n / 256] }

  function FromU16(b: seq<Byte>): Word
    requires |b| == 2
  {
    b[0] as int + 256 * (b[1] as int)
  }

  function U32(n: nat): seq<Byte>
    requires n < 0x1_0000_0000
  {
    U16(n % 0x1_0000) + U16(n / 0x1_0000)
  }

  function FromU32(b: seq<Byte>): (n: nat)
    requires |b| == 4
    ensures n < 0x1_0000_0000
  {
    FromU16(b[..2]) as int + 0x1_0000 * (FromU16(b[2..]) as int)
  }

  lemma U16Inverse(n: Word, b: seq<Byte>)
    requires |b| == 2
    ensures FromU16(U16(n)) == n && U16(FromU16(b)) == b
  {
  }

  lemma SplitWord(low: Word, high: Word)
    ensures (low as int + 0x1_0000 * (high as int)) % 0x1_0000 == low
    ensures (low as int + 0x1_0000 * (high as int)) / 0x1_0000 == high
  {
  }

  lemma U32Inverse(n: nat, b: seq<Byte>)
    requires n < 0x1_0000_0000 && |b| == 4
    ensures FromU32(U32(n)) == n && U32(FromU32(b)) == b
  {
    assert U32(n)[..2] == U16(n % 0x1_0000) && U32(n)[2..] == U16(n / 0x1_0000);
    U16Inverse(n % 0x1_0000, b[..2]);
    U16Inverse(n / 0x1_0000, b[2..]);
    SplitWord(FromU16(b[..2]), FromU16(b[2..]));
    assert b == b[..2] + b[2..];
  }

  function WordBytes(units: seq<Word>): (b: seq<Byte>)
    ensures |b| == 2 * |units|
  {
    if units == [] then [] else U16(units[0]) + WordBytes(units[1..])
  }

  function BytesToWords(b: seq<Byte>): (u: seq<Word>)
    requires |b| % 2 == 0
    ensures 2 * |u| == |b|
  {
    if b == [] then [] else [FromU16(b[..2])] + BytesToWords(b[2..])
  }

  lemma {:induction false} WordsInverse(units: seq<Word>)
    ensures BytesToWords(WordBytes(units)) == units
  {
    if units != [] {
      WordsInverse(units[1..]);
      U16Inverse(units[0], [0, 0]);
      assert WordBytes(units)[..2] == U16(units[0]) && WordBytes(units)[2..] == WordBytes(units[1..]);
    }
  }

  lemma {:induction false} BytesInverse(b: seq<Byte>)
    requires |b| % 2 == 0
    ensures WordBytes(BytesToWords(b)) == b
  {
    if b != [] {
      BytesInverse(b[2..]);
      U16Inverse(0, b[..2]);
      assert b == b[..2] + b[2..];
    }
  }

  // ----- frames

  function Frame(kind: Byte, payload: seq<Byte>): seq<Byte>
    requires |payload| <= MAX_PAYLOAD
  {
    MAGIC + U16(VERSION) + [kind] + [0] + U32(|payload|) + payload
  }

  // `encode_frame`
  function EncodeFrame(kind: Byte, payload: seq<Byte>): Result<seq<Byte>, Error> {
    if |payload| > MAX_PAYLOAD then Err(FrameTooLarge) else Ok(Frame(kind, payload))
  }

  // `decode_frame`
  function DecodeFrame(frame: seq<Byte>, kind: Byte): Result<seq<Byte>, Error> {
    if |frame| < HEADER_LEN then Err(Truncated)
    else if frame[..4] != MAGIC then Err(InvalidMagic)
    else if FromU16(frame[4..6]) != VERSION then Err(UnsupportedVersion(FromU16(frame[4..6])))
    else if frame[6] != kind then Err(UnexpectedKind(frame[6]))
    else
      var n := FromU32(frame[8..12]);
      if n > MAX_PAYLOAD then Err(FrameTooLarge)
      else if |frame| < HEADER_LEN + n then Err(Truncated)
      else if |frame| != HEADER_LEN + n then Err(TrailingData)
      else Ok(frame[HEADER_LEN..])
  }

  lemma FrameLayout(kind: Byte, payload: seq<Byte>)
    requires |payload| <= MAX_PAYLOAD
    ensures var f := Frame(kind, payload);
            && |f| == HEADER_LEN + |payload| && f[..4] == MAGIC && f[4..6] == U16(VERSION)
            && f[6] == kind && f[7] == 0 && f[8..12] == U32(|payload|) && f[12..] == payload
  {
  }

  lemma FrameRoundTrip(kind: Byte, payload: seq<Byte>)
    requires |payload| <= MAX_PAYLOAD
    ensures DecodeFrame(Frame(kind, payload), kind) == Ok(payload)
  {
    FrameLayout(kind, payload);
    U16Inverse(VERSION, [0, 0]);
    U32Inverse(|payload|, [0, 0, 0, 0]);
  }

  // Conversely an accepted frame is the encoding of its payload, up to the reserved byte.
  lemma FrameIsCanonical(frame: seq<Byte>, kind: Byte)
    requires DecodeFrame(frame, kind).Ok?
    ensures var payload := DecodeFrame(frame, kind).value;
            |payload| <= MAX_PAYLOAD && Frame(kind, payload) == frame[7 := 0]
  {
    var payload := DecodeFrame(frame, kind).value;
    U16Inverse(0, frame[4..6]);
    U32Inverse(0, frame[8..12]);
    FrameLayout(kind, payload);
    var f := frame[7 := 0];
    assert f == f[..4] + f[4..6] + [f[6]] + [f[7]] + f[8..12] + f[12..];
  }

  // Cutting a frame short or appending to it is noticed.
  lemma FrameLengthIsChecked(kind: Byte, payload: seq<Byte>, n: nat, extra: seq<Byte>)
    requires |payload| <= MAX_PAYLOAD && n < |Frame(kind, payload)| && extra != []
    ensures DecodeFrame(Frame(kind, payload)[..n], kind) == Err(Truncated)
    ensures DecodeFrame(Frame(kind, payload) + extra, kind) == Err(TrailingData)
  {
    var f := Frame(kind, payload);
    FrameLayout(kind, payload);
    U16Inverse(VERSION, [0, 0]);
    U32Inverse(|payload|, [0, 0, 0, 0]);
    if n >= HEADER_LEN {
      assert f[..n][..4] == f[..4] && f[..n][4..6] == f[4..6] && f[..n][8..12] == f[8..12];
    }
    var g := f + extra;
    assert g[..4] == f[..4] && g[4..6] == f[4..6] && g[8..12] == f[8..12];
  }

  // ----- arguments

  function EncodeArg(arg: Arg): seq<Byte>
    requires arg.EncodedLen() <= MAX_ARG_BYTES
  {
    match arg
    case Bytes(b) => [0] + U32(|b|) + b
    case Wide(u) => [1] + U32(2 * |u|) + WordBytes(u)
  }

  predicate Fits(args: seq<Arg>) {
    forall i | 0 <= i < |args| :: args[i].EncodedLen() <= MAX_ARG_BYTES
  }

  function EncodeArgs(args: seq<Arg>): seq<Byte>
    requires Fits(args)
  {
    if args == [] then [] else EncodeArg(args[0]) + EncodeArgs(args[1..])
  }

  // The body of the decoding loop.
  function DecodeArg(b: seq<Byte>): Result<(Arg, seq<Byte>), Error> {
    if |b| < 5 then Err(Truncated)
    else
      var n := FromU32(b[1..5]);
      if n > MAX_ARG_BYTES then Err(ArgumentTooLarge)
      else if |b| < 5 + n then Err(Truncated)
      else if b[0] == 0 then Ok((Bytes(b[5..5 + n]), b[5 + n..]))
      else if b[0] == 1 then
        if n % 2 != 0 then Err(InvalidWide) else Ok((Wide(BytesToWords(b[5..5 + n])), b[5 + n..]))
      else Err(InvalidEncoding(b[0]))
  }

  function DecodeArgs(b: seq<Byte>, count: nat): Result<(seq<Arg>, seq<Byte>), Error> {
    if count == 0 then Ok(([], b))
    else
      match DecodeArg(b)
      case Err(e) => Err(e)
      case Ok((arg, rest)) => Prepend([arg], DecodeArgs(rest, count - 1))
  }

  function Prepend(args: seq<Arg>, r: Result<(seq<Arg>, seq<Byte>), Error>): Result<(seq<Arg>, seq<Byte>), Error> {
    match r
    case Err(e) => Err(e)
    case Ok((more, rest)) => Ok((args + more, rest))
  }

  lemma ArgLayout(tag: Byte, body: seq<Byte>, rest: seq<Byte>)
    requires |body| <= MAX_ARG_BYTES
    ensures var b := [tag] + U32(|body|) + body + rest;
            && |b| == 5 + |body| + |rest| && b[0] == tag && FromU32(b[1..5]) == |body|
            && b[5..5 + |body|] == body && b[5 + |body|..] == rest
  {
    var b := [tag] + U32(|body|) + body + rest;
    assert b[1..5] == U32(|body|);
    U32Inverse(|body|, [0, 0, 0, 0]);
  }

  lemma ArgRoundTrip(arg: Arg, rest: seq<Byte>)
    requires arg.EncodedLen() <= MAX_ARG_BYTES
    ensures DecodeArg(EncodeArg(arg) + rest) == Ok((arg, rest))
  {
    match arg
    case Bytes(b) => ArgLayout(0, b, rest);
    case Wide(u) =>
      ArgLayout(1, WordBytes(u), rest);
      WordsInverse(u);
  }

  lemma ArgIsCanonical(b: seq<Byte>)
    requires DecodeArg(b).Ok?
    ensures var (arg, rest) := DecodeArg(b).value;
            arg.EncodedLen() <= MAX_ARG_BYTES && EncodeArg(arg) + rest == b
  {
    var n := FromU32(b[1..5]);
    U32Inverse(0, b[1..5]);
    assert b == [b[0]] + b[1..5] + b[5..5 + n] + b[5 + n..];
    if b[0] == 1 { BytesInverse(b[5..5 + n]); }
  }

  // One argument in front of a tail that decodes.
  lemma DecodeArgsCons(arg: Arg, tail: seq<Byte>, more: seq<Arg>, rest: seq<Byte>)
    requires arg.EncodedLen() <= MAX_ARG_BYTES && DecodeArgs(tail, |more|) == Ok((more, rest))
    ensures DecodeArgs(EncodeArg(arg) + tail, |more| + 1) == Ok(([arg] + more, rest))
  {
    ArgRoundTrip(arg, tail);
  }

  lemma EncodedArgsSplit(args: seq<Arg>, rest: seq<Byte>)
    requires Fits(args) && args != []
    ensures EncodeArgs(args) + rest == EncodeArg(args[0]) + (EncodeArgs(args[1..]) + rest)
    ensures args == [args[0]] + args[1..]
  {
    Concat3(EncodeArg(args[0]), EncodeArgs(args[1..]), rest);
  }

  lemma {:induction false} ArgsRoundTrip(args: seq<Arg>, rest: seq<Byte>, b: seq<Byte>)
    requires Fits(args) && b == EncodeArgs(args) + rest
    ensures DecodeArgs(b, |args|) == Ok((args, rest))
  {
    if args == [] {
      assert b == rest;
    } else {
      var tail := EncodeArgs(args[1..]) + rest;
      EncodedArgsSplit(args, rest);
      ArgsRoundTrip(args[1..], rest, tail);
      DecodeArgsCons(args[0], tail, args[1..], rest);
    }
  }

  lemma EncodeArgsCons(arg: Arg, more: seq<Arg>)
    requires arg.EncodedLen() <= MAX_ARG_BYTES && Fits(more)
    ensures Fits([arg] + more) && EncodeArgs([arg] + more) == EncodeArg(arg) + EncodeArgs(more)
  {
    assert ([arg] + more)[1..] == more;
  }

  lemma {:induction false} ArgsAreCanonical(b: seq<Byte>, count: nat)
    requires DecodeArgs(b, count).Ok?
    ensures var (args, rest) := DecodeArgs(b, count).value;
            |args| == count && Fits(args) && EncodeArgs(args) + rest == b
    decreases count
  {
    if count == 0 {
      assert EncodeArgs([]) + b == b;
    } else {
      ArgIsCanonical(b);
      var (arg, tail) := DecodeArg(b).value;
      ArgsAreCanonical(tail, count - 1);
      var (more, rest) := DecodeArgs(tail, count - 1).value;
      EncodeArgsCons(arg, more);
      Concat3(EncodeArg(arg), EncodeArgs(more), rest);
    }
  }

  lemma Concat3(a: seq<Byte>, b: seq<Byte>, c: seq<Byte>)
    ensures (a + b) + c == a + (b + c)
  {
  }

  // ----- requests

  function Payload(token: Id16, request: Request): seq<Byte>
    requires |request.args| <= MAX_ARGS && Fits(request.args)
  {
    token + request.id + U16(|request.args|) + EncodeArgs(request.args)
  }

  function EncodeRequest(token: Id16, request: Request): Result<seq<Byte>, Error> {
    if |request.args| > MAX_ARGS then Err(TooManyArguments)
    else if !Fits(request.args) then Err(ArgumentTooLarge)
    else EncodeFrame(REQUEST_KIND, Payload(token, request))
  }

  function DecodePayload(b: seq<Byte>): Result<(Id16, Request), Error> {
    if |b| < 34 then Err(Truncated)
    else
      var count := FromU16(b[32..34]);
      if count > MAX_ARGS then Err(TooManyArguments)
      else
        match DecodeArgs(b[34..], count)
        case Err(e) => Err(e)
        case Ok((args, rest)) =>
          if rest != [] then Err(TrailingData) else Ok((b[..16], Request(b[16..32], args)))
  }

  function DecodeRequest(frame: seq<Byte>): Result<(Id16, Request), Error> {
    match DecodeFrame(frame, REQUEST_KIND)
    case Err(e) => Err(e)
    case Ok(payload) => DecodePayload(payload)
  }

  lemma PayloadRoundTrip(token: Id16, request: Request)
    requires |request.args| <= MAX_ARGS && Fits(request.args)
    ensures DecodePayload(Payload(token, request)) == Ok((token, request))
  {
    var b := Payload(token, request);
    assert b[..16] == token && b[16..32] == request.id;
    assert b[32..34] == U16(|request.args|) && b[34..] == EncodeArgs(request.args);
    U16Inverse(|request.args|, [0, 0]);
    ArgsRoundTrip(request.args, [], EncodeArgs(request.args) + []);
    assert EncodeArgs(request.args) + [] == EncodeArgs(request.args);
  }

  lemma PayloadIsCanonical(b: seq<Byte>)
    requires DecodePayload(b).Ok?
    ensures var (token, request) := DecodePayload(b).value;
            |request.args| <= MAX_ARGS && Fits(request.args) && Payload(token, request) == b
  {
    var count := FromU16(b[32..34]);
    U16Inverse(0, b[32..34]);
    ArgsAreCanonical(b[34..], count);
    var (args, rest) := DecodeArgs(b[34..], count).value;
    assert EncodeArgs(args) + rest == EncodeArgs(args);
    assert b == b[..16] + b[16..32] + b[32..34] + b[34..];
  }

  // What is encoded is decoded again.
  lemma RequestRoundTrip(token: Id16, request: Request)
    requires EncodeRequest(token, request).Ok?
    ensures DecodeRequest(EncodeRequest(token, request).value) == Ok((token, request))
  {
    FrameRoundTrip(REQUEST_KIND, Payload(token, request));
    PayloadRoundTrip(token, request);
  }

  // What is decoded is encoded again, to the same bytes with the reserved byte cleared.
  lemma RequestIsCanonical(frame: seq<Byte>)
    requires DecodeRequest(frame).Ok?
    ensures |frame| >= HEADER_LEN
    ensures var (token, request) := DecodeRequest(frame).value;
            EncodeRequest(token, request) == Ok(frame[7 := 0])
  {
    FrameIsCanonical(frame, REQUEST_KIND);
    PayloadIsCanonical(DecodeFrame(frame, REQUEST_KIND).value);
  }

  lemma RequestLengthIsChecked(token: Id16, request: Request, n: nat, extra: seq<Byte>)
    requires EncodeRequest(token, request).Ok? && extra != []
    requires n < |EncodeRequest(token, request).value|
    ensures DecodeRequest(EncodeRequest(token, request).value[..n]) == Err(Truncated)
    ensures DecodeRequest(EncodeRequest(token, request).value + extra) == Err(TrailingData)
  {
    FrameLengthIsChecked(REQUEST_KIND, Payload(token, request), n, extra);
  }

  // ----- acknowledgements

  function StatusByte(status: Status): Byte {
    match status case Accepted => 0 case QueueFull => 1 case ShuttingDown => 2 case InvalidRequest => 3
  }

  function StatusFrom(b: Byte): Result<Status, Error> {
    match b
    case 0 => Ok(Accepted)
    case 1 => Ok(QueueFull)
    case 2 => Ok(ShuttingDown)
    case 3 => Ok(InvalidRequest)
    case _ => Err(InvalidStatus(b))
  }

  function EncodeAck(ack: Ack): Result<seq<Byte>, Error> {
    EncodeFrame(ACK_KIND, ack.id + [StatusByte(ack.status)])
  }

  function DecodeAck(frame: seq<Byte>): Result<Ack, Error> {
    match DecodeFrame(frame, ACK_KIND)
    case Err(e) => Err(e)
    case Ok(b) =>
      if |b| < 17 then Err(Truncated)
      else
        match StatusFrom(b[16])
        case Err(e) => Err(e)
        case Ok(status) => if |b| != 17 then Err(TrailingData) else Ok(Ack(b[..16], status))
  }

  lemma AckRoundTrip(ack: Ack)
    ensures EncodeAck(ack).Ok? && DecodeAck(EncodeAck(ack).value) == Ok(ack)
  {
    var b := ack.id + [StatusByte(ack.status)];
    FrameRoundTrip(ACK_KIND, b);
    assert b[..16] == ack.id;
  }

  lemma AckIsCanonical(frame: seq<Byte>)
    requires DecodeAck(frame).Ok?
    ensures |frame| >= HEADER_LEN && EncodeAck(DecodeAck(frame).value) == Ok(frame[7 := 0])
  {
    FrameIsCanonical(frame, ACK_KIND);
    var b := DecodeFrame(frame, ACK_KIND).value;
    assert b == b[..16] + [b[16]];
  }

  // ----- what is refused, and how

  // One changed header byte: a wrong magic, version or kind is named, the reserved byte is ignored.
  lemma HeaderIsChecked(kind: Byte, payload: seq<Byte>, i: nat, b: Byte)
    requires |payload| <= MAX_PAYLOAD && i < 8 && b != Frame(kind, payload)[i]
    ensures DecodeFrame(Frame(kind, payload)[i := b], kind)
            == if i < 4 then Err(InvalidMagic)
               else if i == 4 then Err(UnsupportedVersion(b))
               else if i == 5 then Err(UnsupportedVersion(1 + 256 * (b as int)))
               else if i == 6 then Err(UnexpectedKind(b))
               else Ok(payload)
  {
    var f := Frame(kind, payload);
    var g := f[i := b];
    FrameLayout(kind, payload);
    FrameRoundTrip(kind, payload);
    assert g[4..6] == [g[4], g[5]] && f[4..6] == [f[4], f[5]];
    if i < 4 { assert g[..4][i] == b && MAGIC[i] == f[..4][i]; } else { assert g[..4] == f[..4]; }
    assert g[8..12] == f[8..12] && g[12..] == f[12..];
  }

  // A length field beyond the limit is refused before anything is compared with it.
  lemma LengthIsLimited(kind: Byte, reserved: Byte, n: nat, rest: seq<Byte>)
    requires 256 * 1024 - 12 < n < 0x1_0000_0000
    ensures DecodeFrame(MAGIC + U16(VERSION) + [kind] + [reserved] + U32(n) + rest, kind) == Err(FrameTooLarge)
  {
    var f := MAGIC + U16(VERSION) + [kind] + [reserved] + U32(n) + rest;
    assert f[..4] == MAGIC && f[4..6] == U16(VERSION) && f[6] == kind && f[8..12] == U32(n);
    U16Inverse(VERSION, [0, 0]);
    U32Inverse(n, [0, 0, 0, 0]);
  }

  // An argument is refused for its length, for missing bytes, for an odd wide length, for its tag.
  lemma ArgumentIsChecked(tag: Byte, n: nat, body: seq<Byte>)
    requires n < 0x1_0000_0000
    ensures var r := DecodeArg([tag] + U32(n) + body);
            && (r == Err(ArgumentTooLarge) <==> n > 32768)
            && (r == Err(Truncated) <==> n <= 32768 && |body| < n)
            && (r == Err(InvalidWide) <==> n <= 32768 && n <= |body| && tag == 1 && n % 2 == 1)
            && (r == Err(InvalidEncoding(tag)) <==> n <= 32768 && n <= |body| && tag > 1)
  {
    var b := [tag] + U32(n) + body;
    assert b[1..5] == U32(n) && |b| == 5 + |body| && b[0] == tag;
    U32Inverse(n, [0, 0, 0, 0]);
  }

  lemma CountIsLimited(token: Id16, id: Id16, count: Word, rest: seq<Byte>)
    ensures DecodePayload(token + id + U16(count) + rest) == Err(TooManyArguments) <==> count > 256
  {
    var b := token + id + U16(count) + rest;
    assert b[32..34] == U16(count) && b[34..] == rest;
    U16Inverse(count, [0, 0]);
    NeverTooMany(rest, count);
  }

  lemma {:induction false} NeverTooMany(b: seq<Byte>, count: nat)
    ensures DecodeArgs(b, count) != Err(TooManyArguments)
    decreases count
  {
    if count > 0 && DecodeArg(b).Ok? { NeverTooMany(DecodeArg(b).value.1, count - 1); }
  }

  // The bytes a request takes.
  function PayloadSize(args: seq<Arg>): nat {
    if args == [] then 34 else 5 + args[0].EncodedLen() + PayloadSize(args[1..])
  }

  lemma {:induction false} EncodedSize(args: seq<Arg>)
    requires Fits(args)
    ensures |EncodeArgs(args)| + 34 == PayloadSize(args)
  {
    if args != [] { EncodedSize(args[1..]); }
  }

  // Exactly which requests encode, and the error of every other one.
  lemma RequestEncodesIff(token: Id16, request: Request)
    ensures var r, args := EncodeRequest(token, request), request.args;
            && (r.Ok? <==> |args| <= 256 && Fits(args) && PayloadSize(args) <= 262132)
            && (r == Err(TooManyArguments) <==> |args| > 256)
            && (r == Err(ArgumentTooLarge) <==> |args| <= 256 && !Fits(args))
            && (r == Err(FrameTooLarge) <==> |args| <= 256 && Fits(args) && PayloadSize(args) > 262132)
  {
    if Fits(request.args) { EncodedSize(request.args); }
  }

  // The bytes on the wire.
  lemma RequestLayout(token: Id16, request: Request)
    requires EncodeRequest(token, request).Ok?
    ensures var f := EncodeRequest(token, request).value;
            && |f| == 12 + PayloadSize(request.args)
            && f[..8] == [0x4e, 0x54, 0x53, 0x49, 1, 0, 1, 0]
            && f[12..28] == token && f[28..44] == request.id
            && f[44..46] == [|request.args| % 256, |request.args| / 256]
  {
    var b := Payload(token, request);
    FrameLayout(REQUEST_KIND, b);
    EncodedSize(request.args);
    var f := EncodeRequest(token, request).value;
    assert f[12..28] == b[..16] && f[28..44] == b[16..32] && f[44..46] == b[32..34];
  }

  lemma AckLayout(ack: Ack)
    ensures EncodeAck(ack).Ok?
    ensures var f := EncodeAck(ack).value;
            && |f| == 29 && f[..8] == [0x4e, 0x54, 0x53, 0x49, 1, 0, 2, 0] && f[8..12] == [17, 0, 0, 0]
            && f[12..28] == ack.id
            && f[28] == match ack.status case Accepted => 0 case QueueFull => 1 case ShuttingDown => 2
                        case InvalidRequest => 3
  {
    var b := ack.id + [StatusByte(ack.status)];
    FrameLayout(ACK_KIND, b);
    var f := EncodeAck(ack).value;
    assert f[12..28] == b[..16] && f[28] == b[16];
  }

  // ----- the imperative encoder and decoder

  // `encode_activation_request`: the payload is grown argument by argument.
  method BuildRequest(token: Id16, request: Request) returns (r: Result<seq<Byte>, Error>)
    ensures r == EncodeRequest(token, request)
  {
    if |request.args| > MAX_ARGS {
      return Err(TooManyArguments);
    }
    var payload := PushArgs(token + request.id + U16(|request.args|), request.args);
    if payload.Err? {
      return Err(payload.error);
    }
    r := EncodeFrame(REQUEST_KIND, payload.value);
  }

  // The loop over the arguments.
  method PushArgs(payload: seq<Byte>, args: seq<Arg>) returns (r: Result<seq<Byte>, Error>)
    ensures r == if Fits(args) then Ok(payload + EncodeArgs(args)) else Err(ArgumentTooLarge)
  {
    var out, i := payload, 0;
    assert args[0..] == args;
    while i < |args|
      invariant 0 <= i <= |args| && Pushed(out, args[i..]) == Pushed(payload, args)
    {
      assert args[i..][1..] == args[i + 1..];
      if args[i].EncodedLen() > MAX_ARG_BYTES {
        PushedSpec(payload, args);
        return Err(ArgumentTooLarge);
      }
      out := PushArg(out, args[i]);
      i := i + 1;
    }
    PushedSpec(payload, args);
    r := Ok(out);
  }

  function Pushed(out: seq<Byte>, args: seq<Arg>): Result<seq<Byte>, Error>
    decreases |args|
  {
    if args == [] then Ok(out)
    else if args[0].EncodedLen() > MAX_ARG_BYTES then Err(ArgumentTooLarge)
    else Pushed(out + EncodeArg(args[0]), args[1..])
  }

  lemma FitsSplit(args: seq<Arg>)
    requires args != []
    ensures Fits(args) <==> args[0].EncodedLen() <= MAX_ARG_BYTES && Fits(args[1..])
  {
    assert args == [args[0]] + args[1..];
  }

  lemma {:induction false} PushedSpec(out: seq<Byte>, args: seq<Arg>)
    ensures Pushed(out, args) == if Fits(args) then Ok(out + EncodeArgs(args)) else Err(ArgumentTooLarge)
    decreases |args|
  {
    if args == [] {
      assert out + EncodeArgs(args) == out;
    } else {
      FitsSplit(args);
      if args[0].EncodedLen() <= MAX_ARG_BYTES {
        PushedSpec(out + EncodeArg(args[0]), args[1..]);
        if Fits(args) { Concat3(out, EncodeArg(args[0]), EncodeArgs(args[1..])); }
      }
    }
  }

  method PushArg(payload: seq<Byte>, arg: Arg) returns (r: seq<Byte>)
    requires arg.EncodedLen() <= MAX_ARG_BYTES
    ensures r == payload + EncodeArg(arg)
  {
    match arg {
      case Bytes(bytes) =>
        r := payload + [0];
        r := r + U32(|bytes|);
        r := r + bytes;
      case Wide(units) =>
        r := payload + [1];
        r := r + U32(arg.EncodedLen());
        r := PushUnits(r, units);
    }
  }

  method PushUnits(payload: seq<Byte>, units: seq<Word>) returns (r: seq<Byte>)
    ensures r == payload + WordBytes(units)
  {
    r := payload;
    var i := 0;
    while i < |units|
      invariant 0 <= i <= |units| && r + WordBytes(units[i..]) == payload + WordBytes(units)
    {
      assert units[i..][1..] == units[i + 1..];
      r := r + U16(units[i]);
      i := i + 1;
    }
  }

  // The read cursor over a payload.
  class Cursor {
    const bytes: seq<Byte>
    var offset: nat

    ghost predicate Valid()
      reads this
    {
      offset <= |bytes|
    }

    constructor (bytes: seq<Byte>)
      ensures this.bytes == bytes && offset == 0 && Valid()
    {
      this.bytes, offset := bytes, 0;
    }

    // Either the next `len` bytes, or nothing is consumed.
    method ReadBytes(len: nat) returns (r: Result<seq<Byte>, Error>)
      requires Valid()
      modifies this
      ensures Valid()
      ensures if old(offset) + len <= |bytes|
              then r == Ok(bytes[old(offset)..old(offset) + len]) && offset == old(offset) + len
              else r == Err(Truncated) && offset == old(offset)
    {
      var end := offset + len;
      if end > |bytes| {
        return Err(Truncated);
      }
      r := Ok(bytes[offset..end]);
      offset := end;
    }

    // One argument, read the way the decoding loop reads it.
    method ReadArg() returns (r: Result<Arg, Error>)
      requires Valid()
      modifies this
      ensures Valid()
      ensures match DecodeArg(bytes[old(offset)..])
              case Err(e) => r == Err(e)
              case Ok((arg, rest)) => r == Ok(arg) && bytes[offset..] == rest
    {
      ghost var b := bytes[offset..];
      var tag := ReadBytes(1);
      if tag.Err? { return Err(tag.error); }
      var length := ReadBytes(4);
      if length.Err? { return Err(length.error); }
      assert length.value == b[1..5];
      var n := FromU32(length.value);
      if n > MAX_ARG_BYTES { return Err(ArgumentTooLarge); }
      var body := ReadBytes(n);
      if body.Err? { return Err(body.error); }
      assert tag.value[0] == b[0] && body.value == b[5..5 + n] && bytes[offset..] == b[5 + n..];
      if tag.value[0] == 0 { return Ok(Bytes(body.value)); }
      if tag.value[0] == 1 {
        if n % 2 != 0 { return Err(InvalidWide); }
        return Ok(Wide(BytesToWords(body.value)));
      }
      return Err(InvalidEncoding(tag.value[0]));
    }

    method ReadArgs(count: nat) returns (r: Result<seq<Arg>, Error>)
      requires Valid()
      modifies this
      ensures Valid()
      ensures match DecodeArgs(bytes[old(offset)..], count)
              case Err(e) => r == Err(e)
              case Ok((args, rest)) => r == Ok(args) && bytes[offset..] == rest
    {
      var args, i := [], 0;
      PrependNone(DecodeArgs(bytes[offset..], count));
      while i < count
        invariant 0 <= i <= count && Valid()
        invariant Prepend(args, DecodeArgs(bytes[offset..], count - i)) == DecodeArgs(bytes[old(offset)..], count)
      {
        var arg := ReadArg();
        if arg.Err? { return Err(arg.error); }
        PrependTwice(args, arg.value, DecodeArgs(bytes[offset..], count - i - 1));
        args := args + [arg.value];
        i := i + 1;
      }
      assert args + [] == args;
      r := Ok(args);
    }
  }

  lemma PrependNone(r: Result<(seq<Arg>, seq<Byte>), Error>)
    ensures Prepend([], r) == r
  {
    match r {
      case Err(_) =>
      case Ok((more, _)) => assert [] + more == more;
    }
  }

  lemma PrependTwice(args: seq<Arg>, arg: Arg, r: Result<(seq<Arg>, seq<Byte>), Error>)
    ensures Prepend(args, Prepend([arg], r)) == Prepend(args + [arg], r)
  {
    match r {
      case Err(_) =>
      case Ok((more, _)) => assert args + ([arg] + more) == (args + [arg]) + more;
    }
  }

  // `decode_activation_request`: total on every byte string, no read out of bounds.
  method ParseRequest(frame: seq<Byte>) returns (r: Result<(Id16, Request), Error>)
    ensures r == DecodeRequest(frame)
  {
    var payload := DecodeFrame(frame, REQUEST_KIND);
    if payload.Err? { return Err(payload.error); }
    var b := payload.value;
    var cursor := new Cursor(b);
    var token := cursor.ReadBytes(16);
    if token.Err? { return Err(token.error); }
    var id := cursor.ReadBytes(16);
    if id.Err? { return Err(id.error); }
    var count := cursor.ReadBytes(2);
    if count.Err? { return Err(count.error); }
    assert token.value == b[..16] && id.value == b[16..32] && count.value == b[32..34];
    var n := FromU16(count.value);
    if n > MAX_ARGS { return Err(TooManyArguments); }
    var args := cursor.ReadArgs(n);
    if args.Err? { return Err(args.error); }
    assert cursor.bytes[cursor.offset..] == [] <==> cursor.offset == |b|;
    if cursor.offset != |b| { return Err(TrailingData); }
    return Ok((token.value, Request(id.value, args.value)));
  }
}

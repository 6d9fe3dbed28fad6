/**
 The frame inside a decrypted WeCom message: 16 random bytes, the message length in 4 bytes (big-endian),
 the message, the receiver's corp ID and padding. Decryption itself is not modelled.
 */
module WecomFrame {

  type Byte = x: int | 0 <= x < 256

  datatype FrameError = TooShort | BadMsgLength | BadCorpIDPosition | CorpIDMismatch | BadPaddingSize | BadPadding
  datatype Result<T> = Ok(value: T) | Err(error: FrameError)

  function Uint32(b: seq<Byte>): nat
    requires |b| == 4
  {
    ((b[0] as int * 256 + b[1]) * 256 + b[2]) * 256 + b[3]
  }

  function PutUint32(n: nat): (b: seq<Byte>)
    requires n < 0x1_0000_0000
    ensures |b| == 4
  {
    [n / 0x100_0000, n / 0x1_0000 % 256, n / 256 % 256, n % 256]
  }

  /** Decrypt, from the plaintext on. */
  function Split(plain: seq<Byte>, corpID: seq<Byte>): Result<seq<Byte>> {
    if |plain| < 20 then Err(TooShort)
    else
      var msgEnd := 20 + Uint32(plain[16..20]);
      if msgEnd > |plain| then Err(BadMsgLength)
      else
        var last: int := plain[|plain| - 1];
        var padLen := if last > |plain| - msgEnd then 0 else last;
        var corpIDEnd := |plain| - padLen;
        if corpIDEnd <= msgEnd then Err(BadCorpIDPosition)
        else if plain[msgEnd..corpIDEnd] != corpID then Err(CorpIDMismatch)
        else Ok(plain[20..msgEnd])
  }

  /** Removing the padding of section 6.3 of RFC 5652. */
  function Unpad(b: seq<Byte>, blockSize: nat): Result<seq<Byte>>
    requires blockSize > 0
  {
    if |b| == 0 || |b| % blockSize != 0 then Err(BadPaddingSize)
    else
      var pad: int := b[|b| - 1];
      if pad == 0 || pad > blockSize || pad > |b| then Err(BadPadding)
      else if exists i :: |b| - pad <= i < |b| && b[i] != pad then Err(BadPadding)
      else Ok(b[..|b| - pad])
  }

  method Pkcs7Unpad(b: seq<Byte>, blockSize: nat) returns (r: Result<seq<Byte>>)
    requires blockSize > 0
    ensures r == Unpad(b, blockSize)
  {
    if |b| == 0 || |b| % blockSize != 0 {
      return Err(BadPaddingSize);
    }
    var pad: int := b[|b| - 1];
    if pad == 0 || pad > blockSize || pad > |b| {
      return Err(BadPadding);
    }
    for i := |b| - pad to |b|
      invariant forall k :: |b| - pad <= k < i ==> b[k] == pad
    {
      if b[i] != pad {
        return Err(BadPadding);
      }
    }
    return Ok(b[..|b| - pad]);
  }

  // ---------------------------------------------------------------------------
  // What Split accepts.
  // ---------------------------------------------------------------------------

  function Frame(random: seq<Byte>, msg: seq<Byte>, corpID: seq<Byte>, tail: seq<Byte>): seq<Byte>
    requires |msg| < 0x1_0000_0000
  {
    random + PutUint32(|msg|) + msg + corpID + tail
  }

  /**
   The last byte tells the length of the tail. Without a tail it is the last byte of the corp ID, which
   must then be zero or too large to be a length.
   */
  predicate TailFits(corpID: seq<Byte>, tail: seq<Byte>) {
    corpID != [] &&
    if tail == [] then corpID[|corpID| - 1] == 0 || corpID[|corpID| - 1] > |corpID| else tail[|tail| - 1] == |tail|
  }

  lemma {:induction false} Uint32RoundTrip(n: nat)
    requires n < 0x1_0000_0000
    ensures Uint32(PutUint32(n)) == n
  {
    Digit(n);
    Digit(n / 256);
    Digit(n / 0x1_0000);
    assert n / 256 / 256 == n / 0x1_0000;
    assert n / 0x1_0000 / 256 == n / 0x100_0000;
  }

  lemma {:induction false} Digit(n: nat)
    ensures n == n / 256 * 256 + n % 256
  {
  }

  lemma {:induction false} Uint32Injective(a: seq<Byte>, b: seq<Byte>)
    requires |a| == |b| == 4 && Uint32(a) == Uint32(b)
    ensures a == b
  {
    var x, y := a[0] as int * 256 + a[1], b[0] as int * 256 + b[1];
    LastDigit(x * 256 + a[2], a[3], y * 256 + b[2], b[3]);
    LastDigit(x, a[2], y, b[2]);
    LastDigit(a[0], a[1], b[0], b[1]);
  }

  lemma {:induction false} LastDigit(x: nat, c: Byte, y: nat, d: Byte)
    requires x * 256 + c == y * 256 + d
    ensures x == y && c == d
  {
  }

  lemma {:induction false} FrameParts(random: seq<Byte>, msg: seq<Byte>, corpID: seq<Byte>, tail: seq<Byte>)
    requires |random| == 16 && |msg| < 0x1_0000_0000
    ensures var plain := Frame(random, msg, corpID, tail);
      && |plain| == 20 + |msg| + |corpID| + |tail|
      && plain[16..20] == PutUint32(|msg|)
      && plain[20..20 + |msg|] == msg
      && plain[20 + |msg|..20 + |msg| + |corpID|] == corpID
      && (corpID != [] || tail != [] ==>
            plain[|plain| - 1] == if tail == [] then corpID[|corpID| - 1] else tail[|tail| - 1])
  {
  }

  /** Round trip: a well-formed frame gives back its message. */
  lemma {:induction false} FrameAccepted(random: seq<Byte>, msg: seq<Byte>, corpID: seq<Byte>, tail: seq<Byte>)
    requires |random| == 16 && |msg| < 0x1_0000_0000 && TailFits(corpID, tail)
    ensures Split(Frame(random, msg, corpID, tail), corpID) == Ok(msg)
  {
    FrameParts(random, msg, corpID, tail);
    Uint32RoundTrip(|msg|);
  }

  function Pad(n: Byte, count: nat): (tail: seq<Byte>)
    ensures |tail| == count && forall i :: 0 <= i < count ==> tail[i] == n
  {
    if count == 0 then [] else Pad(n, count - 1) + [n]
  }

  /** In particular with n padding bytes of value n, for every n a byte can hold, not only for 1 to 32. */
  lemma {:induction false} PaddedFrameAccepted(random: seq<Byte>, msg: seq<Byte>, corpID: seq<Byte>, n: Byte)
    requires |random| == 16 && |msg| < 0x1_0000_0000 && corpID != [] && n > 0
    ensures Split(Frame(random, msg, corpID, Pad(n, n)), corpID) == Ok(msg)
  {
    FrameAccepted(random, msg, corpID, Pad(n, n));
  }

  /** And nothing else is accepted: whatever Split takes is such a frame. */
  lemma {:induction false} AcceptedIsFrame(plain: seq<Byte>, corpID: seq<Byte>)
    returns (random: seq<Byte>, tail: seq<Byte>)
    requires Split(plain, corpID).Ok?
    ensures var msg := Split(plain, corpID).value;
      |random| == 16 && |msg| < 0x1_0000_0000 && TailFits(corpID, tail) && plain == Frame(random, msg, corpID, tail)
  {
    var n := Uint32(plain[16..20]);
    Uint32RoundTrip(n);
    Uint32Injective(plain[16..20], PutUint32(n));
    var msgEnd := 20 + n;
    var corpIDEnd := msgEnd + |corpID|;
    random, tail := plain[..16], plain[corpIDEnd..];
    Reassemble(plain, msgEnd, corpIDEnd);
  }

  lemma {:induction false} Reassemble(plain: seq<Byte>, msgEnd: nat, corpIDEnd: nat)
    requires 20 <= msgEnd <= corpIDEnd <= |plain|
    ensures plain == plain[..16] + plain[16..20] + plain[20..msgEnd] + plain[msgEnd..corpIDEnd] + plain[corpIDEnd..]
  {
  }

  // ---------------------------------------------------------------------------
  // The strict reading: remove the padding first.
  // ---------------------------------------------------------------------------

  predicate ProperlyPadded(body: seq<Byte>, tail: seq<Byte>, blockSize: nat)
    requires 0 < blockSize < 256
  {
    |body + tail| % blockSize == 0 && 1 <= |tail| <= blockSize && tail == Pad(|tail|, |tail|)
  }

  lemma {:induction false} UnpadRemovesPadding(body: seq<Byte>, tail: seq<Byte>, blockSize: nat)
    requires 0 < blockSize < 256 && ProperlyPadded(body, tail, blockSize)
    ensures Unpad(body + tail, blockSize) == Ok(body)
  {
    var b, n := body + tail, |body|;
    assert b[|b| - 1] == tail[|tail| - 1];
    assert forall i :: n <= i < |b| ==> b[i] == tail[i - n];
    assert b[..n] == body;
  }

  lemma {:induction false} UnpaddedWasPadded(b: seq<Byte>, blockSize: nat)
    requires 0 < blockSize < 256 && Unpad(b, blockSize).Ok?
    ensures var body := Unpad(b, blockSize).value;
      && body <= b && ProperlyPadded(body, b[|body|..], blockSize)
  {
    var body := Unpad(b, blockSize).value;
    var tail := b[|body|..];
    assert body + tail == b;
    assert forall i :: 0 <= i < |tail| ==> tail[i] == b[|body| + i];
  }

  /** Unpad says yes exactly to a whole number of blocks ending in n bytes of value n, 1 <= n <= blockSize. */
  lemma {:induction false} UnpadIff(body: seq<Byte>, tail: seq<Byte>, blockSize: nat)
    requires 0 < blockSize < 256
    ensures Unpad(body + tail, blockSize) == Ok(body) <==> ProperlyPadded(body, tail, blockSize)
  {
    if ProperlyPadded(body, tail, blockSize) {
      UnpadRemovesPadding(body, tail, blockSize);
    }
    if Unpad(body + tail, blockSize) == Ok(body) {
      UnpaddedWasPadded(body + tail, blockSize);
      assert (body + tail)[|body|..] == tail;
    }
  }

  function StrictSplit(plain: seq<Byte>, corpID: seq<Byte>): Result<seq<Byte>> {
    match Unpad(plain, 32)
    case Err(e) => Err(e)
    case Ok(body) =>
      if |body| < 20 then Err(TooShort)
      else
        var msgEnd := 20 + Uint32(body[16..20]);
        if msgEnd > |body| then Err(BadMsgLength)
        else if body[msgEnd..] != corpID then Err(CorpIDMismatch)
        else Ok(body[20..msgEnd])
  }

  /** Every frame the strict reading accepts, the code accepts with the same message. */
  lemma {:induction false} StrictIsAccepted(plain: seq<Byte>, corpID: seq<Byte>)
    requires corpID != [] && StrictSplit(plain, corpID).Ok?
    ensures Split(plain, corpID) == StrictSplit(plain, corpID)
  {
    var body := Unpad(plain, 32).value;
    var pad: int := plain[|plain| - 1];
    assert body == plain[..|plain| - pad];
    assert body[16..20] == plain[16..20];
    var msgEnd := 20 + Uint32(plain[16..20]);
    assert body[msgEnd..] == plain[msgEnd..|plain| - pad];
    assert body[20..msgEnd] == plain[20..msgEnd];
  }

  /** Of the frames the code accepts, the strict reading accepts exactly the properly padded ones. */
  lemma {:induction false} StrictIffPadded(random: seq<Byte>, msg: seq<Byte>, corpID: seq<Byte>, tail: seq<Byte>)
    requires |random| == 16 && |msg| < 0x1_0000_0000 && TailFits(corpID, tail)
    ensures var plain, body := Frame(random, msg, corpID, tail), Frame(random, msg, corpID, []);
      StrictSplit(plain, corpID) == Ok(msg) <==> ProperlyPadded(body, tail, 32)
  {
    var plain, body := Frame(random, msg, corpID, tail), Frame(random, msg, corpID, []);
    assert body + tail == plain;
    FrameParts(random, msg, corpID, tail);
    FrameParts(random, msg, corpID, []);
    Uint32RoundTrip(|msg|);
    UnpadIff(body, tail, 32);
    if StrictSplit(plain, corpID) == Ok(msg) {
      var stripped := Unpad(plain, 32).value;
      assert stripped[16..20] == plain[16..20];
      assert |stripped| == 20 + |msg| + |corpID| == |body|;
      assert stripped == plain[..|body|] == body;
    }
    assert body[20 + |msg|..] == corpID;
  }

  /** A frame whose padding is wrong but for its last byte is accepted all the same. */
  lemma {:induction false} LooseFrameAccepted(random: seq<Byte>, msg: seq<Byte>, corpID: seq<Byte>)
    requires |random| == 16 && |msg| < 0x1_0000_0000 && corpID != []
    ensures var plain := Frame(random, msg, corpID, [0, 2]);
      Split(plain, corpID) == Ok(msg) && StrictSplit(plain, corpID).Err?
  {
    var plain := Frame(random, msg, corpID, [0, 2]);
    FrameAccepted(random, msg, corpID, [0, 2]);
    FrameParts(random, msg, corpID, [0, 2]);
    assert plain[|plain| - 2] == [0, 2][0];
  }
}

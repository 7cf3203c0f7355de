/** One-time passwords for the second login factor: the HOTP counter
    encoding and dynamic truncation of RFC 4226 section 5.3, the TOTP time
    counter of RFC 6238 section 4.2, the verification window, and the
    presence test for secrets. The keyed hash is a parameter `hmac`
    (key, message) to digest, and the clock is the parameter `now`
    (milliseconds). */
module Otp {
  import opened Common
  import Base32

  /** HMAC under some hash: key and message to digest. */
  type Hmac = (seq<Byte>, seq<Byte>) -> seq<Byte>

  function Pow256(n: nat): (r: nat)
    ensures r >= 1
  {
    if n == 0 then 1 else 256 * Pow256(n - 1)
  }

  // ---------------------------------------------------------------------
  // Counter encoding
  // ---------------------------------------------------------------------

  /** The low `n` bytes of `c` in two's complement, most significant first.
      On BigInt, `& 0xffn` is the non-negative remainder by 256 and `>>= 8n`
      the floor of the quotient, which are Dafny's `%` and `/` by 256. */
  function LowBytes(c: int, n: nat): (r: seq<Byte>)
    ensures |r| == n
    decreases n
  {
    if n == 0 then [] else LowBytes(c / 256, n - 1) + [c % 256]
  }

  /** `c >> 8n`. */
  function Shift(c: int, n: nat): int
    decreases n
  {
    if n == 0 then c else Shift(c / 256, n - 1)
  }

  /** The number a big-endian byte string stands for. */
  function BigEndian(bs: seq<Byte>): nat {
    if bs == [] then 0 else 256 * BigEndian(bs[..|bs| - 1]) + bs[|bs| - 1]
  }

  /** Writing one more byte in front: the next byte is the low byte of the
      value shifted so far. */
  lemma {:induction false} LowBytesStep(c: int, j: nat)
    ensures LowBytes(c, j + 1) == [Shift(c, j) % 256] + LowBytes(c, j)
    ensures Shift(c, j + 1) == Shift(c, j) / 256
    decreases j
  {
    if j > 0 {
      LowBytesStep(c / 256, j - 1);
    }
  }

  /** The eight-byte message the counter is written into. */
  method CounterMessage(counter: int) returns (msg: array<Byte>)
    ensures fresh(msg) && msg[..] == LowBytes(counter, 8)
  {
    msg := new Byte[8](_ => 0);
    var tmp := counter;
    var i := 7;
    while i >= 0
      invariant -1 <= i <= 7
      invariant tmp == Shift(counter, 7 - i)
      invariant msg[i + 1..] == LowBytes(counter, 7 - i)
    {
      LowBytesStep(counter, 7 - i);
      msg[i] := tmp % 256;
      tmp := tmp / 256;
      i := i - 1;
    }
  }

  /** If c = q*d + m with 0 <= m < d, then m is c mod d. */
  lemma ModUnique(c: int, d: nat, q: int, m: int)
    requires d > 0 && c == q * d + m && 0 <= m < d
    ensures c % d == m && c / d == q
  {
    var k := q - c / d;
    assert k * d == c % d - m;
    if k >= 1 {
      MulAtLeast(k, d);
    } else if k <= -1 {
      MulAtLeast(-k, d);
    }
  }

  lemma MulAtLeast(k: int, d: nat)
    requires k >= 1
    ensures k * d >= d
  {
    assert k * d == (k - 1) * d + d;
  }

  lemma ModSplit(c: int, p: nat)
    requires p >= 1
    ensures 256 * ((c / 256) % p) + c % 256 == c % (256 * p)
  {
    var q := c / 256;
    var a := q / p;
    var b := q % p;
    assert c == 256 * q + c % 256;
    assert q == a * p + b;
    assert c == a * (256 * p) + (256 * b + c % 256);
    ModUnique(c, 256 * p, a, 256 * b + c % 256);
  }

  /** The bytes written are the counter modulo 256^n, big-endian. */
  lemma {:induction false} LowBytesValue(c: int, n: nat)
    ensures BigEndian(LowBytes(c, n)) == c % Pow256(n)
    decreases n
  {
    if n > 0 {
      var r := LowBytes(c, n);
      assert r[..n - 1] == LowBytes(c / 256, n - 1);
      LowBytesValue(c / 256, n - 1);
      ModSplit(c, Pow256(n - 1));
    }
  }

  /** A counter below 2^64 is written exactly, as eight big-endian bytes. */
  lemma CounterMessageValue(c: int)
    requires 0 <= c < Pow256(8)
    ensures BigEndian(LowBytes(c, 8)) == c
  {
    LowBytesValue(c, 8);
  }

  // ---------------------------------------------------------------------
  // Dynamic truncation
  // ---------------------------------------------------------------------

  /** `h[i]` inside a bitwise expression: a position past the end reads as
      `undefined`, which the operators turn into 0. */
  function ByteAt(h: seq<Byte>, i: int): Byte {
    if 0 <= i < |h| then h[i] else 0
  }

  /** The low four bits of the last byte. */
  function Offset(h: seq<Byte>): nat {
    ByteAt(h, |h| - 1) % 16
  }

  /** The four bytes at the offset, read big-endian with the top bit of the
      first cleared. The four shifted fields do not overlap, so the `|`s
      add them. */
  function Code(h: seq<Byte>): nat {
    var o := Offset(h);
    (ByteAt(h, o) % 128) * 0x100_0000 + ByteAt(h, o + 1) * 0x1_0000 + ByteAt(h, o + 2) * 0x100 + ByteAt(h, o + 3)
  }

  /** The code as text: `code % 10 ** digits`, left-padded with "0" to
      `digits` characters. */
  function Truncate(h: seq<Byte>, digits: nat): string {
    PadStart(NatToString(Code(h) % Pow10(digits)), digits, '0')
  }

  /** The offset picks one of the first sixteen positions, and the code is
      the 31-bit big-endian number found there. */
  lemma CodeShape(h: seq<Byte>)
    ensures Offset(h) < 16
    ensures Code(h) < 0x8000_0000
    ensures Code(h) == BigEndian([ByteAt(h, Offset(h)) % 128, ByteAt(h, Offset(h) + 1), ByteAt(h, Offset(h) + 2), ByteAt(h, Offset(h) + 3)])
  {
    var o := Offset(h);
    var bs := [ByteAt(h, o) % 128, ByteAt(h, o + 1), ByteAt(h, o + 2), ByteAt(h, o + 3)];
    assert BigEndian(bs[..1]) == bs[0] by {
      assert bs[..1][..0] == [];
    }
    assert BigEndian(bs[..2]) == 256 * bs[0] + bs[1] by {
      assert bs[..2][..1] == bs[..1];
    }
    assert BigEndian(bs[..3]) == 256 * (256 * bs[0] + bs[1]) + bs[2] by {
      assert bs[..3][..2] == bs[..2];
    }
    assert bs[..4] == bs;
  }

  /** For at least one digit, the password has exactly `digits` decimal
      digits and stands for the code modulo 10^digits. */
  lemma TruncateShape(h: seq<Byte>, digits: nat)
    requires digits >= 1
    ensures |Truncate(h, digits)| == digits
    ensures AllDigits(Truncate(h, digits))
    ensures DecimalValue(Truncate(h, digits)) == Code(h) % Pow10(digits)
  {
    var v := Code(h) % Pow10(digits);
    var n := NatToString(v);
    NatToStringLength(v, digits);
    NatToStringValue(v);
    if |n| < digits {
      DecimalLeadingZeros(digits - |n|, n);
    }
  }

  /** `hotp(secret, counter, digits)` as a value. */
  function HotpValue(hmac: Hmac, secret: Option<string>, counter: int, digits: nat): string {
    Truncate(hmac(Base32.Decode(secret), LowBytes(counter, 8)), digits)
  }

  method Hotp(hmac: Hmac, secret: Option<string>, counter: int, digits: nat) returns (str: string)
    ensures str == HotpValue(hmac, secret, counter, digits)
  {
    var key := Base32.Base32Decode(secret);
    var msg := CounterMessage(counter);
    var h := hmac(key, msg[..]);
    str := Truncate(h, digits);
  }

  // ---------------------------------------------------------------------
  // Time steps and verification
  // ---------------------------------------------------------------------

  /** `Math.floor(epoch / 1000 / period)`: the number of whole periods
      since the Unix epoch. */
  function TotpCounter(epoch: int, period: nat): int
    requires period >= 1
  {
    epoch / (1000 * period)
  }

  /** The counter is the period that contains the instant. */
  lemma TotpCounterFloor(epoch: int, period: nat)
    requires period >= 1
    ensures TotpCounter(epoch, period) * (1000 * period) <= epoch < (TotpCounter(epoch, period) + 1) * (1000 * period)
  {
  }

  /** Instants in the same period give the same counter. */
  lemma TotpCounterOfPeriod(k: int, r: nat, period: nat)
    requires period >= 1 && r < 1000 * period
    ensures TotpCounter(k * (1000 * period) + r, period) == k
  {
    ModUnique(k * (1000 * period) + r, 1000 * period, k, r);
  }

  method Totp(hmac: Hmac, secret: Option<string>, period: nat, digits: nat, epoch: int) returns (str: string)
    requires period >= 1
    ensures str == HotpValue(hmac, secret, TotpCounter(epoch, period), digits)
  {
    var counter := TotpCounter(epoch, period);
    str := Hotp(hmac, secret, counter, digits);
  }

  /** `now + w * period * 1000`: the instant `w` periods away from `now`. */
  function StepTime(now: int, w: int, period: nat): int {
    now + w * period * 1000
  }

  /** The token matches the password of the time step `w` periods away
      from `now`. */
  predicate Matches(hmac: Hmac, secret: Option<string>, tok: string, period: nat, digits: nat, now: int, w: int)
    requires period >= 1
  {
    HotpValue(hmac, secret, TotpCounter(StepTime(now, w, period), period), digits) == tok
  }

  /** `verifyTotp`: false for a missing or empty secret or token, or for a
      trimmed token of the wrong length; otherwise true exactly when the
      token matches some step in [-window, window]. The comparison of the
      two UTF-8 encodings is equality of the strings, a length mismatch
      being caught as unequal. */
  method VerifyTotp(hmac: Hmac, secret: Option<string>, token: Option<string>, window: int, period: nat, digits: nat, now: int)
    returns (ok: bool)
    requires period >= 1
    ensures ok <==> (Truthy(secret) && Truthy(token) && |Trim(token.value)| == digits &&
                     InWindow(hmac, secret, Trim(token.value), window, period, digits, now))
  {
    if !Truthy(secret) || !Truthy(token) {
      return false;
    }
    var tok := Trim(token.value);
    if |tok| != digits {
      return false;
    }
    ok := ScanWindow(hmac, secret, tok, window, period, digits, now);
  }

  /** The window loop of `verifyTotp`, from -window up to window, stopping
      at the first step whose password equals the token. */
  method ScanWindow(hmac: Hmac, secret: Option<string>, tok: string, window: int, period: nat, digits: nat, now: int)
    returns (found: bool)
    requires period >= 1
    ensures found <==> InWindow(hmac, secret, tok, window, period, digits, now)
  {
    var w := -window;
    while w <= window
      invariant -window <= w
      invariant forall v :: -window <= v < w ==> !Matches(hmac, secret, tok, period, digits, now, v)
    {
      var t := StepTime(now, w, period);
      var expected := Totp(hmac, secret, period, digits, t);
      StepOutcome(hmac, secret, tok, period, digits, now, w, t, expected);
      if expected == tok {
        FoundInWindow(hmac, secret, tok, window, period, digits, now, w);
        return true;
      }
      NoMatchExtends(hmac, secret, tok, period, digits, now, -window, w);
      w := w + 1;
    }
    NoneInWindow(hmac, secret, tok, window, period, digits, now, w);
    return false;
  }

  /** A step matches exactly when its password equals the token. */
  lemma StepOutcome(hmac: Hmac, secret: Option<string>, tok: string, period: nat, digits: nat, now: int, w: int, t: int, expected: string)
    requires period >= 1 && t == StepTime(now, w, period)
    requires expected == HotpValue(hmac, secret, TotpCounter(t, period), digits)
    ensures Matches(hmac, secret, tok, period, digits, now, w) <==> expected == tok
  {
  }

  lemma FoundInWindow(hmac: Hmac, secret: Option<string>, tok: string, window: int, period: nat, digits: nat, now: int, w: int)
    requires period >= 1 && -window <= w <= window
    requires Matches(hmac, secret, tok, period, digits, now, w)
    ensures InWindow(hmac, secret, tok, window, period, digits, now)
  {
  }

  lemma NoMatchExtends(hmac: Hmac, secret: Option<string>, tok: string, period: nat, digits: nat, now: int, lo: int, w: int)
    requires period >= 1
    requires forall v :: lo <= v < w ==> !Matches(hmac, secret, tok, period, digits, now, v)
    requires !Matches(hmac, secret, tok, period, digits, now, w)
    ensures forall v :: lo <= v < w + 1 ==> !Matches(hmac, secret, tok, period, digits, now, v)
  {
  }

  lemma NoneInWindow(hmac: Hmac, secret: Option<string>, tok: string, window: int, period: nat, digits: nat, now: int, w: int)
    requires period >= 1 && window < w
    requires forall v :: -window <= v < w ==> !Matches(hmac, secret, tok, period, digits, now, v)
    ensures !InWindow(hmac, secret, tok, window, period, digits, now)
  {
  }

  /** Some step in [-window, window] matches. */
  predicate InWindow(hmac: Hmac, secret: Option<string>, tok: string, window: int, period: nat, digits: nat, now: int)
    requires period >= 1
  {
    exists w :: -window <= w <= window && Matches(hmac, secret, tok, period, digits, now, w)
  }

  /** A token that matches the current step is accepted whenever the window
      is not negative. */
  lemma CurrentStepAccepted(hmac: Hmac, secret: string, token: string, window: int, period: nat, now: int)
    requires period >= 1 && window >= 0 && secret != [] && Trim(token) != []
    requires Matches(hmac, Some(secret), Trim(token), period, |Trim(token)|, now, 0)
    ensures Truthy(Some(token))
    ensures InWindow(hmac, Some(secret), Trim(token), window, period, |Trim(token)|, now)
  {
  }

  // ---------------------------------------------------------------------
  // Presence of a stored secret
  // ---------------------------------------------------------------------

  /** The JavaScript values `hasNonEmpty` distinguishes. */
  datatype JsValue =
    | Null
    | Undefined
    | Buffer(bytes: seq<Byte>)
    | View(byteLength: nat)
    | Str(s: string)
    | Other

  /** `hasNonEmpty`: nothing for null and undefined, a byte in a buffer or
      typed view, a non-whitespace character in a string, and anything
      else counts. */
  function HasNonEmpty(v: JsValue): (r: bool)
    ensures (v.Null? || v.Undefined?) ==> !r
    ensures v.Buffer? ==> (r <==> v.bytes != [])
    ensures v.View? ==> (r <==> v.byteLength > 0)
    ensures v.Str? ==> (r <==> exists i :: 0 <= i < |v.s| && !IsJsSpace(v.s[i]))
    ensures v.Other? ==> r
  {
    match v
    case Null => false
    case Undefined => false
    case Buffer(bytes) => |bytes| > 0
    case View(n) => n > 0
    case Str(s) => TrimEmpty(s); |Trim(s)| > 0
    case Other => true
  }
}

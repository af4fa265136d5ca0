/**
 * Request IDs (request_id.go): a random six-character prefix chosen once
 * at start-up, followed by a per-middleware counter printed as ten
 * zero-padded decimal digits.
 *
 * The cryptographic random source is an oracle: `draw(i)` is what the i-th
 * call of rand.Int(rand.Reader, 62) inside one randomString call returns.
 */
module RequestId {
  import opened Optional
  import opened GoContext
  import opened Http

  const Uppers: string := seq(26, i requires 0 <= i < 26 => ('A' as int + i) as char)
  const Lowers: string := seq(26, i requires 0 <= i < 26 => ('a' as int + i) as char)
  const Digits: string := seq(10, i requires 0 <= i < 10 => ('0' as int + i) as char)

  /** The 62 characters randomString draws from, in the order Go lists them. */
  const Chars: string := Uppers + Lowers + Digits

  lemma CharsSpelledOut()
    ensures Uppers == "ABCDEFGHIJKLMNOPQRSTUVWXYZ"
    ensures Lowers == "abcdefghijklmnopqrstuvwxyz"
    ensures Digits == "0123456789"
  {
  }

  predicate IsDigit(c: char) {
    '0' <= c <= '9'
  }

  predicate IsAlnum(c: char) {
    ('A' <= c <= 'Z') || ('a' <= c <= 'z') || IsDigit(c)
  }

  /** An index rand.Int(rand.Reader, big.NewInt(62)) can return. */
  type CharIndex = i: int | 0 <= i < 62

  /** One call of the random source: an index, or the error it reported. */
  datatype Draw = Drawn(index: CharIndex) | Failed(err: string)

  type RandomSource = nat -> Draw

  lemma CharAt(i: CharIndex)
    ensures |Chars| == 62 && IsAlnum(Chars[i])
    ensures i < 26 ==> 'A' <= Chars[i] <= 'Z'
    ensures 26 <= i < 52 ==> 'a' <= Chars[i] <= 'z'
    ensures 52 <= i ==> IsDigit(Chars[i])
  {
  }

  /** The first n draws all succeeded. */
  ghost predicate AllDrawn(draw: RandomSource, n: nat) {
    forall i :: 0 <= i < n ==> draw(i).Drawn?
  }

  /** The position of the first failed draw among the first n. */
  ghost function FirstFailure(draw: RandomSource, n: nat): (k: nat)
    requires !AllDrawn(draw, n)
    ensures k < n && draw(k).Failed? && AllDrawn(draw, k)
  {
    if AllDrawn(draw, n - 1) then n - 1 else FirstFailure(draw, n - 1)
  }

  /** The string spelled by the first n draws when they all succeeded. */
  ghost function Spelled(draw: RandomSource, n: nat): (s: string)
    requires AllDrawn(draw, n)
    ensures |s| == n
    ensures forall i :: 0 <= i < n ==> s[i] == Chars[draw(i).index] && IsAlnum(s[i])
  {
    seq(n, i requires 0 <= i < n => CharAt(draw(i).index); Chars[draw(i).index])
  }

  const ErrInvalidLength := "invalid length"

  /**
   * randomString(length): length characters of Chars picked by the random
   * source, or "" and an error; a failing draw yields its error and never
   * part of a string.
   */
  method RandomString(length: int, draw: RandomSource) returns (s: string, err: Option<string>)
    ensures length <= 0 ==> s == "" && err == Some(ErrInvalidLength)
    ensures length > 0 && AllDrawn(draw, length) ==> s == Spelled(draw, length) && err == None
    ensures length > 0 && !AllDrawn(draw, length) ==>
              s == "" && err == Some(draw(FirstFailure(draw, length)).err)
  {
    if length <= 0 {
      return "", Some(ErrInvalidLength);
    }
    var result := new char[length];
    for i := 0 to length
      invariant AllDrawn(draw, i)
      invariant forall k :: 0 <= k < i ==> result[k] == Chars[draw(k).index]
    {
      match draw(i)
      case Failed(e) =>
        assert FirstFailure(draw, length) == i by {
          FirstFailureIsFirst(draw, length, i);
        }
        return "", Some(e);
      case Drawn(idx) =>
        result[i] := Chars[idx];
    }
    s, err := result[..], None;
  }

  lemma {:induction false} FirstFailureIsFirst(draw: RandomSource, n: nat, i: nat)
    requires i < n && AllDrawn(draw, i) && draw(i).Failed?
    ensures FirstFailure(draw, n) == i
    decreases n
  {
    if n - 1 != i {
      FirstFailureIsFirst(draw, n - 1, i);
    }
  }

  const PrefixLength := 6

  /**
   * init(): reqIDPrefix, _ = randomString(6). The error is dropped, so a
   * failing source leaves the prefix empty.
   */
  method InitPrefix(draw: RandomSource) returns (prefix: string)
    ensures AllDrawn(draw, PrefixLength) ==> |prefix| == PrefixLength && prefix == Spelled(draw, PrefixLength)
    ensures !AllDrawn(draw, PrefixLength) ==> prefix == ""
  {
    var err;
    prefix, err := RandomString(PrefixLength, draw);
  }

  /** Go's uint32. */
  type Uint32 = x: int | 0 <= x < 0x1_0000_0000

  const CounterDigits := 10

  function DigitChar(d: int): (c: char)
    requires 0 <= d < 10
    ensures IsDigit(c) && c as int - '0' as int == d
  {
    ('0' as int + d) as char
  }

  /** The decimal numeral of n, without leading zeros. */
  function Decimal(n: nat): (s: string)
    ensures |s| >= 1
    ensures forall i :: 0 <= i < |s| ==> IsDigit(s[i])
  {
    if n < 10 then [DigitChar(n)] else Decimal(n / 10) + [DigitChar(n % 10)]
  }

  function DigitValue(c: char): (d: nat)
    requires IsDigit(c)
    ensures d < 10 && DigitChar(d) == c
  {
    c as int - '0' as int
  }

  /** The value of a numeral (the inverse used to read a request ID back). */
  function ParseDecimal(s: string): nat
    requires forall i :: 0 <= i < |s| ==> IsDigit(s[i])
  {
    if s == [] then 0
    else ParseDecimal(s[..|s| - 1]) * 10 + DigitValue(s[|s| - 1])
  }

  function Pow10(k: nat): (p: nat)
    ensures p >= 1
  {
    if k == 0 then 1 else 10 * Pow10(k - 1)
  }

  function Zeros(k: nat): (z: string)
    ensures |z| == k && forall i :: 0 <= i < k ==> z[i] == '0'
  {
    seq(k, i => '0')
  }

  /** fmt's "%0*d" on a numeral: '0's on the left up to width; a longer numeral is left whole. */
  function ZeroPad(s: string, width: nat): (r: string)
    ensures |r| == if |s| >= width then |s| else width
  {
    if |s| >= width then s else Zeros(width - |s|) + s
  }

  lemma {:induction false} DecimalRoundTrip(n: nat)
    ensures ParseDecimal(Decimal(n)) == n
  {
    if n >= 10 {
      var s := Decimal(n);
      assert s[..|s| - 1] == Decimal(n / 10);
      DecimalRoundTrip(n / 10);
    }
  }

  lemma {:induction false} DecimalLength(n: nat, k: nat)
    requires k >= 1 && n < Pow10(k)
    ensures |Decimal(n)| <= k
  {
    if n >= 10 {
      assert Pow10(1) == 10;
      assert k >= 2;
      assert n / 10 < Pow10(k - 1);
      DecimalLength(n / 10, k - 1);
    }
  }

  /** Leading zeros do not change the value of a numeral. */
  lemma {:induction false} ParseLeadingZeros(k: nat, s: string)
    requires forall i :: 0 <= i < |s| ==> IsDigit(s[i])
    ensures ParseDecimal(Zeros(k) + s) == ParseDecimal(s)
    decreases |s|
  {
    var t := Zeros(k) + s;
    if s == [] {
      assert t == Zeros(k);
      ParseZeros(k);
    } else {
      assert t[..|t| - 1] == Zeros(k) + s[..|s| - 1];
      ParseLeadingZeros(k, s[..|s| - 1]);
    }
  }

  lemma {:induction false} ParseZeros(k: nat)
    ensures ParseDecimal(Zeros(k)) == 0
  {
    if k > 0 {
      assert Zeros(k)[..k - 1] == Zeros(k - 1);
      ParseZeros(k - 1);
    }
  }

  /**
   * generateRequestID(counter): fmt.Sprintf("%s%010d", prefix, counter).
   * A uint32 has at most ten digits, so the suffix is always exactly ten
   * digits, and reading it back gives the counter.
   */
  function GenerateRequestID(prefix: string, counter: Uint32): (id: string)
    ensures |id| == |prefix| + CounterDigits
  {
    DecimalFits(counter);
    prefix + ZeroPad(Decimal(counter), CounterDigits)
  }

  lemma DecimalFits(counter: Uint32)
    ensures |Decimal(counter)| <= CounterDigits
  {
    assert Pow10(CounterDigits) == 10000000000;
    DecimalLength(counter, CounterDigits);
  }

  /** The ID is the prefix followed by ten digits that read back as the counter. */
  lemma GenerateRequestIDParses(prefix: string, counter: Uint32)
    ensures var id := GenerateRequestID(prefix, counter);
            && id[..|prefix|] == prefix
            && (forall i :: |prefix| <= i < |id| ==> IsDigit(id[i]))
            && ParseDecimal(id[|prefix|..]) == counter
  {
    var numeral := Decimal(counter);
    DecimalFits(counter);
    DecimalRoundTrip(counter);
    ParseLeadingZeros(CounterDigits - |numeral|, numeral);
    var id := GenerateRequestID(prefix, counter);
    assert id[|prefix|..] == Zeros(CounterDigits - |numeral|) + numeral;
  }

  /** Different counter values give different IDs under one prefix. */
  lemma GenerateRequestIDInjective(prefix: string, a: Uint32, b: Uint32)
    requires GenerateRequestID(prefix, a) == GenerateRequestID(prefix, b)
    ensures a == b
  {
    GenerateRequestIDParses(prefix, a);
    GenerateRequestIDParses(prefix, b);
  }

  /** ^[A-Za-z0-9]{6}[0-9]{10}$ */
  predicate WellFormedId(id: string) {
    && |id| == PrefixLength + CounterDigits
    && (forall i :: 0 <= i < PrefixLength ==> IsAlnum(id[i]))
    && (forall i :: PrefixLength <= i < |id| ==> IsDigit(id[i]))
  }

  /** With the prefix init produces on success, every ID is 16 characters of the documented shape. */
  lemma IdFormat(draw: RandomSource, counter: Uint32)
    requires AllDrawn(draw, PrefixLength)
    ensures WellFormedId(GenerateRequestID(Spelled(draw, PrefixLength), counter))
  {
    var prefix := Spelled(draw, PrefixLength);
    var id := GenerateRequestID(prefix, counter);
    GenerateRequestIDParses(prefix, counter);
    forall i | 0 <= i < PrefixLength ensures IsAlnum(id[i]) {
      assert id[i] == id[..|prefix|][i];
    }
  }

  /** The ID the n-th request through one AddRequestID middleware receives (n counted from 1). */
  function RequestIdFor(prefix: string, n: nat): (id: string)
    ensures |id| == |prefix| + CounterDigits && id[..|prefix|] == prefix
  {
    GenerateRequestID(prefix, n % 0x1_0000_0000)
  }

  /** The first 2^32 - 1 requests through one middleware all get different IDs. */
  lemma IssuedDistinct(prefix: string, m: nat, n: nat)
    requires 1 <= m < n < 0x1_0000_0000
    ensures RequestIdFor(prefix, m) != RequestIdFor(prefix, n)
  {
    var a, b := GenerateRequestID(prefix, m), GenerateRequestID(prefix, n);
    assert RequestIdFor(prefix, m) == a && RequestIdFor(prefix, n) == b;
    GenerateRequestIDParses(prefix, m);
    GenerateRequestIDParses(prefix, n);
    assert a[|prefix|..] != b[|prefix|..];
  }

  /** Request 2^32 + 1 wraps the counter round and repeats the ID of request 1. */
  lemma CounterWraps(prefix: string)
    ensures RequestIdFor(prefix, 0x1_0000_0000 + 1) == RequestIdFor(prefix, 1)
  {
  }

  /** The response header that carries the request ID. */
  const HeaderRequestId := "X-Request-ID"

  /** requestIDKey: the value 0 of type ctxKey. */
  const RequestIdKey := Key(CtxKeyType, 0)

  /** RequestIDFromContext: the stored string, or "" for a nil context, a missing key or a non-string value. */
  function RequestIDFromContext(ctx: Context): (id: string)
    ensures ctx.Nil? ==> id == ""
    ensures ctx.Ctx? && Lookup(ctx, RequestIdKey).None? ==> id == ""
    ensures ctx.Ctx? && Lookup(ctx, RequestIdKey).Some? && !Lookup(ctx, RequestIdKey).value.StringValue? ==> id == ""
  {
    if ctx.Nil? then ""
    else match Lookup(ctx, RequestIdKey)
      case Some(StringValue(s)) => s
      case _ => ""
  }

  /** What AddRequestID hands to the next handler: the request with its ID stored in the context. */
  function WithRequestId(r: Request, id: string): (next: Request)
    ensures next.ctx.Ctx?
  {
    r.WithContext(WithValue(r.Context(), RequestIdKey, StringValue(id)))
  }

  /** Storing an ID and reading it back gives the ID. */
  lemma RequestIdRoundTrip(r: Request, id: string)
    ensures RequestIDFromContext(WithRequestId(r, id).ctx) == id
  {
  }

  lemma CounterStep(n: nat, c: int)
    requires c == n % 0x1_0000_0000
    ensures (c + 1) % 0x1_0000_0000 == (n + 1) % 0x1_0000_0000
  {
  }

  /**
   * The handler returned by h.AddRequestID(next). Each call of AddRequestID
   * captures a counter of its own, starting at 0; the prefix is the one
   * init chose. `served` counts the requests handled so far.
   */
  class RequestIdMiddleware {
    const prefix: string
    var counter: Uint32
    ghost var served: nat

    ghost predicate Valid()
      reads this
    {
      counter == served % 0x1_0000_0000
    }

    /** h.AddRequestID(next) */
    constructor AddRequestID(prefix: string)
      ensures Valid()
      ensures this.prefix == prefix && counter == 0 && served == 0
    {
      this.prefix := prefix;
      counter := 0;
      served := 0;
    }

    /**
     * One request: step the counter (wrapping at 2^32), set X-Request-ID,
     * and return the request to pass to next, whose context carries the
     * same ID. The n-th request gets RequestIdFor(prefix, n).
     */
    method ServeHTTP(w: ResponseWriter, r: Request) returns (next: Request)
      requires Valid()
      modifies this, w
      ensures Valid()
      ensures served == old(served) + 1
      ensures counter == (old(counter) + 1) % 0x1_0000_0000
      ensures w.Snapshot() == WithHeader(old(w.Snapshot()), HeaderRequestId, RequestIdFor(prefix, served))
      ensures next == WithRequestId(r, RequestIdFor(prefix, served))
      ensures RequestIDFromContext(next.ctx) == Get(w.header, HeaderRequestId)
    {
      CounterStep(served, counter);
      counter := (counter + 1) % 0x1_0000_0000;
      served := served + 1;
      assert Valid();
      var requestID := GenerateRequestID(prefix, counter);
      w.SetHeader(HeaderRequestId, requestID);
      var ctx := WithValue(r.Context(), RequestIdKey, StringValue(requestID));
      next := r.WithContext(ctx);
      GetSet(old(w.header), HeaderRequestId, requestID);
      RequestIdRoundTrip(r, requestID);
    }
  }
}

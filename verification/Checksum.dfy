/** The Internet checksum of the boot loader's IPv6 stack: the ones' complement sum over 16-bit
    words, the UDP and ICMPv6 senders that write it into a packet buffer, and the receivers that
    test it. Words are read in the little-endian order of the host. */
module Checksums {

  type Byte = b: int | 0 <= b < 256

  const ETH_MTU := 1514
  const ETH_HDR_LEN := 14
  const IP6_HDR_LEN := 40
  const UDP_HDR_LEN := 8
  const HDR_UDP := 17
  const HDR_ICMP6 := 58
  const U32 := 0x1_0000_0000

  // ---------- sums ----------

  function Word(lo: Byte, hi: Byte): nat {
    lo as int + 256 * (hi as int)
  }

  /** The sum of the words; an odd last byte is a word of its own, with a zero high byte. */
  function WordSum(data: seq<Byte>): nat {
    if data == [] then 0
    else if |data| == 1 then data[0]
    else Word(data[0], data[1]) + WordSum(data[2..])
  }

  /** The ones' complement representative of a sum. */
  function Fold(x: nat): (r: nat)
    ensures r <= 0xFFFF
  {
    if x <= 0xFFFF then x else Fold(x - 0xFFFF)
  }

  /** It is the remainder modulo 0xFFFF, except that only zero itself is represented by zero. */
  lemma {:induction false} FoldIs(x: nat)
    ensures Fold(x) == if x == 0 then 0 else 1 + (x - 1) % 0xFFFF
  {
    if x > 0xFFFF { FoldIs(x - 0xFFFF); }
  }

  /** Addition of 16-bit words with the carry brought round, as RFC 1071 defines the sum. */
  function AddOnes(a: nat, b: nat): nat {
    if a + b > 0xFFFF then a + b - 0xFFFF else a + b
  }

  function OnesSum(data: seq<Byte>, sum: nat): nat {
    if data == [] then sum
    else if |data| == 1 then AddOnes(sum, data[0])
    else OnesSum(data[2..], AddOnes(sum, Word(data[0], data[1])))
  }

  lemma {:induction false} FoldAdd(a: nat, b: nat)
    ensures Fold(Fold(a) + b) == Fold(a + b)
  {
    if a > 0xFFFF { FoldAdd(a - 0xFFFF, b); }
  }

  lemma FoldWords(a: nat, b: nat)
    requires a <= 0xFFFF && b <= 0xFFFF
    ensures Fold(a + b) == AddOnes(a, b)
  {
  }

  /** Folding the whole sum once gives the sum with end-around carries. */
  lemma {:induction false} FoldIsOnesSum(data: seq<Byte>, sum: nat)
    requires sum <= 0xFFFF
    ensures Fold(sum + WordSum(data)) == OnesSum(data, sum)
  {
    if data == [] {
    } else if |data| == 1 {
      FoldWords(sum, data[0]);
    } else {
      var w := Word(data[0], data[1]);
      FoldWords(sum, w);
      FoldIsOnesSum(data[2..], AddOnes(sum, w));
      FoldAdd(sum + w, WordSum(data[2..]));
    }
  }

  lemma {:induction false} WordSumBound(data: seq<Byte>)
    ensures WordSum(data) <= 0xFFFF * ((|data| + 1) / 2)
  {
    if |data| > 1 { WordSumBound(data[2..]); }
  }

  /** Sums can be chained where the first part has an even length. */
  lemma {:induction false} WordSumConcat(a: seq<Byte>, b: seq<Byte>)
    requires |a| % 2 == 0
    ensures WordSum(a + b) == WordSum(a) + WordSum(b)
  {
    if a == [] {
      assert a + b == b;
    } else {
      WordSumConcat(a[2..], b);
      assert (a + b)[2..] == a[2..] + b;
    }
  }

  lemma ChainedSums(a: seq<Byte>, b: seq<Byte>, sum: nat)
    requires |a| % 2 == 0
    ensures Fold(Fold(sum + WordSum(a)) + WordSum(b)) == Fold(sum + WordSum(a + b))
  {
    WordSumConcat(a, b);
    FoldAdd(sum + WordSum(a), WordSum(b));
  }

  /** The checksum loop, on a 32-bit accumulator. For data up to 131072 bytes, which is far more
      than a packet, the accumulator cannot overflow and the result is the ones' complement sum. */
  method Checksum(data: seq<Byte>, start: nat) returns (r: nat)
    requires start <= 0xFFFF
    ensures r <= 0xFFFF
    ensures |data| <= 0x2_0000 ==> r == Fold(start + WordSum(data)) == OnesSum(data, start)
  {
    var sum := SumWords(data, start);
    r := FoldDown(sum);
    FoldIsOnesSum(data, start);
  }

  lemma SumFits(data: seq<Byte>, start: nat)
    requires start <= 0xFFFF && |data| <= 0x2_0000
    ensures start + WordSum(data) < U32
  {
    WordSumBound(data);
  }

  method SumWords(data: seq<Byte>, start: nat) returns (sum: nat)
    requires start <= 0xFFFF
    ensures sum < U32 && (|data| <= 0x2_0000 ==> sum == start + WordSum(data))
  {
    if |data| <= 0x2_0000 { SumFits(data, start); }
    ghost var total := start + WordSum(data);
    var i := 0;
    sum := start;
    assert data[0..] == data;
    while |data| - i > 1
      invariant i <= |data| && sum < U32
      invariant |data| <= 0x2_0000 ==> sum + WordSum(data[i..]) == total < U32
      decreases |data| - i
    {
      assert data[i..][2..] == data[i + 2..];
      sum := (sum + Word(data[i], data[i + 1])) % U32;
      i := i + 2;
    }
    if |data| - i > 0 {
      sum := (sum + data[i]) % U32;
    }
  }

  /** The carries are brought round until the sum fits into 16 bits. */
  method FoldDown(x: nat) returns (sum: nat)
    requires x < U32
    ensures sum == Fold(x)
  {
    sum := x;
    while sum > 0xFFFF
      invariant sum < U32 && Fold(sum) == Fold(x)
      decreases sum
    {
      HalvesFold(sum);
      sum := sum % 0x1_0000 + sum / 0x1_0000;
    }
    assert Fold(sum) == sum;
  }

  lemma HalvesFold(x: nat)
    ensures Fold(x % 0x1_0000 + x / 0x1_0000) == Fold(x)
  {
    assert x == 0x1_0000 * (x / 0x1_0000) + x % 0x1_0000;
    FoldTurns(x % 0x1_0000 + x / 0x1_0000, x / 0x1_0000);
  }

  lemma FoldTurns(y: nat, k: nat)
    requires y == 0 ==> k == 0
    ensures Fold(y + 0xFFFF * k) == Fold(y)
  {
    FoldIs(y);
    FoldIs(y + 0xFFFF * k);
  }

  // ---------- packets ----------

  /** The word at an even place. */
  function WordAt(data: seq<Byte>, at: nat): nat
    requires at + 2 <= |data|
  {
    Word(data[at], data[at + 1])
  }

  function SetWord(data: seq<Byte>, at: nat, w: nat): seq<Byte>
    requires at + 2 <= |data| && w <= 0xFFFF
  {
    data[at := w % 256][at + 1 := w / 256]
  }

  lemma SetWordSum(data: seq<Byte>, at: nat, w: nat)
    requires at + 2 <= |data| && at % 2 == 0 && w <= 0xFFFF
    ensures WordSum(SetWord(data, at, w)) + WordAt(data, at) == WordSum(data) + w
  {
    var a, b := data[..at], data[at + 2..];
    var d := SetWord(data, at, w);
    WordSumConcat(a, data[at..]);
    assert data == a + data[at..] && data[at..][2..] == b;
    WordSumConcat(a, d[at..]);
    assert d == a + d[at..] && d[at..][2..] == b;
  }

  /** A 16-bit number in network order, as a word of the host. */
  function Htons(n: nat): (r: nat)
    requires n <= 0xFFFF
    ensures r <= 0xFFFF
  {
    n / 256 + 256 * (n % 256)
  }

  /** What the sender stores: the complement of the sum, except that all ones stays. */
  function Complement(sum: nat): nat
    requires sum <= 0xFFFF
  {
    if sum != 0xFFFF then 0xFFFF - sum else sum
  }

  lemma ComplementLaw(x: nat)
    requires x > 0
    ensures var f, k := Fold(x), Complement(Fold(x));
            0 < f && 0 < k <= 0xFFFF && MinusOnes(x) == if k == 0xFFFF then 0 else k
  {
    FoldIs(x);
  }

  /** The body that the receiver sums: a stored all-ones checksum counts as zero. */
  function Cleared(body: seq<Byte>, at: nat): seq<Byte>
    requires at + 2 <= |body|
  {
    if WordAt(body, at) == 0xFFFF then SetWord(body, at, 0) else body
  }

  /** The receiver's test, given the sum over the pseudo-header's type and length: the checksum is
      not zero, and the sum is all ones. */
  predicate Passes(pseudo: nat, body: seq<Byte>, at: nat)
    requires at + 2 <= |body|
  {
    WordAt(body, at) != 0 && Fold(pseudo + WordSum(Cleared(body, at))) == 0xFFFF
  }

  /** A body that held the word c in its checksum field when the sum was taken, and then got the
      complement of the sum, is never sent with a checksum of zero, and passes the test if and
      only if c was zero or all ones. */
  lemma SealLaw(pseudo: nat, body: seq<Byte>, at: nat, k: nat)
    requires pseudo > 0 && at + 2 <= |body| && at % 2 == 0
    requires k == Complement(Fold(pseudo + WordSum(body)))
    ensures 0 < k <= 0xFFFF
    ensures Passes(pseudo, SetWord(body, at, k), at) <==> WordAt(body, at) == 0 || WordAt(body, at) == 0xFFFF
  {
    ComplementLaw(pseudo + WordSum(body));
    SealedSum(body, at, k);
    SealTotal(pseudo, body, at, k);
  }

  lemma SealTotal(pseudo: nat, body: seq<Byte>, at: nat, k: nat)
    requires pseudo > 0 && at + 2 <= |body| && at % 2 == 0 && 0 < k <= 0xFFFF
    requires (if k == 0xFFFF then 0 else k) == MinusOnes(pseudo + WordSum(body))
    ensures Fold(pseudo + WordSum(Cleared(SetWord(body, at, k), at))) == 0xFFFF
            <==> WordAt(body, at) == 0 || WordAt(body, at) == 0xFFFF
  {
    var sum, total := WordSum(body), WordSum(Cleared(SetWord(body, at, k), at));
    SealedSum(body, at, k);
    SealArithmetic(pseudo + sum, WordAt(body, at), pseudo + total, if k == 0xFFFF then 0 else k);
  }

  /** The ones' complement of a folded sum, with zero for all ones. */
  function MinusOnes(s: nat): nat {
    if Fold(s) == 0xFFFF then 0 else 0xFFFF - Fold(s)
  }

  /** For example: a message whose checksum field held one is rejected. */
  lemma SealFails(pseudo: nat, body: seq<Byte>, at: nat, k: nat)
    requires pseudo > 0 && at + 2 <= |body| && at % 2 == 0 && WordAt(body, at) == 1
    requires k == Complement(Fold(pseudo + WordSum(body)))
    ensures 0 < k <= 0xFFFF && !Passes(pseudo, SetWord(body, at, k), at)
  {
    SealLaw(pseudo, body, at, k);
  }

  /** The sum that the receiver takes, in terms of the one that the sender took. */
  lemma SealedSum(body: seq<Byte>, at: nat, k: nat)
    requires at + 2 <= |body| && at % 2 == 0 && k <= 0xFFFF
    ensures WordAt(SetWord(body, at, k), at) == k && WordAt(body, at) <= 0xFFFF
    ensures WordSum(Cleared(SetWord(body, at, k), at)) + WordAt(body, at) == WordSum(body) + if k == 0xFFFF then 0 else k
  {
    var sealed := SetWord(body, at, k);
    SetWordSum(body, at, k);
    assert WordAt(sealed, at) == k;
    SetWordSum(sealed, at, 0);
  }

  lemma SealArithmetic(s: nat, c: nat, total: nat, k': nat)
    requires s > 0 && total > 0 && c <= 0xFFFF && total + c == s + k'
    requires k' == MinusOnes(s)
    ensures Fold(total) == 0xFFFF <==> c == 0 || c == 0xFFFF
  {
    FoldIs(s);
    FoldIs(total);
    assert (s + k') % 0xFFFF == 0;
  }

  // ---------- senders and receivers ----------

  // Places in a packet buffer: two bytes of padding and the Ethernet header, then the IPv6 header.
  const LENGTH_AT := 20
  const SRC_AT := 24
  const DATA_AT := 56
  const UDP_LENGTH_AT := DATA_AT + 4
  const UDP_SUM_AT := DATA_AT + 6
  const ICMP6_SUM_AT := DATA_AT + 2
  const UDP6_MAX_PAYLOAD := ETH_MTU - ETH_HDR_LEN - IP6_HDR_LEN - UDP_HDR_LEN
  const ICMP6_MAX_PAYLOAD := ETH_MTU - ETH_HDR_LEN - IP6_HDR_LEN

  /** A 16-bit number as two bytes in network order. */
  function Net(n: nat): (b: seq<Byte>)
    requires n <= 0xFFFF
    ensures |b| == 2 && WordSum(b) == Htons(n) && 256 * (b[0] as int) + b[1] as int == n
  {
    assert [n % 256] == [n / 256, n % 256][1..];
    [n / 256, n % 256]
  }

  /** The ports and the length of a UDP header. */
  function UdpHeader(sport: nat, dport: nat, length: nat): (h: seq<Byte>)
    requires sport <= 0xFFFF && dport <= 0xFFFF && length <= 0xFFFF
    ensures |h| == 6 && FromNet(h[0], h[1]) == sport && FromNet(h[2], h[3]) == dport && FromNet(h[4], h[5]) == length
  {
    Net(sport) + Net(dport) + Net(length)
  }

  function FromNet(hi: Byte, lo: Byte): nat {
    256 * (hi as int) + lo as int
  }

  /** The sum over the type and length of the pseudo-header. */
  function Pseudo(p: seq<Byte>, type_: Byte): nat
    requires |p| >= DATA_AT
  {
    Htons(type_) + WordSum(p[LENGTH_AT..LENGTH_AT + 2])
  }

  /** The addresses and the payload. */
  function Body(p: seq<Byte>, length: nat): seq<Byte>
    requires DATA_AT + length <= |p|
  {
    p[SRC_AT..DATA_AT + length]
  }

  lemma PseudoPositive(p: seq<Byte>, type_: Byte, length: nat)
    requires type_ > 0 && DATA_AT + length <= |p|
    ensures Pseudo(p, type_) > 0 && |Body(p, length)| == 32 + length
  {
  }

  /** A copy into a buffer. */
  ghost predicate Stored(p: seq<Byte>, p': seq<Byte>, at: nat, bytes: seq<Byte>) {
    && |p| == |p'| && at + |bytes| <= |p|
    && forall i :: 0 <= i < |p| ==> p'[i] == if at <= i < at + |bytes| then bytes[i - at] else p[i]
  }

  method Put(p: array<Byte>, at: nat, bytes: seq<Byte>)
    requires at + |bytes| <= p.Length
    modifies p
    ensures Stored(old(p[..]), p[..], at, bytes)
  {
    forall i | 0 <= i < |bytes| { p[at + i] := bytes[i]; }
  }

  lemma StoredElsewhere(p: seq<Byte>, p': seq<Byte>, at: nat, bytes: seq<Byte>, lo: nat, hi: nat)
    requires Stored(p, p', at, bytes) && lo <= hi <= |p| && (hi <= at || at + |bytes| <= lo)
    ensures p'[lo..hi] == p[lo..hi]
  {
  }

  lemma StoredHere(p: seq<Byte>, p': seq<Byte>, at: nat, bytes: seq<Byte>, k: nat)
    requires Stored(p, p', at, bytes) && k <= |bytes|
    ensures p'[at..at + k] == bytes[..k]
  {
  }

  /** The fields of a UDP packet, its checksum aside. */
  ghost predicate UdpFields(p: seq<Byte>, header: seq<Byte>, data: seq<Byte>) {
    && DATA_AT + UDP_HDR_LEN + |data| <= |p| && |header| == 6
    && p[DATA_AT..UDP_SUM_AT] == header
    && p[DATA_AT + UDP_HDR_LEN..DATA_AT + UDP_HDR_LEN + |data|] == data
  }

  ghost predicate SameHeaders(p: seq<Byte>, p': seq<Byte>) {
    && DATA_AT <= |p| == |p'|
    && p'[LENGTH_AT..LENGTH_AT + 2] == p[LENGTH_AT..LENGTH_AT + 2] && p'[SRC_AT..DATA_AT] == p[SRC_AT..DATA_AT]
  }

  lemma HeadersKept(p: seq<Byte>, p': seq<Byte>, at: nat, bytes: seq<Byte>)
    requires Stored(p, p', at, bytes) && DATA_AT <= at
    ensures SameHeaders(p, p')
  {
    StoredElsewhere(p, p', at, bytes, LENGTH_AT, LENGTH_AT + 2);
    StoredElsewhere(p, p', at, bytes, SRC_AT, DATA_AT);
  }

  lemma UdpSealed(p: seq<Byte>, p': seq<Byte>, sum: seq<Byte>, header: seq<Byte>, data: seq<Byte>)
    requires UdpFields(p, header, data) && |sum| == 2 && Stored(p, p', UDP_SUM_AT, sum)
    ensures UdpFields(p', header, data)
  {
    StoredElsewhere(p, p', UDP_SUM_AT, sum, DATA_AT, UDP_SUM_AT);
    StoredElsewhere(p, p', UDP_SUM_AT, sum, DATA_AT + UDP_HDR_LEN, DATA_AT + UDP_HDR_LEN + |data|);
  }

  /** The header, with a checksum of zero, and the payload are stored. */
  method FillUdp(p: array<Byte>, header: seq<Byte>, data: seq<Byte>)
    requires |header| == 6 && DATA_AT + UDP_HDR_LEN + |data| <= p.Length
    modifies p
    ensures UdpFields(p[..], header, data) && SameHeaders(old(p[..]), p[..])
    ensures WordAt(Body(p[..], UDP_HDR_LEN + |data|), UDP_SUM_AT - SRC_AT) == 0
  {
    ghost var p0 := p[..];
    Put(p, DATA_AT, header + [0, 0]);
    ghost var p1 := p[..];
    StoredHere(p0, p1, DATA_AT, header + [0, 0], 6);
    assert (header + [0, 0])[..6] == header;
    assert p1[UDP_SUM_AT] == 0 && p1[UDP_SUM_AT + 1] == 0;
    HeadersKept(p0, p1, DATA_AT, header + [0, 0]);
    Put(p, DATA_AT + UDP_HDR_LEN, data);
    StoredHere(p1, p[..], DATA_AT + UDP_HDR_LEN, data, |data|);
    StoredElsewhere(p1, p[..], DATA_AT + UDP_HDR_LEN, data, DATA_AT, UDP_SUM_AT);
    HeadersKept(p1, p[..], DATA_AT + UDP_HDR_LEN, data);
  }

  lemma IcmpField(p0: seq<Byte>, p1: seq<Byte>, data: seq<Byte>)
    requires |data| >= 4 && Stored(p0, p1, DATA_AT, data)
    ensures WordAt(Body(p1, |data|), ICMP6_SUM_AT - SRC_AT) == WordAt(data, 2)
  {
  }

  /** An ICMPv6 packet after its message and checksum have been stored. */
  lemma IcmpLayout(p0: seq<Byte>, p1: seq<Byte>, p2: seq<Byte>, data: seq<Byte>, sum: seq<Byte>)
    requires |data| >= 4 && |sum| == 2 && Stored(p0, p1, DATA_AT, data) && Stored(p1, p2, ICMP6_SUM_AT, sum)
    ensures p2[LENGTH_AT..LENGTH_AT + 2] == p0[LENGTH_AT..LENGTH_AT + 2] && p2[SRC_AT..DATA_AT] == p0[SRC_AT..DATA_AT]
    ensures p2[DATA_AT..DATA_AT + 2] == data[..2] && p2[DATA_AT + 4..DATA_AT + |data|] == data[4..]
  {
    StoredElsewhere(p0, p1, DATA_AT, data, LENGTH_AT, LENGTH_AT + 2);
    StoredElsewhere(p1, p2, ICMP6_SUM_AT, sum, LENGTH_AT, LENGTH_AT + 2);
    StoredElsewhere(p0, p1, DATA_AT, data, SRC_AT, DATA_AT);
    StoredElsewhere(p1, p2, ICMP6_SUM_AT, sum, SRC_AT, DATA_AT);
  }

  /** Storing a checksum changes one word of the body and nothing of the pseudo-header. */
  lemma StoredWord(p: seq<Byte>, p': seq<Byte>, at: nat, w: nat, length: nat, type_: Byte)
    requires DATA_AT + length <= |p| && DATA_AT <= at && at + 2 <= DATA_AT + length && w <= 0xFFFF
    requires Stored(p, p', at, [w % 256, w / 256])
    ensures Body(p', length) == SetWord(Body(p, length), at - SRC_AT, w) && Pseudo(p', type_) == Pseudo(p, type_)
  {
    assert p'[LENGTH_AT..LENGTH_AT + 2] == p[LENGTH_AT..LENGTH_AT + 2];
  }

  /** The two chained sums that senders and receivers take. */
  method Ip6Sum(lengthField: seq<Byte>, body: seq<Byte>, type_: Byte) returns (sum: nat)
    requires |lengthField| == 2 && |body| <= 0x1_0000
    ensures sum == Fold(Htons(type_) + WordSum(lengthField) + WordSum(body))
  {
    var t := Htons(type_);
    sum := Checksum(lengthField, t);
    sum := Checksum(body, sum);
    FoldAdd(t + WordSum(lengthField), WordSum(body));
  }

  method Ip6Checksum(p: array<Byte>, type_: Byte, length: nat) returns (k: nat)
    requires DATA_AT + length <= p.Length <= 0x1_0000
    ensures k == Complement(Fold(Pseudo(p[..], type_) + WordSum(Body(p[..], length))))
  {
    var sum := Ip6Sum(p[..][LENGTH_AT..LENGTH_AT + 2], p[..][SRC_AT..DATA_AT + length], type_);
    k := if sum != 0xFFFF then (0xFFFF_FFFF - sum) % 0x1_0000 else sum;
  }

  /** The headers below the payload. */
  method Ip6Setup(p: array<Byte>, macs: seq<Byte>, src: seq<Byte>, dst: seq<Byte>, length: nat, type_: Byte, resolved: bool)
    returns (ok: bool)
    requires p.Length >= DATA_AT && |macs| == 12 && |src| == 16 && |dst| == 16 && length <= 0xFFFF
    modifies p
    ensures ok == resolved && (!ok ==> p[..] == old(p[..]))
    ensures ok ==> p[..][LENGTH_AT..LENGTH_AT + 2] == Net(length) && p[..][SRC_AT..DATA_AT] == src + dst && p[22] == type_
    ensures p[DATA_AT..] == old(p[DATA_AT..])
  {
    if !resolved { return false; }
    Put(p, 2, macs + [0x86, 0xDD]);
    Put(p, 16, [0x60, 0, 0, 0] + Net(length) + [type_, 255]);
    Put(p, SRC_AT, src + dst);
    return true;
  }

  /** The checksum is taken over the packet as it is and stored. */
  method Seal(p: array<Byte>, type_: Byte, at: nat, length: nat) returns (k: nat)
    requires DATA_AT + length <= p.Length <= 0x1_0000 && DATA_AT <= at && at + 2 <= p.Length
    modifies p
    ensures k == Complement(Fold(old(Pseudo(p[..], type_)) + WordSum(old(Body(p[..], length)))))
    ensures k <= 0xFFFF && Stored(old(p[..]), p[..], at, [k % 256, k / 256])
  {
    k := Ip6Checksum(p, type_, length);
    Put(p, at, [k % 256, k / 256]);
  }

  /** A stored checksum is not zero; the packet passes if and only if its field held zero or all ones. */
  lemma Sealed(p: seq<Byte>, p': seq<Byte>, type_: Byte, at: nat, length: nat, k: nat)
    requires DATA_AT + length <= |p| <= 0x1_0000 && type_ > 0
    requires DATA_AT <= at && at + 2 <= DATA_AT + length && at % 2 == 0
    requires k == Complement(Fold(Pseudo(p, type_) + WordSum(Body(p, length)))) && k <= 0xFFFF
    requires Stored(p, p', at, [k % 256, k / 256])
    ensures 0 < k && WordAt(Body(p', length), at - SRC_AT) == k
    ensures Passes(Pseudo(p', type_), Body(p', length), at - SRC_AT)
            <==> WordAt(Body(p, length), at - SRC_AT) == 0 || WordAt(Body(p, length), at - SRC_AT) == 0xFFFF
  {
    PseudoPositive(p, type_, length);
    SealLaw(Pseudo(p, type_), Body(p, length), at - SRC_AT, k);
    SealedSum(Body(p, length), at - SRC_AT, k);
    StoredWord(p, p', at, k, length, type_);
  }

  /** Every UDP packet that is sent, whatever its length, carries a checksum that is not zero and
      passes the receiver's test. */
  method Udp6Send(p: array<Byte>, data: seq<Byte>, macs: seq<Byte>, src: seq<Byte>, dst: seq<Byte>, dport: nat, sport: nat, resolved: bool)
    returns (sent: bool)
    requires p.Length == ETH_MTU + 2 && |macs| == 12 && |src| == 16 && |dst| == 16 && dport <= 0xFFFF && sport <= 0xFFFF
    modifies p
    ensures sent <==> |data| <= UDP6_MAX_PAYLOAD && resolved
    ensures sent ==>
              var length := |data| + UDP_HDR_LEN;
              && Passes(Pseudo(p[..], HDR_UDP), Body(p[..], length), UDP_SUM_AT - SRC_AT)
              && p[..][LENGTH_AT..LENGTH_AT + 2] == Net(length) && p[..][SRC_AT..DATA_AT] == src + dst
              && UdpFields(p[..], UdpHeader(sport, dport, length), data)
  {
    var length := |data| + UDP_HDR_LEN;
    if |data| > UDP6_MAX_PAYLOAD { return false; }
    assert UDP_SUM_AT % 2 == 0;
    var ok := Ip6Setup(p, macs, src, dst, length, HDR_UDP, resolved);
    if !ok { return false; }
    FillUdp(p, UdpHeader(sport, dport, length), data);
    ghost var before := p[..];
    var k := Seal(p, HDR_UDP, UDP_SUM_AT, length);
    Sealed(before, p[..], HDR_UDP, UDP_SUM_AT, length, k);
    HeadersKept(before, p[..], UDP_SUM_AT, [k % 256, k / 256]);
    UdpSealed(before, p[..], [k % 256, k / 256], UdpHeader(sport, dport, length), data);
    return true;
  }

  /** A message without room for the checksum loses the part of it that does not fit. */
  lemma IcmpShort(p0: seq<Byte>, p1: seq<Byte>, p2: seq<Byte>, data: seq<Byte>, sum: seq<Byte>)
    requires |data| < 4 && |sum| == 2 && Stored(p0, p1, DATA_AT, data) && Stored(p1, p2, ICMP6_SUM_AT, sum)
    ensures SameHeaders(p0, p1) && SameHeaders(p0, p2)
    ensures Body(p1, |data|) == p0[SRC_AT..DATA_AT] + data && p2[ICMP6_SUM_AT..ICMP6_SUM_AT + 2] == sum
    ensures Body(p2, |data|) == p0[SRC_AT..DATA_AT] + if |data| < 3 then data else data[..2] + sum[..1]
  {
    HeadersKept(p0, p1, DATA_AT, data);
    HeadersKept(p1, p2, ICMP6_SUM_AT, sum);
  }

  /** A packet with this message: its checksum is not zero, and it passes the receiver's test if and only
      if the message came with a checksum field of zero or all ones. */
  ghost predicate IcmpWhole(p: seq<Byte>, data: seq<Byte>) {
    && |data| >= 4 && DATA_AT + |data| <= |p|
    && WordAt(Body(p, |data|), ICMP6_SUM_AT - SRC_AT) != 0
    && (Passes(Pseudo(p, HDR_ICMP6), Body(p, |data|), ICMP6_SUM_AT - SRC_AT) <==> WordAt(data, 2) == 0 || WordAt(data, 2) == 0xFFFF)
    && p[DATA_AT..DATA_AT + 2] == data[..2] && p[DATA_AT + 4..DATA_AT + |data|] == data[4..]
  }

  /** A packet with a message that ends before its checksum field, with as much of the checksum as fits. */
  ghost predicate IcmpCut(p: seq<Byte>, addresses: seq<Byte>, data: seq<Byte>) {
    && |data| < 4 && ICMP6_SUM_AT + 2 <= |p|
    && WordAt(p, ICMP6_SUM_AT) == Complement(Fold(Pseudo(p, HDR_ICMP6) + WordSum(addresses + data)))
    && Body(p, |data|) == addresses + if |data| < 3 then data else data[..2] + p[ICMP6_SUM_AT..ICMP6_SUM_AT + 1]
  }

  lemma IcmpSealed(p0: seq<Byte>, p1: seq<Byte>, p2: seq<Byte>, data: seq<Byte>, k: nat)
    requires |data| >= 4 && DATA_AT + |data| <= |p1| <= 0x1_0000 && Stored(p0, p1, DATA_AT, data)
    requires k == Complement(Fold(Pseudo(p1, HDR_ICMP6) + WordSum(Body(p1, |data|)))) && k <= 0xFFFF
    requires Stored(p1, p2, ICMP6_SUM_AT, [k % 256, k / 256])
    ensures IcmpWhole(p2, data) && SameHeaders(p0, p2)
  {
    IcmpField(p0, p1, data);
    Sealed(p1, p2, HDR_ICMP6, ICMP6_SUM_AT, |data|, k);
    IcmpLayout(p0, p1, p2, data, [k % 256, k / 256]);
  }

  lemma IcmpCutOff(p0: seq<Byte>, p1: seq<Byte>, p2: seq<Byte>, addresses: seq<Byte>, data: seq<Byte>, k: nat)
    requires |data| < 4 && ICMP6_SUM_AT + 2 <= |p1| && Stored(p0, p1, DATA_AT, data) && p0[SRC_AT..DATA_AT] == addresses
    requires k == Complement(Fold(Pseudo(p1, HDR_ICMP6) + WordSum(Body(p1, |data|)))) && k <= 0xFFFF
    requires Stored(p1, p2, ICMP6_SUM_AT, [k % 256, k / 256])
    ensures IcmpCut(p2, addresses, data) && SameHeaders(p0, p2)
  {
    IcmpShort(p0, p1, p2, data, [k % 256, k / 256]);
    assert p2[ICMP6_SUM_AT] == k % 256 && p2[ICMP6_SUM_AT + 1] == k / 256;
  }

  /** An ICMPv6 packet that is sent passes the receiver's test if and only if the message was
      given with a checksum field of zero or all ones; its checksum is never zero. A message that
      ends before its checksum field is sent all the same, without the checksum. */
  method Icmp6Send(p: array<Byte>, data: seq<Byte>, macs: seq<Byte>, src: seq<Byte>, dst: seq<Byte>, resolved: bool)
    returns (sent: bool)
    requires p.Length == ETH_MTU + 2 && |macs| == 12 && |src| == 16 && |dst| == 16
    modifies p
    ensures sent <==> |data| <= ICMP6_MAX_PAYLOAD && resolved
    ensures sent ==> p[..][LENGTH_AT..LENGTH_AT + 2] == Net(|data|) && p[..][SRC_AT..DATA_AT] == src + dst
    ensures sent && |data| >= 4 ==> IcmpWhole(p[..], data)
    ensures sent && |data| < 4 ==> IcmpCut(p[..], src + dst, data)
  {
    if |data| > ICMP6_MAX_PAYLOAD { return false; }
    var ok := Ip6Setup(p, macs, src, dst, |data|, HDR_ICMP6, resolved);
    if !ok { return false; }
    ghost var p0 := p[..];
    Put(p, DATA_AT, data);
    ghost var before := p[..];
    var k := Seal(p, HDR_ICMP6, ICMP6_SUM_AT, |data|);
    if |data| < 4 {
      IcmpCutOff(p0, before, p[..], src + dst, data, k);
    } else {
      IcmpSealed(p0, before, p[..], data, k);
    }
    return true;
  }

  /** The checksum test that both receivers make, clearing an all-ones checksum in place. */
  method TestSum(p: array<Byte>, type_: Byte, at: nat, len: nat) returns (good: bool)
    requires DATA_AT + len <= p.Length <= 0x1_0000 && DATA_AT <= at && at + 2 <= DATA_AT + len
    modifies p
    ensures good <==> Passes(old(Pseudo(p[..], type_)), old(Body(p[..], len)), at - SRC_AT)
    ensures old(p[at]) == 0 && old(p[at + 1]) == 0 ==> !good
    ensures forall i :: 0 <= i < p.Length && i != at && i != at + 1 ==> p[i] == old(p[i])
  {
    ghost var before := p[..];
    assert Body(before, len)[at - SRC_AT] == p[at] && Body(before, len)[at + 1 - SRC_AT] == p[at + 1];
    if Word(p[at], p[at + 1]) == 0 { return false; }
    if Word(p[at], p[at + 1]) == 0xFFFF {
      Put(p, at, [0, 0]);
      StoredWord(before, p[..], at, 0, len, type_);
    }
    assert Body(p[..], len) == Cleared(Body(before, len), at - SRC_AT) && Pseudo(p[..], type_) == Pseudo(before, type_);
    var sum := Ip6Sum(p[..][LENGTH_AT..LENGTH_AT + 2], p[..][SRC_AT..DATA_AT + len], type_);
    good := sum == 0xFFFF;
  }

  /** A UDP packet is taken exactly if it has a header, passes the test, and its length field fits. */
  method Udp6Recv(p: array<Byte>, len: nat) returns (taken: bool, payload: seq<Byte>)
    requires DATA_AT + len <= p.Length <= 0x1_0000
    modifies p
    ensures taken <==>
              && len >= UDP_HDR_LEN && Passes(old(Pseudo(p[..], HDR_UDP)), old(Body(p[..], len)), UDP_SUM_AT - SRC_AT)
              && UDP_HDR_LEN <= FromNet(old(p[UDP_LENGTH_AT]), old(p[UDP_LENGTH_AT + 1])) <= len
    ensures taken ==> payload == old(p[DATA_AT + UDP_HDR_LEN..DATA_AT + FromNet(p[UDP_LENGTH_AT], p[UDP_LENGTH_AT + 1])])
  {
    taken, payload := false, [];
    if len < UDP_HDR_LEN { return; }
    var good := TestSum(p, HDR_UDP, UDP_SUM_AT, len);
    if !good { return; }
    var n := FromNet(p[UDP_LENGTH_AT], p[UDP_LENGTH_AT + 1]);
    if n < UDP_HDR_LEN || n > len { return; }
    taken, payload := true, p[DATA_AT + UDP_HDR_LEN..DATA_AT + n];
  }

  /** What is sent over UDP is received, whatever the addresses, ports, payload and its length. */
  method UdpRoundTrip(p: array<Byte>, data: seq<Byte>, macs: seq<Byte>, src: seq<Byte>, dst: seq<Byte>, dport: nat, sport: nat)
    returns (taken: bool, payload: seq<Byte>)
    requires p.Length == ETH_MTU + 2 && |macs| == 12 && |src| == 16 && |dst| == 16 && dport <= 0xFFFF && sport <= 0xFFFF
    requires |data| <= UDP6_MAX_PAYLOAD
    modifies p
    ensures taken && payload == data
  {
    var sent := Udp6Send(p, data, macs, src, dst, dport, sport, true);
    var length := |data| + UDP_HDR_LEN;
    ghost var h := UdpHeader(sport, dport, length);
    assert p[..][DATA_AT..UDP_SUM_AT] == h;
    assert p[UDP_LENGTH_AT] == h[4] && p[UDP_LENGTH_AT + 1] == h[5];
    taken, payload := Udp6Recv(p, length);
  }
}

/** The FIFO dispatcher: two rings of fixed-size elements, one for each direction, indexed by
    32-bit counters that wrap, with a readable and a writable signal at each end. */
module Fifos {
  import opened Lists

  const PAGE_SIZE := 4096
  const U32 := 0x1_0000_0000

  // ---------- masks and counters ----------

  /** Bitwise and of naturals. */
  function And(a: nat, b: nat): nat {
    if a == 0 || b == 0 then 0
    else 2 * And(a / 2, b / 2) + if a % 2 == 1 && b % 2 == 1 then 1 else 0
  }

  predicate PowerOfTwo(n: nat) {
    n == 1 || (n > 0 && n % 2 == 0 && PowerOfTwo(n / 2))
  }

  lemma {:induction false} MulAtLeast(n: nat, k: nat)
    requires k > 0
    ensures n * k >= n
  {
    if k > 1 {
      MulAtLeast(n, k - 1);
      assert n * k == n * (k - 1) + n;
    }
  }

  lemma SameMultiple(n: nat, a: int, b: int, r: nat, s: nat)
    requires r < n && s < n && n * a + r == n * b + s
    ensures a == b && r == s
  {
    assert n * (a - b) == n * a - n * b;
    if a > b {
      MulAtLeast(n, a - b);
    } else if a < b {
      assert n * (b - a) == n * b - n * a;
      MulAtLeast(n, b - a);
    }
  }

  lemma ModUnique(x: int, n: nat, a: int, b: nat)
    requires b < n && x == n * a + b
    ensures x % n == b
  {
    SameMultiple(n, x / n, a, x % n, b);
  }

  /** Masking with a power of two less one is the remainder. */
  lemma {:induction false} MaskIsMod(h: nat, n: nat)
    requires PowerOfTwo(n)
    ensures And(h, n - 1) == h % n
  {
    if h == 0 {
    } else if n == 1 {
    } else {
      MaskIsMod(h / 2, n / 2);
      assert (n - 1) / 2 == n / 2 - 1 && (n - 1) % 2 == 1;
      ModDoubles(h, n / 2);
    }
  }

  lemma ModDoubles(h: nat, m: nat)
    requires m > 0
    ensures h % (2 * m) == 2 * ((h / 2) % m) + h % 2
  {
    var q := h / 2;
    var a, b := q / m, q % m;
    assert q == m * a + b;
    assert 2 * (m * a) == (2 * m) * a;
    ModUnique(h, 2 * m, a, 2 * b + h % 2);
  }

  lemma {:induction false} AndSelf(n: nat)
    ensures And(n, n) == n
  {
    if n > 0 { AndSelf(n / 2); }
  }

  /** The test of a count and the number below it for common bits finds the powers of two. */
  lemma {:induction false} OnlyPowers(n: nat)
    requires n > 0
    ensures And(n, n - 1) == 0 <==> PowerOfTwo(n)
  {
    if n % 2 == 0 {
      OnlyPowers(n / 2);
      assert (n - 1) / 2 == n / 2 - 1;
    } else if n > 1 {
      assert (n - 1) / 2 == n / 2;
      AndSelf(n / 2);
    }
  }

  lemma {:induction false} PowerDivides(n: nat, big: nat)
    requires PowerOfTwo(n) && PowerOfTwo(big) && n <= big
    ensures big % n == 0
  {
    if n > 1 {
      PowerDivides(n / 2, big / 2);
      var k := (big / 2) / (n / 2);
      assert big / 2 == (n / 2) * k;
      assert big == n * k;
      ModUnique(big, n, k, 0);
    }
  }

  lemma Powers()
    ensures PowerOfTwo(0x100) && PowerOfTwo(0x1_0000) && PowerOfTwo(0x100_0000) && PowerOfTwo(U32)
  {
    Shifted(1, 8);
    Shifted(0x100, 8);
    Shifted(0x1_0000, 8);
    Shifted(0x100_0000, 8);
  }

  function Pow2(k: nat): nat {
    if k == 0 then 1 else 2 * Pow2(k - 1)
  }

  lemma {:induction false} Shifted(n: nat, k: nat)
    requires PowerOfTwo(n)
    ensures PowerOfTwo(n * Pow2(k))
  {
    if k > 0 {
      Shifted(n, k - 1);
      assert n * Pow2(k) == 2 * (n * Pow2(k - 1));
      assert n * Pow2(k) / 2 == n * Pow2(k - 1);
    }
  }

  lemma CountsDivide(n: nat)
    requires PowerOfTwo(n) && n <= PAGE_SIZE
    ensures U32 % n == 0
  {
    assert PowerOfTwo(0x100) && PowerOfTwo(0x1_0000) && PowerOfTwo(0x100_0000) && PowerOfTwo(U32) by { Powers(); }
    PowerDivides(n, U32);
  }

  /** A counter's place in the ring survives its wrap-around. */
  lemma WrapKeepsPlace(x: nat, n: nat)
    requires n > 0 && U32 % n == 0
    ensures (x % U32) % n == x % n
  {
    var q, k := x / U32, U32 / n;
    var r := x % U32;
    assert U32 == n * k;
    assert x == U32 * q + r == n * (k * q) + r;
    assert r == n * (r / n) + r % n;
    assert x == n * (k * q + r / n) + r % n;
    ModUnique(x, n, k * q + r / n, r % n);
  }

  /** Places fewer than a full turn apart are different. */
  lemma PlacesDiffer(a: nat, b: nat, n: nat)
    requires a < b < a + n
    ensures a % n != b % n
  {
    if a % n == b % n {
      var p, q := a / n, b / n;
      assert a == n * p + a % n && b == n * q + a % n;
      assert n * (q - p) == b - a == n * 0 + (b - a);
      SameMultiple(n, q - p, 0, 0, b - a);
    }
  }

  lemma PlaceAhead(x: nat, j: nat, n: nat)
    requires n > 0 && x % n + j < n
    ensures (x + j) % n == x % n + j
  {
    ModUnique(x + j, n, x / n, x % n + j);
  }

  // ---------- the ring ----------

  /** The element at a counter's place. */
  function Slot<T>(data: seq<T>, x: nat): T
    requires data != []
  {
    data[x % |data|]
  }

  /** The elements from a counter on. */
  function Ring<T>(data: seq<T>, tail: nat, len: nat): seq<T>
    requires data != []
  {
    seq(len, j requires 0 <= j < len => Slot(data, tail + j))
  }

  /** The counters' difference, as 32-bit subtraction gives it. */
  function Used(head: nat, tail: nat): nat {
    (head - tail) % U32
  }

  /** Elements written from the place of the head on. */
  ghost predicate Written<T>(data: seq<T>, data': seq<T>, at: nat, src: seq<T>) {
    && |data| == |data'| && at + |src| <= |data|
    && forall i :: 0 <= i < |data| ==> data'[i] == if at <= i < at + |src| then src[i - at] else data[i]
  }

  /** They touch nothing that is queued. */
  lemma RingKept<T>(data: seq<T>, data': seq<T>, tail: nat, len: nat, at: nat, src: seq<T>)
    requires data != [] && Written(data, data', at, src) && len + |src| <= |data| && at == (tail + len) % |data|
    ensures Ring(data', tail, len) == Ring(data, tail, len)
  {
    var a, b := Ring(data, tail, len), Ring(data', tail, len);
    forall j | 0 <= j < len ensures a[j] == b[j] {
      RingApart(tail, len, at, |src|, |data|, j);
      assert a[j] == Slot(data, tail + j) && b[j] == Slot(data', tail + j);
    }
  }

  /** They join the queue. */
  lemma RingGrows<T>(data: seq<T>, data': seq<T>, tail: nat, len: nat, at: nat, src: seq<T>)
    requires data != [] && Written(data, data', at, src) && len + |src| <= |data| && at == (tail + len) % |data|
    ensures Ring(data', tail, len + |src|) == Ring(data, tail, len) + src
  {
    RingKept(data, data', tail, len, at, src);
    var a, r := Ring(data', tail, len), Ring(data', tail, len + |src|);
    forall j | 0 <= j < len + |src| ensures r[j] == (a + src)[j] {
      assert r[j] == Slot(data', tail + j);
      if j >= len {
        PlaceAhead(tail + len, j - len, |data|);
        assert tail + j == tail + len + (j - len);
      }
    }
    assert r == a + src;
  }

  lemma RingApart(tail: nat, len: nat, at: nat, m: nat, n: nat, j: nat)
    requires n > 0 && len + m <= n && at == (tail + len) % n && at + m <= n && j < len
    ensures !(at <= (tail + j) % n < at + m)
  {
    var p := (tail + j) % n;
    if at <= p < at + m {
      PlaceAhead(tail + len, p - at, n);
      PlacesDiffer(tail + j, tail + len + (p - at), n);
    }
  }

  /** Moving the tail takes elements off the front. */
  lemma RingShrinks<T>(data: seq<T>, tail: nat, len: nat, m: nat)
    requires data != [] && m <= len && U32 % |data| == 0
    ensures Ring(data, tail, len) == Ring(data, tail, m) + Ring(data, (tail + m) % U32, len - m)
  {
    var a, b := Ring(data, tail, m), Ring(data, (tail + m) % U32, len - m);
    var r := Ring(data, tail, len);
    forall j | m <= j < len ensures r[j] == b[j - m] {
      SamePlace(tail + m, j - m, |data|);
      assert r[j] == Slot(data, tail + j) && b[j - m] == Slot(data, (tail + m) % U32 + (j - m));
    }
    assert r == a + b;
  }

  lemma SamePlace(x: nat, j: nat, n: nat)
    requires n > 0 && U32 % n == 0
    ensures (x % U32 + j) % n == (x + j) % n
  {
    WrapKeepsPlace(x, n);
    var a, b := (x % U32) / n, x / n;
    assert x % U32 == n * a + x % n && x == n * b + x % n;
    var y := x % n + j;
    assert y == n * (y / n) + y % n;
    assert x % U32 + j == n * (a + y / n) + y % n;
    assert x + j == n * (b + y / n) + y % n;
    ModUnique(x % U32 + j, n, a + y / n, y % n);
    ModUnique(x + j, n, b + y / n, y % n);
  }

  lemma RingPrefix<T>(data: seq<T>, tail: nat, k: nat, len: nat)
    requires data != [] && k <= len
    ensures Ring(data, tail, len)[..k] == Ring(data, tail, k)
  {
  }

  /** Counters w further on. */
  lemma Counters(head: nat, tail: nat, w: nat)
    requires head < U32 && tail < U32 && Used(head, tail) + w <= PAGE_SIZE
    ensures (tail + Used(head, tail) + w) % U32 == (head + w) % U32
    ensures Used((head + w) % U32, tail) == Used(head, tail) + w
  {
    assert Used(head, tail) == if head >= tail then head - tail else head - tail + U32;
  }

  lemma Advanced(x: nat, n: nat)
    requires x < U32 && n <= PAGE_SIZE
    ensures Used((x + n) % U32, x) == n
  {
    Counters(x, x, n);
  }

  lemma CountersBack(head: nat, tail: nat, w: nat)
    requires head < U32 && tail < U32 && w <= Used(head, tail)
    ensures Used(head, (tail + w) % U32) == Used(head, tail) - w
  {
    assert Used(head, tail) == if head >= tail then head - tail else head - tail + U32;
  }

  /** The masked head counter is the place behind the queue, the masked tail counter its first. */
  lemma Places(head: nat, tail: nat, w: nat, n: nat)
    requires head < U32 && tail < U32 && PowerOfTwo(n) && n <= PAGE_SIZE && Used(head, tail) + w <= n
    ensures U32 % n == 0 && And((head + w) % U32, n - 1) == (tail + Used(head, tail) + w) % n < n
    ensures And(tail, n - 1) == tail % n < n
  {
    CountsDivide(n);
    Counters(head, tail, w);
    MaskIsMod((head + w) % U32, n);
    MaskIsMod(tail, n);
    WrapKeepsPlace(tail + Used(head, tail) + w, n);
  }

  lemma WrapAdd(x: nat, m: nat)
    ensures (x % U32 + m) % U32 == (x + m) % U32
  {
  }

  lemma FillCounters(head: nat, tail: nat, w: nat, m: nat)
    requires head < U32 && tail < U32 && Used(head, tail) + w + m <= PAGE_SIZE
    ensures ((head + w) % U32 + m) % U32 == (head + (w + m)) % U32
    ensures Used((head + (w + m)) % U32, tail) == Used(head, tail) + (w + m)
  {
    WrapAdd(head + w, m);
    Counters(head, tail, w + m);
  }

  lemma ReadRun<T>(d: seq<T>, start: nat, k: nat, m: nat, at: nat, tail: nat)
    requires d != [] && U32 % |d| == 0 && tail == (start + k) % U32 && at == tail % |d| && at + m <= |d|
    ensures Ring(d, start, k) + d[at..at + m] == Ring(d, start, k + m) && (tail + m) % U32 == (start + k + m) % U32
  {
    ReadStep(d, start, k, m, at);
    WrapAdd(start + k, m);
  }

  /** A copy out of consecutive slots continues the queue. */
  lemma ReadStep<T>(d: seq<T>, tail: nat, k: nat, m: nat, at: nat)
    requires d != [] && U32 % |d| == 0 && at == ((tail + k) % U32) % |d| && at + m <= |d|
    ensures Ring(d, tail, k) + d[at..at + m] == Ring(d, tail, k + m)
  {
    WrapKeepsPlace(tail + k, |d|);
    var r := Ring(d, tail, k + m);
    forall j | k <= j < k + m ensures r[j] == d[at..at + m][j - k] {
      PlaceAhead(tail + k, j - k, |d|);
      assert r[j] == Slot(d, tail + j) && tail + j == tail + k + (j - k);
    }
    assert r == Ring(d, tail, k) + d[at..at + m];
  }

  lemma FillStep<T>(d: seq<T>, d': seq<T>, tail: nat, used: nat, at: nat, q: seq<T>, src: seq<T>, w: nat, m: nat)
    requires d != [] && w + m <= |src| && used + w + m <= |d| && at == (tail + used + w) % |d|
    requires Written(d, d', at, src[w..w + m]) && Ring(d, tail, used + w) == q + src[..w]
    ensures Ring(d', tail, used + (w + m)) == q + src[..w + m]
  {
    assert used + (w + m) == (used + w) + m;
    RingGrows(d, d', tail, used + w, at, src[w..w + m]);
    assert q + src[..w] + src[w..w + m] == q + src[..w + m];
  }

  lemma FillFails<T>(d: seq<T>, d': seq<T>, tail: nat, used: nat, at: nat, q: seq<T>, src: seq<T>, w: nat, some: seq<T>)
    requires d != [] && w <= |src| && used + w + |some| <= |d| && at == (tail + used + w) % |d| && |q| == used
    requires Written(d, d', at, some) && Ring(d, tail, used + w) == q + src[..w]
    ensures Ring(d', tail, used) == q
  {
    RingKept(d, d', tail, used + w, at, some);
    RingPrefix(d', tail, used, used + w);
    assert (q + src[..w])[..used] == q;
  }

  datatype Status = Ok(actual: nat) | OutOfRange | ShouldWait | PeerClosed | InvalidArgs | NoMemory

  class FifoDispatcher<T(0)> {
    const count: nat
    const elemSize: nat
    const data: array<T>
    var head: nat
    var tail: nat
    var readable: bool
    var writable: bool
    var peerClosed: bool
    var peer: FifoDispatcher?<T>

    ghost predicate RingOk()
      reads this
    {
      && data.Length == count && PowerOfTwo(count) && count <= PAGE_SIZE
      && head < U32 && tail < U32 && Used(head, tail) <= count
    }

    /** What the other end has written and this end has not read. */
    ghost function Queue(): seq<T>
      requires RingOk()
      reads this, data
    {
      Ring(data[..], tail, Used(head, tail))
    }

    /** This end is readable if and only if its queue is not empty; the other end, while open, is
        writable if and only if this queue is not full. */
    ghost predicate Valid()
      reads this, peer
    {
      && RingOk() && (readable <==> Used(head, tail) > 0)
      && (peer != null ==>
            && peer != this && peer.peer == this && peer.data != data && peer.count == count && peer.elemSize == elemSize
            && (peer.writable <==> Used(head, tail) < count))
    }

    constructor (count: nat, elemSize: nat)
      requires PowerOfTwo(count) && count <= PAGE_SIZE
      ensures Valid() && Queue() == [] && peer == null && writable && !peerClosed && fresh(data)
      ensures this.count == count && this.elemSize == elemSize && Used(head, tail) == 0
    {
      this.count, this.elemSize := count, elemSize;
      data := new T[count];
      head, tail, readable, writable, peerClosed, peer := 0, 0, false, true, false, null;
    }

    /** A pair of ends, exactly for sizes that the ring arithmetic can carry. */
    static method Create(count: nat, elemSize: nat, noMemory: bool) returns (r: Status, a: FifoDispatcher?<T>, b: FifoDispatcher?<T>)
      ensures r == OutOfRange <==> count == 0 || elemSize == 0 || !PowerOfTwo(count) || count * elemSize > PAGE_SIZE
      ensures r.Ok? <==> r != OutOfRange && !noMemory
      ensures r.Ok? || r == OutOfRange || r == NoMemory
      ensures r.Ok? ==>
                && a != null && b != null && fresh(a) && fresh(b) && a.Valid() && b.Valid()
                && a.peer == b && b.peer == a && a.count == count && a.Queue() == [] && b.Queue() == []
    {
      a, b := null, null;
      if count > 0 { OnlyPowers(count); }
      if count > PAGE_SIZE && elemSize > 0 { MulAtLeast(count, elemSize); }
      if elemSize > PAGE_SIZE && count > 0 { MulAtLeast(elemSize, count); assert elemSize * count == count * elemSize; }
      if count == 0 || elemSize == 0 || And(count, count - 1) != 0 || count > PAGE_SIZE || elemSize > PAGE_SIZE
         || count * elemSize > PAGE_SIZE {
        r := OutOfRange;
        return;
      }
      if noMemory { r := NoMemory; return; }
      a := new FifoDispatcher(count, elemSize);
      b := new FifoDispatcher(count, elemSize);
      a.peer := b;
      b.peer := a;
      r := Ok(0);
    }

    /** A copy into consecutive slots. */
    method CopyTo(at: nat, src: seq<T>)
      requires at + |src| <= data.Length
      modifies data
      ensures Written(old(data[..]), data[..], at, src)
    {
      forall j | 0 <= j < |src| { data[at + j] := src[j]; }
    }

    /** The write of the other end, in at most two copies, the second after the end of the array
        is reached. A copy that fails may have written part of its slots. */
    method WriteSelf(size: nat, src: seq<T>, faults: nat -> bool, partial: nat -> nat) returns (r: Status)
      requires Valid() && peer != null
      modifies this`head, this`readable, data, peer`writable
      ensures Valid() && peer == old(peer)
      ensures r.Ok? ==> r.actual == Min(|src|, count - |old(Queue())|) > 0 && Queue() == old(Queue()) + src[..r.actual]
      ensures !r.Ok? ==> head == old(head) && Queue() == old(Queue())
      ensures size != elemSize || src == [] <==> r == OutOfRange
      ensures r == ShouldWait <==> size == elemSize && src != [] && |old(Queue())| == count
      ensures r == InvalidArgs ==> exists n :: faults(n)
      ensures r.Ok? || r in {OutOfRange, ShouldWait, InvalidArgs}
    {
      if size != elemSize || src == [] { return OutOfRange; }
      var oldHead := head;
      var avail := count - Used(head, tail);
      if avail == 0 { return ShouldWait; }
      var n := Min(|src|, avail);
      var copied;
      copied, r := FillSlots(src[..n], faults, partial);
      if !copied { return; }
      if avail == count { readable := true; }
      if Used(head, tail) == count { peer.writable := false; }
      r := Ok(Used(head, oldHead));
    }

    /** One copy of a write, up to the end of the array. */
    method FillRun(src: seq<T>, w: nat, faults: nat -> bool, partial: nat -> nat, ghost start: nat, ghost q: seq<T>)
      returns (copied: bool, m: nat)
      requires RingOk() && start < U32 && |q| == Used(start, tail) && |q| + |src| <= count && w < |src|
      requires head == (start + w) % U32 && Ring(data[..], tail, |q| + w) == q + src[..w]
      modifies this`head, data
      ensures copied ==> 0 < m && w + m <= |src| && head == (old(head) + m) % U32
      ensures copied ==> Ring(data[..], tail, |q| + (w + m)) == q + src[..w + m]
      ensures !copied ==> faults(w) && Ring(data[..], tail, |q|) == q
    {
      Places(start, tail, w, count);
      var offset := And(head, count - 1);
      m := Min(|src| - w, count - offset);
      copied := FillAt(src, w, m, offset, faults(w), partial(w), q);
      if copied { head := (head + m) % U32; }
    }

    /** The copy itself, or part of it if it fails. */
    method FillAt(src: seq<T>, w: nat, m: nat, offset: nat, fault: bool, partial: nat, ghost q: seq<T>) returns (copied: bool)
      requires data.Length > 0 && |q| + |src| <= data.Length && w + m <= |src| && offset + m <= data.Length
      requires offset == (tail + |q| + w) % data.Length && Ring(data[..], tail, |q| + w) == q + src[..w]
      modifies data
      ensures copied == !fault
      ensures copied ==> Ring(data[..], tail, |q| + (w + m)) == q + src[..w + m]
      ensures !copied ==> Ring(data[..], tail, |q|) == q
    {
      ghost var d := data[..];
      if fault {
        var some := src[w..w + m][..Min(partial, m)];
        CopyTo(offset, some);
        FillFails(d, data[..], tail, |q|, offset, q, src, w, some);
        return false;
      }
      CopyTo(offset, src[w..w + m]);
      FillStep(d, data[..], tail, |q|, offset, q, src, w, m);
      return true;
    }

    method FillSlots(src: seq<T>, faults: nat -> bool, partial: nat -> nat) returns (copied: bool, r: Status)
      requires RingOk() && |src| + Used(head, tail) <= count && src != []
      modifies this`head, data
      ensures RingOk()
      ensures copied ==> Queue() == old(Queue()) + src && head == (old(head) + |src|) % U32
      ensures copied ==> Used(head, tail) == old(Used(head, tail)) + |src| && Used(head, old(head)) == |src|
      ensures !copied ==> r == InvalidArgs && head == old(head) && Queue() == old(Queue()) && exists n :: faults(n)
    {
      r := Ok(0);
      var oldHead := head;
      ghost var q := Queue();
      var w := 0;
      assert q + src[..0] == q;
      while w < |src|
        invariant w <= |src| && head == (oldHead + w) % U32 && Used(head, tail) == |q| + w
        invariant Ring(data[..], tail, |q| + w) == q + src[..w]
        decreases |src| - w
      {
        var ok, m := FillRun(src, w, faults, partial, oldHead, q);
        if !ok {
          head := oldHead;
          return false, InvalidArgs;
        }
        FillCounters(oldHead, tail, w, m);
        w := w + m;
      }
      assert src[..w] == src;
      Advanced(oldHead, w);
      copied := true;
    }

    method WriteFromUser(size: nat, src: seq<T>, faults: nat -> bool, partial: nat -> nat) returns (r: Status)
      requires Valid() && (peer != null ==> peer.Valid())
      modifies this`writable, (if peer != null then {peer} else {})`head, (if peer != null then {peer} else {})`readable
      modifies if peer != null then {peer.data} else {}
      ensures Valid() && peer == old(peer) && (peer != null ==> peer.Valid())
      ensures r == PeerClosed <==> peer == null
      ensures peer != null && r.Ok? ==> r.actual == Min(|src|, count - |old(peer.Queue())|) > 0 && peer.Queue() == old(peer.Queue()) + src[..r.actual]
      ensures peer != null && !r.Ok? ==> peer.Queue() == old(peer.Queue())
      ensures peer != null ==> (size != elemSize || src == [] <==> r == OutOfRange)
      ensures peer != null ==> (r == ShouldWait <==> size == elemSize && src != [] && |old(peer.Queue())| == count)
      ensures r == InvalidArgs ==> exists n :: faults(n)
      ensures r.Ok? || r in {OutOfRange, ShouldWait, InvalidArgs, PeerClosed}
    {
      if peer == null { return PeerClosed; }
      r := peer.WriteSelf(size, src, faults, partial);
    }

    /** Reading, in at most two copies; a copy that fails takes nothing. */
    method ReadToUser(size: nat, n: nat, faults: nat -> bool) returns (r: Status, out: seq<T>)
      requires Valid()
      modifies this`tail, this`readable, (if peer != null then {peer} else {})`writable
      ensures Valid() && peer == old(peer)
      ensures r.Ok? ==> r.actual == |out| == Min(n, |old(Queue())|) > 0 && old(Queue()) == out + Queue()
      ensures !r.Ok? ==> tail == old(tail) && Queue() == old(Queue()) && out == []
      ensures size != elemSize || n == 0 <==> r == OutOfRange
      ensures size == elemSize && n > 0 ==>
                (old(Queue()) == [] <==> r == if peer == null then PeerClosed else ShouldWait)
      ensures r == InvalidArgs ==> exists p :: faults(p)
      ensures r.Ok? || r in {OutOfRange, ShouldWait, PeerClosed, InvalidArgs}
      ensures r == PeerClosed ==> peer == null && old(Queue()) == []
      ensures r == ShouldWait ==> peer != null && old(Queue()) == []
    {
      out := [];
      if size != elemSize || n == 0 { r := OutOfRange; return; }
      var oldTail := tail;
      var avail := Used(head, tail);
      if avail == 0 {
        r := if peer == null then PeerClosed else ShouldWait;
        return;
      }
      var copied;
      copied, out := EmptySlots(Min(n, avail), faults);
      if !copied {
        out := [];
        r := InvalidArgs;
        return;
      }
      if avail == count && peer != null { peer.writable := true; }
      if Used(head, tail) == 0 { readable := false; }
      r := Ok(Used(tail, oldTail));
    }

    /** One copy of a read, up to the end of the array. */
    method EmptyRun(out: seq<T>, n: nat, ghost start: nat) returns (out': seq<T>)
      requires RingOk() && start < U32 && |out| < n && n - |out| <= Used(head, tail)
      requires tail == (start + |out|) % U32 && out == Ring(data[..], start, |out|)
      modifies this`tail
      ensures |out| < |out'| <= n && tail == (start + |out'|) % U32 && out' == Ring(data[..], start, |out'|)
    {
      Places(head, tail, 0, count);
      var offset := And(tail, count - 1);
      var m := Min(n - |out|, count - offset);
      ReadRun(data[..], start, |out|, m, offset, tail);
      out' := out + data[offset..offset + m];
      tail := (tail + m) % U32;
    }

    method EmptySlots(n: nat, faults: nat -> bool) returns (copied: bool, out: seq<T>)
      requires RingOk() && 0 < n <= Used(head, tail)
      modifies this`tail
      ensures RingOk()
      ensures copied ==> |out| == n && old(Queue()) == out + Queue() && tail == (old(tail) + n) % U32
      ensures copied ==> Used(head, tail) == old(Used(head, tail)) - n && Used(tail, old(tail)) == n
      ensures !copied ==> tail == old(tail) && exists p :: faults(p)
    {
      var oldTail := tail;
      ghost var used := Used(head, tail);
      out := [];
      while |out| < n
        invariant |out| <= n && tail == (oldTail + |out|) % U32 && Used(head, tail) == used - |out|
        invariant out == Ring(data[..], oldTail, |out|)
        decreases n - |out|
      {
        if faults(|out|) {
          tail := oldTail;
          return false, [];
        }
        out := EmptyRun(out, n, oldTail);
        CountersBack(head, oldTail, |out|);
      }
      CountsDivide(count);
      RingShrinks(data[..], oldTail, used, n);
      Advanced(oldTail, n);
      copied := true;
    }

    /** This end is closed: the other end can write no more and can read what is left. */
    method OnZeroHandles()
      requires Valid() && (peer != null ==> peer.Valid())
      modifies this`peer, (if peer != null then {peer} else {})`peer
      modifies (if peer != null then {peer} else {})`writable, (if peer != null then {peer} else {})`peerClosed
      ensures Valid() && peer == null
      ensures old(peer) != null ==>
                var p := old(peer);
                p.Valid() && p.peer == null && p.peerClosed && !p.writable && p.Queue() == old(p.Queue())
    {
      var p := peer;
      peer := null;
      if p != null {
        p.peer := null;
        p.writable, p.peerClosed := false, true;
      }
    }
  }
}

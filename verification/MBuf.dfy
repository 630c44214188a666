/** The chain of buffers behind a socket: a bounded byte queue in stream mode, a queue of packets
    in datagram mode. Buffers are named, so that the list, the free list and the head pointer can
    refer to the same one. */
module MBufs {
  import opened Lists

  const PAYLOAD_SIZE := 2048 - 16 - 24
  const SIZE_MAX := 128 * PAYLOAD_SIZE

  type Byte = b: int | 0 <= b < 256
  type Id = nat

  datatype MBuf = MBuf(off: nat, len: nat, pkt: nat, data: seq<Byte>)
  type Bufs = map<Id, MBuf>

  ghost predicate BufOk(b: MBuf) {
    b.off + b.len <= PAYLOAD_SIZE && |b.data| == PAYLOAD_SIZE
  }

  function Content(m: Bufs, i: Id): seq<Byte> {
    if i in m && m[i].off + m[i].len <= |m[i].data| then m[i].data[m[i].off..m[i].off + m[i].len] else []
  }

  /** The bytes of a list of buffers. */
  function Bytes(m: Bufs, ids: seq<Id>): seq<Byte> {
    if ids == [] then [] else Content(m, ids[0]) + Bytes(m, ids[1..])
  }

  lemma Assoc(a: seq<Byte>, b: seq<Byte>, c: seq<Byte>)
    ensures a + (b + c) == (a + b) + c
  {
  }

  lemma SplitAt(s: seq<Byte>, i: nat, n: nat)
    requires i + n <= |s|
    ensures s[..i + n] == s[..i] + s[i..i + n]
  {
  }

  lemma Grow(q: seq<Byte>, q': seq<Byte>, src: seq<Byte>, pos: nat, n: nat)
    requires pos + n <= |src| && q' == q + src[..pos]
    ensures q' + src[pos..pos + n] == q + src[..pos + n]
  {
    SplitAt(src, pos, n);
    Assoc(q, src[..pos], src[pos..pos + n]);
  }

  lemma {:induction false} BytesFrame(m: Bufs, m': Bufs, ids: seq<Id>)
    requires forall i :: i in ids ==> Content(m, i) == Content(m', i)
    ensures Bytes(m, ids) == Bytes(m', ids)
  {
    if ids != [] { BytesFrame(m, m', ids[1..]); }
  }

  lemma {:induction false} BytesConcat(m: Bufs, a: seq<Id>, b: seq<Id>)
    ensures Bytes(m, a + b) == Bytes(m, a) + Bytes(m, b)
  {
    if a == [] {
      assert a + b == b;
    } else {
      BytesConcat(m, a[1..], b);
      assert (a + b)[0] == a[0] && (a + b)[1..] == a[1..] + b;
      Assoc(Content(m, a[0]), Bytes(m, a[1..]), Bytes(m, b));
    }
  }

  /** A new last buffer. */
  lemma BytesSnoc(m: Bufs, ids: seq<Id>, i: Id)
    ensures Bytes(m, ids + [i]) == Bytes(m, ids) + Content(m, i)
  {
    BytesConcat(m, ids, [i]);
    assert [i][1..] == [];
  }

  // ---------- datagrams ----------

  /** How many buffers a copy of n bytes goes through. */
  function Touched(m: Bufs, ids: seq<Id>, n: nat): (k: nat)
    ensures k <= |ids|
  {
    if n == 0 || ids == [] then 0
    else 1 + Touched(m, ids[1..], if n < |Content(m, ids[0])| then 0 else n - |Content(m, ids[0])|)
  }

  function Pkt(m: Bufs, i: Id): nat {
    if i in m then m[i].pkt else 0
  }

  /** The list from its first buffer that claims to begin a packet. */
  function DropBody(m: Bufs, ids: seq<Id>): seq<Id> {
    if ids == [] || Pkt(m, ids[0]) != 0 then ids else DropBody(m, ids[1..])
  }

  /** A packet: its first buffer says how long it is, and no buffer is empty. The later buffers
      may say anything: a recycled buffer keeps the length of a packet that it once began. */
  ghost predicate IsPacket(m: Bufs, g: seq<Id>) {
    g != [] && Pkt(m, g[0]) == |Bytes(m, g)| && forall i :: i in g ==> Content(m, i) != []
  }

  function Flat(groups: seq<seq<Id>>): seq<Id> {
    if groups == [] then [] else groups[0] + Flat(groups[1..])
  }

  /** The list is a sequence of packets. */
  ghost predicate Packets(m: Bufs, ids: seq<Id>, groups: seq<seq<Id>>) {
    ids == Flat(groups) && forall g :: g in groups ==> IsPacket(m, g)
  }

  function Datagrams(m: Bufs, groups: seq<seq<Id>>): seq<seq<Byte>> {
    if groups == [] then [] else [Bytes(m, groups[0])] + Datagrams(m, groups[1..])
  }

  lemma TouchedCons(m: Bufs, x: Id, ids: seq<Id>, n: nat)
    requires 0 < |Content(m, x)| <= n
    ensures Touched(m, [x] + ids, n) == 1 + Touched(m, ids, n - |Content(m, x)|)
  {
    assert ([x] + ids)[0] == x && ([x] + ids)[1..] == ids;
  }

  /** A copy of a whole packet goes through exactly its buffers. */
  lemma {:induction false} TouchedWhole(m: Bufs, g: seq<Id>, rest: seq<Id>)
    requires forall i :: i in g ==> Content(m, i) != []
    ensures Touched(m, g + rest, |Bytes(m, g)|) == |g|
  {
    if g != [] {
      var x, t := g[0], g[1..];
      TouchedWhole(m, t, rest);
      assert x in g && g + rest == [x] + (t + rest);
      TouchedCons(m, x, t + rest, |Bytes(m, g)|);
    }
  }

  /** A copy of part of a packet stays within it. */
  lemma {:induction false} TouchedPart(m: Bufs, g: seq<Id>, rest: seq<Id>, n: nat)
    requires n <= |Bytes(m, g)|
    ensures Touched(m, g + rest, n) == Touched(m, g, n)
  {
    if g == [] {
      assert g + rest == rest;
    } else if n > 0 {
      assert (g + rest)[1..] == g[1..] + rest;
      TouchedPart(m, g[1..], rest, if n < |Content(m, g[0])| then 0 else n - |Content(m, g[0])|);
    }
  }

  lemma {:induction false} DropBodySkips(m: Bufs, a: seq<Id>, b: seq<Id>)
    ensures (forall i :: i in a ==> Pkt(m, i) == 0) ==> DropBody(m, a + b) == DropBody(m, b)
    ensures !(forall i :: i in a ==> Pkt(m, i) == 0) ==> DropBody(m, a + b) == DropBody(m, a) + b && DropBody(m, a) != []
  {
    if a == [] {
      assert a + b == b;
    } else {
      DropBodySkips(m, a[1..], b);
      assert (a + b)[1..] == a[1..] + b;
      assert a == [a[0]] + a[1..];
    }
  }

  /** What a datagram read leaves of the list. */
  function AfterRead(m: Bufs, ids: seq<Id>, len: nat): seq<Id> {
    if ids == [] then []
    else DropBody(m, ids[Touched(m, ids, Min(len, Pkt(m, ids[0])))..])
  }

  /** Reading at least a packet's length takes the packet and nothing else. */
  lemma WholeRead(m: Bufs, ids: seq<Id>, groups: seq<seq<Id>>, len: nat)
    requires Packets(m, ids, groups) && groups != [] && len >= |Bytes(m, groups[0])|
    ensures AfterRead(m, ids, len) == Flat(groups[1..]) && Packets(m, AfterRead(m, ids, len), groups[1..])
  {
    var g, rest := groups[0], Flat(groups[1..]);
    assert IsPacket(m, g) && ids == g + rest && ids[0] == g[0];
    TouchedWhole(m, g, rest);
    assert (g + rest)[|g|..] == rest;
    FirstBegins(m, groups[1..]);
  }

  lemma FirstBegins(m: Bufs, groups: seq<seq<Id>>)
    requires forall g :: g in groups ==> IsPacket(m, g)
    ensures DropBody(m, Flat(groups)) == Flat(groups)
  {
    if groups != [] {
      assert IsPacket(m, groups[0]) && Content(m, groups[0][0]) != [];
      assert Flat(groups)[0] == groups[0][0];
    }
  }

  /** A read that is too short, which should discard the rest of the packet, leaves exactly the
      later packets if and only if every buffer of the packet that it did not copy from has a
      packet length of zero. Reading nothing at all never qualifies. */
  lemma ShortRead(m: Bufs, ids: seq<Id>, groups: seq<seq<Id>>, len: nat)
    requires Packets(m, ids, groups) && groups != [] && len < |Bytes(m, groups[0])|
    ensures var g := groups[0];
            AfterRead(m, ids, len) == Flat(groups[1..])
            <==> forall i :: i in g[Touched(m, g, len)..] ==> Pkt(m, i) == 0
  {
    var g, rest := groups[0], Flat(groups[1..]);
    var k := Touched(m, g, len);
    assert IsPacket(m, g) && ids == g + rest && ids[0] == g[0];
    TouchedPart(m, g, rest, len);
    assert (g + rest)[k..] == g[k..] + rest;
    DropBodySkips(m, g[k..], rest);
    FirstBegins(m, groups[1..]);
    if !(forall i :: i in g[k..] ==> Pkt(m, i) == 0) {
      assert |DropBody(m, g[k..]) + rest| > |rest|;
    }
  }

  // ---------- the chain ----------

  datatype Result = Ok(written: nat) | ShouldWait | InvalidArgs | OutOfRange

  /** Buffers are on one of the two lists at most, and free ones are empty. */
  ghost predicate Sane(m: Bufs, tail: seq<Id>, free: seq<Id>, next: Id) {
    && Distinct(tail) && Distinct(free)
    && (forall i :: i in tail ==> i in m && BufOk(m[i]) && i !in free)
    && (forall i :: i in free ==> i in m && BufOk(m[i]) && m[i].off == 0 && m[i].len == 0)
    && (forall i :: i in m ==> i < next)
  }

  /** The head pointer is null if there is no buffer, else it is the last one. */
  ghost predicate HeadOk(tail: seq<Id>, head: Option<Id>) {
    if tail == [] then head == None else head == Some(tail[|tail| - 1])
  }

  /** The size is the number of bytes queued, within the bound. */
  ghost predicate ChainOk(m: Bufs, tail: seq<Id>, free: seq<Id>, head: Option<Id>, size: nat, next: Id) {
    Sane(m, tail, free, next) && HeadOk(tail, head) && size == |Bytes(m, tail)| && size <= SIZE_MAX
  }

  /** Buffers taken off the free list for a packet being built. */
  ghost predicate LooseOk(m: Bufs, tail: seq<Id>, free: seq<Id>, bs: seq<Id>) {
    Distinct(bs) && forall i :: i in bs ==> i in m && BufOk(m[i]) && m[i].off == 0 && i !in tail && i !in free
  }

  ghost predicate SameOn(m: Bufs, m': Bufs, ids: seq<Id>) {
    forall i :: i in ids ==> i in m && i in m' && m[i] == m'[i]
  }

  /** No buffer is lost, and none forgets the packet length it was given. */
  ghost predicate Recycled(m: Bufs, m': Bufs, tail: seq<Id>, tail': seq<Id>, free: seq<Id>, free': seq<Id>) {
    && |tail| + |free| == |tail'| + |free'|
    && (forall i :: i in tail || i in free ==> i in tail' || i in free')
    && (forall i :: Pkt(m', i) == Pkt(m, i))
  }

  lemma RecycledStep(m: Bufs, m1: Bufs, tail: seq<Id>, tail1: seq<Id>, free: seq<Id>, free1: seq<Id>)
    requires Recycled(m, m1, tail, tail1, free, free1) && tail1 != [] && tail1[0] in m1
    ensures Recycled(m, m1[tail1[0] := m1[tail1[0]].(off := 0, len := 0)], tail, tail1[1..], free, [tail1[0]] + free1)
  {
    assert tail1 == [tail1[0]] + tail1[1..];
  }

  function InsertAfter(ids: seq<Id>, h: Id, i: Id): seq<Id> {
    if ids == [] then [] else if ids[0] == h then [h, i] + ids[1..] else [ids[0]] + InsertAfter(ids[1..], h, i)
  }

  lemma {:induction false} InsertAfterLast(ids: seq<Id>, i: Id)
    requires ids != [] && Distinct(ids)
    ensures InsertAfter(ids, ids[|ids| - 1], i) == ids + [i]
  {
    if |ids| == 1 {
      assert ids[1..] == [];
    } else {
      assert ids[0] != ids[|ids| - 1];
      InsertAfterLast(ids[1..], i);
    }
  }

  /** Bytes copied into a buffer behind its content. */
  function Appended(b: MBuf, bytes: seq<Byte>): MBuf
    requires b.off + b.len + |bytes| <= |b.data|
  {
    var at := b.off + b.len;
    b.(len := b.len + |bytes|, data := b.data[..at] + bytes + b.data[at + |bytes|..])
  }

  /** A loose buffer joins the list. */
  lemma SaneSnoc(m: Bufs, tail: seq<Id>, free: seq<Id>, next: Id, i: Id)
    requires Sane(m, tail, free, next) && LooseOk(m, tail, free, [i])
    ensures Sane(m, tail + [i], free, next) && HeadOk(tail + [i], Some(i))
  {
    assert i in [i];
  }

  lemma AppendContent(m: Bufs, i: Id, bytes: seq<Byte>)
    requires i in m && BufOk(m[i]) && m[i].off + m[i].len + |bytes| <= PAYLOAD_SIZE
    ensures var m' := m[i := Appended(m[i], bytes)]; BufOk(m'[i]) && Content(m', i) == Content(m, i) + bytes
  {
  }

  lemma LastFrame(m: Bufs, ids: seq<Id>, b: MBuf)
    requires ids != [] && Distinct(ids)
    ensures Bytes(m[ids[|ids| - 1] := b], ids[..|ids| - 1]) == Bytes(m, ids[..|ids| - 1])
  {
    var a := ids[..|ids| - 1];
    forall x | x in a ensures x != ids[|ids| - 1] {}
    BytesFrame(m, m[ids[|ids| - 1] := b], a);
  }

  lemma AppendLast(m: Bufs, ids: seq<Id>, bytes: seq<Byte>)
    requires ids != [] && Distinct(ids) && ids[|ids| - 1] in m && BufOk(m[ids[|ids| - 1]])
    requires m[ids[|ids| - 1]].off + m[ids[|ids| - 1]].len + |bytes| <= PAYLOAD_SIZE
    ensures var i := ids[|ids| - 1]; var m' := m[i := Appended(m[i], bytes)];
            BufOk(m'[i]) && Bytes(m', ids) == Bytes(m, ids) + bytes
  {
    var i, a := ids[|ids| - 1], ids[..|ids| - 1];
    var m' := m[i := Appended(m[i], bytes)];
    assert ids == a + [i];
    BytesSnoc(m, a, i);
    BytesSnoc(m', a, i);
    LastFrame(m, ids, Appended(m[i], bytes));
    AppendContent(m, i, bytes);
    Assoc(Bytes(m, a), Content(m, i), bytes);
  }

  /** A buffer is put behind the head: it becomes the last one. */
  function Pushed(tail: seq<Id>, head: Option<Id>, i: Id): seq<Id> {
    if head == None then [i] + tail else InsertAfter(tail, head.value, i)
  }

  lemma PushedLast(tail: seq<Id>, head: Option<Id>, i: Id)
    requires HeadOk(tail, head) && Distinct(tail)
    ensures Pushed(tail, head, i) == tail + [i]
  {
    if head != None { InsertAfterLast(tail, i); }
  }

  lemma NewHeadOk(m: Bufs, m': Bufs, tail: seq<Id>, free: seq<Id>, head: Option<Id>, size: nat, next: Id, i: Id)
    requires size == |Bytes(m, tail)| && size <= SIZE_MAX && HeadOk(tail, head)
    requires Sane(m', tail, free, next) && LooseOk(m', tail, free, [i]) && m'[i].len == 0
    requires SameOn(m, m', tail)
    ensures ChainOk(m', Pushed(tail, head, i), free, Some(i), size, next)
    ensures Bytes(m', Pushed(tail, head, i)) == Bytes(m, tail)
  {
    assert i in [i];
    PushedLast(tail, head, i);
    SaneSnoc(m', tail, free, next, i);
    EmptySnoc(m, m', tail, i);
  }

  lemma EmptySnoc(m: Bufs, m': Bufs, tail: seq<Id>, i: Id)
    requires SameOn(m, m', tail) && i in m' && BufOk(m'[i]) && m'[i].len == 0
    ensures Bytes(m', tail + [i]) == Bytes(m, tail)
  {
    BytesFrame(m, m', tail);
    BytesSnoc(m', tail, i);
    assert Content(m', i) == [] && Bytes(m, tail) + [] == Bytes(m, tail);
  }

  /** The first n bytes of the first buffer are gone. */
  function Shortened(b: MBuf, n: nat): MBuf
    requires n <= b.len
  {
    b.(off := b.off + n, len := b.len - n)
  }

  lemma SaneUpdate(m: Bufs, tail: seq<Id>, free: seq<Id>, next: Id, i: Id, b: MBuf)
    requires Sane(m, tail, free, next) && i in tail && BufOk(b)
    ensures Sane(m[i := b], tail, free, next)
  {
  }

  lemma SanePop(m: Bufs, tail: seq<Id>, free: seq<Id>, next: Id)
    requires Sane(m, tail, free, next) && tail != []
    ensures Sane(m[tail[0] := m[tail[0]].(off := 0, len := 0)], tail[1..], [tail[0]] + free, next)
    ensures tail[0] !in tail[1..]
  {
    assert tail == [tail[0]] + tail[1..];
  }

  lemma HeadPop(tail: seq<Id>, head: Option<Id>)
    requires HeadOk(tail, head) && tail != [] && tail[0] !in tail[1..]
    ensures HeadOk(tail[1..], if head == Some(tail[0]) then None else head)
  {
  }

  lemma ShortenedContent(m: Bufs, i: Id, n: nat)
    requires i in m && BufOk(m[i]) && n <= m[i].len
    ensures BufOk(Shortened(m[i], n)) && |Content(m, i)| == m[i].len
    ensures Content(m, i) == Content(m, i)[..n] + Content(m[i := Shortened(m[i], n)], i)
  {
  }

  lemma FirstFrame(m: Bufs, ids: seq<Id>, b: MBuf)
    requires ids != [] && ids[0] !in ids[1..]
    ensures Bytes(m[ids[0] := b], ids[1..]) == Bytes(m, ids[1..])
  {
    BytesFrame(m, m[ids[0] := b], ids[1..]);
  }

  lemma TakeFrontOk(m: Bufs, tail: seq<Id>, free: seq<Id>, head: Option<Id>, size: nat, next: Id, n: nat)
    requires ChainOk(m, tail, free, head, size, next) && tail != [] && n <= m[tail[0]].len
    ensures n <= size
    ensures var m' := m[tail[0] := Shortened(m[tail[0]], n)];
            && ChainOk(m', tail, free, head, size - n, next)
            && Bytes(m, tail) == Content(m, tail[0])[..n] + Bytes(m', tail)
  {
    var i := tail[0];
    SanePop(m, tail, free, next);
    ShortenedContent(m, i, n);
    SaneUpdate(m, tail, free, next, i, Shortened(m[i], n));
    FirstFrame(m, tail, Shortened(m[i], n));
    Assoc(Content(m, i)[..n], Content(m[i := Shortened(m[i], n)], i), Bytes(m, tail[1..]));
  }

  lemma PopFrontOk(m: Bufs, tail: seq<Id>, free: seq<Id>, head: Option<Id>, size: nat, next: Id)
    requires ChainOk(m, tail, free, head, size, next) && tail != []
    ensures m[tail[0]].len <= size
    ensures var i := tail[0]; var m' := m[i := m[i].(off := 0, len := 0)];
            && ChainOk(m', tail[1..], [i] + free, if head == Some(i) then None else head, size - m[i].len, next)
            && Bytes(m, tail) == Content(m, i) + Bytes(m', tail[1..]) && SameOn(m, m', tail[1..])
  {
    var i := tail[0];
    SanePop(m, tail, free, next);
    HeadPop(tail, head);
    ShortenedContent(m, i, 0);
    FirstFrame(m, tail, m[i].(off := 0, len := 0));
  }

  lemma ExtendOk(m: Bufs, tail: seq<Id>, free: seq<Id>, head: Option<Id>, size: nat, next: Id, bytes: seq<Byte>)
    requires ChainOk(m, tail, free, head, size, next) && head.Some? && head.value in m && size + |bytes| <= SIZE_MAX
    requires m[head.value].off + m[head.value].len + |bytes| <= PAYLOAD_SIZE
    ensures tail != [] && BufOk(m[head.value])
    ensures var m' := m[head.value := Appended(m[head.value], bytes)];
            ChainOk(m', tail, free, head, size + |bytes|, next) && Bytes(m', tail) == Bytes(m, tail) + bytes
  {
    var i := head.value;
    assert i in tail;
    AppendLast(m, tail, bytes);
    AppendContent(m, i, bytes);
    SaneUpdate(m, tail, free, next, i, Appended(m[i], bytes));
  }

  /** State of a copy of n bytes from a list, k buffers into it. */
  ghost predicate Peeked(m: Bufs, ids: seq<Id>, k: nat, out: seq<Byte>, n: nat) {
    && k <= |ids| && |out| <= n && out <= Bytes(m, ids)
    && (|out| < n ==> Bytes(m, ids) == out + Bytes(m, ids[k..]))
  }

  /** What one buffer contributes to a copy that needs r more bytes. */
  function Piece(m: Bufs, i: Id, r: nat): seq<Byte> {
    Content(m, i)[..Min(|Content(m, i)|, r)]
  }

  lemma NextOf(m: Bufs, m': Bufs, ids: seq<Id>, k: nat, r: nat)
    requires k < |ids| && SameOn(m, m', ids[k..])
    ensures ids[k..][0] == ids[k] && ids[k..][1..] == ids[k + 1..] && Piece(m', ids[k], r) == Piece(m, ids[k], r)
  {
    assert ids[k..][0] == ids[k];
  }

  lemma PeekStart(m: Bufs, ids: seq<Id>, n: nat)
    ensures Peeked(m, ids, 0, [], n)
  {
    assert ids[0..] == ids;
  }

  lemma PeekStep(m: Bufs, ids: seq<Id>, k: nat, out: seq<Byte>, n: nat)
    requires k < |ids| && Peeked(m, ids, k, out, n) && |out| < n
    ensures Peeked(m, ids, k + 1, out + Piece(m, ids[k], n - |out|), n)
  {
    var x := Content(m, ids[k]);
    assert ids[k..][1..] == ids[k + 1..];
    Assoc(out, x, Bytes(m, ids[k + 1..]));
    assert x[..|x|] == x;
  }

  lemma PeekEnd(m: Bufs, ids: seq<Id>, k: nat, out: seq<Byte>, n: nat)
    requires Peeked(m, ids, k, out, n) && (|out| == n || k == |ids|)
    ensures |out| == Min(n, |Bytes(m, ids)|)
  {
  }

  class MBufChain {
    var bufs: Bufs
    var tail: seq<Id>
    var freelist: seq<Id>
    var head: Option<Id>
    var size: nat
    var next: Id

    ghost function Queue(): seq<Byte>
      reads this
    {
      Bytes(bufs, tail)
    }

    ghost predicate Valid()
      reads this
    {
      ChainOk(bufs, tail, freelist, head, size, next)
    }

    constructor ()
      ensures Valid() && Queue() == [] && tail == [] && freelist == []
    {
      bufs, tail, freelist, head, size, next := map[], [], [], None, 0, 0;
    }

    /** A buffer from the free list, or a new one if memory allows. */
    method AllocMBuf(noMemory: bool) returns (r: Option<Id>)
      requires Sane(bufs, tail, freelist, next)
      modifies this`bufs, this`freelist, this`next
      ensures Sane(bufs, tail, freelist, next)
      ensures r.None? <==> old(freelist) == [] && noMemory
      ensures r.None? ==> unchanged(this)
      ensures r.Some? ==>
                && LooseOk(bufs, tail, freelist, [r.value]) && bufs[r.value].len == 0
                && (if old(freelist) != [] then old(freelist) == [r.value] + freelist && bufs == old(bufs)
                    else r.value !in old(bufs) && freelist == [] && bufs == old(bufs)[r.value := bufs[r.value]] && bufs[r.value].pkt == 0)
    {
      if freelist == [] {
        if noMemory { return None; }
        r := Some(next);
        bufs := bufs[next := MBuf(0, 0, 0, seq(PAYLOAD_SIZE, _ => 0))];
        next := next + 1;
      } else {
        r := Some(freelist[0]);
        freelist := freelist[1..];
      }
    }

    method FreeMBuf(i: Id)
      requires Sane(bufs, tail, freelist, next) && i in bufs && BufOk(bufs[i]) && i !in tail && i !in freelist
      modifies this`bufs, this`freelist
      ensures Sane(bufs, tail, freelist, next)
      ensures bufs == old(bufs)[i := old(bufs[i]).(off := 0, len := 0)] && freelist == [i] + old(freelist)
    {
      bufs := bufs[i := bufs[i].(off := 0, len := 0)];
      freelist := [i] + freelist;
    }

    /** A new, empty head buffer behind the old one. */
    method NewHead(noMemory: bool) returns (ok: bool)
      requires Valid()
      modifies this`bufs, this`freelist, this`next, this`tail, this`head
      ensures Valid() && Queue() == old(Queue())
      ensures !ok ==> unchanged(this) && noMemory
      ensures ok ==> head.Some? && head.value in bufs && bufs[head.value].len == 0 && bufs[head.value].off == 0
    {
      var r := AllocMBuf(noMemory);
      if r.None? { return false; }
      ok := true;
      var i := r.value;
      NewHeadOk(old(bufs), bufs, tail, freelist, head, size, next, i);
      tail := Pushed(tail, head, i);
      head := Some(i);
    }

    /** Bytes copied into the head buffer. */
    method Extend(bytes: seq<Byte>)
      requires Valid() && head.Some? && head.value in bufs && size + |bytes| <= SIZE_MAX
      requires bufs[head.value].off + bufs[head.value].len + |bytes| <= PAYLOAD_SIZE
      modifies this`bufs, this`size
      ensures Valid() && Queue() == old(Queue()) + bytes
    {
      ExtendOk(bufs, tail, freelist, head, size, next, bytes);
      bufs := bufs[head.value := Appended(bufs[head.value], bytes)];
      size := size + |bytes|;
    }

    /** A stream write appends a prefix of what was offered, all of it that fits if no copy and no
        allocation fails. */
    method WriteStream(src: seq<Byte>, noMemory: nat -> bool, faults: nat -> bool) returns (r: Result)
      requires Valid()
      modifies this
      ensures Valid() && (r.Ok? || r == ShouldWait)
      ensures r.Ok? ==> 0 < r.written <= |src| && Queue() == old(Queue()) + src[..r.written]
      ensures !r.Ok? ==> Queue() == old(Queue())
      ensures (forall n :: !noMemory(n) && !faults(n)) ==>
                r == if Min(|src|, SIZE_MAX - old(size)) == 0 then ShouldWait else Ok(Min(|src|, SIZE_MAX - old(size)))
    {
      if head == None {
        var ok := NewHead(noMemory(0));
        if !ok { return ShouldWait; }
      }
      var pos := StreamLoop(src, noMemory, faults);
      if pos == 0 { return ShouldWait; }
      return Ok(pos);
    }

    /** A stream write into a chain that has a head buffer. */
    method StreamLoop(src: seq<Byte>, noMemory: nat -> bool, faults: nat -> bool) returns (pos: nat)
      requires Valid() && head.Some? && head.value in bufs
      modifies this
      ensures Valid() && pos <= |src| && Queue() == old(Queue()) + src[..pos]
      ensures (forall n :: !noMemory(n) && !faults(n)) ==> pos == Min(|src|, SIZE_MAX - old(size))
    {
      pos := 0;
      while pos < |src|
        invariant pos <= |src| && Valid() && head.Some? && head.value in bufs
        invariant Queue() == old(Queue()) + src[..pos] && size == old(size) + pos
        decreases |src| - pos
      {
        ghost var q := Queue();
        var n := StreamStep(src[pos..], noMemory(pos), faults(pos));
        if n == 0 { break; }
        assert src[pos..][..n] == src[pos..pos + n];
        Grow(old(Queue()), q, src, pos, n);
        pos := pos + n;
      }
    }

    /** One copy of a stream write, into a new head buffer if the old one is full; nothing if there is
        no memory, no room or a failed copy. */
    method StreamStep(src: seq<Byte>, noMemory: bool, fault: bool) returns (n: nat)
      requires Valid() && head.Some? && head.value in bufs && src != []
      modifies this
      ensures Valid() && head.Some? && head.value in bufs && n <= |src| && Queue() == old(Queue()) + src[..n]
      ensures size == old(size) + n && (n == 0 ==> noMemory || fault || old(size) == SIZE_MAX)
    {
      n := 0;
      if bufs[head.value].off + bufs[head.value].len == PAYLOAD_SIZE {
        var ok := NewHead(noMemory);
        if !ok { return; }
      }
      var c := Min(PAYLOAD_SIZE - bufs[head.value].off - bufs[head.value].len, |src|);
      if size + c > SIZE_MAX {
        c := SIZE_MAX - size;
        if c == 0 { return; }
      }
      if fault { return; }
      Extend(src[..c]);
      n := c;
    }

    /** The first n bytes of the first buffer are taken. */
    method TakeFront(n: nat) returns (bytes: seq<Byte>)
      requires Valid() && tail != [] && n <= bufs[tail[0]].len
      modifies this`bufs, this`size
      ensures Valid() && |bytes| == n && old(Queue()) == bytes + Queue()
      ensures bytes == old(Content(bufs, tail[0]))[..n]
      ensures bufs == old(bufs)[tail[0] := Shortened(old(bufs[tail[0]]), n)]
    {
      var i := tail[0];
      TakeFrontOk(bufs, tail, freelist, head, size, next, n);
      bytes := Content(bufs, i)[..n];
      bufs := bufs[i := Shortened(bufs[i], n)];
      size := size - n;
    }

    /** The first buffer goes back to the free list with whatever is left in it. */
    method PopFront()
      requires Valid() && tail != []
      modifies this`bufs, this`size, this`head, this`tail, this`freelist
      ensures Valid() && tail == old(tail)[1..] && freelist == [old(tail)[0]] + old(freelist)
      ensures old(Queue()) == old(Content(bufs, tail[0])) + Queue()
      ensures bufs == old(bufs)[old(tail)[0] := old(bufs[tail[0]]).(off := 0, len := 0)]
    {
      var i := tail[0];
      PopFrontOk(bufs, tail, freelist, head, size, next);
      size := size - bufs[i].len;
      if head == Some(i) { head := None; }
      tail := tail[1..];
      bufs := bufs[i := bufs[i].(off := 0, len := 0)];
      freelist := [i] + freelist;
    }

    /** One step of a datagram read that needs r more bytes: the buffer is freed with what is left
        in it. */
    method TakeAndFree(r: nat, ghost piece: seq<Byte>) returns (bytes: seq<Byte>)
      requires Valid() && tail != [] && piece == Piece(bufs, tail[0], r)
      modifies this
      ensures Valid() && bytes == piece
      ensures tail == old(tail)[1..] && freelist == [old(tail)[0]] + old(freelist)
      ensures bufs == old(bufs)[old(tail)[0] := old(bufs[tail[0]]).(off := 0, len := 0)]
    {
      ghost var b, n := bufs[tail[0]], Min(bufs[tail[0]].len, r);
      bytes := TakeFront(Min(bufs[tail[0]].len, r));
      assert Shortened(b, n).(off := 0, len := 0) == b.(off := 0, len := 0);
      PopFront();
    }

    /** One step of a stream read: a buffer that has become empty is freed. */
    method Consume(n: nat) returns (bytes: seq<Byte>)
      requires Valid() && tail != [] && n <= bufs[tail[0]].len
      modifies this
      ensures Valid() && |bytes| == n && old(Queue()) == bytes + Queue()
      ensures tail == if n == old(bufs[tail[0]]).len then old(tail)[1..] else old(tail)
    {
      bytes := TakeFront(n);
      if bufs[tail[0]].len == 0 {
        assert Content(bufs, tail[0]) == [];
        ghost var q := Queue();
        PopFront();
        assert q == Queue();
      }
    }

    /** A stream read takes a prefix: all that was asked for and is there, if no copy fails. */
    method ReadStream(len: nat, faults: nat -> bool) returns (out: seq<Byte>)
      requires Valid()
      modifies this
      ensures Valid() && old(Queue()) == out + Queue() && |out| <= len
      ensures (forall n :: !faults(n)) ==> |out| == Min(len, old(size))
    {
      out := [];
      if size == 0 { return; }
      while |out| < len && tail != []
        invariant Valid() && old(Queue()) == out + Queue() && |out| <= len
        decreases |tail|, len - |out|
      {
        var n := Min(bufs[tail[0]].len, len - |out|);
        if faults(|out|) { return; }
        var bytes := Consume(n);
        Assoc(out, bytes, Queue());
        out := out + bytes;
      }
    }

    /** Looking at the bytes without taking them. */
    method Peek(len: nat, datagram: bool, faults: nat -> bool) returns (out: seq<Byte>)
      requires Valid()
      ensures |out| <= len && out <= Queue()
      ensures datagram && tail != [] ==> |out| <= Pkt(bufs, tail[0])
      ensures (forall n :: !faults(n)) && size > 0 ==>
                |out| == Min(if datagram then Min(len, Pkt(bufs, tail[0])) else len, size)
    {
      out := [];
      if size == 0 { return; }
      var n := if datagram then Min(len, bufs[tail[0]].pkt) else len;
      var k := 0;
      PeekStart(bufs, tail, n);
      while |out| < n && k < |tail|
        invariant Peeked(bufs, tail, k, out, n)
      {
        if faults(|out|) { return; }
        PeekStep(bufs, tail, k, out, n);
        out := out + Piece(bufs, tail[k], n - |out|);
        k := k + 1;
      }
      PeekEnd(bufs, tail, k, out, n);
    }

    // ---------- datagrams ----------

    /** A datagram read without copy faults copies from the front as much as was asked for and the
        first buffer claims, frees every buffer it copied from, and then every buffer that does
        not claim to begin a packet. After a copy fault it has freed what it copied, and no more. */
    method ReadDatagram(len: nat, faults: nat -> bool) returns (out: seq<Byte>, faulted: bool)
      requires Valid()
      modifies this
      ensures Valid() && ((forall n :: !faults(n)) ==> !faulted)
      ensures old(size) == 0 ==> out == [] && unchanged(this) && !faulted
      ensures SameOn(old(bufs), bufs, tail) && Recycled(old(bufs), bufs, old(tail), tail, old(freelist), freelist)
      ensures old(size) > 0 ==>
                var n := Min(len, Pkt(old(bufs), old(tail[0])));
                && out <= old(Queue()) && |tail| <= |old(tail)|
                && (if faulted then |out| < n && old(Queue()) == out + Queue() && tail == old(tail)[|old(tail)| - |tail|..]
                    else |out| == Min(n, old(size)) && tail == AfterRead(old(bufs), old(tail), len))
    {
      out, faulted := [], false;
      if size == 0 { return; }
      var n := Min(len, bufs[tail[0]].pkt);
      out, faulted := CopyOut(n, faults);
      if faulted { return; }
      ghost var m, rest := bufs, tail;
      DropBodyFrame(old(bufs), m, rest);
      assert rest == old(tail)[Touched(old(bufs), old(tail), n)..];
      assert AfterRead(old(bufs), old(tail), len) == DropBody(old(bufs), rest);
      DrainBody();
      assert tail == DropBody(old(bufs), rest);
      assert SameOn(old(bufs), bufs, tail) by {
        forall i | i in tail ensures i in old(bufs) && i in bufs && old(bufs)[i] == bufs[i] { assert m[i] == bufs[i]; }
      }
    }

    /** One buffer of the copy below. */
    method CopyStep(out: seq<Byte>, n: nat, ghost m: Bufs, ghost ids: seq<Id>, ghost free: seq<Id>, ghost k: nat)
      returns (out': seq<Byte>)
      requires Valid() && tail != [] && |out| < n && Copying(m, ids, free, bufs, tail, freelist, k, out, n)
      modifies this
      ensures Valid() && Copying(m, ids, free, bufs, tail, freelist, k + 1, out', n) && |tail| == |old(tail)| - 1
    {
      RecycledStep(m, bufs, ids, tail, free, freelist);
      NextOf(m, bufs, ids, k, n - |out|);
      var bytes := TakeAndFree(n - |out|, Piece(m, ids[k], n - |out|));
      CopiedStep(m, ids, k, out, n, bytes);
      out' := out + bytes;
    }

    /** Copies n bytes, freeing every buffer it goes through. */
    method CopyOut(n: nat, faults: nat -> bool) returns (out: seq<Byte>, faulted: bool)
      requires Valid()
      modifies this
      ensures Valid() && ((forall p :: !faults(p)) ==> !faulted)
      ensures |tail| <= |old(tail)| && tail == old(tail)[|old(tail)| - |tail|..] && SameOn(old(bufs), bufs, tail)
      ensures out <= old(Queue()) && Recycled(old(bufs), bufs, old(tail), tail, old(freelist), freelist)
      ensures faulted ==> |out| < n && old(Queue()) == out + Queue()
      ensures !faulted ==> |out| == Min(n, old(size)) && tail == old(tail)[Touched(old(bufs), old(tail), n)..]
    {
      ghost var k;
      out, faulted, k := CopyLoop(n, faults);
      CopyEnd(old(bufs), old(tail), old(freelist), bufs, tail, freelist, k, out, n);
    }

    /** The loop: the first k buffers have been copied from. */
    method CopyLoop(n: nat, faults: nat -> bool) returns (out: seq<Byte>, faulted: bool, ghost k: nat)
      requires Valid()
      modifies this
      ensures Valid() && Copying(old(bufs), old(tail), old(freelist), bufs, tail, freelist, k, out, n)
      ensures if faulted then |out| < n && !(forall p :: !faults(p)) else |out| >= n || tail == []
    {
      out, faulted, k := [], false, 0;
      PeekStart(bufs, tail, n);
      assert tail[0..] == tail;
      while |out| < n && tail != []
        invariant Valid() && Copying(old(bufs), old(tail), old(freelist), bufs, tail, freelist, k, out, n)
        decreases |tail|
      {
        if faults(|out|) {
          faulted := true;
          return;
        }
        out := CopyStep(out, n, old(bufs), old(tail), old(freelist), k);
        k := k + 1;
      }
    }

    /** Frees the buffers at the front that do not claim to begin a packet. */
    method DrainBody()
      requires Valid()
      modifies this
      ensures Valid() && tail == DropBody(old(bufs), old(tail)) && |tail| <= |old(tail)| && SameOn(old(bufs), bufs, tail)
      ensures Recycled(old(bufs), bufs, old(tail), tail, old(freelist), freelist) && forall i :: i in tail ==> i in old(tail)
    {
      while tail != [] && bufs[tail[0]].pkt == 0
        invariant Valid() && SameOn(old(bufs), bufs, tail) && |tail| <= |old(tail)|
        invariant Recycled(old(bufs), bufs, old(tail), tail, old(freelist), freelist) && forall i :: i in tail ==> i in old(tail)
        invariant DropBody(old(bufs), tail) == DropBody(old(bufs), old(tail))
        decreases |tail|
      {
        RecycledStep(old(bufs), bufs, old(tail), tail, old(freelist), freelist);
        PopFront();
      }
    }

    /** Buffers for a packet; if there are not enough, those found are freed again. */
    method AllocPacket(need: nat, noMemory: nat -> bool) returns (ok: bool, bs: seq<Id>)
      requires Sane(bufs, tail, freelist, next) && need > 0
      modifies this`bufs, this`freelist, this`next
      ensures Sane(bufs, tail, freelist, next) && SameOn(old(bufs), bufs, tail)
      ensures !ok ==> exists n :: noMemory(n)
      ensures ok ==>
                && |bs| == need && LooseOk(bufs, tail, freelist, bs) && Empties(bufs, bs)
                && (forall i :: i in bs ==> Pkt(bufs, i) == Pkt(old(bufs), i))
                && (old(freelist) != [] ==> bs[|bs| - 1] == old(freelist)[0])
                && |freelist| == if |old(freelist)| < need then 0 else |old(freelist)| - need
    {
      bs := [];
      while |bs| < need
        invariant |bs| <= need && Sane(bufs, tail, freelist, next) && SameOn(old(bufs), bufs, tail)
        invariant LooseOk(bufs, tail, freelist, bs) && Empties(bufs, bs)
        invariant forall i :: Pkt(bufs, i) == Pkt(old(bufs), i)
        invariant |freelist| == if |old(freelist)| < |bs| then 0 else |old(freelist)| - |bs|
        invariant old(freelist) != [] ==> if bs == [] then freelist == old(freelist) else bs[|bs| - 1] == old(freelist)[0]
      {
        var r := AllocMBuf(noMemory(|bs|));
        if r.None? {
          FreeAll(bs);
          return false, [];
        }
        assert r.value in [r.value];
        bs := [r.value] + bs;
      }
      ok := true;
    }

    method FreeAll(list: seq<Id>)
      requires Sane(bufs, tail, freelist, next) && LooseOk(bufs, tail, freelist, list)
      modifies this`bufs, this`freelist
      ensures Sane(bufs, tail, freelist, next) && SameOn(old(bufs), bufs, tail)
    {
      var bs := list;
      while bs != []
        invariant Sane(bufs, tail, freelist, next) && LooseOk(bufs, tail, freelist, bs) && SameOn(old(bufs), bufs, tail)
        decreases |bs|
      {
        assert bs[0] in bs;
        FreeMBuf(bs[0]);
        bs := bs[1..];
      }
    }

    /** One copy of a datagram write, into the next buffer. */
    method FillOne(bs: seq<Id>, j: nat, src: seq<Byte>, pos: nat, ghost m0: Bufs) returns (pos': nat)
      requires src != [] && j < |bs| && Building(m0, bufs, tail, freelist, next, bs, j, src, pos)
      modifies this`bufs
      ensures Building(m0, bufs, tail, freelist, next, bs, j + 1, src, pos')
    {
      var n := Min(PAYLOAD_SIZE, |src| - pos);
      BuildNext(m0, bufs, tail, freelist, next, bs, j, src, pos, n);
      bufs := bufs[bs[j] := Appended(bufs[bs[j]], src[pos..pos + n])];
      pos' := pos + n;
    }

    /** The source is copied into the buffers, filling each but the last. */
    method CopyIn(bs: seq<Id>, src: seq<Byte>, faults: nat -> bool) returns (ok: bool)
      requires Sane(bufs, tail, freelist, next) && LooseOk(bufs, tail, freelist, bs) && Empties(bufs, bs)
      requires src != [] && |bs| == 1 + (|src| - 1) / PAYLOAD_SIZE
      modifies this`bufs
      ensures Sane(bufs, tail, freelist, next) && LooseOk(bufs, tail, freelist, bs) && SameOn(old(bufs), bufs, tail)
      ensures !ok ==> exists n :: faults(n)
      ensures forall i :: Pkt(bufs, i) == Pkt(old(bufs), i)
      ensures ok ==> Bytes(bufs, bs) == src && forall i :: i in bs ==> Content(bufs, i) != []
    {
      var pos: nat, j: nat := 0, 0;
      BuildStart(bufs, tail, freelist, next, bs, src);
      while j < |bs|
        invariant j <= |bs| && Building(old(bufs), bufs, tail, freelist, next, bs, j, src, pos)
      {
        if faults(pos) { return false; }
        pos := FillOne(bs, j, src, pos, old(bufs));
        j := j + 1;
      }
      Built(old(bufs), bufs, tail, freelist, next, bs, src, pos);
      ok := true;
    }

    /** The finished packet is put behind the head, buffer by buffer. */
    method PutOnSocket(list: seq<Id>)
      requires Sane(bufs, tail, freelist, next) && LooseOk(bufs, tail, freelist, list) && HeadOk(tail, head)
      modifies this`tail, this`head
      ensures Sane(bufs, tail, freelist, next) && HeadOk(tail, head) && tail == old(tail) + list
    {
      var j := 0;
      assert tail + list[..0] == tail && list[0..] == list;
      while j < |list|
        invariant Putting(bufs, tail, freelist, next, head, list, j, old(tail))
      {
        var i := list[j];
        PutStep(bufs, tail, freelist, next, head, list, j, old(tail));
        tail := Pushed(tail, head, i);
        head := Some(i);
        j := j + 1;
      }
      assert list[..j] == list;
    }

    /** A datagram write puts the whole packet behind all others, or changes nothing in the chain. */
    method WriteDatagram(src: seq<Byte>, noMemory: nat -> bool, faults: nat -> bool) returns (r: Result, ghost g: seq<Id>)
      requires Valid()
      modifies this
      ensures Valid() && SameOn(old(bufs), bufs, old(tail))
      ensures src == [] ==> r == InvalidArgs
      ensures |src| > SIZE_MAX ==> r == OutOfRange
      ensures 0 < |src| <= SIZE_MAX < |src| + old(size) ==> r == ShouldWait
      ensures 0 < |src| <= SIZE_MAX - old(size) && (forall n :: !noMemory(n) && !faults(n)) ==> r.Ok?
      ensures !r.Ok? ==> tail == old(tail) && head == old(head) && size == old(size)
      ensures r == InvalidArgs ==> src == [] || exists n :: faults(n)
      ensures r == ShouldWait ==> |src| + old(size) > SIZE_MAX || exists n :: noMemory(n)
      ensures r == OutOfRange ==> |src| > SIZE_MAX
      ensures r.Ok? ==>
                && r.written == |src| && tail == old(tail) + g && IsPacket(bufs, g) && Bytes(bufs, g) == src
                && (forall i :: i in g[1..] ==> Pkt(bufs, i) == Pkt(old(bufs), i))
                && |g| == 1 + (|src| - 1) / PAYLOAD_SIZE && (old(freelist) != [] ==> g[|g| - 1] == old(freelist)[0])
                && |freelist| == if |old(freelist)| < |g| then 0 else |old(freelist)| - |g|
    {
      g := [];
      if src == [] { r := InvalidArgs; return; }
      if |src| > SIZE_MAX { r := OutOfRange; return; }
      if |src| + size > SIZE_MAX { r := ShouldWait; return; }
      ghost var m := bufs;
      var need := 1 + (|src| - 1) / PAYLOAD_SIZE;
      var ok, bs := AllocPacket(need, noMemory);
      if !ok {
        BytesSame(m, bufs, tail);
        r := ShouldWait;
        return;
      }
      BytesSame(m, bufs, tail);
      ok := FinishPacket(bs, src, faults);
      if !ok {
        r := InvalidArgs;
        return;
      }
      g := bs;
      r := Ok(|src|);
    }

    /** The buffers of a packet are filled, marked and put on the socket, or freed again. */
    method FinishPacket(bs: seq<Id>, src: seq<Byte>, faults: nat -> bool) returns (ok: bool)
      requires Valid() && LooseOk(bufs, tail, freelist, bs) && Empties(bufs, bs)
      requires 0 < |src| <= SIZE_MAX - size && |bs| == 1 + (|src| - 1) / PAYLOAD_SIZE
      modifies this
      ensures Valid() && SameOn(old(bufs), bufs, old(tail))
      ensures !ok ==> tail == old(tail) && head == old(head) && size == old(size) && exists n :: faults(n)
      ensures ok ==> tail == old(tail) + bs && IsPacket(bufs, bs) && Bytes(bufs, bs) == src && freelist == old(freelist)
      ensures ok ==> forall i :: i in bs[1..] ==> Pkt(bufs, i) == Pkt(old(bufs), i)
    {
      ghost var m := bufs;
      ok := CopyIn(bs, src, faults);
      if !ok {
        FreeAll(bs);
        BytesSame(m, bufs, tail);
        return;
      }
      FirstMarked(bufs, bs, tail, freelist, next, |src|);
      bufs := bufs[bs[0] := bufs[bs[0]].(pkt := |src|)];
      BytesSame(m, bufs, tail);
      BytesConcat(bufs, tail, bs);
      PutOnSocket(bs);
      size := size + |src|;
    }

    // ---------- the queue of packets ----------

    /** A write adds its packet behind the others, or none. */
    method Send(src: seq<Byte>, noMemory: nat -> bool, faults: nat -> bool, ghost groups: seq<seq<Id>>)
      returns (r: Result, ghost groups': seq<seq<Id>>)
      requires Valid() && Packets(bufs, tail, groups)
      modifies this
      ensures Valid() && Packets(bufs, tail, groups')
      ensures Datagrams(bufs, groups') == old(Datagrams(bufs, groups)) + if r.Ok? then [src] else []
    {
      ghost var m, ids := bufs, tail;
      ghost var g;
      r, g := WriteDatagram(src, noMemory, faults);
      PacketsFrame(m, bufs, ids, groups);
      if r.Ok? {
        groups' := groups + [g];
        PacketsSnoc(bufs, ids, groups, g);
      } else {
        groups' := groups;
      }
    }

    /** A read with room for the first packet returns it whole and removes it, whatever buffers
        were recycled. */
    method Receive(len: nat, ghost groups: seq<seq<Id>>) returns (out: seq<Byte>, ghost groups': seq<seq<Id>>)
      requires Valid() && Packets(bufs, tail, groups)
      requires groups != [] ==> len >= |Bytes(bufs, groups[0])|
      modifies this
      ensures Valid() && Packets(bufs, tail, groups')
      ensures if groups == [] then out == [] && groups' == [] else old(Datagrams(bufs, groups)) == [out] + Datagrams(bufs, groups')
    {
      ghost var m, ids := bufs, tail;
      if groups != [] {
        FirstPacket(m, ids, groups);
        WholeRead(m, ids, groups, len);
      }
      var faulted;
      out, faulted := ReadDatagram(len, _ => false);
      groups' := if groups == [] then [] else groups[1..];
      if groups != [] {
        SamePrefix(out, Bytes(m, groups[0]), Bytes(m, ids));
        PacketsFrame(m, bufs, tail, groups');
      }
    }
  }

  /** Packets are what they were while their buffers are. */
  lemma {:induction false} PacketsFrame(m: Bufs, m': Bufs, ids: seq<Id>, groups: seq<seq<Id>>)
    requires Packets(m, ids, groups) && SameOn(m, m', ids)
    ensures Packets(m', ids, groups) && Datagrams(m', groups) == Datagrams(m, groups)
    decreases |groups|
  {
    if groups != [] {
      var g, rest := groups[0], Flat(groups[1..]);
      assert ids == g + rest && IsPacket(m, g);
      PacketsFrame(m, m', rest, groups[1..]);
      BytesFrame(m, m', g);
      forall x | x in groups ensures IsPacket(m', x) { assert x == g || x in groups[1..]; }
    }
  }

  lemma {:induction false} FlatSnoc(groups: seq<seq<Id>>, g: seq<Id>)
    ensures Flat(groups + [g]) == Flat(groups) + g
  {
    if groups == [] {
      assert (groups + [g])[1..] == [];
    } else {
      FlatSnoc(groups[1..], g);
      assert (groups + [g])[1..] == groups[1..] + [g];
    }
  }

  lemma {:induction false} DatagramsSnoc(m: Bufs, groups: seq<seq<Id>>, g: seq<Id>)
    ensures Datagrams(m, groups + [g]) == Datagrams(m, groups) + [Bytes(m, g)]
  {
    if groups == [] {
      assert (groups + [g])[1..] == [];
    } else {
      DatagramsSnoc(m, groups[1..], g);
      assert (groups + [g])[1..] == groups[1..] + [g];
    }
  }

  lemma PacketsSnoc(m: Bufs, ids: seq<Id>, groups: seq<seq<Id>>, g: seq<Id>)
    requires Packets(m, ids, groups) && IsPacket(m, g)
    ensures Packets(m, ids + g, groups + [g]) && Datagrams(m, groups + [g]) == Datagrams(m, groups) + [Bytes(m, g)]
  {
    FlatSnoc(groups, g);
    DatagramsSnoc(m, groups, g);
  }

  lemma SamePrefix(a: seq<Byte>, b: seq<Byte>, q: seq<Byte>)
    requires a <= q && b <= q && |a| == |b|
    ensures a == b
  {
  }

  /** The first packet is the first so many bytes. */
  lemma FirstPacket(m: Bufs, ids: seq<Id>, groups: seq<seq<Id>>)
    requires Packets(m, ids, groups) && groups != []
    ensures ids != [] && Pkt(m, ids[0]) == |Bytes(m, groups[0])| > 0 && Bytes(m, groups[0]) <= Bytes(m, ids)
  {
    var g := groups[0];
    assert IsPacket(m, g) && Content(m, g[0]) != [] && ids[0] == g[0];
    BytesConcat(m, g, Flat(groups[1..]));
  }

  /** A packet of one byte is written and read: its buffer is free again and still claims to begin
      a packet. */
  method Recycle(a: Byte) returns (c: MBufChain)
    ensures fresh(c) && c.Valid() && c.tail == [] && |c.freelist| == 1 && Pkt(c.bufs, c.freelist[0]) == 1
  {
    c := new MBufChain();
    var r, g := c.WriteDatagram([a], _ => false, _ => false);
    assert c.tail == g && |g| == 1;
    TouchedWhole(c.bufs, g, []);
    assert g + [] == g && g[1..] == [];
    ghost var i := g[0];
    var out, faulted := c.ReadDatagram(1, _ => false);
    assert i in c.freelist;
  }

  lemma AfterShort(m: Bufs, x: Id, i: Id)
    requires Content(m, x) != [] && Pkt(m, x) > 0 && Pkt(m, i) > 0
    ensures AfterRead(m, [x, i], 1) == [i]
  {
    assert [x, i][1..] == [i] && Touched(m, [i], 0) == 0 && Touched(m, [x, i], 1) == 1;
  }

  /** Then a packet of two buffers is written, and a byte of it is read, which should discard the
      rest. But its second buffer is the recycled one: it stays behind as a packet that nobody
      wrote. */
  method StaleLength(a: Byte, src: seq<Byte>) returns (c: MBufChain)
    requires |src| == PAYLOAD_SIZE + 1
    ensures fresh(c) && c.Valid() && |c.tail| == 1 && Pkt(c.bufs, c.tail[0]) == 1
  {
    c := Recycle(a);
    ghost var i := c.freelist[0];
    var r, g := c.WriteDatagram(src, _ => false, _ => false);
    assert c.tail == [g[0], i];
    assert Content(c.bufs, g[0]) != [] && g[1..] == [i];
    AfterShort(c.bufs, g[0], i);
    var out, faulted := c.ReadDatagram(1, _ => false);
  }

  ghost predicate Empties(m: Bufs, bs: seq<Id>) {
    forall i :: i in bs ==> i in m && m[i].off == 0 && m[i].len == 0
  }

  lemma BytesSame(m: Bufs, m': Bufs, ids: seq<Id>)
    requires SameOn(m, m', ids)
    ensures Bytes(m, ids) == Bytes(m', ids)
  {
    BytesFrame(m, m', ids);
  }

  /** The first j buffers of a packet being built hold the given bytes, the others nothing. */
  ghost predicate Filling(m0: Bufs, m: Bufs, tail: seq<Id>, free: seq<Id>, bs: seq<Id>, j: nat, bytes: seq<Byte>) {
    && j <= |bs| && LooseOk(m, tail, free, bs) && Empties(m, bs[j..])
    && Bytes(m, bs[..j]) == bytes
    && (forall i :: i in bs[..j] ==> Content(m, i) != [])
    && (forall i :: Pkt(m, i) == Pkt(m0, i))
  }

  lemma FillNext(m0: Bufs, m: Bufs, tail: seq<Id>, free: seq<Id>, bs: seq<Id>, j: nat, done: seq<Byte>, bytes: seq<Byte>)
    requires Filling(m0, m, tail, free, bs, j, done) && j < |bs| && 0 < |bytes| <= PAYLOAD_SIZE
    ensures bs[j] in m && m[bs[j]].off + m[bs[j]].len + |bytes| <= |m[bs[j]].data| && bs[j] !in tail && bs[j] !in free
    ensures BufOk(Appended(m[bs[j]], bytes))
    ensures Filling(m0, m[bs[j] := Appended(m[bs[j]], bytes)], tail, free, bs, j + 1, done + bytes)
  {
    var i := bs[j];
    assert i in bs && i in bs[j..];
    FillBytes(m, bs, j, bytes);
    FillRest(m, bs, j, Appended(m[i], bytes));
  }

  /** A packet being built, with the first j buffers filled from the source up to pos. */
  ghost predicate Building(m0: Bufs, m: Bufs, tail: seq<Id>, free: seq<Id>, next: Id, bs: seq<Id>, j: nat, src: seq<Byte>, pos: nat) {
    && j <= |bs| == 1 + (|src| - 1) / PAYLOAD_SIZE && pos == Min(j * PAYLOAD_SIZE, |src|)
    && Sane(m, tail, free, next) && SameOn(m0, m, tail) && Filling(m0, m, tail, free, bs, j, src[..pos])
  }

  lemma BuildStart(m: Bufs, tail: seq<Id>, free: seq<Id>, next: Id, bs: seq<Id>, src: seq<Byte>)
    requires Sane(m, tail, free, next) && LooseOk(m, tail, free, bs) && Empties(m, bs)
    requires src != [] && |bs| == 1 + (|src| - 1) / PAYLOAD_SIZE
    ensures Building(m, m, tail, free, next, bs, 0, src, 0)
  {
    assert bs[0..] == bs && bs[..0] == [];
  }

  lemma BuildNext(m0: Bufs, m: Bufs, tail: seq<Id>, free: seq<Id>, next: Id, bs: seq<Id>, j: nat, src: seq<Byte>, pos: nat, n: nat)
    requires src != [] && j < |bs| && Building(m0, m, tail, free, next, bs, j, src, pos) && n == Min(PAYLOAD_SIZE, |src| - pos)
    ensures 0 < n && pos + n <= |src| && bs[j] in m && m[bs[j]].off + m[bs[j]].len + n <= |m[bs[j]].data|
    ensures Building(m0, m[bs[j] := Appended(m[bs[j]], src[pos..pos + n])], tail, free, next, bs, j + 1, src, pos + n)
  {
    SplitAt(src, pos, n);
    FillNext(m0, m, tail, free, bs, j, src[..pos], src[pos..pos + n]);
  }

  lemma Built(m0: Bufs, m: Bufs, tail: seq<Id>, free: seq<Id>, next: Id, bs: seq<Id>, src: seq<Byte>, pos: nat)
    requires src != [] && Building(m0, m, tail, free, next, bs, |bs|, src, pos)
    ensures Bytes(m, bs) == src && forall i :: i in bs ==> Content(m, i) != []
  {
    assert bs[..|bs|] == bs && src[..pos] == src;
  }

  lemma FillBytes(m: Bufs, bs: seq<Id>, j: nat, bytes: seq<Byte>)
    requires j < |bs| && Distinct(bs) && bs[j] in m && BufOk(m[bs[j]]) && m[bs[j]].off == 0 && m[bs[j]].len == 0
    requires 0 < |bytes| <= PAYLOAD_SIZE && forall x :: x in bs[..j] ==> Content(m, x) != []
    ensures var m' := m[bs[j] := Appended(m[bs[j]], bytes)];
            && Bytes(m', bs[..j + 1]) == Bytes(m, bs[..j]) + bytes
            && forall x :: x in bs[..j + 1] ==> Content(m', x) != []
  {
    var i := bs[j];
    var m' := m[i := Appended(m[i], bytes)];
    AppendContent(m, i, bytes);
    assert Content(m, i) == [] && [] + bytes == bytes;
    BytesFrame(m, m', bs[..j]);
    BytesSnoc(m', bs[..j], i);
    assert bs[..j + 1] == bs[..j] + [i];
    forall x | x in bs[..j + 1] ensures Content(m', x) != [] { assert x != i ==> x in bs[..j]; }
  }

  lemma FillRest(m: Bufs, bs: seq<Id>, j: nat, b: MBuf)
    requires j < |bs| && Distinct(bs) && Empties(m, bs[j..])
    ensures Empties(m[bs[j] := b], bs[j + 1..])
  {
    forall x | x in bs[j + 1..] ensures x in m && x != bs[j] && m[x].off == 0 && m[x].len == 0 { assert x in bs[j..]; }
  }

  /** The first j buffers of a new packet are at the end of the chain, the others on no list yet. */
  ghost predicate Putting(m: Bufs, tail: seq<Id>, free: seq<Id>, next: Id, head: Option<Id>, list: seq<Id>, j: nat, tail0: seq<Id>) {
    && j <= |list| && tail == tail0 + list[..j]
    && Sane(m, tail, free, next) && HeadOk(tail, head) && LooseOk(m, tail, free, list[j..])
  }

  lemma PutStep(m: Bufs, tail: seq<Id>, free: seq<Id>, next: Id, head: Option<Id>, list: seq<Id>, j: nat, tail0: seq<Id>)
    requires Putting(m, tail, free, next, head, list, j, tail0) && j < |list|
    ensures Putting(m, Pushed(tail, head, list[j]), free, next, Some(list[j]), list, j + 1, tail0)
  {
    assert list[j] in list[j..];
    PushedLast(tail, head, list[j]);
    SaneSnoc(m, tail, free, next, list[j]);
    LooseRest(m, tail, free, list, j);
    assert tail + [list[j]] == tail0 + list[..j + 1];
  }

  lemma LooseRest(m: Bufs, tail: seq<Id>, free: seq<Id>, bs: seq<Id>, j: nat)
    requires j < |bs| && LooseOk(m, tail, free, bs[j..])
    ensures LooseOk(m, tail + [bs[j]], free, bs[j + 1..])
  {
    assert bs[j..] == [bs[j]] + bs[j + 1..];
  }

  /** The length of the packet is written into its first buffer. */
  lemma FirstMarked(m: Bufs, bs: seq<Id>, tail: seq<Id>, free: seq<Id>, next: Id, len: nat)
    requires bs != [] && Sane(m, tail, free, next) && LooseOk(m, tail, free, bs)
    requires |Bytes(m, bs)| == len && forall i :: i in bs ==> Content(m, i) != []
    ensures bs[0] in m
    ensures var m' := m[bs[0] := m[bs[0]].(pkt := len)];
            && Sane(m', tail, free, next) && LooseOk(m', tail, free, bs) && SameOn(m, m', tail)
            && IsPacket(m', bs) && Bytes(m', bs) == Bytes(m, bs)
            && (forall i :: i in bs[1..] ==> Pkt(m', i) == Pkt(m, i))
  {
    assert bs[0] in bs;
    var m' := m[bs[0] := m[bs[0]].(pkt := len)];
    BytesFrame(m, m', bs);
  }

  /** State of a copy of n bytes that has gone through k buffers. */
  ghost predicate Copied(m: Bufs, ids: seq<Id>, k: nat, out: seq<Byte>, n: nat) {
    Peeked(m, ids, k, out, n) && Touched(m, ids, n) == k + Touched(m, ids[k..], n - |out|)
  }

  ghost predicate Copying(m: Bufs, ids: seq<Id>, free: seq<Id>, m': Bufs, tail: seq<Id>, free': seq<Id>, k: nat, out: seq<Byte>, n: nat) {
    && k <= |ids| && tail == ids[k..] && SameOn(m, m', tail) && Copied(m, ids, k, out, n)
    && Recycled(m, m', ids, tail, free, free')
  }

  lemma {:induction false} DropBodyFrame(m: Bufs, m': Bufs, ids: seq<Id>)
    requires SameOn(m, m', ids)
    ensures DropBody(m, ids) == DropBody(m', ids)
  {
    if ids != [] { DropBodyFrame(m, m', ids[1..]); }
  }

  lemma CopiedStep(m: Bufs, ids: seq<Id>, k: nat, out: seq<Byte>, n: nat, bytes: seq<Byte>)
    requires k < |ids| && Copied(m, ids, k, out, n) && |out| < n && bytes == Piece(m, ids[k], n - |out|)
    ensures Copied(m, ids, k + 1, out + bytes, n)
  {
    PeekStep(m, ids, k, out, n);
    assert ids[k..][1..] == ids[k + 1..];
  }

  lemma CopyEnd(m: Bufs, ids: seq<Id>, free: seq<Id>, m': Bufs, tail: seq<Id>, free': seq<Id>, k: nat, out: seq<Byte>, n: nat)
    requires Copying(m, ids, free, m', tail, free', k, out, n)
    ensures |tail| <= |ids| && tail == ids[|ids| - |tail|..] && out <= Bytes(m, ids)
    ensures |out| < n ==> Bytes(m, ids) == out + Bytes(m', tail)
    ensures |out| == n || tail == [] ==> |out| == Min(n, |Bytes(m, ids)|) && tail == ids[Touched(m, ids, n)..]
  {
    BytesSame(m, m', tail);
    if |out| == n || tail == [] { CopiedAll(m, ids, k, out, n); }
  }

  lemma CopiedAll(m: Bufs, ids: seq<Id>, k: nat, out: seq<Byte>, n: nat)
    requires Copied(m, ids, k, out, n) && (|out| == n || k == |ids|)
    ensures Touched(m, ids, n) == k && |out| == Min(n, |Bytes(m, ids)|)
  {
    PeekEnd(m, ids, k, out, n);
  }
}

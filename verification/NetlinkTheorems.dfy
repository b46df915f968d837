/** Walking what was built: streams of messages, the round trip, and where the walk goes astray. */
module NetlinkTheorems {
  import opened Bytes
  import opened Netlink

  /** A message the walk handles: neither DONE nor ERROR, first attribute of the wanted type with a payload
      that its 16-bit length can state, further attributes padded. */
  predicate Fine(m: Msg, attr: u16) {
    && m.kind != NLMSG_DONE && m.kind != NLMSG_ERROR
    && m.attr == attr && |m.payload| <= 65531
    && |m.rest| % 4 == 0
    && Space(|m.payload|, |m.rest|) < 0x8000_0000
  }

  function Stream(ms: seq<Msg>): seq<byte> {
    if ms == [] then [] else Encode(ms[0]) + Stream(ms[1..])
  }

  /** The smallest of `len` and all payload lengths (ShortestIs). */
  function Shortest(ms: seq<Msg>, len: nat): (r: nat)
    ensures r <= len
  {
    if ms == [] then len else Shortest(ms[1..], Min(len, |ms[0].payload|))
  }

  lemma {:induction false} ShortestIs(ms: seq<Msg>, len: nat)
    ensures forall m :: m in ms ==> Shortest(ms, len) <= |m.payload|
    ensures Shortest(ms, len) == len || exists m :: m in ms && Shortest(ms, len) == |m.payload|
  {
    if ms != [] {
      var n, rest := Min(len, |ms[0].payload|), ms[1..];
      ShortestIs(rest, n);
      assert forall m :: m in ms <==> m == ms[0] || m in rest;
    }
  }

  /** The output buffer after each payload, cut to the length left over so far, has been copied to its front. */
  function Written(ms: seq<Msg>, out: seq<byte>, len: nat): (r: seq<byte>)
    requires len <= |out|
    ensures |r| == |out|
  {
    if ms == [] then out
    else
      var n := Min(len, |ms[0].payload|);
      Written(ms[1..], Overlay(out, 0, ms[0].payload[..n]), n)
  }

  /** A message with these fields starts at position `at` of s. */
  predicate FieldsAt(s: seq<byte>, at: nat, m: Msg) {
    var n := |m.payload|;
    && at + Space(n, |m.rest|) <= |s|
    && Le32(s, at) == U32(Space(n, |m.rest|)) && Le16(s, at + 4) == m.kind
    && Le16(s, at + 20) == AttrSize(n) % 0x1_0000 && Le16(s, at + 22) == m.attr
    && s[at + 24..at + 24 + n] == m.payload
  }

  /** The fields of a message are where the walk looks for them. */
  lemma EncodedFields(m: Msg, pre: seq<byte>, post: seq<byte>)
    ensures FieldsAt(pre + Encode(m) + post, |pre|, m)
  {
    var n := |m.payload|;
    var header := NlHeader(U32(Space(n, |m.rest|)), m.kind, m.flags, m.seqno, m.pid);
    var attrHeader := AttrHeader(n, m.attr);
    var s, at := pre + Encode(m) + post, |pre|;
    AlignUp(AttrSize(n));
    hide NlHeader, AttrHeader, Padding, Align;
    assert s[at..at + 16] == header;
    assert s[at + 20..at + 24] == attrHeader;
    SliceFields(s, at, 16);
    SliceFields(s, at + 20, 4);
  }

  /** Fields of a slice are fields of the whole. */
  lemma SliceFields(s: seq<byte>, at: nat, n: nat)
    requires at + n <= |s| && n >= 4
    ensures Le32(s, at) == Le32(s[at..at + n], 0)
    ensures Le16(s, at) == Le16(s[at..at + n], 0) && Le16(s, at + 2) == Le16(s[at..at + n], 2)
    ensures n >= 6 ==> Le16(s, at + 4) == Le16(s[at..at + n], 4)
  {
  }

  /** The space of a message is a multiple of 4, holds the headers and the payload, and wastes less than a word. */
  lemma SpaceAligned(n: nat, rest: nat)
    requires rest % 4 == 0
    ensures Align(Space(n, rest)) == Space(n, rest) && 24 + n + rest <= Space(n, rest) < 24 + n + rest + 4
  {
    AlignUp(AttrSize(n));
  }

  /** The first attribute of a fine message is found, with exactly its payload. */
  lemma FineTaken(s: seq<byte>, at: nat, m: Msg, attr: u16, out: seq<byte>, len: nat)
    requires FieldsAt(s, at, m) && Fine(m, attr) && len <= |out|
    ensures var n := Min(len, |m.payload|);
            TakeAttr(s, at, Space(|m.payload|, |m.rest|), attr, out, len)
            == Copied(Overlay(out, 0, m.payload[..n]), n)
  {
    hide Le16, Le32, Align;
    var n, size := Min(len, |m.payload|), Space(|m.payload|, |m.rest|);
    SpaceAligned(|m.payload|, |m.rest|);
    assert FindAttr(s, at + 20, size - 4, attr) == Match(at + 20, |m.payload|);
    assert s[at + 24..at + 24 + n] == s[at + 24..at + 24 + |m.payload|][..n];
  }

  /** From one boundary to the next: the walk consumes a fine message exactly. */
  lemma FineStep(s: seq<byte>, at: nat, left: nat, m: Msg, attr: u16, out: seq<byte>, len: nat, ret: int)
    requires FieldsAt(s, at, m) && Fine(m, attr) && len <= |out|
    requires Space(|m.payload|, |m.rest|) + left < 0x8000_0000
    ensures var n, size := Min(len, |m.payload|), Space(|m.payload|, |m.rest|);
            Walk(s, at, size + left, attr, out, len, ret)
            == Walk(s, at + size, left, attr, Overlay(out, 0, m.payload[..n]), n, 0)
  {
    hide Le16, Le32, Align, TakeAttr, Overlay;
    SpaceAligned(|m.payload|, |m.rest|);
    FineTaken(s, at, m, attr, out, len);
  }

  /** Stream walk: on any concatenation of fine messages the walk lands on each boundary, ends with no byte left,
      returns 0, and leaves in *len the least of the capacity and all payload lengths. */
  lemma {:induction false} StreamWalk(ms: seq<Msg>, attr: u16, pre: seq<byte>, out: seq<byte>, len: nat, ret: int)
    requires forall m :: m in ms ==> Fine(m, attr)
    requires len <= |out| && |Stream(ms)| < 0x8000_0000
    ensures Walk(pre + Stream(ms), |pre|, |Stream(ms)|, attr, out, len, ret)
         == Done(if ms == [] then ret else 0, Written(ms, out, len), Shortest(ms, len))
    decreases |ms|, 1
  {
    if ms == [] {
      assert pre + [] == pre;
    } else {
      StreamCons(ms, attr, pre, out, len, ret);
    }
  }

  lemma {:induction false} StreamCons(ms: seq<Msg>, attr: u16, pre: seq<byte>, out: seq<byte>, len: nat, ret: int)
    requires ms != [] && forall m :: m in ms ==> Fine(m, attr)
    requires len <= |out| && |Stream(ms)| < 0x8000_0000
    ensures Walk(pre + Stream(ms), |pre|, |Stream(ms)|, attr, out, len, ret)
         == Done(0, Written(ms, out, len), Shortest(ms, len))
    decreases |ms|, 0
  {
    hide Encode, Walk, Fine, FieldsAt, Overlay, Space;
    var m, rest := ms[0], ms[1..];
    var n := Min(len, |m.payload|);
    var s, next := pre + Encode(m) + Stream(rest), Overlay(out, 0, m.payload[..n]);
    assert pre + Stream(ms) == s;
    EncodedFields(m, pre, Stream(rest));
    FineStep(s, |pre|, |Stream(rest)|, m, attr, out, len, ret);
    StreamWalk(rest, attr, pre + Encode(m), next, n, 0);
  }

  /** What is then in the output buffer: the last message's payload up to *len, and beyond the original
      capacity nothing new. */
  lemma {:induction false} WrittenIs(ms: seq<Msg>, out: seq<byte>, len: nat)
    requires len <= |out| && ms != []
    ensures Shortest(ms, len) <= |ms[|ms| - 1].payload|
    ensures Written(ms, out, len)[..Shortest(ms, len)] == ms[|ms| - 1].payload[..Shortest(ms, len)]
    ensures Written(ms, out, len)[len..] == out[len..]
    decreases |ms|
  {
    var n := Min(len, |ms[0].payload|);
    var next := Overlay(out, 0, ms[0].payload[..n]);
    if |ms| == 1 {
      assert Written(ms[1..], next, n) == next;
    } else {
      WrittenIs(ms[1..], next, n);
      assert next[n..][len - n..] == out[len..];
    }
  }

  lemma StreamHead(ms: seq<Msg>)
    requires ms != []
    ensures |Stream(ms)| >= 24 && Le16(Stream(ms), 4) == ms[0].kind
  {
    assert [] + Encode(ms[0]) + Stream(ms[1..]) == Stream(ms);
    hide Encode, Le16;
    EncodedFields(ms[0], [], Stream(ms[1..]));
  }

  /** genlmsg_dispatch on a whole stream. */
  lemma StreamDispatch(ms: seq<Msg>, kind: u16, attr: u16, out: seq<byte>, len: nat)
    requires ms != [] && (forall m :: m in ms ==> Fine(m, attr)) && (kind == 0 || kind == ms[0].kind)
    requires len <= |out| && |Stream(ms)| < 0x8000_0000
    ensures var r, n := Dispatch(Stream(ms), kind, attr, out, len), Shortest(ms, len);
            && r.Done? && r.ret == 0 && r.len == n && n <= |ms[|ms| - 1].payload|
            && r.out[..n] == ms[|ms| - 1].payload[..n] && r.out[len..] == out[len..]
  {
    StreamHead(ms);
    assert [] + Stream(ms) == Stream(ms);
    hide Encode, Walk, Fine, Le16, Written, Shortest, Stream;
    StreamWalk(ms, attr, [], out, len, -1);
    WrittenIs(ms, out, len);
  }

  // ----- one message -----

  /** The allocation is 4-aligned and holds the headers and the payload. */
  lemma BuiltInside(m: Msg)
    requires m.rest == []
    ensures |Encode(m)| % 4 == 0 && 16 + 4 + 4 + |m.payload| <= |Encode(m)| < 16 + 4 + 4 + |m.payload| + 4
  {
    SpaceAligned(|m.payload|, 0);
    AlignUp(|Encode(m)|);
    hide Encode, Align;
  }

  /** Length the attribute header really states: the payload's, reduced modulo 2^16 together with its header. */
  function Stated(n: nat): (r: int)
    ensures r <= n && (r == n <==> n <= 65531)
  {
    AttrSize(n) % 0x1_0000 - NLA_HDRLEN
  }

  /** The attribute search in one built message, whatever its payload length. */
  lemma SingleTaken(s: seq<byte>, m: Msg, out: seq<byte>, len: nat)
    requires m.rest == [] && len <= |out| && |s| == Space(|m.payload|, 0) && FieldsAt(s, 0, m)
    ensures var l := Stated(|m.payload|);
            TakeAttr(s, 0, |s|, m.attr, out, len)
            == if l < 0 then Nothing else Copied(Overlay(out, 0, m.payload[..Min(len, l)]), Min(len, l))
  {
    hide Le16, Le32, Align, Overlay;
    var n, l := |m.payload|, Stated(|m.payload|);
    SpaceAligned(n, 0);
    if l >= 0 {
      assert FindAttr(s, 20, |s| - 4, m.attr) == Match(20, l);
      assert s[24..24 + Min(len, l)] == s[24..24 + n][..Min(len, l)];
    }
  }

  /** A lone message is taken once, then no byte is left. */
  lemma DispatchOne(s: seq<byte>, m: Msg, kind: u16, attr: u16, out: seq<byte>, len: nat)
    requires |s| == Space(|m.payload|, 0) < 0x8000_0000 && FieldsAt(s, 0, m) && m.rest == [] && len <= |out|
    requires m.kind != NLMSG_DONE && m.kind != NLMSG_ERROR && (kind == 0 || kind == m.kind)
    ensures Dispatch(s, kind, attr, out, len) ==
            match TakeAttr(s, 0, |s|, attr, out, len)
            case Astray => Lost
            case Nothing => Done(-1, out, len)
            case Copied(copied, n) => Done(0, copied, n)
  {
    hide TakeAttr, Le16, Le32, Align;
    SpaceAligned(|m.payload|, 0);
    assert forall o: seq<byte>, n: nat, ret: int :: n <= |o| ==> Walk(s, |s|, 0, attr, o, n, ret) == Done(ret, o, n);
  }

  /** Dispatching one built message. */
  lemma SingleWalk(m: Msg, kind: u16, out: seq<byte>, len: nat)
    requires m.rest == [] && Space(|m.payload|, 0) < 0x8000_0000 && len <= |out|
    requires m.kind != NLMSG_DONE && m.kind != NLMSG_ERROR && (kind == 0 || kind == m.kind)
    ensures var l := Stated(|m.payload|);
            var n := Min(len, l);
            Dispatch(Encode(m), kind, m.attr, out, len)
            == if l < 0 then Done(-1, out, len) else Done(0, Overlay(out, 0, m.payload[..n]), n)
  {
    hide Encode, FieldsAt, Dispatch, TakeAttr, Overlay, Stated;
    var s := Encode(m);
    assert [] + s + [] == s;
    EncodedFields(m, [], []);
    SingleTaken(s, m, out, len);
    DispatchOne(s, m, kind, m.attr, out, len);
  }

  /** Round trip: dispatching a built message returns 0 and copies exactly the first min(capacity, length)
      payload bytes, exactly when the payload length survives the 16-bit attribute length (up to 65531
      bytes) or at least the part of it that the caller has room for. */
  lemma RoundTripIff(m: Msg, kind: u16, out: seq<byte>, len: nat)
    requires m.rest == [] && Space(|m.payload|, 0) < 0x8000_0000 && len <= |out|
    requires m.kind != NLMSG_DONE && m.kind != NLMSG_ERROR && (kind == 0 || kind == m.kind)
    ensures var n := Min(len, |m.payload|);
            Dispatch(Encode(m), kind, m.attr, out, len) == Done(0, Overlay(out, 0, m.payload[..n]), n)
            <==> |m.payload| <= 65531 || 0 <= len <= Stated(|m.payload|)
  {
    hide Encode, Overlay, Dispatch, Space, Stated;
    SingleWalk(m, kind, out, len);
  }

  /** The message that is built, byte by byte: little-endian length, type, flags (1, a request), sequence number 0 and
      pid; command and version; length and type of the attribute; the payload, and zeros up to the next word. */
  lemma BuiltBytes(kind: u16, pid: u32, cmd: byte, version: byte, attr: u16, data: seq<byte>)
    requires 24 + |data| + 3 < 0x8000_0000
    ensures var b, n := Encode(Msg(kind, NLM_F_REQUEST, 0, pid, cmd, version, attr, data, [])), |data|;
            && |b| == 24 + (n + 3) / 4 * 4
            && b[0] as int + b[1] as int * 0x100 + b[2] as int * 0x1_0000 + b[3] as int * 0x100_0000 == |b|
            && b[4] as int + b[5] as int * 0x100 == kind && b[6] == 1 && b[7] == 0
            && b[8] == 0 && b[9] == 0 && b[10] == 0 && b[11] == 0
            && b[12] as int + b[13] as int * 0x100 + b[14] as int * 0x1_0000 + b[15] as int * 0x100_0000 == pid
            && b[16] == cmd && b[17] == version && b[18] == 0 && b[19] == 0
            && b[20] as int + b[21] as int * 0x100 == (4 + n) % 0x1_0000
            && b[22] as int + b[23] as int * 0x100 == attr
            && b[24..24 + n] == data && forall i :: 24 + n <= i < |b| ==> b[i] == 0
  {
    var n := |data|;
    var b := Encode(Msg(kind, NLM_F_REQUEST, 0, pid, cmd, version, attr, data, []));
    hide NlHeader, AttrHeader, Encode, Space, Zeros, U32;
    AlignedSize(n);
    BuiltParts(kind, pid, cmd, version, attr, data);
    NlHeaderIn(b, U32(Space(n, 0)), kind, pid);
    AttrHeaderIn(b, n, attr);
    CommandIn(b, cmd, version);
    ZerosAt(b, 24 + n);
  }

  lemma CommandIn(b: seq<byte>, cmd: byte, version: byte)
    requires |b| >= 20 && b[16..20] == [cmd, version, 0, 0]
    ensures b[16] == cmd && b[17] == version && b[18] == 0 && b[19] == 0
  {
    assert b[16] == b[16..20][0] && b[17] == b[16..20][1] && b[18] == b[16..20][2] && b[19] == b[16..20][3];
  }

  lemma ZerosAt(b: seq<byte>, from: nat)
    requires from <= |b| && b[from..] == Zeros(|b| - from)
    ensures forall i :: from <= i < |b| ==> b[i] == 0
  {
    assert forall i :: from <= i < |b| ==> b[i] == b[from..][i - from];
  }

  lemma BuiltParts(kind: u16, pid: u32, cmd: byte, version: byte, attr: u16, data: seq<byte>)
    ensures var b, n := Encode(Msg(kind, NLM_F_REQUEST, 0, pid, cmd, version, attr, data, [])), |data|;
            && |b| == Space(n, 0) >= 24 + n
            && b[..16] == NlHeader(U32(Space(n, 0)), kind, NLM_F_REQUEST, 0, pid)
            && b[16..20] == [cmd, version, 0, 0] && b[20..24] == AttrHeader(n, attr)
            && b[24..24 + n] == data && b[24 + n..] == Zeros(|b| - 24 - n)
  {
    AlignUp(AttrSize(|data|));
    hide NlHeader, AttrHeader, Align, U32, Zeros;
  }

  lemma AlignedSize(n: nat)
    requires 24 + n + 3 < 0x8000_0000
    ensures U32(Space(n, 0)) == Space(n, 0) == 24 + (n + 3) / 4 * 4
  {
  }

  lemma NlHeaderIn(b: seq<byte>, len: u32, kind: u16, pid: u32)
    requires |b| >= 16 && b[..16] == NlHeader(len, kind, 1, 0, pid)
    ensures b[0] as int + b[1] as int * 0x100 + b[2] as int * 0x1_0000 + b[3] as int * 0x100_0000 == len
    ensures b[4] as int + b[5] as int * 0x100 == kind && b[6] == 1 && b[7] == 0
    ensures b[8] == 0 && b[9] == 0 && b[10] == 0 && b[11] == 0
    ensures b[12] as int + b[13] as int * 0x100 + b[14] as int * 0x1_0000 + b[15] as int * 0x100_0000 == pid
  {
    assert forall i :: 0 <= i < 16 ==> b[i] == b[..16][i];
  }

  lemma AttrHeaderIn(b: seq<byte>, n: nat, attr: u16)
    requires |b| >= 24 && b[20..24] == AttrHeader(n, attr)
    ensures b[20] as int + b[21] as int * 0x100 == (4 + n) % 0x1_0000 && b[22] as int + b[23] as int * 0x100 == attr
  {
    assert b[20] == b[20..24][0] && b[21] == b[20..24][1] && b[22] == b[20..24][2] && b[23] == b[20..24][3];
  }
}

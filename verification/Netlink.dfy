/** Generic-netlink messages as demo2_user.c lays them out and walks them, on a little-endian machine. */
module Netlink {
  import opened Bytes

  const NLMSG_HDRLEN := 16
  const GENL_HDRLEN := 4
  const NLA_HDRLEN := 4
  const NLMSG_ERROR: u16 := 2
  const NLMSG_DONE: u16 := 3
  const NLM_F_REQUEST: u16 := 1

  /** NLMSG_ALIGN and NLA_ALIGN. */
  function Align(n: nat): nat {
    (n + 3) / 4 * 4
  }

  lemma AlignUp(n: nat)
    ensures n <= Align(n) < n + 4 && Align(n) % 4 == 0
  {
  }

  /** nla_attr_size and nla_total_size: header plus payload, without and with padding. */
  function AttrSize(payload: nat): nat {
    NLA_HDRLEN + payload
  }

  function TotalSize(payload: nat): nat {
    Align(AttrSize(payload))
  }

  // ----- little-endian fields -----

  function Le16(s: seq<byte>, at: nat): u16
    requires at + 2 <= |s|
  {
    s[at] as int + s[at + 1] as int * 0x100
  }

  function Le32(s: seq<byte>, at: nat): u32
    requires at + 4 <= |s|
  {
    Le16(s, at) as int + Le16(s, at + 2) as int * 0x1_0000
  }

  function Put16(x: u16): (r: seq<byte>)
    ensures |r| == 2 && Le16(r, 0) == x
  {
    [x % 0x100, x / 0x100]
  }

  function Put32(x: u32): (r: seq<byte>)
    ensures |r| == 4 && Le32(r, 0) == x
  {
    Put16(x % 0x1_0000) + Put16(x / 0x1_0000)
  }

  // ----- layout -----

  /** A message whose first attribute carries `payload`; `rest` is whatever follows that attribute. */
  datatype Msg = Msg(kind: u16, flags: u16, seqno: u32, pid: u32, cmd: byte, version: byte,
                     attr: u16, payload: seq<byte>, rest: seq<byte>)

  function Padding(n: nat): seq<byte> {
    Zeros(Align(n) - n)
  }

  function NlHeader(len: u32, kind: u16, flags: u16, seqno: u32, pid: u32): (r: seq<byte>)
    ensures |r| == NLMSG_HDRLEN && Le32(r, 0) == len && Le16(r, 4) == kind
  {
    Put32(len) + Put16(kind) + Put16(flags) + Put32(seqno) + Put32(pid)
  }

  /** struct nlattr; its length field has only 16 bits. */
  function AttrHeader(payload: nat, attr: u16): (r: seq<byte>)
    ensures |r| == NLA_HDRLEN && Le16(r, 0) == AttrSize(payload) % 0x1_0000 && Le16(r, 2) == attr
  {
    Put16(AttrSize(payload) % 0x1_0000) + Put16(attr)
  }

  /** Bytes of a message with an n-byte payload and `rest` more bytes of attributes. */
  function Space(n: nat, rest: nat): nat {
    NLMSG_HDRLEN + GENL_HDRLEN + TotalSize(n) + rest
  }

  function Encode(m: Msg): (r: seq<byte>)
    ensures |r| == Space(|m.payload|, |m.rest|)
  {
    NlHeader(U32(Space(|m.payload|, |m.rest|)), m.kind, m.flags, m.seqno, m.pid)
    + [m.cmd, m.version, 0, 0]
    + AttrHeader(|m.payload|, m.attr)
    + m.payload + Padding(AttrSize(|m.payload|))
    + m.rest
  }

  /** One field written behind what has been laid out so far. */
  method Put(buf: array<byte>, at: nat, data: seq<byte>) returns (next: nat)
    requires at + |data| <= buf.Length
    modifies buf
    ensures next == at + |data|
    ensures buf[..next] == old(buf[..at]) + data
    ensures forall i :: next <= i < buf.Length ==> buf[i] == old(buf[i])
  {
    Copy(buf, at, data);
    next := at + |data|;
    assert buf[..next] == buf[..][..next];
    forall i | next <= i < buf.Length ensures buf[i] == old(buf[i]) {
      assert buf[i] == buf[..][i];
    }
  }

  /** The netlink header, field by field. */
  method PutNlHeader(buf: array<byte>, len: u32, kind: u16, pid: u32) returns (at: nat)
    requires buf.Length >= NLMSG_HDRLEN
    modifies buf
    ensures at == NLMSG_HDRLEN
    ensures buf[..at] == NlHeader(len, kind, NLM_F_REQUEST, 0, pid)
    ensures forall i :: at <= i < buf.Length ==> buf[i] == old(buf[i])
  {
    hide Put16, Put32;
    at := Put(buf, 0, Put32(len));
    at := Put(buf, at, Put16(kind));
    at := Put(buf, at, Put16(NLM_F_REQUEST));
    at := Put(buf, at, Put32(0));
    at := Put(buf, at, Put32(pid));
  }

  /** The attribute header and its payload. */
  method PutAttr(buf: array<byte>, from: nat, attr: u16, data: seq<byte>) returns (at: nat)
    requires from + AttrSize(|data|) <= buf.Length
    modifies buf
    ensures at == from + AttrSize(|data|)
    ensures buf[..at] == old(buf[..from]) + AttrHeader(|data|, attr) + data
    ensures forall i :: at <= i < buf.Length ==> buf[i] == old(buf[i])
  {
    hide Put16;
    at := Put(buf, from, Put16(AttrSize(|data|) % 0x1_0000));
    at := Put(buf, at, Put16(attr));
    at := Put(buf, at, data);
  }

  /** genlmsg_alloc and the layout half of genlmsg_send: null where the source returns -1. */
  method Build(kind: u16, pid: u32, cmd: byte, version: byte, attr: u16, data: seq<byte>) returns (buf: array?<byte>)
    requires Space(|data|, 0) < 0x8000_0000
    ensures buf == null <==> kind == 0 || |data| == 0
    ensures buf != null ==> fresh(buf)
    ensures buf != null ==> buf[..] == Encode(Msg(kind, NLM_F_REQUEST, 0, pid, cmd, version, attr, data, []))
  {
    if kind == 0 || |data| == 0 {
      return null;
    }
    hide NlHeader, AttrHeader, U32, Align, Zeros;
    var len := Align(TotalSize(|data|) + GENL_HDRLEN + NLMSG_HDRLEN);
    AllocSize(|data|);
    buf := new byte[len](_ => 0);
    var at := PutNlHeader(buf, len, kind, pid);
    buf[at] := cmd;
    buf[at + 1] := version;
    at := at + GENL_HDRLEN;
    assert buf[..at] == NlHeader(len, kind, NLM_F_REQUEST, 0, pid) + [cmd, version, 0, 0];
    at := PutAttr(buf, at, attr, data);
    assert buf[at..] == Padding(AttrSize(|data|)) by {
      ZerosAre(buf[at..]);
    }
    assert buf[..] == buf[..at] + buf[at..];
  }

  /** NLMSG_SPACE of a generic-netlink message with one attribute. */
  lemma AllocSize(n: nat)
    requires Space(n, 0) < 0x8000_0000
    ensures Align(TotalSize(n) + GENL_HDRLEN + NLMSG_HDRLEN) == Space(n, 0) == U32(Space(n, 0))
    ensures Align(AttrSize(n)) - AttrSize(n) >= 0
  {
  }

  lemma ZerosAre(s: seq<byte>)
    requires forall i :: 0 <= i < |s| ==> s[i] == 0
    ensures s == Zeros(|s|)
  {
  }

  // ----- the send loop -----

  /** What sendto answers: some bytes taken, EAGAIN, or another error. */
  datatype SendTo = Took(n: nat) | Again | Failed

  /** The do-while loop of genlmsg_send, for one answer of the socket per round. `sent` is what the socket has
      taken; when the script of answers is used up the loop is left where it stands. */
  method Send(buf: array<byte>, answers: seq<SendTo>) returns (count: int, sent: seq<byte>, rounds: nat)
    ensures rounds <= |answers|
    ensures count == -1 ==> rounds > 0 && answers[rounds - 1].Failed?
    ensures count != -1 ==> 0 <= count <= buf.Length && sent == buf[..count]
    ensures count != -1 && rounds < |answers| ==> sent == buf[..]
  {
    count, sent, rounds := 0, [], 0;
    var i := 0;
    while i < |answers|
      invariant 0 <= i <= |answers| && rounds == i
      invariant 0 <= count <= buf.Length && sent == buf[..count]
      invariant i == 0 || count < buf.Length
    {
      var answer := answers[i];
      i := i + 1;
      rounds := i;
      match answer {
        case Failed =>
          count := -1;
          return;
        case Again =>
        case Took(n) =>
          var taken := Min(n, buf.Length - count);
          sent := sent + buf[count..count + taken];
          count := count + taken;
      }
      if count >= buf.Length {
        return;
      }
    }
  }

  // ----- the walk -----

  /** Overrun: the walk reads a header or copies payload beyond the bytes it was given. */
  datatype Found = Overrun | NoMatch | Match(at: nat, len: nat)

  /** The inner loop of genlmsg_dispatch on the bytes from the current attribute on; `left` is what the source
      believes to be the rest of the message. Positions count from the start of s. */
  function FindAttr(s: seq<byte>, at: nat, left: int, attr: u16): (r: Found)
    decreases left
  {
    if left < NLA_HDRLEN then NoMatch
    else if at + NLA_HDRLEN > |s| then Overrun
    else
      var len := Le16(s, at);
      if len < NLA_HDRLEN || len > left then NoMatch
      else if Le16(s, at + 2) == attr then Match(at, len - NLA_HDRLEN)
      else FindAttr(s, at + Align(len), left - Align(len), attr)
  }

  /** What one message does to the output buffer and *len: leave its bytes, nothing, or a copied payload. */
  datatype Taken = Astray | Nothing | Copied(out: seq<byte>, len: nat)

  /** The body of the outer loop for a message at `at` that is neither DONE nor ERROR. The attributes' length is
      taken as nlmsg_len - GENL_HDRLEN, as on line 286. */
  function TakeAttr(s: seq<byte>, at: nat, nlen: nat, attr: u16, out: seq<byte>, len: nat): (r: Taken)
    requires len <= |out|
    ensures r.Copied? ==> |r.out| == |out| && r.len <= len
  {
    match FindAttr(s, at + NLMSG_HDRLEN + GENL_HDRLEN, nlen - GENL_HDRLEN, attr)
    case Overrun => Astray
    case NoMatch => Nothing
    case Match(pos, l) =>
      var n := Min(len, l);
      if pos + NLA_HDRLEN + n > |s| then Astray
      else Copied(Overlay(out, 0, s[pos + NLA_HDRLEN..pos + NLA_HDRLEN + n]), n)
  }

  /** Return value, output buffer and *len; or the walk has left its bytes. */
  datatype Dispatched = Lost | Done(ret: int, out: seq<byte>, len: nat)

  /** The outer loop from position `at` on, `left` being the source's unsigned byte count. */
  function Walk(s: seq<byte>, at: nat, left: u32, attr: u16, out: seq<byte>, len: nat, ret: int): (r: Dispatched)
    requires at <= |s| && len <= |out|
    ensures r.Done? ==> |r.out| == |out| && r.len <= len
    decreases |s| - at
  {
    if left < NLMSG_HDRLEN then Done(ret, out, len)
    else if at + NLMSG_HDRLEN > |s| then Lost
    else
      var nlen := Le32(s, at);
      if nlen < NLMSG_HDRLEN || nlen > left then Done(ret, out, len)
      else if Le16(s, at + 4) == NLMSG_DONE then Done(0, out, len)
      else if Le16(s, at + 4) == NLMSG_ERROR then Done(-1, out, len)
      else
        var taken := TakeAttr(s, at, nlen, attr, out, len);
        if taken.Astray? || at + Align(nlen) > |s| then Lost
        else
          match taken
          case Copied(copied, n) => Walk(s, at + Align(nlen), U32(left - Align(nlen)), attr, copied, n, 0)
          case Nothing => Walk(s, at + Align(nlen), U32(left - Align(nlen)), attr, out, len, ret)
  }

  /** genlmsg_dispatch on the received bytes s, all of which the caller passes as nlh_len. */
  function Dispatch(s: seq<byte>, kind: u16, attr: u16, out: seq<byte>, len: nat): (r: Dispatched)
    requires |s| < 0x8000_0000 && len <= |out|
    ensures r.Done? ==> |r.out| == |out| && r.len <= len
  {
    if |s| < 6 then Lost
    else if kind != 0 && Le16(s, 4) != kind then Done(-1, out, len)
    else Walk(s, 0, |s|, attr, out, len, -1)
  }

  /** genlmsg_dispatch with its pointers and counters updated in place. */
  method DispatchInPlace(msg: array<byte>, kind: u16, attr: u16, out: array<byte>, len: nat)
      returns (ok: bool, ret: int, newLen: nat)
    requires msg.Length < 0x8000_0000 && len <= out.Length && msg != out
    modifies out
    ensures var r := Dispatch(msg[..], kind, attr, old(out[..]), len);
            if r.Lost? then !ok else ok && ret == r.ret && newLen == r.len && out[..] == r.out
  {
    if msg.Length < 6 {
      return false, -1, len;
    }
    if kind != 0 && Le16(msg[..], 4) != kind {
      return true, -1, len;
    }
    ok, ret, newLen := WalkInPlace(msg, attr, out, len);
  }

  /** The outer for loop. */
  method WalkInPlace(msg: array<byte>, attr: u16, out: array<byte>, len: nat)
      returns (ok: bool, ret: int, newLen: nat)
    requires msg.Length < 0x8000_0000 && len <= out.Length && msg != out
    modifies out
    ensures var r := Walk(msg[..], 0, msg.Length, attr, old(out[..]), len, -1);
            if r.Lost? then !ok else ok && ret == r.ret && newLen == r.len && out[..] == r.out
  {
    hide TakeAttr, Le16, Le32, U32, Align;
    ghost var s := msg[..];
    ok, ret, newLen := true, -1, len;
    ghost var want := Walk(s, 0, msg.Length, attr, out[..], len, -1);
    var at: nat, left: u32 := 0, msg.Length;
    while ok && left >= NLMSG_HDRLEN
      invariant msg[..] == s && at <= |s| && newLen <= out.Length
      invariant if ok then Walk(s, at, left, attr, out[..], newLen, ret) == want else want == Lost
      decreases ok, |s| - at
    {
      if at + NLMSG_HDRLEN > msg.Length {
        ok := false;
        break;
      }
      var nlen, nlmsgType := Le32(msg[..], at), Le16(msg[..], at + 4);
      if nlen < NLMSG_HDRLEN || nlen > left {
        break;
      }
      if nlmsgType == NLMSG_DONE || nlmsgType == NLMSG_ERROR {
        ret := if nlmsgType == NLMSG_DONE then 0 else -1;
        left := 0;
        break;
      }
      AlignUp(nlen);
      var astray, copied;
      astray, copied, newLen := TakeAttrInPlace(msg, at, nlen, attr, out, newLen);
      if copied {
        ret := 0;
      }
      ok := !astray && at + Align(nlen) <= msg.Length;
      if ok {
        at, left := at + Align(nlen), U32(left - Align(nlen));
      }
    }
  }

  /** The attribute search and the memcpy for one message. */
  method TakeAttrInPlace(msg: array<byte>, at: nat, nlen: nat, attr: u16, out: array<byte>, len: nat)
      returns (astray: bool, copied: bool, newLen: nat)
    requires len <= out.Length && msg != out
    modifies out
    ensures var r := TakeAttr(msg[..], at, nlen, attr, old(out[..]), len);
            && astray == r.Astray? && copied == r.Copied?
            && newLen <= len
            && (copied ==> newLen == r.len && out[..] == r.out)
            && (!copied ==> newLen == len && out[..] == old(out[..]))
  {
    hide FindAttr, Overlay;
    astray, copied, newLen := false, false, len;
    var found := FindAttrLoop(msg, at + NLMSG_HDRLEN + GENL_HDRLEN, nlen - GENL_HDRLEN, attr);
    match found
    case Overrun => astray := true;
    case NoMatch =>
    case Match(pos, l) =>
      var n := Min(len, l);
      if pos + NLA_HDRLEN + n > msg.Length {
        astray := true;
      } else {
        var payload := msg[pos + NLA_HDRLEN..pos + NLA_HDRLEN + n];
        assert payload == msg[..][pos + NLA_HDRLEN..pos + NLA_HDRLEN + n];
        Copy(out, 0, payload);
        copied, newLen := true, n;
      }
  }

  /** The inner for loop. */
  method FindAttrLoop(msg: array<byte>, from: nat, size: int, attr: u16) returns (r: Found)
    ensures r == FindAttr(msg[..], from, size, attr)
  {
    var at: nat, left := from, size;
    while left >= NLA_HDRLEN
      invariant FindAttr(msg[..], at, left, attr) == FindAttr(msg[..], from, size, attr)
      decreases left
    {
      if at + NLA_HDRLEN > msg.Length {
        return Overrun;
      }
      var len := Le16(msg[..], at);
      if len < NLA_HDRLEN || len > left {
        return NoMatch;
      }
      if Le16(msg[..], at + 2) == attr {
        return Match(at, len - NLA_HDRLEN);
      }
      at, left := at + Align(len), left - Align(len);
    }
    return NoMatch;
  }
}

/** The walk of genlmsg_dispatch on streams of messages with arbitrary attribute lists, some of which do not carry the
    wanted attribute. */
module NetlinkStreams {
  import opened Bytes
  import opened Netlink
  import opened NetlinkTheorems

  /** A payload the attribute's 16-bit length can state. */
  datatype Attribute = Attribute(attr: u16, payload: seq<byte>)

  type Attr = a: Attribute | |a.payload| <= 65531 witness Attribute(0, [])

  /** A generic-netlink message with its attributes, neither DONE nor ERROR. */
  datatype Message = Message(kind: u16, flags: u16, seqno: u32, pid: u32, cmd: byte, version: byte, attrs: seq<Attr>)

  type Plain = m: Message | m.kind != NLMSG_DONE && m.kind != NLMSG_ERROR witness Message(0, 0, 0, 0, 0, 0, [])

  function AttrBytes(a: Attr): (r: seq<byte>)
    ensures |r| == TotalSize(|a.payload|)
  {
    AttrHeader(|a.payload|, a.attr) + a.payload + Padding(AttrSize(|a.payload|))
  }

  function AttrsBytes(attrs: seq<Attr>): seq<byte> {
    if attrs == [] then [] else AttrBytes(attrs[0]) + AttrsBytes(attrs[1..])
  }

  function Length(m: Plain): nat {
    NLMSG_HDRLEN + GENL_HDRLEN + |AttrsBytes(m.attrs)|
  }

  function MessageBytes(m: Plain): (r: seq<byte>)
    ensures |r| == Length(m)
  {
    NlHeader(U32(Length(m)), m.kind, m.flags, m.seqno, m.pid) + [m.cmd, m.version, 0, 0] + AttrsBytes(m.attrs)
  }

  function MessagesBytes(ms: seq<Plain>): seq<byte> {
    if ms == [] then [] else MessageBytes(ms[0]) + MessagesBytes(ms[1..])
  }

  /** Payload of the first attribute of the wanted type. */
  function Wanted(attrs: seq<Attr>, attr: u16): Option<seq<byte>> {
    if attrs == [] then None
    else if attrs[0].attr == attr then Some(attrs[0].payload)
    else Wanted(attrs[1..], attr)
  }

  // ----- attributes -----

  /** One attribute at `at`: a match, or a step to the next one. */
  lemma AttrStep(s: seq<byte>, at: nat, left: nat, a: Attr, attr: u16)
    requires at + TotalSize(|a.payload|) <= |s| && s[at..at + TotalSize(|a.payload|)] == AttrBytes(a)
    requires left >= TotalSize(|a.payload|)
    ensures FindAttr(s, at, left, attr) ==
            if a.attr == attr then Match(at, |a.payload|)
            else FindAttr(s, at + TotalSize(|a.payload|), left - TotalSize(|a.payload|), attr)
    ensures s[at + NLA_HDRLEN..at + NLA_HDRLEN + |a.payload|] == a.payload
  {
    var n := |a.payload|;
    var header := AttrHeader(n, a.attr);
    AlignUp(AttrSize(n));
    hide AttrHeader, Padding, Align, Le16, FindAttr;
    var own := s[at..at + TotalSize(n)];
    assert own[..4] == header && own[4..4 + n] == a.payload;
    SubSlice(s, at, own, 0, 4);
    SubSlice(s, at, own, 4, 4 + n);
    HeaderFields(s, at);
    AttrFound(s, at, left, n, attr);
  }

  /** One turn of the inner loop on a well-formed header. */
  lemma AttrFound(s: seq<byte>, at: nat, left: nat, n: nat, attr: u16)
    requires at + 4 <= |s| && n <= 65531 && Le16(s, at) == AttrSize(n) <= TotalSize(n) <= left
    ensures FindAttr(s, at, left, attr) ==
            if Le16(s, at + 2) == attr then Match(at, n)
            else FindAttr(s, at + TotalSize(n), left - TotalSize(n), attr)
  {
    hide Le16, Align;
  }

  lemma HeaderFields(s: seq<byte>, at: nat)
    requires at + 4 <= |s|
    ensures Le16(s, at) == Le16(s[at..at + 4], 0) && Le16(s, at + 2) == Le16(s[at..at + 4], 2)
  {
  }

  /** A list of attributes stands at `at`. */
  predicate AttrsAt(s: seq<byte>, at: nat, attrs: seq<Attr>) {
    at + |AttrsBytes(attrs)| <= |s| && s[at..at + |AttrsBytes(attrs)|] == AttrsBytes(attrs)
  }

  /** What the search in a list must find: the first of the wanted type, or what follows the list. */
  predicate SearchIs(s: seq<byte>, at: nat, attrs: seq<Attr>, extra: nat, attr: u16, found: Found) {
    match Wanted(attrs, attr)
    case None => found == FindAttr(s, at + |AttrsBytes(attrs)|, extra, attr)
    case Some(p) =>
      found.Match? && found.len == |p| && found.at + NLA_HDRLEN + |p| <= |s|
      && s[found.at + NLA_HDRLEN..found.at + NLA_HDRLEN + |p|] == p
  }

  lemma {:induction false} AttrsSearch(s: seq<byte>, at: nat, attrs: seq<Attr>, extra: nat, attr: u16)
    requires AttrsAt(s, at, attrs)
    ensures SearchIs(s, at, attrs, extra, attr, FindAttr(s, at, |AttrsBytes(attrs)| + extra, attr))
    decreases |attrs|
  {
    hide FindAttr;
    if attrs != [] {
      hide AttrsAt, SearchIs, AttrsBytes;
      AttrsParts(s, at, attrs);
      AttrStep(s, at, |AttrsBytes(attrs)| + extra, attrs[0], attr);
      if attrs[0].attr != attr {
        AttrsSearch(s, at + TotalSize(|attrs[0].payload|), attrs[1..], extra, attr);
        SearchOn(s, at, attrs, extra, attr, FindAttr(s, at, |AttrsBytes(attrs)| + extra, attr));
      } else {
        SearchHere(s, at, attrs, extra, attr);
      }
    }
  }

  lemma AttrsParts(s: seq<byte>, at: nat, attrs: seq<Attr>)
    requires AttrsAt(s, at, attrs) && attrs != []
    ensures var size := TotalSize(|attrs[0].payload|);
            && at + size <= |s| && s[at..at + size] == AttrBytes(attrs[0])
            && |AttrsBytes(attrs)| == size + |AttrsBytes(attrs[1..])|
            && AttrsAt(s, at + size, attrs[1..])
  {
    hide AttrBytes, TotalSize;
    var all, size, rest := AttrsBytes(attrs), TotalSize(|attrs[0].payload|), AttrsBytes(attrs[1..]);
    assert all == AttrBytes(attrs[0]) + rest;
    assert s[at..at + size] == s[at..at + |all|][..size];
    assert s[at + size..at + size + |rest|] == s[at..at + |all|][size..];
  }

  lemma SearchOn(s: seq<byte>, at: nat, attrs: seq<Attr>, extra: nat, attr: u16, found: Found)
    requires attrs != [] && attrs[0].attr != attr
    requires |AttrsBytes(attrs)| == TotalSize(|attrs[0].payload|) + |AttrsBytes(attrs[1..])|
    requires SearchIs(s, at + TotalSize(|attrs[0].payload|), attrs[1..], extra, attr, found)
    ensures SearchIs(s, at, attrs, extra, attr, found)
  {
    hide FindAttr, AttrsBytes, TotalSize;
  }

  lemma SearchHere(s: seq<byte>, at: nat, attrs: seq<Attr>, extra: nat, attr: u16)
    requires attrs != [] && attrs[0].attr == attr && at + NLA_HDRLEN + |attrs[0].payload| <= |s|
    requires s[at + NLA_HDRLEN..at + NLA_HDRLEN + |attrs[0].payload|] == attrs[0].payload
    ensures SearchIs(s, at, attrs, extra, attr, Match(at, |attrs[0].payload|))
  {
    hide FindAttr, AttrsBytes;
  }

  lemma {:induction false} AttrsAligned(attrs: seq<Attr>)
    ensures |AttrsBytes(attrs)| % 4 == 0
  {
    if attrs != [] {
      AlignUp(AttrSize(|attrs[0].payload|));
      AttrsAligned(attrs[1..]);
      hide Align, AttrBytes;
      Words(TotalSize(|attrs[0].payload|), |AttrsBytes(attrs[1..])|);
    }
  }

  lemma Words(a: nat, b: nat)
    requires a % 4 == 0 && b % 4 == 0
    ensures (a + b) % 4 == 0
  {
  }

  // ----- messages -----

  /** A message stands at `at`. */
  predicate Stands(s: seq<byte>, at: nat, m: Plain) {
    at + Length(m) <= |s| && s[at..at + Length(m)] == MessageBytes(m)
  }

  lemma MessageParts(m: Plain)
    ensures 20 <= Length(m) && Length(m) % 4 == 0 && Align(Length(m)) == Length(m)
    ensures MessageBytes(m)[..16] == NlHeader(U32(Length(m)), m.kind, m.flags, m.seqno, m.pid)
    ensures MessageBytes(m)[20..] == AttrsBytes(m.attrs)
  {
    AttrsAligned(m.attrs);
    hide NlHeader, AttrsBytes;
  }

  /** The header fields the walk reads. */
  predicate HeaderAt(s: seq<byte>, at: nat, m: Plain) {
    && 20 <= Length(m) && Align(Length(m)) == Length(m) && at + Length(m) <= |s|
    && Le32(s, at) == Length(m) && Le16(s, at) == Length(m) % 0x1_0000 && Le16(s, at + 4) == m.kind
  }

  lemma MessageFields(s: seq<byte>, at: nat, m: Plain)
    requires Stands(s, at, m) && Length(m) < 0x8000_0000
    ensures HeaderAt(s, at, m) && s[at + 20..at + Length(m)] == AttrsBytes(m.attrs)
  {
    hide NlHeader, AttrsBytes, MessageBytes, Length, Le16, Le32, Align;
    MessageParts(m);
    var own := s[at..at + Length(m)];
    SubSlice(s, at, own, 0, 16);
    SubSlice(s, at, own, 20, Length(m));
    SliceFields(s, at, 16);
    LowWord(s, at);
  }

  lemma LowWord(s: seq<byte>, at: nat)
    requires at + 4 <= |s|
    ensures Le16(s, at) == Le32(s, at) % 0x1_0000
  {
    var low, high := Le16(s, at), Le16(s, at + 2);
    assert Le32(s, at) == low as int + high as int * 0x1_0000;
    ModUnique(Le32(s, at), 0x1_0000, high, low);
  }

  /** The attribute search of one message, which line 286 lets run 16 bytes past it. */
  lemma SearchMessage(s: seq<byte>, at: nat, m: Plain, attr: u16)
    requires Stands(s, at, m) && Length(m) < 0x8000_0000
    ensures var found := FindAttr(s, at + 20, Length(m) - 4, attr);
            match Wanted(m.attrs, attr)
            case None => found == FindAttr(s, at + Length(m), 16, attr)
            case Some(p) =>
              found.Match? && found.len == |p| && found.at + NLA_HDRLEN + |p| <= |s|
              && s[found.at + NLA_HDRLEN..found.at + NLA_HDRLEN + |p|] == p
  {
    hide FindAttr, MessageBytes, AttrsBytes, Wanted, HeaderAt, Stands, Length;
    LengthIs(s, at, m);
    MessageFields(s, at, m);
    AttrsSearch(s, at + 20, m.attrs, 16, attr);
  }

  lemma LengthIs(s: seq<byte>, at: nat, m: Plain)
    requires Stands(s, at, m)
    ensures Length(m) == 20 + |AttrsBytes(m.attrs)| && at + Length(m) <= |s|
  {
    hide AttrsBytes, MessageBytes;
  }

  /** What that makes of the message: the wanted payload copied, nothing, or bytes past the stream. */
  lemma TakeWanted(s: seq<byte>, at: nat, m: Plain, attr: u16, out: seq<byte>, len: nat)
    requires Stands(s, at, m) && Length(m) < 0x8000_0000 && len <= |out| && Wanted(m.attrs, attr).Some?
    ensures var p := Wanted(m.attrs, attr).value;
            TakeAttr(s, at, Length(m), attr, out, len) == Copied(Overlay(out, 0, p[..Min(len, |p|)]), Min(len, |p|))
  {
    hide FindAttr, Overlay, MessageBytes, AttrsBytes, Length, Wanted, Stands;
    SearchMessage(s, at, m, attr);
    var p, found := Wanted(m.attrs, attr).value, FindAttr(s, at + 20, Length(m) - 4, attr);
    var n := Min(len, |p|);
    assert s[found.at + NLA_HDRLEN..found.at + NLA_HDRLEN + n]
        == s[found.at + NLA_HDRLEN..found.at + NLA_HDRLEN + |p|][..n];
  }

  // ----- past a message that lacks the attribute -----

  /** A search that stays inside the bytes it was given never leaves them, nor does what it finds. */
  lemma {:induction false} FoundInside(s: seq<byte>, at: nat, left: int, attr: u16)
    requires at + left <= |s|
    ensures var found := FindAttr(s, at, left, attr);
            !found.Overrun? && (found.Match? ==> at <= found.at && found.at + NLA_HDRLEN + found.len <= at + left)
    decreases left
  {
    if left >= NLA_HDRLEN {
      var len := Le16(s, at);
      hide Le16;
      AlignUp(len);
      if NLA_HDRLEN <= len <= left && Le16(s, at + 2) != attr {
        hide Align;
        FoundInside(s, at + Align(len), left - Align(len), attr);
      }
    }
  }

  function Moved(found: Found, n: nat): Found {
    if found.Match? then Match(found.at + n, found.len) else found
  }

  /** It finds the same in a copy of those bytes. */
  lemma {:induction false} FoundInCopy(s: seq<byte>, base: nat, n: nat, at: nat, left: int, attr: u16)
    requires base + n <= |s| && at + left <= n
    ensures FindAttr(s, base + at, left, attr) == Moved(FindAttr(s[base..base + n], at, left, attr), base)
    decreases left
  {
    if left >= NLA_HDRLEN {
      var part := s[base..base + n];
      assert Le16(s, base + at) == Le16(part, at) && Le16(s, base + at + 2) == Le16(part, at + 2);
      var len := Le16(part, at);
      hide Le16;
      AlignUp(len);
      if NLA_HDRLEN <= len <= left && Le16(part, at + 2) != attr {
        hide Align;
        FoundInCopy(s, base, n, at + Align(len), left - Align(len), attr);
        assert base + (at + Align(len)) == base + at + Align(len);
      }
    }
  }

  function Header(m: Plain): (r: seq<byte>)
    ensures |r| == NLMSG_HDRLEN
  {
    NlHeader(U32(Length(m)), m.kind, m.flags, m.seqno, m.pid)
  }

  /** What of a header passes for the wanted attribute when its 16 bytes are searched for it. */
  function StrayIn(header: seq<byte>, attr: u16): Option<seq<byte>>
    requires |header| == NLMSG_HDRLEN
  {
    FoundInside(header, 0, 16, attr);
    match FindAttr(header, 0, 16, attr)
    case Match(pos, l) => Some(header[pos + NLA_HDRLEN..pos + NLA_HDRLEN + l])
    case _ => None
  }

  function Stray(next: Plain, attr: u16): Option<seq<byte>> {
    StrayIn(Header(next), attr)
  }

  /** What becomes of a message that lacks the wanted attribute: the walk leaves the stream if no message follows,
      and else takes what passes for it in the next header. */
  lemma TakeForeign(s: seq<byte>, at: nat, m: Plain, attr: u16, out: seq<byte>, len: nat)
    requires Stands(s, at, m) && Length(m) < 0x8000_0000 && len <= |out| && Wanted(m.attrs, attr).None?
    requires at + Length(m) == |s|
    ensures TakeAttr(s, at, Length(m), attr, out, len) == Astray
  {
    hide FindAttr, Overlay, MessageBytes, AttrsBytes, Length, Wanted, Stands;
    SearchMessage(s, at, m, attr);
    PastEnd(s, at + Length(m), attr);
  }

  lemma PastEnd(s: seq<byte>, at: nat, attr: u16)
    requires at == |s|
    ensures FindAttr(s, at, 16, attr) == Overrun
  {
  }

  lemma TakeStray(s: seq<byte>, at: nat, m: Plain, header: seq<byte>, attr: u16, out: seq<byte>, len: nat)
    requires Stands(s, at, m) && Length(m) < 0x8000_0000 && len <= |out| && Wanted(m.attrs, attr).None?
    requires |header| == 16 && at + Length(m) + 16 <= |s| && s[at + Length(m)..at + Length(m) + 16] == header
    ensures TakeAttr(s, at, Length(m), attr, out, len) ==
            match StrayIn(header, attr)
            case None => Nothing
            case Some(p) => Copied(Overlay(out, 0, p[..Min(len, |p|)]), Min(len, |p|))
  {
    hide FindAttr, Overlay, MessageBytes, AttrsBytes, Wanted, Length, Stands;
    SearchMessage(s, at, m, attr);
    var base := at + Length(m);
    FoundInCopy(s, base, 16, 0, 16, attr);
    FoundInside(header, 0, 16, attr);
    var found := FindAttr(header, 0, 16, attr);
    if found.Match? {
      var n, from := Min(len, found.len), found.at + NLA_HDRLEN;
      SubSlice(s, base, header, from, from + n);
      assert header[from..from + found.len][..n] == header[from..from + n];
    }
  }

  lemma HeaderBytes(s: seq<byte>, at: nat, m: Plain)
    requires Stands(s, at, m)
    ensures at + 16 <= |s| && s[at..at + 16] == Header(m)
  {
    hide NlHeader, AttrsBytes, MessageBytes, Length;
    MessageParts(m);
    assert s[at..at + 16] == s[at..at + Length(m)][..16];
  }

  /** A header passes for the attribute only if the length it states ends in 4, 8, 12 or 16 modulo 2^16. */
  lemma StrayLength(next: Plain, attr: u16)
    requires Length(next) < 0x8000_0000 && Stray(next, attr).Some?
    ensures Length(next) % 0x1_0000 in {4, 8, 12, 16}
  {
    hide Le16, Le32, NlHeader, Length, AttrsBytes;
    MessageParts(next);
    LowWord(Header(next), 0);
    FourAligned(Length(next));
  }

  lemma FourAligned(n: nat)
    requires n % 4 == 0
    ensures n % 0x1_0000 % 4 == 0
  {
  }

  /** And with such a length it does for the attribute its upper half names. */
  lemma StrayHeader(next: Plain)
    requires Length(next) < 0x8000_0000 && Length(next) % 0x1_0000 in {4, 8, 12, 16}
    ensures Stray(next, Length(next) / 0x1_0000) == Some(Header(next)[4..Length(next) % 0x1_0000])
  {
    hide Le16, Le32, NlHeader, Length, FindAttr;
    LowWord(Header(next), 0);
    HighWord(Header(next), 0);
    FirstFound(Header(next), Length(next) / 0x1_0000);
  }

  lemma FirstFound(s: seq<byte>, attr: u16)
    requires |s| >= 16 && NLA_HDRLEN <= Le16(s, 0) <= 16 && Le16(s, 2) == attr
    ensures FindAttr(s, 0, 16, attr) == Match(0, Le16(s, 0) - NLA_HDRLEN)
  {
    hide Le16;
  }

  lemma HighWord(s: seq<byte>, at: nat)
    requires at + 4 <= |s|
    ensures Le16(s, at + 2) == Le32(s, at) / 0x1_0000
  {
    var low, high := Le16(s, at), Le16(s, at + 2);
    assert Le32(s, at) == low as int + high as int * 0x1_0000;
  }

  // ----- streams -----

  /** What the walk copies for the first message: its wanted payload or, if it has none, what passes for the attribute
      in the header behind it. */
  function Pick(ms: seq<Plain>, attr: u16): Option<seq<byte>>
    requires ms != []
  {
    if Wanted(ms[0].attrs, attr).Some? || |ms| == 1 then Wanted(ms[0].attrs, attr) else Stray(ms[1], attr)
  }

  function Picks(ms: seq<Plain>, attr: u16): seq<seq<byte>> {
    if ms == [] then []
    else
      match Pick(ms, attr)
      case None => Picks(ms[1..], attr)
      case Some(p) => [p] + Picks(ms[1..], attr)
  }

  /** Payloads of the messages that carry the wanted attribute, which is what should be copied. */
  function Payloads(ms: seq<Plain>, attr: u16): seq<seq<byte>> {
    if ms == [] then []
    else
      match Wanted(ms[0].attrs, attr)
      case None => Payloads(ms[1..], attr)
      case Some(p) => [p] + Payloads(ms[1..], attr)
  }

  /** Output buffer and *len after these payloads have been copied one after the other. */
  function CopyAll(ps: seq<seq<byte>>, out: seq<byte>, len: nat): (r: (seq<byte>, nat))
    requires len <= |out|
    ensures |r.0| == |out| && r.1 <= len
  {
    if ps == [] then (out, len)
    else
      var n := Min(len, |ps[0]|);
      CopyAll(ps[1..], Overlay(out, 0, ps[0][..n]), n)
  }

  /** Where the walk of a stream must end. */
  function Expected(ms: seq<Plain>, attr: u16, out: seq<byte>, len: nat, ret: int): Dispatched
    requires len <= |out|
  {
    if ms != [] && Wanted(ms[|ms| - 1].attrs, attr).None? then Lost
    else
      var (o, l) := CopyAll(Picks(ms, attr), out, len);
      Done(if ms == [] then ret else 0, o, l)
  }

  /** One turn of the outer loop, by what becomes of the message. */
  lemma Turn(s: seq<byte>, at: nat, size: nat, left: nat, attr: u16, out: seq<byte>, len: nat, ret: int)
    requires 16 <= size && Align(size) == size && at + size <= |s| && size + left < 0x8000_0000 && len <= |out|
    requires Le32(s, at) == size && Le16(s, at + 4) != NLMSG_DONE && Le16(s, at + 4) != NLMSG_ERROR
    ensures Walk(s, at, size + left, attr, out, len, ret) ==
            match TakeAttr(s, at, size, attr, out, len)
            case Astray => Lost
            case Nothing => Walk(s, at + size, left, attr, out, len, ret)
            case Copied(copied, n) => Walk(s, at + size, left, attr, copied, n, 0)
  {
    hide TakeAttr, Le16, Le32, Align;
  }

  /** The walk on any stream: it copies the picks of all messages -- but when the last message lacks the wanted
      attribute, it runs past the end. */
  lemma {:induction false} StreamWalks(ms: seq<Plain>, attr: u16, pre: seq<byte>, out: seq<byte>, len: nat, ret: int)
    requires len <= |out| && |MessagesBytes(ms)| < 0x8000_0000
    ensures Walk(pre + MessagesBytes(ms), |pre|, |MessagesBytes(ms)|, attr, out, len, ret)
         == Expected(ms, attr, out, len, ret)
    decreases |ms|, 1
  {
    if ms == [] {
      assert pre + [] == pre;
    } else {
      StreamTurn(ms, attr, pre, out, len, ret);
    }
  }

  lemma {:induction false} StreamTurn(ms: seq<Plain>, attr: u16, pre: seq<byte>, out: seq<byte>, len: nat, ret: int)
    requires ms != [] && len <= |out| && |MessagesBytes(ms)| < 0x8000_0000
    ensures Walk(pre + MessagesBytes(ms), |pre|, |MessagesBytes(ms)|, attr, out, len, ret)
         == Expected(ms, attr, out, len, ret)
    decreases |ms|, 0
  {
    hide Walk, MessageBytes, Length, Wanted, FindAttr, TakeAttr, Overlay, Expected, Pick, Le16, Le32, Align, HeaderAt;
    hide Stands;
    var m, rest := ms[0], ms[1..];
    var s, at := pre + MessageBytes(m) + MessagesBytes(rest), |pre|;
    assert pre + MessagesBytes(ms) == s;
    FirstStands(s, pre, ms);
    TurnPicks(s, at, ms, attr, out, len, ret);
    if rest != [] || Pick(ms, attr).Some? {
      match Pick(ms, attr)
      case None =>
        StreamWalks(rest, attr, pre + MessageBytes(m), out, len, ret);
      case Some(p) =>
        StreamWalks(rest, attr, pre + MessageBytes(m), Overlay(out, 0, p[..Min(len, |p|)]), Min(len, |p|), 0);
    }
    ExpectedTurn(ms, attr, out, len, ret);
  }

  lemma FirstStands(s: seq<byte>, pre: seq<byte>, ms: seq<Plain>)
    requires ms != [] && s == pre + MessageBytes(ms[0]) + MessagesBytes(ms[1..])
    ensures Stands(s, |pre|, ms[0]) && s[|pre| + Length(ms[0])..] == MessagesBytes(ms[1..])
    ensures |s| == |pre| + Length(ms[0]) + |MessagesBytes(ms[1..])|
  {
    hide MessageBytes, Length;
    assert s[|pre|..|pre| + Length(ms[0])] == MessageBytes(ms[0]);
  }

  /** One turn, by what is picked. */
  lemma TurnPicks(s: seq<byte>, at: nat, ms: seq<Plain>, attr: u16, out: seq<byte>, len: nat, ret: int)
    requires ms != [] && len <= |out| && Stands(s, at, ms[0]) && |s| < 0x8000_0000 + at
    requires at + Length(ms[0]) <= |s| && s[at + Length(ms[0])..] == MessagesBytes(ms[1..])
    ensures var left := |MessagesBytes(ms[1..])|;
            Walk(s, at, Length(ms[0]) + left, attr, out, len, ret) ==
            match Pick(ms, attr)
            case None => if |ms| == 1 then Lost else Walk(s, at + Length(ms[0]), left, attr, out, len, ret)
            case Some(p) =>
              Walk(s, at + Length(ms[0]), left, attr, Overlay(out, 0, p[..Min(len, |p|)]), Min(len, |p|), 0)
  {
    hide Walk, TakeAttr, Le16, Le32, Align, Overlay, MessageBytes, AttrsBytes, Wanted, Length, Stands, StrayIn, Header;
    var m := ms[0];
    MessageFields(s, at, m);
    Turn(s, at, Length(m), |MessagesBytes(ms[1..])|, attr, out, len, ret);
    if Wanted(m.attrs, attr).Some? {
      TakeWanted(s, at, m, attr, out, len);
    } else if |ms| == 1 {
      TakeForeign(s, at, m, attr, out, len);
    } else {
      NextStands(s, at + Length(m), ms[1..]);
      HeaderBytes(s, at + Length(m), ms[1]);
      TakeStray(s, at, m, Header(ms[1]), attr, out, len);
    }
  }

  lemma ExpectedTurn(ms: seq<Plain>, attr: u16, out: seq<byte>, len: nat, ret: int)
    requires ms != [] && len <= |out|
    ensures Expected(ms, attr, out, len, ret) ==
            match Pick(ms, attr)
            case None => if |ms| == 1 then Lost else Expected(ms[1..], attr, out, len, ret)
            case Some(p) => Expected(ms[1..], attr, Overlay(out, 0, p[..Min(len, |p|)]), Min(len, |p|), 0)
  {
    hide Wanted, Overlay, Stray;
    if |ms| > 1 {
      assert ms[1..][|ms[1..]| - 1] == ms[|ms| - 1];
    }
    if Pick(ms, attr).Some? {
      var p, ps := Pick(ms, attr).value, Picks(ms, attr);
      assert ps[0] == p && ps[1..] == Picks(ms[1..], attr);
    }
  }

  lemma NextStands(s: seq<byte>, at: nat, ms: seq<Plain>)
    requires ms != [] && at <= |s| && s[at..] == MessagesBytes(ms)
    ensures Stands(s, at, ms[0])
  {
    hide MessageBytes, Length;
    assert s[at..at + Length(ms[0])] == s[at..][..Length(ms[0])];
  }

  // ----- what is copied -----

  /** After at least one copy: the last payload up to the new *len, which is the least of the capacity and all the
      payload lengths; nothing beyond the capacity has changed. */
  lemma {:induction false} CopyAllIs(ps: seq<seq<byte>>, out: seq<byte>, len: nat)
    requires ps != [] && len <= |out|
    ensures var (o, l) := CopyAll(ps, out, len);
            && l <= |ps[|ps| - 1]| && o[..l] == ps[|ps| - 1][..l] && o[len..] == out[len..]
            && (forall p :: p in ps ==> l <= |p|) && (l == len || exists p :: p in ps && l == |p|)
    decreases |ps|
  {
    var n := Min(len, |ps[0]|);
    var next := Overlay(out, 0, ps[0][..n]);
    var (o, l) := CopyAll(ps, out, len);
    if |ps| == 1 {
      assert CopyAll(ps[1..], next, n) == (next, n);
      assert ps[0] in ps;
    } else {
      CopyAllIs(ps[1..], next, n);
      hide CopyAll;
      assert next[n..][len - n..] == out[len..] && o[n..][len - n..] == o[len..];
      assert forall p :: p in ps <==> p == ps[0] || p in ps[1..];
      assert ps[1..][|ps[1..]| - 1] == ps[|ps| - 1];
    }
  }

  /** genlmsg_dispatch on any stream: it runs past its bytes exactly when the last message lacks the wanted attribute;
      otherwise it returns 0 and has copied the picks, the last of which is the last message's payload. */
  lemma DispatchLostIff(ms: seq<Plain>, kind: u16, attr: u16, out: seq<byte>, len: nat)
    requires ms != [] && (kind == 0 || kind == ms[0].kind)
    requires len <= |out| && |MessagesBytes(ms)| < 0x8000_0000
    ensures var r, last := Dispatch(MessagesBytes(ms), kind, attr, out, len), ms[|ms| - 1];
            && (r == Lost <==> Wanted(last.attrs, attr).None?)
            && (Wanted(last.attrs, attr).Some? ==>
                  var (o, l) := CopyAll(Picks(ms, attr), out, len);
                  && r == Done(0, o, l)
                  && Picks(ms, attr) != []
                  && Picks(ms, attr)[|Picks(ms, attr)| - 1] == Wanted(last.attrs, attr).value)
  {
    hide Walk, MessageBytes, Wanted, CopyAll, Le16, Picks;
    FirstKind(ms);
    assert [] + MessagesBytes(ms) == MessagesBytes(ms);
    StreamWalks(ms, attr, [], out, len, -1);
    if Wanted(ms[|ms| - 1].attrs, attr).Some? {
      LastPick(ms, attr);
    }
  }

  /** Nothing in a header behind a message without the wanted attribute passes for it. */
  predicate NoStrays(ms: seq<Plain>, attr: u16) {
    forall i :: 0 < i < |ms| && Wanted(ms[i - 1].attrs, attr).None? ==> Stray(ms[i], attr).None?
  }

  /** Only payloads of messages that carry the attribute are copied exactly when there are no strays. */
  lemma {:induction false} PicksIff(ms: seq<Plain>, attr: u16)
    ensures |Picks(ms, attr)| >= |Payloads(ms, attr)|
    ensures Picks(ms, attr) == Payloads(ms, attr) <==> NoStrays(ms, attr)
    decreases |ms|
  {
    hide Wanted, Stray;
    if |ms| > 0 {
      var rest := ms[1..];
      PicksIff(rest, attr);
      var ps, qs := Picks(ms, attr), Payloads(ms, attr);
      assert Wanted(ms[0].attrs, attr).Some? ==> ps[1..] == Picks(rest, attr) && qs[1..] == Payloads(rest, attr);
      NoStraysRest(ms, attr);
    }
  }

  lemma NoStraysRest(ms: seq<Plain>, attr: u16)
    requires ms != []
    ensures NoStrays(ms, attr) <==>
            (|ms| > 1 && Wanted(ms[0].attrs, attr).None? ==> Stray(ms[1], attr).None?) && NoStrays(ms[1..], attr)
  {
    hide Wanted, Stray;
    var rest := ms[1..];
    if NoStrays(ms, attr) {
      forall i | 0 < i < |rest| && Wanted(rest[i - 1].attrs, attr).None?
        ensures Stray(rest[i], attr).None?
      {
        assert rest[i - 1] == ms[i + 1 - 1] && rest[i] == ms[i + 1];
      }
    }
    if (|ms| > 1 && Wanted(ms[0].attrs, attr).None? ==> Stray(ms[1], attr).None?) && NoStrays(rest, attr) {
      forall i | 0 < i < |ms| && Wanted(ms[i - 1].attrs, attr).None?
        ensures Stray(ms[i], attr).None?
      {
        if i > 1 {
          assert ms[i - 1] == rest[i - 1 - 1] && ms[i] == rest[i - 1];
        }
      }
    }
  }

  /** A stray: behind a message without attributes, one of 65544 bytes with the attribute 1. Four bytes of its header
      (its type and flags) are copied as if they were that attribute, and its payload is cut to as many. */
  lemma StrayCuts(kind: u16, next: Plain, p: seq<byte>, out: seq<byte>)
    requires kind != NLMSG_DONE && kind != NLMSG_ERROR
    requires |p| == 65520 && next.attrs == [Attribute(1, p)] && |out| >= |p|
    ensures var ms: seq<Plain> := [Message(kind, 0, 0, 0, 0, 0, []), next];
            && Payloads(ms, 1) == [p] && Picks(ms, 1) == [Header(next)[4..8], p] && |MessagesBytes(ms)| < 0x8000_0000
            && Dispatch(MessagesBytes(ms), kind, 1, out, |p|) == Done(0, Overlay(out, 0, p[..4]), 4)
  {
    var foreign: Plain := Message(kind, 0, 0, 0, 0, 0, []);
    var ms := [foreign, next];
    StrayNext(next, p);
    assert ms[1..] == [next] && [next][1..] == [];
    assert Picks([next], 1) == [p] && Payloads([next], 1) == [p] by {
      hide Stray;
    }
    hide Stray, MessageBytes, Header, Length, Walk, Overlay;
    StraySizes(foreign, next);
    DispatchLostIff(ms, kind, 1, out, |p|);
    StrayCopies(Header(next)[4..8], p, out);
  }

  lemma StrayNext(next: Plain, p: seq<byte>)
    requires |p| == 65520 && next.attrs == [Attribute(1, p)]
    ensures Length(next) == 65544 && Stray(next, 1) == Some(Header(next)[4..8])
    ensures Wanted(next.attrs, 1) == Some(p)
  {
    assert AttrsBytes(next.attrs[1..]) == [] && next.attrs[0] == Attribute(1, p);
    assert |AttrBytes(next.attrs[0])| == TotalSize(65520) == 65524;
    assert Length(next) == 65544;
    StrayHeader(next);
  }

  lemma StraySizes(m: Plain, next: Plain)
    requires m.attrs == [] && Length(next) == 65544
    ensures |MessagesBytes([m, next])| == 65564
  {
    assert Length(m) == 20;
    hide MessageBytes, Length;
    assert [m, next][1..] == [next] && [next][1..] == [];
    assert MessagesBytes([next]) == MessageBytes(next) + [];
    assert MessagesBytes([m, next]) == MessageBytes(m) + MessagesBytes([next]);
  }

  lemma StrayCopies(h: seq<byte>, p: seq<byte>, out: seq<byte>)
    requires |h| == 4 && 4 <= |p| <= |out|
    ensures CopyAll([h, p], out, |p|) == (Overlay(out, 0, p[..4]), 4)
  {
    assert Overlay(Overlay(out, 0, h[..4]), 0, p[..4]) == Overlay(out, 0, p[..4]);
    hide Overlay;
    assert [h, p][1..] == [p] && [p][1..] == [];
    assert CopyAll([h, p], out, |p|) == CopyAll([p], Overlay(out, 0, h[..4]), 4);
    assert CopyAll([p], Overlay(out, 0, h[..4]), 4) == CopyAll([], Overlay(out, 0, p[..4]), 4);
  }

  lemma FirstKind(ms: seq<Plain>)
    requires ms != [] && |MessagesBytes(ms)| < 0x8000_0000
    ensures |MessagesBytes(ms)| >= 20 && Le16(MessagesBytes(ms), 4) == ms[0].kind
  {
    var s := MessagesBytes(ms);
    assert s[0..] == s;
    NextStands(s, 0, ms);
    hide MessageBytes, Le16, Le32, Align;
    MessageFields(s, 0, ms[0]);
  }

  lemma {:induction false} LastPick(ms: seq<Plain>, attr: u16)
    requires ms != [] && Wanted(ms[|ms| - 1].attrs, attr).Some?
    ensures Picks(ms, attr) != []
    ensures Picks(ms, attr)[|Picks(ms, attr)| - 1] == Wanted(ms[|ms| - 1].attrs, attr).value
    decreases |ms|
  {
    hide Wanted, Stray;
    var rest := ms[1..];
    if rest == [] {
      assert Picks(rest, attr) == [];
    } else {
      assert rest[|rest| - 1] == ms[|ms| - 1];
      LastPick(rest, attr);
      hide Pick;
      assert Picks(ms, attr) == (if Pick(ms, attr).None? then [] else [Pick(ms, attr).value]) + Picks(rest, attr);
    }
  }

  // ----- streams that end in DONE, in ERROR, or in a cut message -----

  /** The length and the type a header states, byte by byte. */
  function LenOf(s: seq<byte>): int
    requires |s| >= 16
  {
    s[0] as int + s[1] as int * 0x100 + s[2] as int * 0x1_0000 + s[3] as int * 0x100_0000
  }

  function TypeOf(s: seq<byte>): int
    requires |s| >= 6
  {
    s[4] as int + s[5] as int * 0x100
  }

  /** The bytes begin with a whole message. */
  predicate WholeMessage(end: seq<byte>) {
    |end| >= 16 && 16 <= LenOf(end) <= |end|
  }

  /** The walk ends here: at a message of type 2 or 3, whatever follows it, or at what is not a whole message. */
  predicate Ends(end: seq<byte>) {
    WholeMessage(end) ==> TypeOf(end) == 2 || TypeOf(end) == 3
  }

  function EndPick(ms: seq<Plain>, end: seq<byte>, attr: u16): Option<seq<byte>>
    requires ms != []
  {
    if Wanted(ms[0].attrs, attr).Some? || |ms| > 1 || |end| < 16 then Pick(ms, attr) else StrayIn(end[..16], attr)
  }

  /** What is copied from the messages before such an end. */
  function EndPicks(ms: seq<Plain>, end: seq<byte>, attr: u16): seq<seq<byte>> {
    if ms == [] then []
    else
      match EndPick(ms, end, attr)
      case None => EndPicks(ms[1..], end, attr)
      case Some(p) => [p] + EndPicks(ms[1..], end, attr)
  }

  /** The return value: 0 for DONE, -1 for ERROR, and after a cut message 0 if anything has been copied. */
  function EndRet(end: seq<byte>, ret: int): int {
    if !WholeMessage(end) then ret else if TypeOf(end) == 3 then 0 else -1
  }

  function EndExpected(ms: seq<Plain>, end: seq<byte>, attr: u16, out: seq<byte>, len: nat, ret: int): Dispatched
    requires len <= |out|
  {
    var ps := EndPicks(ms, end, attr);
    var (o, l) := CopyAll(ps, out, len);
    Done(EndRet(end, if ps == [] then ret else 0), o, l)
  }

  lemma LittleEndian(s: seq<byte>, at: nat)
    requires at + 16 <= |s|
    ensures Le32(s, at) == LenOf(s[at..]) && Le16(s, at + 4) == TypeOf(s[at..])
  {
  }

  /** The walk at such an end. */
  lemma EndStops(s: seq<byte>, at: nat, attr: u16, out: seq<byte>, len: nat, ret: int)
    requires at <= |s| && |s| - at < 0x8000_0000 && Ends(s[at..]) && len <= |out|
    ensures Walk(s, at, |s| - at, attr, out, len, ret) == Done(EndRet(s[at..], ret), out, len)
  {
    hide TakeAttr, Le16, Le32, LenOf, TypeOf;
    if |s| - at >= 16 {
      LittleEndian(s, at);
    }
  }

  /** One turn before such an end. */
  lemma TurnEnds(s: seq<byte>, at: nat, ms: seq<Plain>, end: seq<byte>, attr: u16, out: seq<byte>, len: nat, ret: int)
    requires ms != [] && len <= |out| && Stands(s, at, ms[0]) && |s| < 0x8000_0000 + at
    requires at + Length(ms[0]) <= |s| && s[at + Length(ms[0])..] == MessagesBytes(ms[1..]) + end
    requires |end| >= 16 || Wanted(ms[|ms| - 1].attrs, attr).Some?
    ensures Walk(s, at, |s| - at, attr, out, len, ret) ==
            match EndPick(ms, end, attr)
            case None => Walk(s, at + Length(ms[0]), |s| - at - Length(ms[0]), attr, out, len, ret)
            case Some(p) =>
              Walk(s, at + Length(ms[0]), |s| - at - Length(ms[0]), attr, Overlay(out, 0, p[..Min(len, |p|)]),
                   Min(len, |p|), 0)
  {
    hide Walk, TakeAttr, Le16, Le32, Align, Overlay, MessageBytes, AttrsBytes, Wanted, Length, Stands, StrayIn, Header;
    var m := ms[0];
    MessageFields(s, at, m);
    Turn(s, at, Length(m), |s| - at - Length(m), attr, out, len, ret);
    if Wanted(m.attrs, attr).Some? {
      TakeWanted(s, at, m, attr, out, len);
    } else if |ms| == 1 {
      EndHeader(s, at + Length(m), end);
      TakeStray(s, at, m, end[..16], attr, out, len);
    } else {
      NextBefore(s, at + Length(m), ms[1..], end);
      HeaderBytes(s, at + Length(m), ms[1]);
      TakeStray(s, at, m, Header(ms[1]), attr, out, len);
    }
  }

  lemma EndHeader(s: seq<byte>, at: nat, end: seq<byte>)
    requires at <= |s| && s[at..] == [] + end && |end| >= 16
    ensures at + 16 <= |s| && s[at..at + 16] == end[..16]
  {
    assert s[at..at + 16] == s[at..][..16];
  }

  lemma NextBefore(s: seq<byte>, at: nat, ms: seq<Plain>, end: seq<byte>)
    requires ms != [] && at <= |s| && s[at..] == MessagesBytes(ms) + end
    ensures Stands(s, at, ms[0])
  {
    hide MessageBytes, Length;
    assert s[at..at + Length(ms[0])] == s[at..][..Length(ms[0])];
  }

  lemma EndTurn(ms: seq<Plain>, end: seq<byte>, attr: u16, out: seq<byte>, len: nat, ret: int)
    requires ms != [] && len <= |out|
    ensures EndExpected(ms, end, attr, out, len, ret) ==
            match EndPick(ms, end, attr)
            case None => EndExpected(ms[1..], end, attr, out, len, ret)
            case Some(p) => EndExpected(ms[1..], end, attr, Overlay(out, 0, p[..Min(len, |p|)]), Min(len, |p|), 0)
  {
    hide EndPick, Overlay, EndRet;
    if EndPick(ms, end, attr).Some? {
      var p, ps := EndPick(ms, end, attr).value, EndPicks(ms, end, attr);
      assert ps[0] == p && ps[1..] == EndPicks(ms[1..], end, attr);
    }
  }

  /** The walk on any stream that ends in DONE, ERROR or a cut message: it copies the picks of the messages before, and
      returns 0, -1, or 0 exactly if it has copied anything. */
  lemma {:induction false} EndedWalks(ms: seq<Plain>, end: seq<byte>, attr: u16, pre: seq<byte>, out: seq<byte>,
                                      len: nat, ret: int)
    requires Ends(end) && (|end| >= 16 || ms == [] || Wanted(ms[|ms| - 1].attrs, attr).Some?)
    requires len <= |out| && |MessagesBytes(ms)| + |end| < 0x8000_0000
    ensures Walk(pre + (MessagesBytes(ms) + end), |pre|, |MessagesBytes(ms)| + |end|, attr, out, len, ret)
         == EndExpected(ms, end, attr, out, len, ret)
    decreases |ms|, 1
  {
    if ms == [] {
      var s := pre + ([] + end);
      assert s[|pre|..] == end;
      hide Walk, Ends, EndRet;
      EndStops(s, |pre|, attr, out, len, ret);
    } else {
      EndedTurn(ms, end, attr, pre, out, len, ret);
    }
  }

  lemma {:induction false} EndedTurn(ms: seq<Plain>, end: seq<byte>, attr: u16, pre: seq<byte>, out: seq<byte>,
                                     len: nat, ret: int)
    requires ms != [] && Ends(end) && (|end| >= 16 || Wanted(ms[|ms| - 1].attrs, attr).Some?)
    requires len <= |out| && |MessagesBytes(ms)| + |end| < 0x8000_0000
    ensures Walk(pre + (MessagesBytes(ms) + end), |pre|, |MessagesBytes(ms)| + |end|, attr, out, len, ret)
         == EndExpected(ms, end, attr, out, len, ret)
    decreases |ms|, 0
  {
    hide Walk, MessageBytes, MessagesBytes, Length, Wanted, Overlay, EndExpected, EndPick, Stands, Ends, EndRet;
    var m, rest := ms[0], ms[1..];
    var s, at, next := pre + (MessagesBytes(ms) + end), |pre|, pre + MessageBytes(m);
    FirstBefore(ms, pre, end);
    Before(s, pre, m, MessagesBytes(rest) + end);
    TurnEnds(s, at, ms, end, attr, out, len, ret);
    EndTurn(ms, end, attr, out, len, ret);
    assert |next| == at + Length(m) && |s| - at - Length(m) == |MessagesBytes(rest)| + |end|;
    match EndPick(ms, end, attr)
    case None => EndedWalks(rest, end, attr, next, out, len, ret);
    case Some(p) => EndedWalks(rest, end, attr, next, Overlay(out, 0, p[..Min(len, |p|)]), Min(len, |p|), 0);
  }

  lemma FirstBefore(ms: seq<Plain>, pre: seq<byte>, end: seq<byte>)
    requires ms != []
    ensures |MessagesBytes(ms)| == Length(ms[0]) + |MessagesBytes(ms[1..])|
    ensures pre + (MessagesBytes(ms) + end) == pre + MessageBytes(ms[0]) + (MessagesBytes(ms[1..]) + end)
    ensures ms[1..] != [] ==> ms[1..][|ms[1..]| - 1] == ms[|ms| - 1]
  {
    assert MessagesBytes(ms) == MessageBytes(ms[0]) + MessagesBytes(ms[1..]);
    hide MessageBytes, Length, MessagesBytes;
    Regroup(pre, MessageBytes(ms[0]), MessagesBytes(ms[1..]), end);
  }

  lemma Regroup(a: seq<byte>, b: seq<byte>, c: seq<byte>, d: seq<byte>)
    ensures a + (b + c + d) == a + b + (c + d)
  {
  }

  lemma Before(s: seq<byte>, pre: seq<byte>, m: Plain, behind: seq<byte>)
    requires s == pre + MessageBytes(m) + behind
    ensures Stands(s, |pre|, m) && s[|pre| + Length(m)..] == behind && |s| == |pre| + Length(m) + |behind|
  {
    hide MessageBytes, Length;
    assert s[|pre|..|pre| + Length(m)] == MessageBytes(m);
  }

  /** genlmsg_dispatch on a stream of messages that all carry the wanted attribute, followed by a message of type 3
      (DONE) or 2 (ERROR) and any bytes behind it: exactly the payloads are copied, and it returns 0 or -1. */
  lemma DispatchEnds(ms: seq<Plain>, end: seq<byte>, kind: u16, attr: u16, out: seq<byte>, len: nat)
    requires forall m :: m in ms ==> Wanted(m.attrs, attr).Some?
    requires |end| >= 16 && 16 <= LenOf(end) <= |end| && (TypeOf(end) == 2 || TypeOf(end) == 3)
    requires len <= |out| && |MessagesBytes(ms)| + |end| < 0x8000_0000
    requires kind == 0 || kind == TypeOf(MessagesBytes(ms) + end)
    ensures var (o, l) := CopyAll(Payloads(ms, attr), out, len);
            Dispatch(MessagesBytes(ms) + end, kind, attr, out, len) == Done(if TypeOf(end) == 3 then 0 else -1, o, l)
  {
    hide Walk, LenOf, TypeOf, CopyAll, Payloads, EndPicks, Le16, Le32, MessagesBytes, Wanted;
    var s := MessagesBytes(ms) + end;
    assert [] + s == s && s[0..] == s;
    LittleEndian(s, 0);
    EndedWalks(ms, end, attr, [], out, len, -1);
    AllPayloads(ms, end, attr);
  }

  lemma {:induction false} AllPayloads(ms: seq<Plain>, end: seq<byte>, attr: u16)
    requires forall m :: m in ms ==> Wanted(m.attrs, attr).Some?
    ensures EndPicks(ms, end, attr) == Payloads(ms, attr)
    decreases |ms|
  {
    hide Wanted, StrayIn, Stray;
    if ms != [] {
      assert ms[0] in ms && forall m :: m in ms[1..] ==> m in ms;
      AllPayloads(ms[1..], end, attr);
    }
  }

  /** A first message of another type than asked for: -1, and nothing is changed. */
  lemma OtherType(s: seq<byte>, kind: u16, attr: u16, out: seq<byte>, len: nat)
    requires 6 <= |s| < 0x8000_0000 && len <= |out| && kind != 0 && s[4] as int + s[5] as int * 256 != kind
    ensures Dispatch(s, kind, attr, out, len) == Done(-1, out, len)
  {
    hide Walk;
  }
}

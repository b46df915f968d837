/** The answer walk of name2ip (RFC 1035, sections 4.1.3 and 4.1.4): positions count from the byte behind the
    12-byte message header, where dns_res.buffer starts. */
module DnsAnswer {
  import opened Bytes
  import opened DnsQuery

  const TYPE_A: u16 := 1
  const QUESTION_TAIL := 5
  const RECORD_HEAD := 12

  datatype Raw = Rec(name0: byte, name1: byte, kind: u16, cls: u16, ttl0: u16, ttl1: u16, rdata: seq<byte>)

  /** A resource record with a two-byte (compressed) owner name; an address record has an address. */
  type Record = r: Raw | |r.rdata| < 0x1_0000 && (r.kind == TYPE_A ==> |r.rdata| >= 4)
    witness Rec(0, 0, 0, 0, 0, 0, [])

  function Put16(x: u16): seq<byte> {
    [x / 0x100, x % 0x100]
  }

  function RecHead(r: Record): (s: seq<byte>)
    ensures |s| == RECORD_HEAD && Be16(s, 2) == r.kind && Be16(s, 10) == |r.rdata|
  {
    [r.name0, r.name1] + Put16(r.kind) + Put16(r.cls) + Put16(r.ttl0) + Put16(r.ttl1) + Put16(|r.rdata|)
  }

  function Records(rs: seq<Record>): seq<byte> {
    if rs == [] then [] else RecHead(rs[0]) + rs[0].rdata + Records(rs[1..])
  }

  /** A response behind its header: the question with an uncompressed name, then the answers. */
  function Response(question: seq<Label>, qtail: seq<byte>, rs: seq<Record>): seq<byte> {
    Encode(question) + [0] + qtail + Records(rs)
  }

  /** Either the four address bytes of the record at `index`, or the place where the walk leaves its bytes. */
  datatype Walked = Address(index: nat, addr: seq<byte>) | Beyond(index: nat)

  /** The while loop of name2ip from `index` on. */
  function Walk(s: seq<byte>, index: nat): Walked
    decreases |s| - index
  {
    if index + RECORD_HEAD > |s| then Beyond(index)
    else if Be16(s, index + 2) == TYPE_A then
      if index + RECORD_HEAD + 4 > |s| then Beyond(index)
      else Address(index, s[index + RECORD_HEAD..index + RECORD_HEAD + 4])
    else Walk(s, index + Be16(s, index + 10) as int + RECORD_HEAD)
  }

  /** strlen past the question, then the loop. */
  method AnswerWalk(buffer: array<byte>) returns (r: Walked)
    requires 0 in buffer[..]
    ensures r == Walk(buffer[..], Strlen(buffer[..]) + 5)
    ensures r.Address? ==> r.index + 16 <= buffer.Length && buffer[r.index + 2] == 0 && buffer[r.index + 3] == 1
                           && r.addr == buffer[r.index + 12..r.index + 16]
  {
    var start := Strlen(buffer[..]) + QUESTION_TAIL;
    var index := start;
    while index + RECORD_HEAD <= buffer.Length
      invariant start <= index && Walk(buffer[..], index) == Walk(buffer[..], start)
      decreases buffer.Length - index
    {
      if Be16(buffer[..], index + 2) == TYPE_A {
        if index + RECORD_HEAD + 4 > buffer.Length {
          return Beyond(index);
        }
        return Address(index, buffer[index + RECORD_HEAD..index + RECORD_HEAD + 4]);
      }
      index := index + Be16(buffer[..], index + 10) as int + RECORD_HEAD;
    }
    return Beyond(index);
  }

  /** Offset of the i-th record among the records. */
  function Boundary(rs: seq<Record>, i: nat): nat
    requires i <= |rs|
  {
    if i == 0 then 0 else RECORD_HEAD + |rs[0].rdata| + Boundary(rs[1..], i - 1)
  }

  /** Position of the first type-A record, or the number of records if there is none. */
  function FirstA(rs: seq<Record>): (i: nat)
    ensures i <= |rs| && (i < |rs| ==> rs[i].kind == TYPE_A) && forall j :: 0 <= j < i ==> rs[j].kind != TYPE_A
  {
    if rs == [] then 0 else if rs[0].kind == TYPE_A then 0 else 1 + FirstA(rs[1..])
  }

  /** A record's fields are where the walk looks for them. */
  lemma HeadFields(s: seq<byte>, at: nat, r: Record)
    requires at + RECORD_HEAD <= |s| && s[at..at + RECORD_HEAD] == RecHead(r)
    ensures Be16(s, at + 2) == r.kind && Be16(s, at + 10) == |r.rdata|
  {
    var h := RecHead(r);
    assert s[at + 2] == h[2] && s[at + 3] == h[3] && s[at + 10] == h[10] && s[at + 11] == h[11];
    hide RecHead;
  }

  /** One record of s at `at`: an address, or a step to the next boundary. */
  lemma RecordStep(s: seq<byte>, at: nat, r: Record)
    requires at + RECORD_HEAD + |r.rdata| <= |s|
    requires s[at..at + RECORD_HEAD] == RecHead(r)
    requires s[at + RECORD_HEAD..at + RECORD_HEAD + |r.rdata|] == r.rdata
    ensures Walk(s, at) == if r.kind == TYPE_A then Address(at, r.rdata[..4])
                           else Walk(s, at + RECORD_HEAD + |r.rdata|)
  {
    hide RecHead, Be16;
    HeadFields(s, at, r);
    if r.kind == TYPE_A {
      assert s[at + RECORD_HEAD..at + RECORD_HEAD + 4] == s[at + RECORD_HEAD..at + RECORD_HEAD + |r.rdata|][..4];
    }
  }

  /** From any record boundary the walk goes from boundary to boundary, whatever the lengths of the record data,
      up to the first type-A record; without one it passes the last boundary. */
  lemma {:induction false} RecordsWalk(pre: seq<byte>, rs: seq<Record>)
    ensures var s, i := pre + Records(rs), FirstA(rs);
            if i < |rs| then Walk(s, |pre|) == Address(|pre| + Boundary(rs, i), rs[i].rdata[..4])
            else Walk(s, |pre|) == Beyond(|s|)
    decreases |rs|, 1
  {
    if rs == [] {
      assert pre + Records(rs) == pre;
    } else {
      RecordsCons(pre, rs);
    }
  }

  /** Where the first record lies in a longer byte string. */
  lemma RecordsHead(pre: seq<byte>, rs: seq<Record>)
    requires rs != []
    ensures var s, at, r := pre + Records(rs), |pre|, rs[0];
            var next := at + RECORD_HEAD + |r.rdata|;
            && next <= |s| && s[at..at + RECORD_HEAD] == RecHead(r) && s[at + RECORD_HEAD..next] == r.rdata
            && s == s[..next] + Records(rs[1..])
  {
    hide RecHead;
    var s, at, r := pre + Records(rs), |pre|, rs[0];
    assert Records(rs) == RecHead(r) + r.rdata + Records(rs[1..]);
    hide Records;
  }

  /** Position and offset of the first address record, seen from one record on. */
  lemma FirstALater(rs: seq<Record>)
    requires rs != []
    ensures var i, later := FirstA(rs), FirstA(rs[1..]);
            if rs[0].kind == TYPE_A then i == 0 && Boundary(rs, 0) == 0
            else i == later + 1 && Boundary(rs, i) == RECORD_HEAD + |rs[0].rdata| + Boundary(rs[1..], later) &&
                 (later < |rs[1..]| ==> rs[i] == rs[1..][later])
  {
  }

  lemma {:induction false} RecordsCons(pre: seq<byte>, rs: seq<Record>)
    requires rs != []
    ensures var s, i := pre + Records(rs), FirstA(rs);
            if i < |rs| then Walk(s, |pre|) == Address(|pre| + Boundary(rs, i), rs[i].rdata[..4])
            else Walk(s, |pre|) == Beyond(|s|)
    decreases |rs|, 0
  {
    hide RecHead, Walk, Records, FirstA, Boundary;
    var r, rest, s := rs[0], rs[1..], pre + Records(rs);
    var next := |pre| + RECORD_HEAD + |r.rdata|;
    RecordsHead(pre, rs);
    FirstALater(rs);
    RecordStep(s, |pre|, r);
    RecordsWalk(s[..next], rest);
    assert |s[..next]| == next;
  }

  /** On every response whose answers have compressed owner names, as the walk takes all to be, and whose question has
      no empty label and no zero byte in a label: the walk returns the address of the first type-A record, skipping all
      others, exactly when there is one; otherwise it runs off the end. */
  lemma ResponseWalkIff(question: seq<Label>, qtail: seq<byte>, rs: seq<Record>)
    requires (forall l :: l in question ==> GoodLabel(l) && 0 !in l) && |qtail| == 4
    ensures 0 in Response(question, qtail, rs)
    ensures var s, i := Response(question, qtail, rs), FirstA(rs);
            var r := Walk(s, Strlen(s) + QUESTION_TAIL);
            && (r.Address? <==> exists x :: x in rs && x.kind == TYPE_A)
            && (r.Address? ==>
                  i < |rs| && r.addr == rs[i].rdata[..4] &&
                  r.index == |Encode(question)| + QUESTION_TAIL + Boundary(rs, i))
  {
    hide Encode, Walk, Records, FirstA, Boundary;
    var pre := Encode(question) + [0] + qtail;
    var s := Response(question, qtail, rs);
    EncodeZero(question);
    QuestionStrlen(question, qtail + Records(rs));
    assert s == Encode(question) + [0] + (qtail + Records(rs));
    RecordsWalk(pre, rs);
    assert s == pre + Records(rs) && Strlen(s) + QUESTION_TAIL == |pre|;
    assert (exists x :: x in rs && x.kind == TYPE_A) ==> FirstA(rs) < |rs|;
    assert FirstA(rs) < |rs| ==> rs[FirstA(rs)] in rs;
  }

  /** An address record whose owner name is spelled out as one label of one byte. */
  function Spelled(owner: byte, cls: u16, ttl0: u16, ttl1: u16, addr: seq<byte>): seq<byte> {
    [1, owner, 0] + Put16(TYPE_A) + Put16(cls) + Put16(ttl0) + Put16(ttl1) + Put16(4) + addr
  }

  /** The walk reads such a record a byte too early: if the low byte of its time to live is 0 it is taken for a record
      without data, and the walk runs off the end although there is an address. */
  lemma SpelledOwner(pre: seq<byte>, owner: byte, cls: u16, ttl0: u16, ttl1: u16, addr: seq<byte>)
    requires |addr| == 4 && ttl1 % 0x100 == 0
    ensures Walk(pre + Spelled(owner, cls, ttl0, ttl1, addr), |pre|) == Beyond(|pre| + RECORD_HEAD)
  {
    var record := Spelled(owner, cls, ttl0, ttl1, addr);
    SpelledBytes(owner, cls, ttl0, ttl1, addr);
    hide Spelled;
    ReadsAs(pre + record, |pre|, record);
  }

  lemma SpelledBytes(owner: byte, cls: u16, ttl0: u16, ttl1: u16, addr: seq<byte>)
    requires |addr| == 4 && ttl1 % 0x100 == 0
    ensures var record := Spelled(owner, cls, ttl0, ttl1, addr);
            |record| == 17 && record[2] == 0 && record[3] == 0 && record[10] == 0 && record[11] == 0
  {
  }

  lemma ReadsAs(s: seq<byte>, at: nat, record: seq<byte>)
    requires |record| == 17 && |s| == at + 17 && s[at..] == record
    requires record[2] == 0 && record[3] == 0 && record[10] == 0 && record[11] == 0
    ensures Walk(s, at) == Beyond(at + RECORD_HEAD)
  {
    assert s[at + 2] == s[at..][2] && s[at + 3] == s[at..][3] && s[at + 10] == s[at..][10] && s[at + 11] == s[at..][11];
    assert Be16(s, at + 2) == 0 && Be16(s, at + 10) == 0;
    hide Be16;
  }

  lemma QuestionStrlen(question: seq<Label>, tail: seq<byte>)
    requires 0 !in Encode(question)
    ensures Strlen(Encode(question) + [0] + tail) == |Encode(question)|
  {
    hide Encode;
    var q := Encode(question);
    var s := q + [0] + tail;
    assert s[|q|] == 0;
    forall i | 0 <= i < |q| ensures s[i] != 0 {
      assert s[i] == q[i] && q[i] in q;
    }
  }
}

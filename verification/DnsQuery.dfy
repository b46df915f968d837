/** The DNS query of xconnect.c: fillip's in-place name encoder and the message around it
    (RFC 1035, sections 3.1 and 4.1.2). Strings are byte sequences without the terminating zero. */
module DnsQuery {
  import opened Bytes

  const DOT: byte := 46
  const BUFFER := 256
  const HEADER := 12

  type Label = seq<byte>

  // ----- dotted names -----

  /** The labels of a dotted name; there is always at least one, possibly empty. */
  function Split(name: seq<byte>): (r: seq<Label>)
    ensures |r| > 0
  {
    if name == [] then [[]]
    else
      var rest := Split(name[1..]);
      if name[0] == DOT then [[]] + rest else [[name[0]] + rest[0]] + rest[1..]
  }

  function Join(labels: seq<Label>): seq<byte>
    requires |labels| > 0
  {
    if |labels| == 1 then labels[0] else labels[0] + [DOT] + Join(labels[1..])
  }

  /** RFC 1035 section 3.1 without the closing zero: each label behind its length, which is stored in a char. */
  function Encode(labels: seq<Label>): seq<byte> {
    if labels == [] then [] else [|labels[0]| % 256] + labels[0] + Encode(labels[1..])
  }

  predicate DotFree(part: Label) {
    DOT !in part
  }

  /** Splitting undoes joining, and joining splitting. */
  lemma {:induction false} JoinSplit(name: seq<byte>)
    ensures Join(Split(name)) == name && forall l :: l in Split(name) ==> 46 !in l
  {
    if name != [] {
      JoinSplit(name[1..]);
      var rest := Split(name[1..]);
      if name[0] != DOT {
        var labels := Split(name);
        assert labels[1..] == rest[1..];
        assert forall l :: l in labels ==> l == labels[0] || l in rest;
        assert rest[0] in rest;
      } else {
        assert Split(name)[1..] == rest;
      }
    }
  }

  lemma {:induction false} SplitJoin(labels: seq<Label>)
    requires |labels| > 0 && forall l :: l in labels ==> DotFree(l)
    ensures Split(Join(labels)) == labels
    decreases |Join(labels)|
  {
    var name := Join(labels);
    if labels[0] != [] {
      var shorter := [labels[0][1..]] + labels[1..];
      assert labels[0] in labels && DotFree(labels[0]) && labels[0][0] in labels[0];
      assert shorter[1..] == labels[1..];
      assert name[1..] == Join(shorter);
      forall l | l in shorter ensures DotFree(l) {
        if l == shorter[0] {
          assert forall x :: x in l ==> x in labels[0];
        } else {
          assert l in labels[1..];
        }
      }
      SplitJoin(shorter);
      assert [labels[0][0]] + shorter[0] == labels[0];
      assert labels == [labels[0]] + labels[1..];
    } else if |labels| > 1 {
      assert name == [DOT] + Join(labels[1..]);
      SplitJoin(labels[1..]);
      assert labels == [[]] + labels[1..];
    } else {
      assert labels == [[]];
    }
  }

  /** An encoded name is one byte longer than its text. */
  lemma {:induction false} EncodeLength(name: seq<byte>)
    ensures |Encode(Split(name))| == |name| + 1
  {
    if name != [] {
      EncodeLength(name[1..]);
      var rest := Split(name[1..]);
      if name[0] == DOT {
        assert Split(name)[1..] == rest;
      } else {
        assert Split(name)[1..] == rest[1..];
      }
    } else {
      assert Encode([[]][1..]) == [];
    }
  }

  // ----- fillip -----

  /** Encoding of a prefix: finished labels, then the open label behind a length byte that is still 0. */
  function Partial(done: seq<Label>, open: Label): seq<byte> {
    Encode(done) + [0] + open
  }

  lemma {:induction false} EncodeMore(done: seq<Label>, part: Label)
    ensures Encode(done + [part]) == Encode(done) + [|part| % 256] + part
  {
    if done == [] {
      EncodeOne(part);
      assert [] + [part] == [part];
    } else {
      EncodeMore(done[1..], part);
      EncodeFirst(done);
      EncodeFirst(done + [part]);
      hide Encode;
      assert (done + [part])[1..] == done[1..] + [part];
    }
  }

  lemma EncodeFirst(labels: seq<Label>)
    requires labels != []
    ensures Encode(labels) == [|labels[0]| % 256] + labels[0] + Encode(labels[1..])
  {
  }

  lemma EncodeOne(part: Label)
    ensures Encode([part]) == [|part| % 256] + part && Encode([]) == []
  {
    assert Encode([part]) == [|part| % 256] + part + Encode([part][1..]);
  }

  lemma SplitOne(c: byte)
    ensures Split([c]) == if c == DOT then [[], []] else [[c]]
  {
    var rest := Split([c][1..]);
    assert [c][1..] == [] && rest == [[]];
    assert [[]] + rest == [[], []] && [c] + rest[0] == [c] && [[c]] + rest[1..] == [[c]];
  }

  /** Splitting a longer text: a dot closes the last label, any other byte extends it. */
  function Extended(ls: seq<Label>, c: byte): seq<Label>
    requires |ls| > 0
  {
    if c == DOT then ls + [[]] else ls[..|ls| - 1] + [ls[|ls| - 1] + [c]]
  }

  lemma {:induction false} SplitMore(name: seq<byte>, c: byte)
    ensures Split(name + [c]) == Extended(Split(name), c)
  {
    if name == [] {
      SplitOne(c);
      assert name + [c] == [c] && Split(name) == [[]];
    } else {
      SplitMore(name[1..], c);
      assert (name + [c])[1..] == name[1..] + [c];
      ExtendedHead(Split(name[1..]), name[0], c);
    }
  }

  /** Putting a byte in front and extending at the end commute. */
  lemma ExtendedHead(rest: seq<Label>, x: byte, c: byte)
    requires |rest| > 0
    ensures [[]] + Extended(rest, c) == Extended([[]] + rest, c)
    ensures [[x] + Extended(rest, c)[0]] + Extended(rest, c)[1..] == Extended([[x] + rest[0]] + rest[1..], c)
  {
    var l := Extended(rest, c);
    if c != DOT && |rest| == 1 {
      assert [x] + (rest[0] + [c]) == [x] + rest[0] + [c];
    }
  }

  /** What fillip's buffer holds after i bytes of the text, when the open label's length byte is to go to j. */
  ghost predicate Underway(b: seq<byte>, name: seq<byte>, i: nat, j: nat, done: seq<Label>, open: Label) {
    && j <= i <= |name| < |b|
    && j == |Encode(done)| && |open| == i - j
    && Split(name[..i]) == done + [open]
    && b[..i + 1] == Partial(done, open)
    && forall p :: i < p < |b| ==> b[p] == 0
  }

  /** An int stored in a char. */
  function LengthByte(n: nat): byte {
    n % 256
  }

  /** fillip: one pass over the text, each length back-patched when its label ends. */
  method Fillip(buffer: array<byte>, name: seq<byte>)
    requires |name| + 1 <= buffer.Length
    requires forall i :: 0 <= i < buffer.Length ==> buffer[i] == 0
    modifies buffer
    ensures buffer[..] == Encode(Split(name)) + Zeros(buffer.Length - |name| - 1)
  {
    ghost var done: seq<Label>, open: Label := [], [];
    var i, j := 0, 0;
    Begins(buffer[..], name);
    hide Split, Encode, Underway, LengthByte;
    while i < |name|
      invariant 0 <= j <= i <= |name| && Underway(buffer[..], name, i, j, done, open)
    {
      ghost var was := buffer[..];
      if name[i] != DOT {
        Extends(was, name, i, j, done, open);
        buffer[i + 1] := name[i];
        assert buffer[..] == was[i + 1 := name[i]];
        open := open + [name[i]];
      } else {
        Closes(was, name, i, j, done, open);
        var len := LengthByte(i - j);
        buffer[j] := len;
        assert buffer[..] == was[j := len];
        done, open, j := done + [open], [], i + 1;
      }
      i := i + 1;
    }
    ghost var was := buffer[..];
    Finishes(was, name, j, done, open);
    var len := LengthByte(i - j);
    buffer[j] := len;
    assert buffer[..] == was[j := len];
  }

  lemma Begins(b: seq<byte>, name: seq<byte>)
    requires |name| < |b| && forall p :: 0 <= p < |b| ==> b[p] == 0
    ensures Underway(b, name, 0, 0, [], [])
  {
    assert name[..0] == [] && Split([]) == [[]] && Partial([], []) == [0];
  }

  /** buffer[i + 1] = c: the open label grows. */
  lemma Extends(b: seq<byte>, name: seq<byte>, i: nat, j: nat, done: seq<Label>, open: Label)
    requires Underway(b, name, i, j, done, open) && i < |name| && name[i] != DOT
    ensures i + 1 < |b| && Underway(b[i + 1 := name[i]], name, i + 1, j, done, open + [name[i]])
  {
    hide Split, Encode;
    NextSplit(name, i, done, open);
    PartialOpen(done, open, name[i]);
    hide Partial;
    var after := b[i + 1 := name[i]];
    assert after[..i + 2] == b[..i + 1] + [name[i]];
  }

  /** buffer[j] = i - j: the length byte of the label that ends at i is patched in. */
  lemma Patched(b: seq<byte>, name: seq<byte>, i: nat, j: nat, done: seq<Label>, open: Label)
    requires Underway(b, name, i, j, done, open)
    ensures j < |b| && b[j := LengthByte(i - j)][..i + 1] == Encode(done + [open])
  {
    PartialClosed(done, open);
    hide Encode, Split;
    assert b[j := LengthByte(i - j)][..i + 1] == Encode(done) + [LengthByte(i - j)] + open;
  }

  lemma Closes(b: seq<byte>, name: seq<byte>, i: nat, j: nat, done: seq<Label>, open: Label)
    requires Underway(b, name, i, j, done, open) && i < |name| && name[i] == DOT
    ensures j < |b| && Underway(b[j := LengthByte(i - j)], name, i + 1, i + 1, done + [open], [])
  {
    Patched(b, name, i, j, done, open);
    NextSplit(name, i, done, open);
    PartialClosed(done, open);
    hide Encode, Split, Partial, LengthByte;
    var after := b[j := LengthByte(i - j)];
    assert after[i + 1] == 0 && after[..i + 2] == after[..i + 1] + [0];
  }

  lemma Finishes(b: seq<byte>, name: seq<byte>, j: nat, done: seq<Label>, open: Label)
    requires Underway(b, name, |name|, j, done, open)
    ensures j < |b| && b[j := LengthByte(|name| - j)] == Encode(Split(name)) + Zeros(|b| - |name| - 1)
  {
    hide Underway, Encode, Split, Zeros, LengthByte;
    AllSplit(b, name, j, done, open);
    Complete(b, j, LengthByte(|name| - j), |name| + 1, Encode(Split(name)));
  }

  lemma Complete(b: seq<byte>, at: nat, x: byte, n: nat, code: seq<byte>)
    requires at < n <= |b| && b[at := x][..n] == code && forall p :: n <= p < |b| ==> b[p] == 0
    ensures b[at := x] == code + Zeros(|b| - n)
  {
  }

  lemma AllSplit(b: seq<byte>, name: seq<byte>, j: nat, done: seq<Label>, open: Label)
    requires Underway(b, name, |name|, j, done, open)
    ensures j <= |name| < |b| && b[j := LengthByte(|name| - j)][..|name| + 1] == Encode(Split(name))
    ensures forall p :: |name| < p < |b| ==> b[p] == 0
  {
    Patched(b, name, |name|, j, done, open);
    hide Encode, Split, Partial, LengthByte;
    assert name[..|name|] == name;
    assert Split(name) == done + [open];
  }

  /** Splitting one byte more of the text. */
  lemma NextSplit(name: seq<byte>, i: nat, done: seq<Label>, open: Label)
    requires i < |name| && Split(name[..i]) == done + [open]
    ensures Split(name[..i + 1]) == if name[i] == DOT then done + [open] + [[]] else done + [open + [name[i]]]
  {
    hide Split;
    SplitMore(name[..i], name[i]);
    assert name[..i + 1] == name[..i] + [name[i]];
  }

  lemma PartialOpen(done: seq<Label>, open: Label, c: byte)
    ensures Partial(done, open + [c]) == Partial(done, open) + [c]
  {
  }

  /** Patching the length byte of the open label finishes it. */
  lemma PartialClosed(done: seq<Label>, open: Label)
    ensures var j := |Encode(done)|;
            && Encode(done) + [|open| % 256] + open == Encode(done + [open])
            && Partial(done + [open], []) == Encode(done + [open]) + [0]
  {
    EncodeMore(done, open);
  }

  // ----- decoding -----

  /** Reads a name as RFC 1035 section 3.1 says: labels of 1..63 bytes up to a zero length; None for a length
      with one of the top two bits set or for a name that runs out of its bytes. */
  function Decode(s: seq<byte>): Option<seq<Label>> {
    if s == [] then None
    else if s[0] == 0 then Some([])
    else if s[0] > 63 || 1 + s[0] > |s| then None
    else
      match Decode(s[1 + s[0]..])
      case None => None
      case Some(rest) => Some([s[1..1 + s[0]]] + rest)
  }

  predicate GoodLabel(part: Label) {
    1 <= |part| <= 63
  }

  /** A label of a wrong size is not read back. */
  lemma WrongLabel(s: seq<byte>, part: Label, rest: seq<Label>)
    requires s != [] && s[0] == |part| % 256 && !GoodLabel(part)
    ensures Decode(s) != Some([part] + rest)
  {
    if Decode(s).Some? && s[0] != 0 {
      assert Decode(s).value[0] == s[1..1 + s[0]];
    }
  }

  lemma RightLabel(part: Label, rest: seq<byte>)
    requires GoodLabel(part)
    ensures Decode([|part|] + part + rest) ==
            match Decode(rest) case None => None case Some(ls) => Some([part] + ls)
  {
    var s := [|part|] + part + rest;
    assert s[1 + |part|..] == rest && s[1..1 + |part|] == part;
  }

  /** Decoding gives back the labels exactly when each has 1 to 63 bytes. */
  lemma {:induction false} RoundTripIff(labels: seq<Label>, tail: seq<byte>)
    ensures Decode(Encode(labels) + [0] + tail) == Some(labels) <==> forall l :: l in labels ==> GoodLabel(l)
  {
    if labels == [] {
      assert (Encode([]) + [0] + tail)[0] == 0;
    } else {
      RoundTripIff(labels[1..], tail);
      EncodeFirst(labels);
      hide Decode, Encode;
      DecodeFirst(labels[0], labels[1..], Encode(labels[1..]) + [0] + tail);
      assert labels == [labels[0]] + labels[1..];
      assert Encode(labels) + [0] + tail == [|labels[0]| % 256] + labels[0] + (Encode(labels[1..]) + [0] + tail);
      assert forall l :: l in labels <==> l == labels[0] || l in labels[1..];
    }
  }

  /** A label in front is read back with the rest exactly if it has 1 to 63 bytes and the rest is read back. */
  lemma DecodeFirst(part: Label, rest: seq<Label>, behind: seq<byte>)
    ensures Decode([|part| % 256] + part + behind) == Some([part] + rest)
       <==> GoodLabel(part) && Decode(behind) == Some(rest)
  {
    var s := [|part| % 256] + part + behind;
    hide Decode;
    if GoodLabel(part) {
      RightLabel(part, behind);
      if Decode(behind).Some? && [part] + Decode(behind).value == [part] + rest {
        assert Decode(behind).value == ([part] + rest)[1..] == rest;
      }
    } else {
      WrongLabel(s, part, rest);
    }
  }

  // ----- the query message -----

  /** strlen of a buffer that holds a zero. */
  function Strlen(s: seq<byte>): (n: nat)
    requires 0 in s
    ensures n < |s| && s[n] == 0 && forall i :: 0 <= i < n ==> s[i] != 0
  {
    if s[0] == 0 then 0 else 1 + Strlen(s[1..])
  }

  /** An encoded name has a zero byte only where a label is empty. */
  lemma {:induction false} EncodeZero(labels: seq<Label>)
    requires forall l :: l in labels ==> |l| < 256 && 0 !in l
    ensures 0 in Encode(labels) <==> [] in labels
  {
    if labels != [] {
      var part, rest := labels[0], labels[1..];
      assert part in labels && labels == [part] + rest;
      EncodeZero(rest);
    }
  }

  lemma {:induction false} SplitBytes(name: seq<byte>, l: Label)
    requires l in Split(name)
    ensures |l| <= |name| && forall x :: x in l ==> x in name
  {
    if name != [] {
      var rest := Split(name[1..]);
      if name[0] == DOT {
        if l != [] {
          assert l in rest;
          SplitBytes(name[1..], l);
        }
      } else if l == [name[0]] + rest[0] {
        SplitBytes(name[1..], rest[0]);
      } else {
        assert l in rest[1..];
        SplitBytes(name[1..], l);
      }
    }
  }

  /** strlen of a zero-padded name is its encoded length exactly when no label is empty, else less. */
  lemma FilledStrlen(labels: seq<Label>, n: nat)
    requires (forall l :: l in labels ==> |l| < 256 && 0 !in l) && n > 0
    ensures 0 in Encode(labels) + Zeros(n)
    ensures Strlen(Encode(labels) + Zeros(n)) <= |Encode(labels)|
    ensures Strlen(Encode(labels) + Zeros(n)) == |Encode(labels)| <==> [] !in labels
  {
    EncodeZero(labels);
    var code := Encode(labels);
    hide Encode;
    var s := code + Zeros(n);
    assert s[|code|] == 0;
    if 0 in code {
      var i :| 0 <= i < |code| && code[i] == 0;
      assert s[i] == 0;
    } else {
      forall i | 0 <= i < |code| ensures s[i] != 0 {
        assert s[i] == code[i] && code[i] in code;
      }
    }
  }

  /** The labels a name stands for: a dot at its end, or nothing at all, is the root. */
  function Labels(name: seq<byte>): seq<Label> {
    var ls := Split(name);
    if ls[|ls| - 1] == [] then ls[..|ls| - 1] else ls
  }

  /** Transaction 0x4419, recursion desired, one question. */
  function Fixed(): (r: seq<byte>)
    ensures |r| == HEADER
  {
    [0x44, 0x19, 0x01, 0x00, 0, 1, 0, 0, 0, 0, 0, 0]
  }

  /** The message of RFC 1035 section 4.1.2: fixed header, encoded name, zero, QTYPE A, QCLASS IN. */
  function Query(name: seq<byte>): seq<byte> {
    Fixed() + Encode(Labels(name)) + [0] + [0, 1, 0, 1]
  }

  /** What fillip leaves in the zeroed buffer is the name's labels and zeros; a root label is one zero more. */
  lemma FilledIs(name: seq<byte>, n: nat) returns (zeros: nat)
    requires n > 0
    ensures n <= zeros <= n + 1 && Encode(Split(name)) + Zeros(n) == Encode(Labels(name)) + Zeros(zeros)
  {
    hide Split, Encode;
    var ls := Split(name);
    zeros := n;
    if ls[|ls| - 1] == [] {
      EncodeMore(ls[..|ls| - 1], []);
      assert ls[..|ls| - 1] + [[]] == ls;
      zeros := n + 1;
      assert [0] + Zeros(n) == Zeros(n + 1);
    }
  }

  lemma LabelBytes(name: seq<byte>)
    requires 0 !in name && |name| < 256
    ensures forall l :: l in Labels(name) ==> |l| < 256 && 0 !in l
  {
    forall l | l in Labels(name) ensures |l| < 256 && 0 !in l {
      SplitBytes(name, l);
    }
  }

  /** Only labels of 1 to 63 bytes are ever read. */
  lemma {:induction false} DecodeGood(s: seq<byte>)
    ensures Decode(s).Some? ==> forall l :: l in Decode(s).value ==> GoodLabel(l)
    decreases |s|
  {
    if s != [] && 0 < s[0] <= 63 && 1 + s[0] <= |s| {
      DecodeGood(s[1 + s[0]..]);
    }
  }

  /** The query decodes to the labels of the name exactly when each has 1 to 63 bytes. */
  lemma QueryDecodesIff(name: seq<byte>)
    ensures Decode(Query(name)[HEADER..]) == Some(Labels(name)) <==> forall l :: l in Labels(name) ==> GoodLabel(l)
  {
    hide Labels, Decode, Encode, Fixed;
    RoundTripIff(Labels(name), [0, 1, 0, 1]);
    assert Query(name)[HEADER..] == Encode(Labels(name)) + [0] + [0, 1, 0, 1];
  }

  lemma WholeOrCut(fixed: seq<byte>, code: seq<byte>, zeros: nat, n: nat, tail: seq<byte>, sent: seq<byte>)
    requires zeros > 0 && n <= |code| && sent == fixed + (code + Zeros(zeros))[..n + 1] + tail
    ensures n == |code| ==> sent == fixed + code + [0] + tail
    ensures n < |code| ==> |sent| < |fixed + code + [0] + tail|
  {
    if n == |code| {
      assert (code + Zeros(zeros))[..n + 1] == code + [0];
    }
  }

  /** What strlen + 17 bytes of the struct are, and mean. */
  lemma SentIs(name: seq<byte>, zeros: nat, n: nat, sent: seq<byte>)
    requires 0 !in name && |name| < 256 && zeros > 0 && 0 in Encode(Labels(name)) + Zeros(zeros)
    requires n == Strlen(Encode(Labels(name)) + Zeros(zeros))
    requires sent == Fixed() + (Encode(Labels(name)) + Zeros(zeros))[..n + 1] + [0, 1, 0, 1]
    ensures sent == Query(name) <==> [] !in Labels(name)
    ensures |sent| >= HEADER
    ensures Decode(sent[HEADER..]) == Some(Labels(name)) <==> forall l :: l in Labels(name) ==> GoodLabel(l)
  {
    LabelBytes(name);
    FilledStrlen(Labels(name), zeros);
    hide Labels, Encode, Decode, Strlen, Fixed;
    WholeOrCut(Fixed(), Encode(Labels(name)), zeros, n, [0, 1, 0, 1], sent);
    DecodeGood(sent[HEADER..]);
    QueryDecodesIff(name);
  }

  /** The request half of name2ip: fill the zeroed struct, put type and class behind the name, and send
      strlen + 17 bytes. The bytes sent are the query exactly when no label is empty, and they decode to the labels
      asked for exactly when each has 1 to 63 bytes. */
  method BuildQuery(name: seq<byte>) returns (sent: seq<byte>)
    requires 0 !in name && |name| + 1 < 256
    ensures sent == Query(name) <==> [] !in Labels(name)
    ensures |sent| >= 17 && sent[..12] == [0x44, 0x19, 0x01, 0x00, 0, 1, 0, 0, 0, 0, 0, 0]
    ensures sent[|sent| - 5..] == [0, 0, 1, 0, 1]
    ensures Decode(sent[12..]) == Some(Labels(name)) <==> forall l :: l in Labels(name) ==> GoodLabel(l)
  {
    hide Split, Encode, Labels, Decode, Query, Strlen, Fixed;
    var area := new byte[BUFFER + 4](_ => 0);
    FillRequest(area, name);
    ghost var was := area[..];
    RequestStrlen(name, was);
    var n, query := Strlen(area[..]), area[BUFFER..];
    Copy(area, n + 1, query);
    sent := Fixed() + area[..n + 5];
    RequestSent(name, was, area[..], sent);
  }

  /** The zeroed struct with the name and the query field filled in. */
  predicate Filled(name: seq<byte>, area: seq<byte>) {
    |name| + 1 < BUFFER && area == Encode(Split(name)) + Zeros(BUFFER - |name| - 1) + [0, 1, 0, 1]
  }

  lemma RequestStrlen(name: seq<byte>, area: seq<byte>)
    requires Filled(name, area)
    ensures var filled := Encode(Split(name)) + Zeros(BUFFER - |name| - 1);
            && |filled| == BUFFER && area == filled + [0, 1, 0, 1]
            && 0 in filled && 0 in area && Strlen(area) == Strlen(filled) < BUFFER
  {
    hide Split, Encode, Strlen;
    EncodeLength(name);
    var filled := Encode(Split(name)) + Zeros(BUFFER - |name| - 1);
    assert filled[BUFFER - 1] == 0;
    StrlenPrefix(filled, [0, 1, 0, 1]);
  }

  lemma RequestSent(name: seq<byte>, was: seq<byte>, now: seq<byte>, sent: seq<byte>)
    requires 0 !in name && Filled(name, was) && 0 in was && Strlen(was) + 5 <= |was|
    requires now == Overlay(was, Strlen(was) + 1, [0, 1, 0, 1]) && sent == Fixed() + now[..Strlen(was) + 5]
    ensures sent == Query(name) <==> [] !in Labels(name)
    ensures |sent| >= 17 && sent[..12] == [0x44, 0x19, 0x01, 0x00, 0, 1, 0, 0, 0, 0, 0, 0]
    ensures sent[|sent| - 5..] == [0, 0, 1, 0, 1]
    ensures Decode(sent[12..]) == Some(Labels(name)) <==> forall l :: l in Labels(name) ==> GoodLabel(l)
  {
    FixedBytes();
    hide Split, Encode, Labels, Decode, Query, Strlen, Fixed, GoodLabel;
    RequestStrlen(name, was);
    var zeros := FilledIs(name, BUFFER - |name| - 1);
    var n, filled := Strlen(was), Encode(Split(name)) + Zeros(BUFFER - |name| - 1);
    PutBehind(was, n + 1, [0, 1, 0, 1], now);
    assert was[..n + 1] == filled[..n + 1];
    assert sent == Fixed() + filled[..n + 1] + [0, 1, 0, 1];
    SentEnds(Fixed(), filled, n, sent);
    SentIs(name, zeros, n, sent);
  }

  lemma FixedBytes()
    ensures Fixed() == [0x44, 0x19, 0x01, 0x00, 0, 1, 0, 0, 0, 0, 0, 0]
  {
  }

  lemma SentEnds(fixed: seq<byte>, filled: seq<byte>, n: nat, sent: seq<byte>)
    requires |fixed| == 12 && n < |filled| && filled[n] == 0 && sent == fixed + filled[..n + 1] + [0, 1, 0, 1]
    ensures |sent| >= 17 && sent[..12] == fixed && sent[|sent| - 5..] == [0, 0, 1, 0, 1]
  {
  }

  /** The struct's buffer and, directly behind it, its query field. */
  method FillRequest(area: array<byte>, name: seq<byte>)
    requires area.Length == BUFFER + 4 && |name| + 1 < BUFFER
    requires forall i :: 0 <= i < area.Length ==> area[i] == 0
    modifies area
    ensures Filled(name, area[..]) && area[BUFFER..] == [0, 1, 0, 1]
  {
    EncodeLength(name);
    hide Split, Encode;
    Fillip(area, name);
    ghost var was := area[..];
    assert was[..BUFFER] == Encode(Split(name)) + Zeros(BUFFER - |name| - 1);
    Copy(area, BUFFER, [0, 1, 0, 1]);
    assert area[..] == was[..BUFFER] + [0, 1, 0, 1];
    assert area[BUFFER..] == area[..][BUFFER..];
  }

  lemma {:induction false} StrlenPrefix(s: seq<byte>, t: seq<byte>)
    requires 0 in s
    ensures 0 in s + t && Strlen(s + t) == Strlen(s)
  {
    assert (s + t)[Strlen(s)] == 0;
    if s[0] != 0 {
      assert (s + t)[1..] == s[1..] + t;
      StrlenPrefix(s[1..], t);
    }
  }

  lemma PutBehind(was: seq<byte>, at: nat, data: seq<byte>, now: seq<byte>)
    requires at + |data| <= |was| && now == Overlay(was, at, data)
    ensures now[..at + |data|] == was[..at] + data
  {
  }
}

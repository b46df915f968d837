/** Address texts of xconnect.c: what sockaddr2str prints and str2sockaddr takes apart (IPv6 support on).
    Strings are without the terminating zero. */
module HostPort {
  import opened Bytes

  // ----- strchr, strrchr, decimal numbers -----

  /** Position of the first c, or |s|. */
  function Index(s: string, c: char): (i: nat)
    ensures i <= |s| && (i < |s| ==> s[i] == c) && forall j :: 0 <= j < i ==> s[j] != c
  {
    if s == "" then 0 else if s[0] == c then 0 else 1 + Index(s[1..], c)
  }

  /** Position of the last c, or -1. */
  function LastIndex(s: string, c: char): (i: int)
    ensures -1 <= i < |s| && (i >= 0 ==> s[i] == c) && forall j :: i < j < |s| ==> s[j] != c
  {
    if s == "" then -1 else if s[|s| - 1] == c then |s| - 1 else LastIndex(s[..|s| - 1], c)
  }

  predicate IsDigit(c: char) {
    '0' <= c <= '9'
  }

  function Digits(n: nat): (s: string)
    ensures s != "" && forall c :: c in s ==> IsDigit(c)
  {
    var last := '0' + (n % 10) as char;
    if n < 10 then [last] else Digits(n / 10) + [last]
  }

  /** bb_strtou in base 10 with no end pointer: a non-empty run of digits and nothing else. */
  function Number(s: string): Option<nat> {
    if s == "" || !IsDigit(s[|s| - 1]) then None
    else
      var d := s[|s| - 1] as int - '0' as int;
      if |s| == 1 then Some(d)
      else
        match Number(s[..|s| - 1])
        case None => None
        case Some(n) => Some(10 * n + d)
  }

  lemma {:induction false} NumberOfDigits(n: nat)
    ensures Number(Digits(n)) == Some(n)
  {
    var s := Digits(n);
    if n >= 10 {
      NumberOfDigits(n / 10);
      assert s[..|s| - 1] == Digits(n / 10);
    }
  }

  // ----- printing and parsing -----

  /** sockaddr2str for an internet address with a numeric port. */
  function Print(inet6: bool, host: string, port: nat): string {
    if inet6 && ':' in host then "[" + host + "]:" + Digits(port) else host + ":" + Digits(port)
  }

  /** What str2sockaddr takes the text for, before any name is looked up. */
  datatype Parsed = UnixPath(path: string) | BadAddress | BadPort | Host(host: string, port: nat)

  const LOCAL := "local:"

  function PortFrom(host: string, digits: string): Parsed {
    match Number(digits)
    case None => BadPort
    case Some(p) => if p > 0xffff then BadPort else Host(host, p)
  }

  /** The parsing half of str2sockaddr; unixLocal is ENABLE_FEATURE_UNIX_LOCAL, port the default. */
  function Parse(text: string, port: nat, unixLocal: bool): Parsed {
    if unixLocal && LOCAL <= text then UnixPath(text[|LOCAL|..])
    else if text != "" && text[0] == '[' then
      var inner := text[1..];
      var close := Index(inner, ']');
      if close == |inner| then BadAddress
      else if close + 1 == |inner| then Host(inner[..close], port)
      else if inner[close + 1] != ':' then BadAddress
      else PortFrom(inner[..close], inner[close + 2..])
    else
      var colon := LastIndex(text, ':');
      if colon < 0 || Index(text, ':') != colon then Host(text, port)
      else PortFrom(text[..colon], text[colon + 1..])
  }

  /** str2sockaddr with its moving host, cp and port; cp is a position in the text, -1 for NULL. */
  method ParseInPlace(text: string, defaultPort: nat, unixLocal: bool) returns (r: Parsed)
    ensures r == Parse(text, defaultPort, unixLocal)
  {
    hide Number, Index, LastIndex;
    if unixLocal && LOCAL <= text {
      return UnixPath(text[|LOCAL|..]);
    }
    var host, cp, port := 0, -1, defaultPort;
    if text != "" && text[0] == '[' {
      host := 1;
      cp := host + Index(text[host..], ']');
      if cp == |text| || (cp + 1 < |text| && text[cp + 1] != ':') {
        return BadAddress;
      }
    } else {
      cp := LastIndex(text, ':');
      if cp >= 0 && Index(text, ':') != cp {
        cp := -1;
      }
    }
    if cp < 0 {
      return Host(text[host..], port);
    }
    var name := text[host..cp];
    if text[cp] != ':' {
      cp := cp + 1;
      if cp == |text| {
        return Host(name, port);
      }
    }
    cp := cp + 1;
    var number := Number(text[cp..]);
    if number.None? || number.value > 0xffff {
      return BadPort;
    }
    port := number.value;
    return Host(name, port);
  }

  // ----- round trip -----

  /** A printed text can be read back: a bracketed host has no ']' of its own; an unbracketed one has no ':', does
      not open with '[', and is not the word that announces a socket path. */
  predicate Readable(inet6: bool, host: string, unixLocal: bool) {
    if inet6 && ':' in host then ']' !in host
    else ':' !in host && !("[" <= host) && !(unixLocal && host == "local")
  }

  lemma PortReads(host: string, port: nat)
    requires port <= 0xffff
    ensures PortFrom(host, Digits(port)) == Host(host, port)
  {
    NumberOfDigits(port);
  }

  lemma BracketedIff(host: string, port: nat, dflt: nat, unixLocal: bool)
    requires port <= 0xffff && ':' in host
    ensures Parse(Print(true, host, port), dflt, unixLocal) == Host(host, port) <==> ']' !in host
  {
    var text, digits := Print(true, host, port), Digits(port);
    var inner, close := text[1..], Index(text[1..], ']');
    assert inner == host + "]:" + digits;
    assert !(LOCAL <= text) by {
      assert text[0] == '[' && LOCAL[0] == 'l';
    }
    assert inner[|host|] == ']';
    if ']' in host {
      var i :| 0 <= i < |host| && host[i] == ']';
      assert inner[i] == ']' && close <= i;
      PortHost(inner[..close], inner);
    } else {
      assert forall i :: 0 <= i < |host| ==> inner[i] == host[i];
      assert close == |host| && inner[..close] == host && inner[close + 2..] == digits;
      PortReads(host, port);
    }
  }

  /** Whatever number follows, the host found is the one handed on. */
  lemma PortHost(host: string, digits: string)
    ensures var r := PortFrom(host, digits); r.Host? ==> r.host == host
  {
  }

  /** In host:digits the only ':' outside the host is the one that was printed. */
  lemma Colons(host: string, digits: string)
    requires forall c :: c in digits ==> IsDigit(c)
    ensures var text := host + ":" + digits;
            && LastIndex(text, ':') == |host|
            && (Index(text, ':') == |host| <==> ':' !in host)
  {
    var text := host + ":" + digits;
    assert text[|host|] == ':';
    forall p | |host| < p < |text| ensures text[p] != ':' {
      assert text[p] == digits[p - |host| - 1] && digits[p - |host| - 1] in digits;
    }
    forall p | 0 <= p < |host| ensures text[p] == host[p] {
    }
    if ':' in host {
      var i :| 0 <= i < |host| && host[i] == ':';
      assert text[i] == ':';
    }
  }

  /** A leading '[' is taken for a bracket, and the host that comes out is never the whole one. */
  lemma LeadingBracket(host: string, port: nat, dflt: nat, unixLocal: bool)
    requires "[" <= host
    ensures Parse(host + ":" + Digits(port), dflt, unixLocal) != Host(host, port)
  {
    var digits := Digits(port);
    var text := host + ":" + digits;
    assert text[0] == '[' && LOCAL[0] == 'l';
    var inner := text[1..];
    var close := Index(inner, ']');
    if |host| < |inner| {
      assert inner[|host|] == digits[0] && digits[0] in digits;
    }
    hide Number, Index;
    if close < |inner| {
      assert |inner[..close]| != |host|;
    }
  }

  lemma PlainIff(host: string, port: nat, dflt: nat, unixLocal: bool)
    requires port <= 0xffff
    ensures Parse(host + ":" + Digits(port), dflt, unixLocal) == Host(host, port)
            <==> ':' !in host && !("[" <= host) && !(unixLocal && host == "local")
  {
    var digits := Digits(port);
    var text := host + ":" + digits;
    hide Number, Index, LastIndex, Digits;
    Colons(host, digits);
    PortReads(host, port);
    if "[" <= host {
      LeadingBracket(host, port, dflt, unixLocal);
    } else {
      assert text[0] != '[';
      assert text[..|host|] == host && text[|host| + 1..] == digits;
      if ':' !in host {
        LocalIff(host, digits);
      }
    }
  }

  /** Of the readable texts only that of the host "local" announces a socket path. */
  lemma LocalIff(host: string, digits: string)
    requires ':' !in host && forall c :: c in digits ==> IsDigit(c)
    ensures LOCAL <= host + ":" + digits <==> host == "local"
  {
    var text := host + ":" + digits;
    forall p | 0 <= p < |text| && p != |host| ensures text[p] != ':' {
      if p < |host| {
        assert text[p] == host[p] && host[p] in host;
      } else {
        assert text[p] == digits[p - |host| - 1] && digits[p - |host| - 1] in digits;
      }
    }
    assert text[..|host|] == host;
    if LOCAL <= text {
      assert text[5] == ':';
      assert text[..5] == "local";
    }
  }

  /** Round trip: parsing the text printed for a host and port gives back exactly that host and port, exactly
      when the host is readable. */
  lemma RoundTripIff(inet6: bool, host: string, port: nat, dflt: nat, unixLocal: bool)
    requires port <= 0xffff
    ensures Parse(Print(inet6, host, port), dflt, unixLocal) == Host(host, port) <==> Readable(inet6, host, unixLocal)
  {
    hide Parse, Digits;
    if inet6 && ':' in host {
      BracketedIff(host, port, dflt, unixLocal);
    } else {
      PlainIff(host, port, dflt, unixLocal);
    }
  }

  /** A bare literal with two or more ':' (such as "::1") is a host as it stands, with the default port. */
  lemma BareLiteral(text: string, i: nat, j: nat, port: nat, unixLocal: bool)
    requires i < j < |text| && text[i] == ':' && text[j] == ':'
    requires text[0] != '[' && !(LOCAL <= text)
    ensures Parse(text, port, unixLocal) == Host(text, port)
  {
    assert Index(text, ':') <= i && LastIndex(text, ':') >= j;
  }

  // ----- what every shape of text means -----

  function Pow10(n: nat): nat {
    if n == 0 then 1 else 10 * Pow10(n - 1)
  }

  predicate AllDigits(s: string) {
    forall i :: 0 <= i < |s| ==> '0' <= s[i] <= '9'
  }

  /** The digits of a decimal numeral weighed by their places, the first one most. */
  function Decimal(s: string): nat
    requires AllDigits(s)
  {
    if s == "" then 0
    else
      var first: nat, place := s[0] as int - '0' as int, Pow10(|s| - 1);
      first * place + Decimal(s[1..])
  }

  lemma {:induction false} DecimalLast(s: string)
    requires s != "" && AllDigits(s)
    ensures Decimal(s) == 10 * Decimal(s[..|s| - 1]) + (s[|s| - 1] as int - '0' as int)
    decreases |s|
  {
    if |s| > 1 {
      var rest, init := s[1..], s[..|s| - 1];
      DecimalLast(rest);
      assert rest[..|rest| - 1] == init[1..] && rest[|rest| - 1] == s[|s| - 1];
      var first, p := s[0] as int - '0' as int, Pow10(|s| - 2);
      assert Decimal(s) == first * (10 * p) + Decimal(rest);
      assert Decimal(init) == first * p + Decimal(init[1..]);
      Tenfold(first, p);
    } else {
      assert s[1..] == "" && s[..0] == "";
      assert Pow10(0) == 1;
    }
  }

  lemma Tenfold(a: int, b: int)
    ensures a * (10 * b) == 10 * (a * b)
  {
  }

  /** A number is read exactly from the decimal numerals, and with their value. */
  lemma {:induction false} NumberIs(s: string)
    ensures Number(s).Some? <==> s != "" && AllDigits(s)
    ensures s != "" && AllDigits(s) ==> Number(s).value == Decimal(s)
    decreases |s|
  {
    if s != "" {
      if AllDigits(s) {
        DecimalLast(s);
      }
      NumberIs(s[..|s| - 1]);
      assert s[..0] == "" && Decimal("") == 0;
      assert forall i :: 0 <= i < |s| - 1 ==> s[..|s| - 1][i] == s[i];
    }
  }

  /** The port behind the host: a decimal numeral up to 65535. */
  function WithPort(host: string, tail: string): Parsed {
    if tail != "" && AllDigits(tail) && Decimal(tail) <= 65535 then Host(host, Decimal(tail)) else BadPort
  }

  lemma PortIs(host: string, tail: string)
    ensures PortFrom(host, tail) == WithPort(host, tail)
  {
    NumberIs(tail);
  }

  lemma FirstAt(s: string, c: char, i: nat)
    requires i < |s| && s[i] == c && forall j :: 0 <= j < i ==> s[j] != c
    ensures Index(s, c) == i
  {
  }

  lemma NotFirst(a: string, b: string)
    requires a != "" && b != "" && a[0] != b[0]
    ensures !(a <= b)
  {
  }

  /** A text without ':' that does not open with '[' is a host with the default port. */
  lemma BareHost(text: string, port: nat, unixLocal: bool)
    requires ':' !in text && (text == "" || text[0] != '[')
    ensures Parse(text, port, unixLocal) == Host(text, port)
  {
    if "local:" <= text {
      LocalColon(text);
    }
  }

  lemma LocalColon(text: string)
    requires "local:" <= text
    ensures ':' in text
  {
    assert text[5] == ':';
  }

  /** One ':' splits host and port: the numeral behind it is the port, anything else a bad one. */
  lemma OneColon(host: string, tail: string, port: nat, unixLocal: bool)
    requires ':' !in host && ':' !in tail && (host == "" || host[0] != '[') && !(unixLocal && host == "local")
    ensures Parse(host + ":" + tail, port, unixLocal) == WithPort(host, tail)
  {
    var text := host + ":" + tail;
    assert text[|host|] == ':' && text[..|host|] == host && text[|host| + 1..] == tail;
    forall j | 0 <= j < |text| && j != |host| ensures text[j] != ':' {
      if j < |host| {
        assert text[j] == host[j];
      } else {
        assert text[j] == tail[j - |host| - 1];
      }
    }
    if "local:" <= text {
      assert text[5] == ':' && text[..5] == "local";
    }
    hide Number, Index, LastIndex;
    PortIs(host, tail);
  }

  /** Where the first ']' of a bracketed text is. */
  lemma Closing(host: string, rest: string)
    requires ']' !in host
    ensures var inner := host + "]" + rest;
            Index(inner, ']') == |host| && Index(host, ']') == |host| && inner[..|host|] == host
    ensures (host + "]" + rest)[|host| + 1..] == rest && (rest != "" ==> (host + "]" + rest)[|host| + 1] == rest[0])
  {
    var inner := host + "]" + rest;
    assert inner[|host|] == ']';
    forall j | 0 <= j < |host| ensures inner[j] != ']' {
      assert inner[j] == host[j] && host[j] in host;
    }
    FirstAt(inner, ']', |host|);
  }

  /** A text that opens with '[' goes by what is behind it. */
  lemma Bracketed(inner: string, port: nat, unixLocal: bool)
    ensures var close := Index(inner, ']');
            Parse("[" + inner, port, unixLocal) ==
            if close == |inner| then BadAddress
            else if close + 1 == |inner| then Host(inner[..close], port)
            else if inner[close + 1] != ':' then BadAddress
            else PortFrom(inner[..close], inner[close + 2..])
  {
    var text := "[" + inner;
    NotFirst("local:", text);
    assert text[1..] == inner;
    hide Index, Number;
  }

  /** What stands in brackets, up to the first ']', is the host; behind it only a port may follow. */
  lemma InBrackets(host: string, rest: string, port: nat, unixLocal: bool)
    requires ']' !in host
    ensures Parse("[" + host, port, unixLocal) == BadAddress
    ensures Parse("[" + (host + "]" + rest), port, unixLocal) ==
            if rest == "" then Host(host, port)
            else if rest[0] == ':' then WithPort(host, rest[1..])
            else BadAddress
  {
    hide Parse, Index, Number, WithPort, PortFrom;
    Closing(host, rest);
    Bracketed(host, port, unixLocal);
    Bracketed(host + "]" + rest, port, unixLocal);
    if rest != "" {
      assert (host + "]" + rest)[|host| + 2..] == rest[1..];
      PortIs(host, rest[1..]);
    }
  }

  /** With the feature on, "local:" announces a socket path. */
  lemma LocalPath(path: string, port: nat)
    ensures Parse("local:" + path, port, true) == UnixPath(path)
  {
    assert ("local:" + path)[6..] == path;
  }
}

/** Names of part files: written once, parsed again by the cleanup of stale files. */
module PartFile {
  import opened Common

  const I64_MIN: int := -0x8000_0000_0000_0000
  const I64_MAX: int := 0x7FFF_FFFF_FFFF_FFFF
  const UNKNOWN_CONTACT: string := "unknown-contact"
  const SUFFIX: string := ".part"

  // ----- Decimal numbers -----

  predicate IsDigit(c: char) {
    '0' <= c <= '9'
  }

  function Digit(d: nat): (c: char)
    requires d < 10
    ensures IsDigit(c)
  {
    (48 + d) as char
  }

  function NatToString(n: nat): (s: string)
    ensures s != [] && forall i :: 0 <= i < |s| ==> IsDigit(s[i])
  {
    if n < 10 then [Digit(n)] else NatToString(n / 10) + [Digit(n % 10)]
  }

  function IntToString(n: int): (s: string) {
    if n < 0 then "-" + NatToString(-n) else NatToString(n)
  }

  function DigitValue(c: char): (d: Option<nat>)
    ensures d.Some? ==> d.value < 10 && Digit(d.value) == c
  {
    if IsDigit(c) then Some((c as int) - 48) else None
  }

  function ParseNat(s: string): (n: Option<nat>) {
    if s == [] then None
    else
      var k := |s| - 1;
      match DigitValue(s[k])
      case None => None
      case Some(d) =>
        if k == 0 then Some(d)
        else match ParseNat(s[..k]) case None => None case Some(n) => Some(10 * n + d)
  }

  /** A decimal number with an optional sign that fits in 64 bits. */
  function ParseI64(s: string): (n: Option<int>)
    ensures n.Some? ==> I64_MIN <= n.value <= I64_MAX
  {
    var negative := s != [] && s[0] == '-';
    var digits := if s != [] && (s[0] == '-' || s[0] == '+') then s[1..] else s;
    match ParseNat(digits)
    case None => None
    case Some(n) =>
      var value: int := if negative then -(n as int) else n;
      if I64_MIN <= value <= I64_MAX then Some(value) else None
  }

  lemma DigitRoundTrip(d: nat)
    requires d < 10
    ensures DigitValue(Digit(d)) == Some(d)
  {
  }

  lemma {:induction false} NatRoundTrip(n: nat)
    ensures ParseNat(NatToString(n)) == Some(n)
  {
    if n < 10 {
      DigitRoundTrip(n);
      assert [Digit(n)][..0] == [];
    } else {
      var s, d := NatToString(n / 10), n % 10;
      NatRoundTrip(n / 10);
      DigitRoundTrip(d);
      AppendDigit(s, n / 10, d);
    }
  }

  lemma AppendDigit(s: string, n: nat, d: nat)
    requires d < 10 && s != [] && ParseNat(s) == Some(n) && DigitValue(Digit(d)) == Some(d)
    ensures ParseNat(s + [Digit(d)]) == Some(10 * n + d)
  {
  }

  lemma IntRoundTrip(n: int)
    requires I64_MIN <= n <= I64_MAX
    ensures ParseI64(IntToString(n)) == Some(n)
    ensures '_' !in IntToString(n)
  {
    var size: nat := if n < 0 then -n else n;
    var digits := NatToString(size);
    NatRoundTrip(size);
    assert IsDigit(digits[0]);
    if n < 0 {
      assert ("-" + digits)[1..] == digits;
    }
  }

  // ----- Names -----

  function ContactString(contact: Option<string>): string {
    match contact case None => UNKNOWN_CONTACT case Some(id) => id
  }

  /** The part of a name between the start time and the transfer id. */
  function Header(contact: Option<string>, peer: string): string {
    ContactString(contact) + "_" + peer + "_"
  }

  function PartFileName(startedAt: int, transferId: string, peer: string, contact: Option<string>): (name: string) {
    IntToString(startedAt) + "_" + Header(contact, peer) + transferId + SUFFIX
  }

  predicate EndsWith(s: string, suffix: string) {
    |suffix| <= |s| && s[|s| - |suffix|..] == suffix
  }

  /** The first of the fields that underscores separate. */
  function FirstField(s: string): (field: string)
    ensures '_' !in field && field <= s
    ensures field == s || s[|field|] == '_'
  {
    if s == [] || s[0] == '_' then []
    else
      var rest := FirstField(s[1..]);
      assert ([s[0]] + rest) == s[..|rest| + 1];
      [s[0]] + rest
  }

  function ParseStartedAt(name: string): (startedAt: Option<int>) {
    if !EndsWith(name, SUFFIX) then None else ParseI64(FirstField(name))
  }

  /** What comes before the first underscore is determined, and so is what comes after. */
  lemma UnderscoreSplits(a: string, b: string, c: string, d: string)
    requires '_' !in a && '_' !in c && a + "_" + b == c + "_" + d
    ensures a == c && b == d
  {
    var s := a + "_" + b;
    var t := c + "_" + d;
    assert s[|a|] == '_' && t[|c|] == '_';
    assert a == s[..|a|] && c == t[..|c|];
    assert b == s[|a| + 1..] && d == t[|c| + 1..];
  }

  /** The first field of a text is what comes before its first underscore. */
  lemma FirstFieldIs(head: string, rest: string)
    requires '_' !in head
    ensures FirstField(head + "_" + rest) == head
  {
    var s := head + "_" + rest;
    var field := FirstField(s);
    assert s[|head|] == '_';
    assert s == field + "_" + s[|field| + 1..];
    UnderscoreSplits(head, rest, field, s[|field| + 1..]);
  }

  /** Parsing a generated name gives the start time back, for every id. */
  lemma ParseRecoversStart(startedAt: int, transferId: string, peer: string, contact: Option<string>)
    requires I64_MIN <= startedAt <= I64_MAX
    ensures ParseStartedAt(PartFileName(startedAt, transferId, peer, contact)) == Some(startedAt)
  {
    var name := PartFileName(startedAt, transferId, peer, contact);
    var time := IntToString(startedAt);
    var rest := Header(contact, peer) + transferId + SUFFIX;
    IntRoundTrip(startedAt);
    assert name == time + "_" + rest;
    FirstFieldIs(time, rest);
    assert name[|name| - |SUFFIX|..] == SUFFIX;
  }

  /** A number is read from digits only, and from any. */
  lemma {:induction false} ParsesDigitsOnly(s: string)
    ensures ParseNat(s).Some? <==> s != [] && forall i :: 0 <= i < |s| ==> IsDigit(s[i])
  {
    if |s| > 1 {
      ParsesDigitsOnly(s[..|s| - 1]);
      assert forall i :: 0 <= i < |s| - 1 ==> s[..|s| - 1][i] == s[i];
    }
  }

  /** A name has a start time exactly if it ends in ".part" and what comes before its first
      underscore is a number. */
  lemma ParsesIff(name: string, startedAt: int)
    ensures ParseStartedAt(name) == Some(startedAt) <==>
            && |name| >= 5 && name[|name| - 5..] == ".part"
            && exists k: nat :: k <= |name| && '_' !in name[..k] && (k == |name| || name[k] == '_')
                                && ParseI64(name[..k]) == Some(startedAt)
  {
    var field := FirstField(name);
    assert name[..|field|] == field;
    forall k: nat | k <= |name| && '_' !in name[..k] && (k == |name| || name[k] == '_') ensures k == |field| {
    }
  }

  /** Two names are equal exactly when the times are, and headers and transfer ids join up. */
  lemma NamesEqualIff(startedAt: int, transferId: string, peer: string, contact: Option<string>,
                      startedAt': int, transferId': string, peer': string, contact': Option<string>)
    requires I64_MIN <= startedAt <= I64_MAX && I64_MIN <= startedAt' <= I64_MAX
    ensures PartFileName(startedAt, transferId, peer, contact) == PartFileName(startedAt', transferId', peer', contact')
       <==> startedAt == startedAt' && Header(contact, peer) + transferId == Header(contact', peer') + transferId'
  {
    var name, name' := PartFileName(startedAt, transferId, peer, contact), PartFileName(startedAt', transferId', peer', contact');
    var rest, rest' := Header(contact, peer) + transferId, Header(contact', peer') + transferId';
    assert name == IntToString(startedAt) + "_" + (rest + SUFFIX);
    assert name' == IntToString(startedAt') + "_" + (rest' + SUFFIX);
    if name == name' {
      IntRoundTrip(startedAt);
      IntRoundTrip(startedAt');
      UnderscoreSplits(IntToString(startedAt), rest + SUFFIX, IntToString(startedAt'), rest' + SUFFIX);
      assert rest == (rest + SUFFIX)[..|rest|] && rest' == (rest' + SUFFIX)[..|rest'|];
    }
  }

  /** Transfers of two contacts or peers can share a name exactly when one header is a
      prefix of the other. */
  lemma NamesCollideIffHeadersOverlap(startedAt: int, peer: string, contact: Option<string>, peer': string, contact': Option<string>)
    requires I64_MIN <= startedAt <= I64_MAX
    ensures (exists t, t' :: PartFileName(startedAt, t, peer, contact) == PartFileName(startedAt, t', peer', contact'))
       <==> Header(contact, peer) <= Header(contact', peer') || Header(contact', peer') <= Header(contact, peer)
  {
    var h, h' := Header(contact, peer), Header(contact', peer');
    forall t, t' | PartFileName(startedAt, t, peer, contact) == PartFileName(startedAt, t', peer', contact')
      ensures h <= h' || h' <= h
    {
      NamesEqualIff(startedAt, t, peer, contact, startedAt, t', peer', contact');
      assert h == (h + t)[..|h|] && h' == (h' + t')[..|h'|];
    }
    if h <= h' {
      var t := h'[|h|..];
      assert h + t == h' + "";
      NamesEqualIff(startedAt, t, peer, contact, startedAt, "", peer', contact');
    } else if h' <= h {
      var t' := h[|h'|..];
      assert h + "" == h' + t';
      NamesEqualIff(startedAt, "", peer, contact, startedAt, t', peer', contact');
    }
  }

  ghost predicate PlainIds(contact: Option<string>, peer: string) {
    contact != Some(UNKNOWN_CONTACT) && '_' !in ContactString(contact) && '_' !in peer
  }

  lemma PlainFieldsSplit(transferId: string, peer: string, contact: Option<string>,
                         transferId': string, peer': string, contact': Option<string>)
    requires PlainIds(contact, peer) && PlainIds(contact', peer')
    requires Header(contact, peer) + transferId == Header(contact', peer') + transferId'
    ensures transferId == transferId' && peer == peer' && contact == contact'
  {
    var c, c' := ContactString(contact), ContactString(contact');
    assert c + "_" + (peer + "_" + transferId) == Header(contact, peer) + transferId;
    assert c' + "_" + (peer' + "_" + transferId') == Header(contact', peer') + transferId';
    UnderscoreSplits(c, peer + "_" + transferId, c', peer' + "_" + transferId');
    UnderscoreSplits(peer, transferId, peer', transferId');
  }

  /** With ids that contain no underscore, and no contact named like the placeholder, the
      name determines all four fields. */
  lemma NameDeterminesTransfer(startedAt: int, transferId: string, peer: string, contact: Option<string>,
                               startedAt': int, transferId': string, peer': string, contact': Option<string>)
    requires I64_MIN <= startedAt <= I64_MAX && I64_MIN <= startedAt' <= I64_MAX
    requires PlainIds(contact, peer) && PlainIds(contact', peer')
    requires PartFileName(startedAt, transferId, peer, contact) == PartFileName(startedAt', transferId', peer', contact')
    ensures startedAt == startedAt' && transferId == transferId' && peer == peer' && contact == contact'
  {
    NamesEqualIff(startedAt, transferId, peer, contact, startedAt', transferId', peer', contact');
    PlainFieldsSplit(transferId, peer, contact, transferId', peer', contact');
  }

  /** Without those conditions two transfers can share a name. */
  lemma UnderscoresConfuseNames(startedAt: int, t: string)
    ensures PartFileName(startedAt, t, "c", Some("a_b")) == PartFileName(startedAt, t, "b_c", Some("a"))
    ensures PartFileName(startedAt, t, "p", None) == PartFileName(startedAt, t, "p", Some(UNKNOWN_CONTACT))
  {
  }
}

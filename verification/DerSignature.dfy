/** Hexadecimal text as the signer reads and prints it. */
module Hex {
  function Digit(n: nat): char
    requires n < 16
  {
    if n < 10 then ('0' as nat + n) as char else ('a' as nat + (n - 10)) as char
  }

  predicate IsDigit(c: char) {
    '0' <= c <= '9' || 'a' <= c <= 'f'
  }

  function DigitValue(c: char): (n: nat)
    requires IsDigit(c)
    ensures n < 16 && Digit(n) == c
  {
    if c <= '9' then c as nat - '0' as nat else 10 + (c as nat - 'a' as nat)
  }

  lemma DigitReadsBack(n: nat)
    requires n < 16
    ensures IsDigit(Digit(n)) && DigitValue(Digit(n)) == n
  {
  }

  /** The digits, in order. */
  lemma DigitsInOrder(n: nat)
    requires n < 16
    ensures Digit(n) == "0123456789abcdef"[n] && IsDigit(Digit(n)) && DigitValue(Digit(n)) == n
  {
    DigitReadsBack(n);
  }

  predicate IsHex(s: string) {
    forall i :: 0 <= i < |s| ==> IsDigit(s[i])
  }

  /** The number some digits write, most significant first. */
  function Value(s: string): nat
    requires IsHex(s)
  {
    if s == "" then 0 else 16 * Value(s[..|s| - 1]) + DigitValue(s[|s| - 1])
  }

  /** A number's shortest digits. */
  function ToHex(n: nat): (s: string)
    ensures s != "" && IsHex(s) && Value(s) == n
  {
    DigitReadsBack(n % 16);
    if n < 16 then [Digit(n)] else ToHex(n / 16) + [Digit(n % 16)]
  }

  function Pow16(k: nat): nat {
    if k == 0 then 1 else 16 * Pow16(k - 1)
  }

  lemma {:induction false} ValueBelow(s: string)
    requires IsHex(s)
    ensures Value(s) < Pow16(|s|)
  {
    if s != "" {
      ValueBelow(s[..|s| - 1]);
    }
  }

  /** The digits fit a width exactly when the number is below that power of sixteen. */
  lemma {:induction false} ToHexFits(n: nat, width: nat)
    requires width > 0
    ensures |ToHex(n)| <= width <==> n < Pow16(width)
    decreases width
  {
    if width == 1 {
      assert Pow16(1) == 16;
    } else if n < 16 {
      PowAtLeast(width);
    } else {
      ToHexFits(n / 16, width - 1);
    }
  }

  lemma {:induction false} PowSum(j: nat, k: nat)
    ensures Pow16(j + k) == Pow16(j) * Pow16(k)
  {
    if j > 0 {
      PowSum(j - 1, k);
    }
  }

  lemma PowDoubles(k: nat, p: nat, square: nat)
    requires Pow16(k) == p && square == p * p
    ensures Pow16(2 * k) == square
  {
    PowSum(k, k);
  }

  lemma {:induction false} PowAtLeast(k: nat)
    requires k > 0
    ensures Pow16(k) >= 16
  {
    if k > 1 {
      PowAtLeast(k - 1);
    }
  }

  lemma {:induction false} ValuePositive(s: string)
    requires IsHex(s) && s != "" && s[0] != '0'
    ensures Value(s) > 0
  {
    if |s| > 1 {
      ValuePositive(s[..|s| - 1]);
    }
  }

  /** Digits without a leading zero are the shortest digits of what they write. */
  lemma {:induction false} ToHexOfValue(s: string)
    requires IsHex(s) && s != "" && (|s| == 1 || s[0] != '0')
    ensures ToHex(Value(s)) == s
  {
    var front := s[..|s| - 1];
    if |s| > 1 {
      ValuePositive(front);
      ToHexOfValue(front);
      assert Value(s) / 16 == Value(front);
    } else {
      assert Value(front) == 0;
    }
  }

  function Zeros(k: nat): (s: string)
    ensures |s| == k && forall i :: 0 <= i < k ==> s[i] == '0'
  {
    if k == 0 then "" else Zeros(k - 1) + "0"
  }

  /** Leading zeros do not change the number. */
  lemma {:induction false} ZerosAreZero(k: nat)
    ensures IsHex(Zeros(k)) && Value(Zeros(k)) == 0
  {
    if k > 0 {
      ZerosAreZero(k - 1);
      ValueSnoc(Zeros(k - 1), '0');
    }
  }

  lemma {:induction false} LeadingZeros(k: nat, s: string)
    requires IsHex(s)
    ensures IsHex(Zeros(k) + s) && Value(Zeros(k) + s) == Value(s)
    decreases |s|
  {
    if s == "" {
      ZerosAreZero(k);
      assert Zeros(k) + s == Zeros(k);
    } else {
      var n := |s| - 1;
      LeadingZeros(k, s[..n]);
      ValueSnoc(Zeros(k) + s[..n], s[n]);
      assert Zeros(k) + s == Zeros(k) + s[..n] + [s[n]];
    }
  }

  lemma OneLeadingZero(s: string)
    requires IsHex(s)
    ensures IsHex("0" + s) && Value("0" + s) == Value(s)
  {
    LeadingZeros(1, s);
    assert Zeros(1) == "0";
  }

  function PadStart(s: string, width: nat): string {
    if |s| >= width then s else Zeros(width - |s|) + s
  }

  /** One octet as two digits. */
  function Octet(n: nat): (s: string)
    requires n < 256
    ensures |s| == 2 && IsHex(s) && Value(s) == n
  {
    DigitReadsBack(n / 16);
    DigitReadsBack(n % 16);
    var s := [Digit(n / 16), Digit(n % 16)];
    assert s[..1] == [Digit(n / 16)];
    assert Value(s[..1]) == n / 16;
    s
  }

  lemma ValueSnoc(s: string, c: char)
    requires IsHex(s) && IsDigit(c)
    ensures IsHex(s + [c]) && Value(s + [c]) == 16 * Value(s) + DigitValue(c)
  {
    assert (s + [c])[..|s|] == s;
  }

  lemma OctetParts(a: nat, b: nat)
    requires a < 16 && b < 16
    ensures 16 * a + b < 256 && Octet(16 * a + b) == [Digit(a), Digit(b)]
  {
    assert (16 * a + b) / 16 == a;
  }

  lemma ValueOfTwo(a: char, b: char)
    requires IsDigit(a) && IsDigit(b)
    ensures IsHex([a, b]) && Value([a, b]) == 16 * DigitValue(a) + DigitValue(b)
  {
    ValueSnoc("", a);
    ValueSnoc([a], b);
    assert [a, b] == [a] + [b] && [] + [a] == [a];
    assert Value("") == 0;
  }

  lemma OctetOfValue(s: string)
    requires IsHex(s) && |s| == 2
    ensures Value(s) < 256 && Octet(Value(s)) == s
  {
    ValueOfTwo(s[0], s[1]);
    OctetParts(DigitValue(s[0]), DigitValue(s[1]));
    assert s == [s[0], s[1]];
  }
}

/** Reading the signatures of the key management service, and bringing them to the form the chain accepts. */
module DerSignature {
  import opened Common
  import opened Hex

  const N := 0xFFFFFFFFFFFFFFFFFFFFFFFFFFFFFFFEBAAEDCE6AF48A03BBFD25E8CD0364141
  const HALF_N := N / 2

  datatype Signature = Signature(r: nat, s: nat)

  datatype DerError =
    | EmptySignature
    | InvalidFormat
    | UnexpectedLength
    | InvalidRMarker
    | InvalidSMarker
    | EmptyInteger
    | RecoveryFailed
    | SignerNotRecovered

  function TrimHexPrefix(value: string): string {
    if |value| >= 2 && value[..2] == "0x" then value[2..] else value
  }

  /** Printing for the chain: at least 64 digits after the prefix. The sign of a negative number comes after the
      padding. */
  function Ensure32BytesHex(value: int): string {
    "0x" + PadStart(if value >= 0 then ToHex(value) else "-" + ToHex(-value), 64)
  }

  /** A slice whose ends may lie past the end of the text. */
  function Slice(s: string, start: nat, end: nat): (r: string)
    requires start <= end
    ensures IsHex(s) ==> IsHex(r)
    ensures r == "" <==> start == end || |s| <= start
  {
    s[if start <= |s| then start else |s|..if end <= |s| then end else |s|]
  }

  datatype Piece = Piece(contents: string, next: nat)

  /** The INTEGER at a place in a text: its contents, cut short where the text ends, and the place after it. */
  function ReadInteger(s: string, at: nat, missing: DerError): (p: Result<Piece, DerError>)
    requires IsHex(s)
    ensures p.Ok? ==> IsHex(p.value.contents)
  {
    if Slice(s, at, at + 2) != "02" then Err(missing)
    else
      var next := at + 4 + Value(Slice(s, at + 2, at + 4)) * 2;
      Ok(Piece(Slice(s, at + 4, next), next))
  }

  /** The signature in a text: a SEQUENCE header that covers the text, then two INTEGERs with contents. */
  function Parse(der: string): Result<Signature, DerError>
    requires IsHex(der)
  {
    if Slice(der, 0, 2) != "30" then Err(InvalidFormat)
    else if Value(Slice(der, 2, 4)) * 2 != |der| - 4 then Err(UnexpectedLength)
    else ParseIntegers(der)
  }

  function ParseIntegers(der: string): Result<Signature, DerError>
    requires IsHex(der)
  {
    var r :- ReadInteger(der, 4, InvalidRMarker);
    var s :- ReadInteger(der, r.next, InvalidSMarker);
    if r.contents == "" || s.contents == "" then Err(EmptyInteger)
    else Ok(Signature(Value(r.contents), Value(s.contents)))
  }

  /** A text that ends before a length has no contents there, and nothing after. */
  lemma NoLength(der: string, at: nat, missing: DerError)
    requires IsHex(der) && Slice(der, at, at + 2) == "02" && Slice(der, at + 2, at + 4) == ""
    ensures ReadInteger(der, at, missing) == Ok(Piece("", at + 4)) && Slice(der, at + 4, at + 6) == ""
  {
    assert Value("") == 0;
  }

  /** Reading a number of an empty text gives none. */
  function ParseInt(s: string): Option<nat>
    requires IsHex(s)
  {
    if s == "" then None else Some(Value(s))
  }

  /** The cursor's way over one INTEGER: marker, length and contents. */
  method TakeInteger(derHex: string, start: nat, missing: DerError) returns (piece: Result<Piece, DerError>)
    requires IsHex(derHex)
    ensures piece == ReadInteger(derHex, start, missing)
  {
    var cursor := start;
    if Slice(derHex, cursor, cursor + 2) != "02" {
      return Err(missing);
    }
    cursor := cursor + 2;
    var length := ParseInt(Slice(derHex, cursor, cursor + 2));
    cursor := cursor + 2;
    if length == None {
      // not a number leaves nothing to read here, and any later slice is empty
      NoLength(derHex, start, missing);
      return Ok(Piece("", cursor));
    }
    var hex := Slice(derHex, cursor, cursor + length.value * 2);
    cursor := cursor + length.value * 2;
    return Ok(Piece(hex, cursor));
  }

  method ParseKmsDerSignature(derHexWithPrefix: string) returns (sig: Result<Signature, DerError>)
    requires IsHex(TrimHexPrefix(derHexWithPrefix))
    ensures sig == Parse(TrimHexPrefix(derHexWithPrefix))
  {
    var derHex := TrimHexPrefix(derHexWithPrefix);
    if Slice(derHex, 0, 2) != "30" {
      return Err(InvalidFormat);
    }
    var cursor := 2;
    var sequenceLength := ParseInt(Slice(derHex, cursor, cursor + 2));
    cursor := cursor + 2;
    if sequenceLength == None || sequenceLength.value * 2 != |derHex| - 4 {
      return Err(UnexpectedLength);
    }
    var r :- TakeInteger(derHex, cursor, InvalidRMarker);
    var s :- TakeInteger(derHex, r.next, InvalidSMarker);
    if r.contents == "" || s.contents == "" {
      return Err(EmptyInteger);
    }
    sig := Ok(Signature(Value(r.contents), Value(s.contents)));
  }
}

/** What the parser accepts, and that it undoes the encoding of ECDSA-Sig-Value (section 2.2.3 of RFC 3279). */
module SignatureEncoding {
  import opened Common
  import opened Hex
  import opened DerSignature

  /** Contents octets of a non-negative INTEGER (section 8.3 of ITU-T X.690): whole octets, the sign bit clear, and the
      first nine bits not all zero. */
  predicate AreContents(h: string) {
    && h != "" && |h| % 2 == 0 && IsHex(h)
    && DigitValue(h[0]) < 8
    && (|h| > 2 && h[0] == '0' && h[1] == '0' ==> DigitValue(h[2]) >= 8)
  }

  predicate IsIntegerContents(h: string, n: nat) {
    AreContents(h) && Value(h) == n
  }

  /** Shortest digits. */
  predicate IsShortest(t: string) {
    IsHex(t) && t != "" && (|t| == 1 || t[0] != '0')
  }

  /** Digits completed to contents octets. */
  function Signed(t: string): string
    requires IsShortest(t)
  {
    if |t| % 2 == 1 then "0" + t else if DigitValue(t[0]) >= 8 then "00" + t else t
  }

  /** The octets an encoder writes. */
  function Contents(n: nat): string {
    ToHexIsShortest(n);
    Signed(ToHex(n))
  }

  lemma {:induction false} ToHexIsShortest(n: nat)
    ensures IsShortest(ToHex(n))
  {
    if n >= 16 {
      ToHexIsShortest(n / 16);
      if n / 16 < 16 {
        DigitReadsBack(n / 16);
      }
    }
  }

  lemma SignedIsContents(t: string)
    requires IsShortest(t)
    ensures AreContents(Signed(t))
  {
  }

  lemma SignedValue(t: string)
    requires IsShortest(t)
    ensures IsHex(Signed(t)) && Value(Signed(t)) == Value(t)
  {
    SignedIsContents(t);
    OneLeadingZero(t);
    OneLeadingZero("0" + t);
    assert "0" + ("0" + t) == "00" + t;
  }

  /** Every number has contents octets. */
  lemma ContentsEncode(n: nat)
    ensures IsIntegerContents(Contents(n), n)
  {
    ToHexIsShortest(n);
    SignedIsContents(ToHex(n));
    SignedValue(ToHex(n));
  }

  /** The shortest digits inside contents octets. */
  lemma Unsigned(h: string) returns (t: string)
    requires AreContents(h)
    ensures IsShortest(t) && h == Signed(t)
  {
    if h[0] != '0' {
      t := h;
    } else if |h| == 2 || h[1] != '0' {
      t := h[1..];
      assert h == "0" + t;
    } else {
      t := h[2..];
      assert h == "00" + t;
    }
  }

  /** And only one choice of them. */
  lemma ContentsUnique(h: string, n: nat)
    requires IsIntegerContents(h, n)
    ensures h == Contents(n)
  {
    var t := Unsigned(h);
    SignedValue(t);
    ToHexOfValue(t);
  }

  /** Numbers of 256 bits have at most 33 octets. */
  lemma ContentsLength(n: nat)
    requires n < Pow16(64)
    ensures |Contents(n)| <= 66
  {
    ToHexFits(n, 64);
    ToHexIsShortest(n);
  }

  /** A text the parser reads: the R contents are whole, while the S contents are what the length says of a tail that
      may be longer or shorter. */
  datatype Layout = Layout(rHex: string, sLength: nat, tail: string)

  predicate IsLayout(l: Layout) {
    && IsHex(l.rHex) && l.rHex != "" && |l.rHex| % 2 == 0
    && IsHex(l.tail) && l.tail != "" && |l.tail| % 2 == 0
    && 0 < l.sLength < 256
    && 4 + |l.rHex| / 2 + |l.tail| / 2 < 256
  }

  /** An INTEGER is written at a place: its tag, a length and what follows. */
  predicate IntegerAt(der: string, at: nat, length: nat) {
    length < 256 && at + 4 <= |der| && der[at..at + 2] == "02" && der[at + 2..at + 4] == Octet(length)
  }

  /** The SEQUENCE header covers the whole text. */
  predicate HeaderCovers(der: string) {
    |der| >= 4 && |der| % 2 == 0 && (|der| - 4) / 2 < 256 && der[..2] == "30" && der[2..4] == Octet((|der| - 4) / 2)
  }

  /** A text with a layout, part by part. */
  predicate IsText(der: string, l: Layout)
    requires IsLayout(l)
  {
    && IsHex(der) && |der| == 12 + |l.rHex| + |l.tail| && HeaderCovers(der)
    && IntegerAt(der, 4, |l.rHex| / 2) && der[8..8 + |l.rHex|] == l.rHex
    && IntegerAt(der, 8 + |l.rHex|, l.sLength) && der[12 + |l.rHex|..] == l.tail
  }

  function Read(l: Layout): Signature
    requires IsLayout(l)
  {
    Signature(Value(l.rHex), Value(Slice(l.tail, 0, 2 * l.sLength)))
  }

  lemma ReadsIntegerAt(der: string, at: nat, length: nat, missing: DerError)
    requires IsHex(der) && IntegerAt(der, at, length)
    ensures ReadInteger(der, at, missing) == Ok(Piece(Slice(der, at + 4, at + 4 + 2 * length), at + 4 + 2 * length))
  {
  }

  lemma SliceOfTail(s: string, start: nat, length: nat)
    requires start <= |s|
    ensures Slice(s[start..], 0, length) == Slice(s, start, start + length)
  {
  }

  lemma HeaderIsRead(der: string)
    requires IsHex(der) && HeaderCovers(der)
    ensures Slice(der, 0, 2) == "30" && Value(Slice(der, 2, 4)) * 2 == |der| - 4
  {
  }

  lemma ParseOf(der: string, r: Piece, s: Piece)
    requires IsHex(der) && Slice(der, 0, 2) == "30" && Value(Slice(der, 2, 4)) * 2 == |der| - 4
    requires ReadInteger(der, 4, InvalidRMarker) == Ok(r) && r.contents != ""
    requires ReadInteger(der, r.next, InvalidSMarker) == Ok(s) && s.contents != ""
    ensures Parse(der) == Ok(Signature(Value(r.contents), Value(s.contents)))
  {
  }

  lemma ReadR(der: string, l: Layout)
    requires IsLayout(l) && IsText(der, l)
    ensures ReadInteger(der, 4, InvalidRMarker) == Ok(Piece(l.rHex, 8 + |l.rHex|))
  {
    ReadsIntegerAt(der, 4, |l.rHex| / 2, InvalidRMarker);
  }

  lemma ReadS(der: string, l: Layout, sHex: string)
    requires IsLayout(l) && IsText(der, l) && sHex == Slice(l.tail, 0, 2 * l.sLength)
    ensures sHex != "" && IsHex(sHex)
    ensures ReadInteger(der, 8 + |l.rHex|, InvalidSMarker) == Ok(Piece(sHex, 12 + |l.rHex| + 2 * l.sLength))
  {
    ReadsIntegerAt(der, 8 + |l.rHex|, l.sLength, InvalidSMarker);
    SliceOfTail(der, 12 + |l.rHex|, 2 * l.sLength);
  }

  /** A text has two given digits at a place. */
  predicate DigitsAt(der: string, at: nat, first: char, second: char) {
    at + 2 <= |der| && der[at] == first && der[at + 1] == second
  }

  lemma DigitsRead(der: string, at: nat, first: char, second: char)
    ensures Slice(der, at, at + 2) == [first, second] <==> DigitsAt(der, at, first, second)
  {
    if at + 2 <= |der| {
      assert der[at..at + 2] == [der[at], der[at + 1]];
    }
  }

  /** The length in the header is right: the text is as long as it says. */
  predicate LengthFits(der: string)
    requires IsHex(der)
  {
    |der| >= 4 && Value(der[2..4]) * 2 == |der| - 4
  }

  lemma LengthRead(der: string)
    requires IsHex(der)
    ensures Value(Slice(der, 2, 4)) * 2 == |der| - 4 <==> LengthFits(der)
  {
  }

  /** The length of the first INTEGER, none where the text ends before it. */
  lemma RLengthRead(der: string)
    requires IsHex(der) && LengthFits(der)
    ensures Value(Slice(der, 6, 8)) == if |der| >= 8 then Value(der[6..8]) else 0
  {
    assert |der| % 2 == 0;
    assert |der| < 8 ==> Slice(der, 6, 8) == "";
  }

  lemma IntegersRefused(der: string, rLength: nat)
    requires IsHex(der) && ParseIntegers(der).Err? && rLength == Value(Slice(der, 6, 8))
    ensures ParseIntegers(der).error
         == if Slice(der, 4, 6) != "02" then InvalidRMarker
            else if Slice(der, 8 + 2 * rLength, 10 + 2 * rLength) != "02" then InvalidSMarker
            else EmptyInteger
  {
  }

  /** Why a text is refused: the first thing wrong with it, its header, either tag, or missing contents. */
  lemma RefusedBecause(der: string, rLength: nat)
    requires IsHex(der) && Parse(der).Err?
    requires rLength == if |der| >= 8 then Value(der[6..8]) else 0
    ensures Parse(der).error == if !DigitsAt(der, 0, '3', '0') then InvalidFormat
                                else if !LengthFits(der) then UnexpectedLength
                                else if !DigitsAt(der, 4, '0', '2') then InvalidRMarker
                                else if !DigitsAt(der, 8 + 2 * rLength, '0', '2') then InvalidSMarker
                                else EmptyInteger
  {
    DigitsRead(der, 0, '3', '0');
    LengthRead(der);
    if DigitsAt(der, 0, '3', '0') && LengthFits(der) {
      RLengthRead(der);
      IntegersRefused(der, rLength);
      DigitsRead(der, 4, '0', '2');
      DigitsRead(der, 8 + 2 * rLength, '0', '2');
    }
  }

  /** Every such text is read as its layout says. */
  lemma ParsesLayout(der: string, l: Layout)
    requires IsLayout(l) && IsText(der, l)
    ensures Parse(der) == Ok(Read(l))
  {
    var sHex := Slice(l.tail, 0, 2 * l.sLength);
    HeaderIsRead(der);
    ReadR(der, l);
    ReadS(der, l, sHex);
    ParseOf(der, Piece(l.rHex, 8 + |l.rHex|), Piece(sHex, 12 + |l.rHex| + 2 * l.sLength));
  }

  /** An INTEGER that was read with contents, at an even distance from the end, is written there. */
  lemma WhatWasRead(der: string, at: nat, missing: DerError, p: Piece) returns (length: nat)
    requires IsHex(der) && at <= |der| && (|der| - at) % 2 == 0
    requires ReadInteger(der, at, missing) == Ok(p) && p.contents != ""
    ensures IntegerAt(der, at, length) && length > 0 && at + 4 < |der|
    ensures p == Piece(Slice(der, at + 4, at + 4 + 2 * length), at + 4 + 2 * length)
  {
    length := Value(der[at + 2..at + 4]);
    OctetOfValue(der[at + 2..at + 4]);
  }

  lemma WhatWasParsed(der: string) returns (r: Piece, s: Piece)
    requires IsHex(der) && Parse(der).Ok?
    ensures Slice(der, 0, 2) == "30" && Value(Slice(der, 2, 4)) * 2 == |der| - 4
    ensures ReadInteger(der, 4, InvalidRMarker) == Ok(r) && r.contents != ""
    ensures ReadInteger(der, r.next, InvalidSMarker) == Ok(s) && s.contents != ""
  {
    r := ReadInteger(der, 4, InvalidRMarker).value;
    s := ReadInteger(der, r.next, InvalidSMarker).value;
  }

  lemma WhatIsHeader(der: string)
    requires IsHex(der) && Slice(der, 0, 2) == "30" && Value(Slice(der, 2, 4)) * 2 == |der| - 4
    ensures HeaderCovers(der)
  {
    OctetOfValue(der[2..4]);
  }

  lemma WhatIsR(der: string, r: Piece) returns (length: nat)
    requires IsHex(der) && |der| % 2 == 0 && |der| >= 4 && r.next < |der|
    requires ReadInteger(der, 4, InvalidRMarker) == Ok(r) && r.contents != ""
    ensures IntegerAt(der, 4, length) && |r.contents| == 2 * length && r.next == 8 + |r.contents|
    ensures der[8..8 + |r.contents|] == r.contents && IsHex(r.contents)
  {
    length := WhatWasRead(der, 4, InvalidRMarker, r);
  }

  lemma ReadPastHead(der: string, at: nat, missing: DerError, p: Piece)
    requires IsHex(der) && ReadInteger(der, at, missing) == Ok(p) && p.contents != ""
    ensures at + 4 < |der|
  {
  }

  lemma IsLayoutOf(der: string, rLength: nat, l: Layout)
    requires IsHex(der) && |der| % 2 == 0 && (|der| - 4) / 2 < 256
    requires IsHex(l.rHex) && l.rHex != "" && |l.rHex| == 2 * rLength && 0 < l.sLength < 256
    requires 12 + |l.rHex| < |der| && l.tail == der[12 + |l.rHex|..]
    ensures IsLayout(l)
  {
  }

  lemma IsTextOf(der: string, rLength: nat, l: Layout)
    requires IsLayout(l) && IsHex(der) && HeaderCovers(der) && |der| == 12 + |l.rHex| + |l.tail|
    requires |l.rHex| == 2 * rLength && IntegerAt(der, 4, rLength) && IntegerAt(der, 8 + |l.rHex|, l.sLength)
    requires der[8..8 + |l.rHex|] == l.rHex && l.tail == der[12 + |l.rHex|..]
    ensures IsText(der, l)
  {
    assert |l.rHex| / 2 == rLength;
  }

  lemma Halves(m: nat, n: nat, i: nat, j: nat)
    requires m == 2 * i && n == 2 * j
    ensures (m - n) % 2 == 0
  {
  }

  lemma LayoutOfParts(der: string, r: Piece, s: Piece) returns (l: Layout)
    requires IsHex(der) && HeaderCovers(der)
    requires ReadInteger(der, 4, InvalidRMarker) == Ok(r) && r.contents != ""
    requires ReadInteger(der, r.next, InvalidSMarker) == Ok(s) && s.contents != ""
    ensures IsLayout(l) && IsText(der, l)
  {
    ReadPastHead(der, r.next, InvalidSMarker, s);
    var rLength := WhatIsR(der, r);
    Halves(|der|, r.next, |der| / 2, 4 + rLength);
    var sLength := WhatWasRead(der, r.next, InvalidSMarker, s);
    l := Layout(r.contents, sLength, der[r.next + 4..]);
    IsLayoutOf(der, rLength, l);
    IsTextOf(der, rLength, l);
  }

  /** Nothing else is accepted. */
  lemma AcceptsOnlyLayouts(der: string) returns (l: Layout)
    requires IsHex(der) && Parse(der).Ok?
    ensures IsLayout(l) && IsText(der, l)
  {
    var r, s := WhatWasParsed(der);
    WhatIsHeader(der);
    l := LayoutOfParts(der, r, s);
  }

  /** The parser accepts exactly these texts, and this is what it answers. */
  lemma ParsesExactlyLayouts(der: string, sig: Signature)
    requires IsHex(der)
    ensures Parse(der) == Ok(sig) <==> exists l :: IsLayout(l) && IsText(der, l) && sig == Read(l)
  {
    if Parse(der) == Ok(sig) {
      var l := AcceptsOnlyLayouts(der);
      ParsesLayout(der, l);
    }
    if l :| IsLayout(l) && IsText(der, l) && sig == Read(l) {
      ParsesLayout(der, l);
    }
  }

  /** The texts of the distinguished encoding: every length in one octet, both contents minimal, and nothing left over.
      */
  predicate IsDerLayout(l: Layout, sig: Signature)
    requires IsLayout(l)
  {
    && 4 + |l.rHex| / 2 + |l.tail| / 2 < 128
    && |l.tail| == 2 * l.sLength
    && IsIntegerContents(l.rHex, sig.r) && IsIntegerContents(l.tail, sig.s)
  }

  ghost predicate IsDer(der: string, sig: Signature) {
    exists l :: IsLayout(l) && IsText(der, l) && IsDerLayout(l, sig)
  }

  /** A text has one layout. */
  lemma LayoutUnique(der: string, l: Layout, m: Layout)
    requires IsLayout(l) && IsText(der, l) && IsLayout(m) && IsText(der, m)
    ensures l == m
  {
    assert |l.rHex| == |m.rHex|;
  }

  /** Parsing undoes the encoding. */
  lemma ParseUndoesDer(der: string, sig: Signature)
    requires IsDer(der, sig)
    ensures IsHex(der) && Parse(der) == Ok(sig)
  {
    var l :| IsLayout(l) && IsText(der, l) && IsDerLayout(l, sig);
    ParsesLayout(der, l);
    assert Slice(l.tail, 0, 2 * l.sLength) == l.tail;
  }

  /** Exactly which of the accepted texts are encodings. */
  lemma AcceptedIsDer(der: string, l: Layout)
    requires IsLayout(l) && IsText(der, l)
    ensures IsDer(der, Read(l)) <==>
            && 4 + |l.rHex| / 2 + |l.tail| / 2 < 128 && |l.tail| == 2 * l.sLength
            && AreContents(l.rHex) && AreContents(l.tail)
  {
    if IsDer(der, Read(l)) {
      var m :| IsLayout(m) && IsText(der, m) && IsDerLayout(m, Read(l));
      LayoutUnique(der, l, m);
    }
    if |l.tail| == 2 * l.sLength {
      assert Slice(l.tail, 0, 2 * l.sLength) == l.tail;
    }
  }

  function Marked(length: nat, contents: string): (s: string)
    requires length < 256 && IsHex(contents)
    ensures IsHex(s) && |s| == 4 + |contents| && IntegerAt(s, 0, length) && s[4..] == contents
  {
    "02" + Octet(length) + contents
  }

  lemma JoinedParts(a: string, b: string, c: string)
    ensures (a + b + c)[..|a|] == a && (a + b + c)[|a|..|a| + |b|] == b && (a + b + c)[|a| + |b|..] == c
  {
  }

  lemma PartOfPart(s: string, from: nat, to: nat, i: nat, j: nat)
    requires i <= j && from + j <= to <= |s|
    ensures s[from..to][i..j] == s[from + i..from + j]
  {
    forall k | 0 <= k < j - i
      ensures s[from..to][i..j][k] == s[from + i..from + j][k]
    {
      assert s[from..to][i + k] == s[from + i + k];
    }
  }

  /** An INTEGER copied into a larger text. */
  lemma MarkedAt(der: string, at: nat, end: nat, part: string, length: nat)
    requires at <= end <= |der| && der[at..end] == part && IntegerAt(part, 0, length)
    ensures IntegerAt(der, at, length) && der[at + 4..end] == part[4..]
  {
    PartOfPart(der, at, end, 0, 2);
    PartOfPart(der, at, end, 2, 4);
    PartOfPart(der, at, end, 4, end - at);
    assert |part| == end - at;
    assert part[4..] == part[4..end - at];
  }

  lemma HeadCovers(n: nat, head: string, rest: string)
    requires n < 256 && head == "30" + Octet(n) && |rest| == 2 * n
    ensures HeaderCovers(head + rest)
  {
    assert (head + rest)[..2] == "30";
    assert (head + rest)[2..4] == Octet(n);
  }

  lemma TextOfParts(l: Layout, head: string, r: string, s: string, der: string)
    requires IsLayout(l) && der == head + r + s && |head| == 4 && HeaderCovers(der)
    requires IsHex(head) && IsHex(r) && IsHex(s)
    requires |r| == 4 + |l.rHex| && IntegerAt(r, 0, |l.rHex| / 2) && r[4..] == l.rHex
    requires |s| == 4 + |l.tail| && IntegerAt(s, 0, l.sLength) && s[4..] == l.tail
    ensures IsText(der, l)
  {
    JoinedParts(head, r, s);
    MarkedAt(der, 4, 8 + |l.rHex|, r, |l.rHex| / 2);
    MarkedAt(der, 8 + |l.rHex|, |der|, s, l.sLength);
  }

  /** Every layout has a text. */
  lemma TextOf(l: Layout) returns (der: string)
    requires IsLayout(l)
    ensures IsText(der, l)
  {
    var n, rLength := 4 + |l.rHex| / 2 + |l.tail| / 2, |l.rHex| / 2;
    var head, r, s := "30" + Octet(n), Marked(rLength, l.rHex), Marked(l.sLength, l.tail);
    der := head + r + s;
    Regroup(head, r, s);
    HeadCovers(n, head, r + s);
    TextOfParts(l, head, r, s, der);
  }

  lemma Regroup(a: string, b: string, c: string)
    ensures (a + b) + c == a + (b + c)
  {
  }

  lemma SameText(a: string, b: string, l: Layout)
    requires IsLayout(l) && IsText(a, l) && IsText(b, l)
    ensures a == b
  {
    var r, n := 8 + |l.rHex|, |a|;
    SameOnward(a, b, 0, 2, 4);
    SameOnward(a, b, 0, 4, 6);
    SameOnward(a, b, 0, 6, 8);
    SameOnward(a, b, 0, 8, r);
    SameOnward(a, b, 0, r, r + 2);
    SameOnward(a, b, 0, r + 2, r + 4);
    SameOnward(a, b, 0, r + 4, n);
  }

  lemma SameOnward(a: string, b: string, i: nat, j: nat, k: nat)
    requires i <= j <= k <= |a| == |b| && a[i..j] == b[i..j] && a[j..k] == b[j..k]
    ensures a[i..k] == b[i..k]
  {
    assert a[i..k] == a[i..j] + a[j..k];
    assert b[i..k] == b[i..j] + b[j..k];
  }

  lemma DerLayoutUnique(l: Layout, m: Layout, sig: Signature)
    requires IsLayout(l) && IsLayout(m) && IsDerLayout(l, sig) && IsDerLayout(m, sig)
    ensures l == m
  {
    ContentsUnique(l.rHex, sig.r);
    ContentsUnique(m.rHex, sig.r);
    ContentsUnique(l.tail, sig.s);
    ContentsUnique(m.tail, sig.s);
  }

  /** Two numbers have at most one encoding. */
  lemma DerUnique(a: string, b: string, sig: Signature)
    requires IsDer(a, sig) && IsDer(b, sig)
    ensures a == b
  {
    var l :| IsLayout(l) && IsText(a, l) && IsDerLayout(l, sig);
    var m :| IsLayout(m) && IsText(b, m) && IsDerLayout(m, sig);
    DerLayoutUnique(l, m, sig);
    SameText(a, b, l);
  }

  /** The layout an encoder chooses. */
  lemma Encoded(sig: Signature) returns (l: Layout)
    requires sig.r < Pow16(64) && sig.s < Pow16(64)
    ensures IsLayout(l) && IsDerLayout(l, sig)
  {
    ContentsEncode(sig.r);
    ContentsEncode(sig.s);
    ContentsLength(sig.r);
    ContentsLength(sig.s);
    var r, s := Contents(sig.r), Contents(sig.s);
    l := Layout(r, |s| / 2, s);
  }

  /** Every pair of 256-bit numbers has an encoding, only one, and it parses back to them. */
  lemma DerRoundTrip(sig: Signature) returns (der: string)
    requires sig.r < Pow16(64) && sig.s < Pow16(64)
    ensures IsDer(der, sig) && IsHex(der) && Parse(der) == Ok(sig)
    ensures forall other :: IsDer(other, sig) ==> other == der
  {
    var l := Encoded(sig);
    der := TextOf(l);
    ParseUndoesDer(der, sig);
    forall other | IsDer(other, sig)
      ensures other == der
    {
      DerUnique(other, der, sig);
    }
  }

  /** Two octets after the second INTEGER, as in 30080201010201010000: the text is no encoding, and is accepted all the
      same. */
  lemma TrailingOctetsAreAccepted() returns (der: string)
    ensures var l := Layout("01", 1, "010000"); IsLayout(l) && IsText(der, l)
    ensures IsHex(der) && Parse(der) == Ok(Signature(1, 1)) && !IsDer(der, Signature(1, 1))
  {
    var l := Layout("01", 1, "010000");
    ValueOfTwo('0', '1');
    assert "01" == ['0', '1'];
    assert Slice(l.tail, 0, 2) == "01";
    der := TextOf(l);
    ParsesLayout(der, l);
    AcceptedIsDer(der, l);
  }
}

/** From the service's answer to the serialised signature. */
module AwsKmsSigner {
  import opened Common
  import opened Hex
  import opened DerSignature
  import opened SignatureEncoding

  /** The low-s rule (EIP-2). */
  function LowS(s: int): int {
    if s > HALF_N then N - s else s
  }

  /** The result is at most half the order of secp256k1 (section 2.4.1 of SEC 2), and positive, exactly for the scalars
      of the group. */
  lemma LowSInRange(s: nat)
    ensures 1 <= LowS(s) && 2 * LowS(s) <= 0xFFFFFFFFFFFFFFFFFFFFFFFFFFFFFFFEBAAEDCE6AF48A03BBFD25E8CD0364141
       <==> 1 <= s < 0xFFFFFFFFFFFFFFFFFFFFFFFFFFFFFFFEBAAEDCE6AF48A03BBFD25E8CD0364141
  {
  }

  /** Of a scalar and its negation the same one is chosen, it is one of the two, and choosing again changes nothing. */
  lemma LowSChoosesOne(s: nat, t: nat)
    requires 1 <= s < N && 1 <= t < N
    ensures LowS(s) == LowS(t) <==> s == t || s + t == N
    ensures LowS(LowS(s)) == LowS(s)
  {
  }

  lemma PadStartReadsBack(n: nat, width: nat)
    ensures IsHex(PadStart(ToHex(n), width)) && Value(PadStart(ToHex(n), width)) == n
  {
    var t := ToHex(n);
    if |t| < width {
      LeadingZeros(width - |t|, t);
    }
  }

  /** What is printed reads back to the same number. */
  lemma PrintReadsBack(n: nat)
    ensures IsHex(TrimHexPrefix(Ensure32BytesHex(n))) && Value(TrimHexPrefix(Ensure32BytesHex(n))) == n
  {
    PadStartReadsBack(n, 64);
  }

  lemma NegativeIsNoHex(n: nat)
    ensures !IsHex(PadStart("-" + ToHex(n), 64))
  {
    var t := "-" + ToHex(n);
    var p := PadStart(t, 64);
    assert t[0] == '-';
    assert p[|p| - |t|] == '-';
  }

  /** The print is 64 digits exactly for the 256-bit numbers. */
  lemma PrintIs32Bytes(v: int)
    ensures 0 <= v < Pow16(64) <==> |Ensure32BytesHex(v)| == 66 && IsHex(TrimHexPrefix(Ensure32BytesHex(v)))
  {
    if v >= 0 {
      ToHexFits(v, 64);
      PrintReadsBack(v);
    } else {
      NegativeIsNoHex(-v);
    }
  }

  lemma GroupOrderFits()
    ensures N < Pow16(64)
  {
    assert Pow16(2) == 16 * Pow16(1) == 0x100;
    PowDoubles(2, 0x100, 0x1_0000);
    PowDoubles(4, 0x1_0000, 0x1_0000_0000);
    PowDoubles(8, 0x1_0000_0000, 0x1_0000_0000_0000_0000);
    PowDoubles(16, 0x1_0000_0000_0000_0000, 0x1_0000_0000_0000_0000_0000_0000_0000_0000);
    PowDoubles(32, 0x1_0000_0000_0000_0000_0000_0000_0000_0000,
               0x1_0000_0000_0000_0000_0000_0000_0000_0000_0000_0000_0000_0000_0000_0000_0000_0000);
  }

  datatype Signed = Signed(r: string, s: string, yParity: nat)

  /** Signing a digest, given the service's answer and what public-key recovery does for each parity: it returns an
      address, or throws on digits it does not accept. */
  method SignDigest<Address(==)>(
    answer: Option<string>, recover: (string, string, nat) -> Option<Address>, signer: Address)
    returns (signed: Result<Signed, DerError>)
    requires answer.Some? ==> IsHex(answer.value)
    ensures answer == None ==> signed == Err(EmptySignature)
    ensures answer.Some? && Parse(answer.value).Err? ==> signed == Err(Parse(answer.value).error)
    ensures answer.Some? && Parse(answer.value).Ok? ==>
      var sig := Parse(answer.value).value;
      var r, s := Ensure32BytesHex(sig.r), Ensure32BytesHex(LowS(sig.s));
      var even, odd := recover(r, s, 0), recover(r, s, 1);
      && (signed.Ok? <==> even == Some(signer) || (even.Some? && odd == Some(signer)))
      && (signed.Ok? ==> signed.value == Signed(r, s, if even == Some(signer) then 0 else 1))
      && (signed.Err? ==> signed.error == if even.None? || odd.None? then RecoveryFailed else SignerNotRecovered)
  {
    if answer == None {
      return Err(EmptySignature);
    }
    assert TrimHexPrefix("0x" + answer.value) == answer.value;
    var sig :- ParseKmsDerSignature("0x" + answer.value);
    var r := sig.r;
    var s: int := sig.s;
    if s > HALF_N {
      s := N - s;
    }
    var rHex := Ensure32BytesHex(r);
    var sHex := Ensure32BytesHex(s);
    var recovered := recover(rHex, sHex, 0);
    if recovered == None {
      return Err(RecoveryFailed);
    }
    var yParity := if recovered.value == signer then 0 else 1;
    recovered := recover(rHex, sHex, yParity);
    if recovered == None {
      return Err(RecoveryFailed);
    }
    if recovered.value != signer {
      return Err(SignerNotRecovered);
    }
    signed := Ok(Signed(rHex, sHex, yParity));
  }

  /** For the encoding of any signature over the group, the digits sent on are 64 each, write r and the low one of s
      and N - s, and s is in the accepted range. */
  lemma SignedDigits(der: string, sig: Signature, r: string, s: string)
    requires IsDer(der, sig) && 1 <= sig.r < N && 1 <= sig.s < N
    requires r == Ensure32BytesHex(sig.r) && s == Ensure32BytesHex(LowS(sig.s))
    ensures IsHex(der) && Parse(der) == Ok(sig)
    ensures |r| == 66 && IsHex(TrimHexPrefix(r)) && Value(TrimHexPrefix(r)) == sig.r
    ensures |s| == 66 && IsHex(TrimHexPrefix(s))
    ensures 1 <= Value(TrimHexPrefix(s)) <= HALF_N && Value(TrimHexPrefix(s)) in {sig.s, N - sig.s}
  {
    ParseUndoesDer(der, sig);
    GroupOrderFits();
    PrintIs32Bytes(sig.r);
    PrintReadsBack(sig.r);
    PrintIs32Bytes(LowS(sig.s));
    PrintReadsBack(LowS(sig.s));
  }
}

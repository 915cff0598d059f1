/** The DER walk of src/tls.rs from a certificate to its Ed25519 public key. */
module Der {
  import opened Prelude

  type Byte = n: nat | n < 256
  type Bytes = seq<Byte>

  const TAG_INTEGER: Byte := 0x02
  const TAG_BIT_STRING: Byte := 0x03
  const TAG_OID: Byte := 0x06
  const TAG_SEQUENCE: Byte := 0x30
  const TAG_VERSION: Byte := 0xa0
  const OID_ED25519: Bytes := [0x2b, 0x65, 0x70]

  // ---- the code ----

  datatype Tlv = Tlv(tag: Byte, content: Bytes, rest: Bytes)

  /** The source's fold `(acc << 8) | b` over the length octets. */
  function BigEndian(b: Bytes): nat {
    if b == [] then 0 else BigEndian(b[..|b| - 1]) * 256 + b[|b| - 1]
  }

  function ReadTlv(input: Bytes): Result<Tlv> {
    if |input| < 2 then Err
    else
      var first := input[1];
      if first < 0x80 then Take(input, first, 2)
      else
        var n := first - 0x80;
        if !(1 <= n <= 4) || |input| < 2 + n then Err
        else Take(input, BigEndian(input[2..2 + n]), 2 + n)
  }

  function Take(input: Bytes, len: nat, header: nat): Result<Tlv>
    requires |input| > 0
  {
    if header + len <= |input| then Ok(Tlv(input[0], input[header..header + len], input[header + len..])) else Err
  }

  datatype Piece = Piece(content: Bytes, rest: Bytes)

  function Expect(input: Bytes, tag: Byte): Result<Piece> {
    match ReadTlv(input)
    case Err => Err
    case Ok(t) => if t.tag == tag then Ok(Piece(t.content, t.rest)) else Err
  }

  /** Everything in front of the SubjectPublicKeyInfo, then the SubjectPublicKeyInfo's content. */
  function SpkiOf(cert: Bytes): Result<Bytes> {
    match Expect(cert, TAG_SEQUENCE)
    case Err => Err
    case Ok(certificate) =>
      match Expect(certificate.content, TAG_SEQUENCE)
      case Err => Err
      case Ok(tbs) =>
        match SkipAll(tbs.content, SKIPPED)
        case Err => Err
        case Ok(rest) =>
          match Expect(rest, TAG_SEQUENCE)
          case Err => Err
          case Ok(spki) => Ok(spki.content)
  }

  /** Tags of the fields in front of the key: version, serialNumber, signature, issuer,
      validity, subject (section 4.1 of RFC 5280). */
  const SKIPPED: Bytes := [TAG_VERSION, TAG_INTEGER, TAG_SEQUENCE, TAG_SEQUENCE, TAG_SEQUENCE, TAG_SEQUENCE]

  function SkipAll(input: Bytes, tags: Bytes): Result<Bytes> {
    if tags == [] then Ok(input)
    else
      match Expect(input, tags[0])
      case Err => Err
      case Ok(p) => SkipAll(p.rest, tags[1..])
  }

  function KeyOfSpki(spki: Bytes): Result<Bytes> {
    match Expect(spki, TAG_SEQUENCE)
    case Err => Err
    case Ok(alg) =>
      match Expect(alg.content, TAG_OID)
      case Err => Err
      case Ok(oid) =>
        if oid.content != OID_ED25519 || oid.rest != [] then Err
        else
          match Expect(alg.rest, TAG_BIT_STRING)
          case Err => Err
          case Ok(bits) =>
            if bits.content == [] || bits.content[0] != 0 || |bits.content| != 33 then Err
            else Ok(bits.content[1..])
  }

  function SpkiPubkey(cert: Bytes): Result<Bytes> {
    match SpkiOf(cert)
    case Err => Err
    case Ok(spki) => KeyOfSpki(spki)
  }

  // ---- what an element is, read declaratively ----

  /** `octets` is a definite length field, short form or one to four octets long form, that
      says `len`. Long forms need not be minimal. */
  predicate LengthField(octets: Bytes, len: nat) {
    || (|octets| == 1 && octets[0] < 0x80 && len == octets[0])
    || (2 <= |octets| <= 5 && octets[0] == 0x80 + (|octets| - 1) && len == BigEndian(octets[1..]))
  }

  /** `input` is one element with this tag and content, followed by `rest`. */
  ghost predicate Splits(input: Bytes, tag: Byte, content: Bytes, rest: Bytes) {
    exists octets: Bytes :: LengthField(octets, |content|) && input == [tag] + octets + content + rest
  }

  lemma ReadSplits(input: Bytes)
    requires ReadTlv(input).Ok?
    ensures var t := ReadTlv(input).value; Splits(input, t.tag, t.content, t.rest)
  {
    var t := ReadTlv(input).value;
    var n := if input[1] < 0x80 then 0 else input[1] - 0x80;
    var octets := input[1..2 + n];
    assert octets[1..] == input[2..2 + n];
    assert input == [t.tag] + octets + t.content + t.rest;
  }

  lemma SplitReads(input: Bytes, octets: Bytes, tag: Byte, content: Bytes, rest: Bytes)
    requires LengthField(octets, |content|) && input == [tag] + octets + content + rest
    ensures ReadTlv(input) == Ok(Tlv(tag, content, rest))
  {
    assert input[1] == octets[0];
    var header := 1 + |octets|;
    assert input[2..header] == octets[1..];
    assert input[header..header + |content|] == content && input[header + |content|..] == rest;
  }

  /** Reading finds the only way to split an input, and every way to split is found. */
  lemma ReadIffSplits(input: Bytes, tag: Byte, content: Bytes, rest: Bytes)
    ensures ReadTlv(input) == Ok(Tlv(tag, content, rest)) <==> Splits(input, tag, content, rest)
  {
    if ReadTlv(input).Ok? {
      ReadSplits(input);
    }
    if Splits(input, tag, content, rest) {
      var octets :| LengthField(octets, |content|) && input == [tag] + octets + content + rest;
      SplitReads(input, octets, tag, content, rest);
    }
  }

  // ---- what a certificate with an Ed25519 key is ----

  /** The bytes between the elements a certificate splits into; the contents of the six
      skipped fields are in `skipped`. */
  datatype Layout = Layout(certificate: Bytes, afterCertificate: Bytes, tbs: Bytes, afterTbs: Bytes,
                           skipped: seq<Bytes>, fields: seq<Bytes>, spki: Bytes, afterSpki: Bytes,
                           algorithm: Bytes, afterAlgorithm: Bytes, bits: Bytes, afterBits: Bytes)

  ghost predicate SplitsAll(fields: seq<Bytes>, tags: Bytes, contents: seq<Bytes>) {
    && |fields| == |tags| + 1 && |contents| == |tags|
    && forall i :: 0 <= i < |tags| ==> Splits(fields[i], tags[i], contents[i], fields[i + 1])
  }

  /** The key's field in its place behind the six others, with lengths in any accepted form. */
  ghost predicate Carries(w: Layout, cert: Bytes) {
    && Splits(cert, TAG_SEQUENCE, w.certificate, w.afterCertificate)
    && Splits(w.certificate, TAG_SEQUENCE, w.tbs, w.afterTbs)
    && SplitsAll(w.fields, SKIPPED, w.skipped) && w.fields[0] == w.tbs
    && Splits(w.fields[6], TAG_SEQUENCE, w.spki, w.afterSpki)
  }

  ghost predicate Describes(w: Layout, cert: Bytes, key: Bytes) {
    && Carries(w, cert)
    && Splits(w.spki, TAG_SEQUENCE, w.algorithm, w.afterAlgorithm)
    && Splits(w.algorithm, TAG_OID, OID_ED25519, [])
    && Splits(w.afterAlgorithm, TAG_BIT_STRING, w.bits, w.afterBits)
    && |key| == 32 && w.bits == [0] + key
  }

  lemma ExpectIffSplits(input: Bytes, tag: Byte, content: Bytes, rest: Bytes)
    ensures Expect(input, tag) == Ok(Piece(content, rest)) <==> Splits(input, tag, content, rest)
  {
    ReadIffSplits(input, tag, content, rest);
  }

  lemma {:induction false} SkipSplits(input: Bytes, tags: Bytes) returns (fields: seq<Bytes>, contents: seq<Bytes>)
    requires SkipAll(input, tags).Ok?
    ensures SplitsAll(fields, tags, contents) && fields[0] == input && fields[|tags|] == SkipAll(input, tags).value
    decreases |tags|
  {
    if tags == [] {
      fields, contents := [input], [];
    } else {
      var p := Expect(input, tags[0]).value;
      ExpectIffSplits(input, tags[0], p.content, p.rest);
      var fs, cs := SkipSplits(p.rest, tags[1..]);
      fields, contents := [input] + fs, [p.content] + cs;
      forall i | 0 <= i < |tags| ensures Splits(fields[i], tags[i], contents[i], fields[i + 1]) {
        if i > 0 {
          assert Splits(fs[i - 1], tags[1..][i - 1], cs[i - 1], fs[i]);
        }
      }
    }
  }

  lemma {:induction false} SplitsSkip(fields: seq<Bytes>, tags: Bytes, contents: seq<Bytes>)
    requires SplitsAll(fields, tags, contents)
    ensures SkipAll(fields[0], tags) == Ok(fields[|tags|])
    decreases |tags|
  {
    if tags != [] {
      assert Splits(fields[0], tags[0], contents[0], fields[1]);
      ExpectIffSplits(fields[0], tags[0], contents[0], fields[1]);
      forall i | 0 <= i < |tags| - 1
        ensures Splits(fields[1..][i], tags[1..][i], contents[1..][i], fields[1..][i + 1])
      {
        assert Splits(fields[i + 1], tags[i + 1], contents[i + 1], fields[i + 2]);
      }
      SplitsSkip(fields[1..], tags[1..], contents[1..]);
    }
  }

  /** Nothing outside the SubjectPublicKeyInfo is consulted: the verdict on a certificate is the
      verdict on that field, whatever the other fields hold and however lengths are written. */
  lemma OnlySpkiMatters(w: Layout, cert: Bytes)
    requires Carries(w, cert)
    ensures SpkiPubkey(cert) == KeyOfSpki(w.spki)
  {
    ExpectIffSplits(cert, TAG_SEQUENCE, w.certificate, w.afterCertificate);
    ExpectIffSplits(w.certificate, TAG_SEQUENCE, w.tbs, w.afterTbs);
    SplitsSkip(w.fields, SKIPPED, w.skipped);
    ExpectIffSplits(w.fields[6], TAG_SEQUENCE, w.spki, w.afterSpki);
    hide Splits, SplitsAll, Expect, SkipAll, KeyOfSpki;
  }

  lemma KeyFound(w: Layout, cert: Bytes, key: Bytes)
    requires Describes(w, cert, key)
    ensures SpkiPubkey(cert) == Ok(key)
  {
    OnlySpkiMatters(w, cert);
    ExpectIffSplits(w.spki, TAG_SEQUENCE, w.algorithm, w.afterAlgorithm);
    ExpectIffSplits(w.algorithm, TAG_OID, OID_ED25519, []);
    ExpectIffSplits(w.afterAlgorithm, TAG_BIT_STRING, w.bits, w.afterBits);
    assert w.bits[1..] == key;
  }

  lemma LayoutFound(cert: Bytes) returns (w: Layout)
    requires SpkiPubkey(cert).Ok?
    ensures Describes(w, cert, SpkiPubkey(cert).value)
  {
    hide ReadTlv, Splits;
    var c := Expect(cert, TAG_SEQUENCE).value;
    var tbs := Expect(c.content, TAG_SEQUENCE).value;
    var fields, skipped := SkipSplits(tbs.content, SKIPPED);
    var spki := Expect(fields[6], TAG_SEQUENCE).value;
    var alg := Expect(spki.content, TAG_SEQUENCE).value;
    var bits := Expect(alg.rest, TAG_BIT_STRING).value;
    w := Layout(c.content, c.rest, tbs.content, tbs.rest, skipped, fields, spki.content, spki.rest,
                alg.content, alg.rest, bits.content, bits.rest);
    ExpectIffSplits(cert, TAG_SEQUENCE, c.content, c.rest);
    ExpectIffSplits(c.content, TAG_SEQUENCE, tbs.content, tbs.rest);
    ExpectIffSplits(fields[6], TAG_SEQUENCE, spki.content, spki.rest);
    ExpectIffSplits(spki.content, TAG_SEQUENCE, alg.content, alg.rest);
    ExpectIffSplits(alg.content, TAG_OID, OID_ED25519, []);
    ExpectIffSplits(alg.rest, TAG_BIT_STRING, bits.content, bits.rest);
    assert bits.content == [0] + bits.content[1..];
  }

  /** The walk accepts exactly the certificates laid out as RFC 5280 section 4.1 says with an
      RFC 8410 section 3 key, and returns that key. */
  lemma PubkeyIffLayout(cert: Bytes, key: Bytes)
    ensures SpkiPubkey(cert) == Ok(key) <==> exists w :: Describes(w, cert, key)
  {
    if SpkiPubkey(cert) == Ok(key) {
      var w := LayoutFound(cert);
    }
    if w :| Describes(w, cert, key) {
      KeyFound(w, cert, key);
    }
  }

  // ---- a printer with minimal lengths ----

  function LengthOctets(n: nat): Bytes
    requires n < 0x1_0000_0000
  {
    if n < 0x80 then [n]
    else if n < 0x100 then [0x81, n]
    else if n < 0x1_0000 then [0x82, n / 0x100, n % 0x100]
    else if n < 0x100_0000 then [0x83, n / 0x1_0000, n / 0x100 % 0x100, n % 0x100]
    else [0x84, n / 0x100_0000, n / 0x1_0000 % 0x100, n / 0x100 % 0x100, n % 0x100]
  }

  function Print(tag: Byte, content: Bytes): Bytes
    requires |content| < 0x1_0000_0000
  {
    [tag] + LengthOctets(|content|) + content
  }

  lemma {:induction false} BigEndianSteps(b: Bytes, last: Byte)
    ensures BigEndian(b + [last]) == BigEndian(b) * 256 + last
  {
    assert (b + [last])[..|b|] == b;
  }

  lemma LengthOctetsSayLength(n: nat)
    requires n < 0x1_0000_0000
    ensures LengthField(LengthOctets(n), n)
    ensures forall octets :: LengthField(octets, n) ==> |LengthOctets(n)| <= |octets|
  {
    if n >= 0x80 {
      BigEndianOf(n);
    }
    forall octets | LengthField(octets, n) ensures |LengthOctets(n)| <= |octets| {
      if |octets| > 1 {
        BigEndianBound(octets[1..]);
      }
    }
  }

  lemma BigEndianBound(b: Bytes)
    requires 1 <= |b| <= 4
    ensures |b| == 1 ==> BigEndian(b) < 0x100
    ensures |b| == 2 ==> BigEndian(b) < 0x1_0000
    ensures |b| == 3 ==> BigEndian(b) < 0x100_0000
  {
    assert b[..|b| - 1][..0] == [];
    if |b| == 2 {
      assert |b[..1]| == 1;
    } else if |b| == 3 {
      BigEndianBound(b[..2]);
    }
  }

  lemma BigEndianFour(d3: Byte, d2: Byte, d1: Byte, d0: Byte)
    ensures BigEndian([d0]) == d0
    ensures BigEndian([d1, d0]) == d1 * 0x100 + d0
    ensures BigEndian([d2, d1, d0]) == (d2 * 0x100 + d1) * 0x100 + d0
    ensures BigEndian([d3, d2, d1, d0]) == ((d3 * 0x100 + d2) * 0x100 + d1) * 0x100 + d0
  {
    BigEndianSteps([], d0);
    BigEndianSteps([], d1);
    BigEndianSteps([], d2);
    BigEndianSteps([], d3);
    assert [] + [d0] == [d0] && [] + [d1] == [d1] && [] + [d2] == [d2] && [] + [d3] == [d3];
    BigEndianSteps([d1], d0);
    BigEndianSteps([d2], d1);
    BigEndianSteps([d3], d2);
    assert [d1] + [d0] == [d1, d0] && [d2] + [d1] == [d2, d1] && [d3] + [d2] == [d3, d2];
    BigEndianSteps([d2, d1], d0);
    BigEndianSteps([d3, d2], d1);
    assert [d2, d1] + [d0] == [d2, d1, d0] && [d3, d2] + [d1] == [d3, d2, d1];
    BigEndianSteps([d3, d2, d1], d0);
    assert [d3, d2, d1] + [d0] == [d3, d2, d1, d0];
  }

  lemma Octets(n: nat)
    requires n < 0x1_0000_0000
    ensures n == 0x100 * (n / 0x100) + n % 0x100
    ensures n / 0x100 == 0x100 * (n / 0x1_0000) + n / 0x100 % 0x100
    ensures n / 0x1_0000 == 0x100 * (n / 0x100_0000) + n / 0x1_0000 % 0x100
    ensures n / 0x100_0000 < 0x100
  {
    assert n / 0x1_0000 == n / 0x100 / 0x100;
    assert n / 0x100_0000 == n / 0x1_0000 / 0x100;
  }

  lemma BigEndianOf(n: nat)
    requires 0x80 <= n < 0x1_0000_0000
    ensures LengthField(LengthOctets(n), n)
  {
    Octets(n);
    var l := LengthOctets(n);
    if n < 0x100 {
      BigEndianFour(0, 0, 0, n);
      assert l[1..] == [n];
    } else if n < 0x1_0000 {
      BigEndianFour(0, 0, n / 0x100, n % 0x100);
      assert l[1..] == [n / 0x100, n % 0x100];
    } else if n < 0x100_0000 {
      BigEndianFour(0, n / 0x1_0000, n / 0x100 % 0x100, n % 0x100);
      assert l[1..] == [n / 0x1_0000, n / 0x100 % 0x100, n % 0x100];
    } else {
      BigEndianFour(n / 0x100_0000, n / 0x1_0000 % 0x100, n / 0x100 % 0x100, n % 0x100);
      assert l[1..] == [n / 0x100_0000, n / 0x1_0000 % 0x100, n / 0x100 % 0x100, n % 0x100];
    }
  }

  lemma PrintedSplits(tag: Byte, content: Bytes, rest: Bytes)
    requires |content| < 0x1_0000_0000
    ensures Splits(Print(tag, content) + rest, tag, content, rest)
    ensures Expect(Print(tag, content) + rest, tag) == Ok(Piece(content, rest))
  {
    LengthOctetsSayLength(|content|);
    assert Print(tag, content) + rest == [tag] + LengthOctets(|content|) + content + rest;
    ExpectIffSplits(Print(tag, content) + rest, tag, content, rest);
  }

  /** The skipped fields one after the other. */
  function PrintFields(tags: Bytes, contents: seq<Bytes>): Bytes
    requires |tags| == |contents| && forall c :: c in contents ==> |c| < 0x1_0000_0000
  {
    if tags == [] then [] else Print(tags[0], contents[0]) + PrintFields(tags[1..], contents[1..])
  }

  lemma {:induction false} PrintedFieldsSkip(tags: Bytes, contents: seq<Bytes>, rest: Bytes)
    requires |tags| == |contents| && forall c :: c in contents ==> |c| < 0x1_0000_0000
    ensures SkipAll(PrintFields(tags, contents) + rest, tags) == Ok(rest)
    decreases |tags|
  {
    if tags != [] {
      var tail := PrintFields(tags[1..], contents[1..]) + rest;
      assert PrintFields(tags, contents) + rest == Print(tags[0], contents[0]) + tail;
      PrintedSplits(tags[0], contents[0], tail);
      PrintedFieldsSkip(tags[1..], contents[1..], rest);
    } else {
      assert PrintFields(tags, contents) + rest == rest;
    }
  }

  /** What a certificate carries besides its key: the skipped fields, whatever follows the key
      in the TBSCertificate, whatever follows that, and trailing bytes. */
  datatype Rest = Rest(skipped: seq<Bytes>, afterSpki: Bytes, afterTbs: Bytes, afterCertificate: Bytes)

  predicate Fits(r: Rest, spki: Bytes) {
    && |r.skipped| == 6 && |spki| < 0x1_0000_0000
    && (forall c :: c in r.skipped ==> |c| < 0x1_0000_0000)
    && |TbsBytes(r, spki)| < 0x1_0000_0000
    && |Print(TAG_SEQUENCE, TbsBytes(r, spki)) + r.afterTbs| < 0x1_0000_0000
  }

  function TbsBytes(r: Rest, spki: Bytes): Bytes
    requires |r.skipped| == 6 && |spki| < 0x1_0000_0000 && forall c :: c in r.skipped ==> |c| < 0x1_0000_0000
  {
    PrintFields(SKIPPED, r.skipped) + (Print(TAG_SEQUENCE, spki) + r.afterSpki)
  }

  function PrintCertificate(r: Rest, spki: Bytes): Bytes
    requires Fits(r, spki)
  {
    Print(TAG_SEQUENCE, Print(TAG_SEQUENCE, TbsBytes(r, spki)) + r.afterTbs) + r.afterCertificate
  }

  function PrintSpki(key: Bytes): Bytes
    requires |key| == 32
  {
    Print(TAG_SEQUENCE, Print(TAG_OID, OID_ED25519)) + Print(TAG_BIT_STRING, [0] + key)
  }

  /** The octets of a key info, as section 10.1 of RFC 8410 shows them, and the tags in front of it. */
  lemma KeyInfoOctets(key: Bytes)
    requires |key| == 32
    ensures Print(TAG_SEQUENCE, PrintSpki(key)) == [0x30, 0x2a, 0x30, 0x05, 0x06, 0x03, 0x2b, 0x65, 0x70, 0x03, 0x21, 0x00] + key
    ensures SKIPPED == [0xa0, 0x02, 0x30, 0x30, 0x30, 0x30]
  {
    assert Print(TAG_OID, OID_ED25519) == [0x06, 0x03, 0x2b, 0x65, 0x70];
    assert Print(TAG_SEQUENCE, Print(TAG_OID, OID_ED25519)) == [0x30, 0x05, 0x06, 0x03, 0x2b, 0x65, 0x70];
    assert Print(TAG_BIT_STRING, [0] + key) == [0x03, 0x21, 0x00] + key;
  }

  lemma PrintedSpkiIsRead(r: Rest, spki: Bytes)
    requires Fits(r, spki)
    ensures SpkiPubkey(PrintCertificate(r, spki)) == KeyOfSpki(spki)
  {
    var tbs := TbsBytes(r, spki);
    var certificate := Print(TAG_SEQUENCE, tbs) + r.afterTbs;
    PrintedSplits(TAG_SEQUENCE, certificate, r.afterCertificate);
    PrintedSplits(TAG_SEQUENCE, tbs, r.afterTbs);
    PrintedFieldsSkip(SKIPPED, r.skipped, Print(TAG_SEQUENCE, spki) + r.afterSpki);
    PrintedSplits(TAG_SEQUENCE, spki, r.afterSpki);
  }

  /** A certificate printed around a key yields that key. */
  lemma PrintedKeyReadsBack(r: Rest, key: Bytes)
    requires |key| == 32 && Fits(r, PrintSpki(key))
    ensures SpkiPubkey(PrintCertificate(r, PrintSpki(key))) == Ok(key)
  {
    var algorithm := Print(TAG_OID, OID_ED25519);
    PrintedSpkiIsRead(r, PrintSpki(key));
    PrintedSplits(TAG_SEQUENCE, algorithm, Print(TAG_BIT_STRING, [0] + key));
    PrintedSplits(TAG_OID, OID_ED25519, []);
    assert algorithm + [] == algorithm;
    PrintedSplits(TAG_BIT_STRING, [0] + key, []);
    assert Print(TAG_BIT_STRING, [0] + key) + [] == Print(TAG_BIT_STRING, [0] + key);
    assert ([0] + key)[1..] == key;
  }
}

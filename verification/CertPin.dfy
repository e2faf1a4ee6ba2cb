/**
  Finding the SubjectPublicKeyInfo inside a DER certificate
  (services/cert_pin.py), following section 4.1 of RFC 5280 and the length rules
  of sections 8.1.3 and 10.1 of ITU-T X.690.
 */
module CertPin {

  type Byte = b: int | 0 <= b < 256

  type Bytes = seq<Byte>

  const SEQUENCE: Byte := 0x30
  const CONTEXT_0: Byte := 0xA0

  /** `ValueError`, or the `IndexError` of looking at a byte that is not there. */
  datatype Error = Truncated | UnsupportedLength | NotACertificate | MalformedKey | OutOfRange

  datatype Result<+T> = Ok(value: T) | Err(error: Error)

  /** Tag, and where the content of an element starts and ends. */
  datatype Element = Element(tag: Byte, start: nat, end: nat)

  // --- The reader ----------------------------------------------------------

  /** `int.from_bytes(.., "big")`. */
  function BigEndian(bytes: Bytes): nat {
    if bytes == [] then 0 else BigEndian(bytes[..|bytes| - 1]) * 256 + bytes[|bytes| - 1]
  }

  function ReadTlv(data: Bytes, offset: nat): (r: Result<Element>)
    ensures r.Ok? ==>
              && offset + 2 <= r.value.start <= r.value.end <= |data|
              && r.value.tag == data[offset]
  {
    if offset + 2 > |data| then Err(Truncated)
    else
      var first := data[offset + 1];
      var count := if first >= 0x80 then first - 0x80 else 0;
      if first >= 0x80 && (count == 0 || count > 4 || offset + 2 + count > |data|) then Err(UnsupportedLength)
      else
        var start := offset + 2 + count;
        var length := if first >= 0x80 then BigEndian(data[offset + 2..start]) else first;
        if start + length > |data| then Err(Truncated)
        else Ok(Element(data[offset], start, start + length))
  }

  /**
    An element with a definite length of at most four octets stands at `offset`:
    a tag, then either one octet below 128 that is the length, or 128 plus the
    number of octets that spell it.
   */
  ghost predicate ElementAt(data: Bytes, offset: nat, octets: Bytes, length: nat) {
    && offset + 1 < |data|
    && (if octets == [] then data[offset + 1] < 0x80 && length == data[offset + 1]
        else && |octets| <= 4 && data[offset + 1] == 0x80 + |octets| && length == BigEndian(octets)
             && offset + 2 + |octets| <= |data| && data[offset + 2..offset + 2 + |octets|] == octets)
    && offset + 2 + |octets| + length <= |data|
  }

  /** Reading succeeds exactly where such an element stands, and gives its tag and where its content is. */
  lemma ReadTlvIff(data: Bytes, offset: nat, e: Element)
    ensures ReadTlv(data, offset) == Ok(e)
       <==> exists octets: Bytes, length: nat :: ElementAt(data, offset, octets, length)
              && e == Element(data[offset], offset + 2 + |octets|, offset + 2 + |octets| + length)
  {
    hide BigEndian;
    if ReadTlv(data, offset) == Ok(e) {
      var octets: Bytes := if data[offset + 1] >= 0x80 then data[offset + 2..e.start] else [];
      assert ElementAt(data, offset, octets, e.end - e.start);
    }
  }

  /** Stepping over `n` elements. */
  function Skip(data: Bytes, offset: nat, n: nat): (r: Result<nat>)
    ensures r.Ok? ==> offset <= r.value && (n > 0 ==> r.value <= |data|)
    decreases n
  {
    if n == 0 then Ok(offset)
    else
      match ReadTlv(data, offset)
      case Err(e) => Err(e)
      case Ok(element) => Skip(data, element.end, n - 1)
  }

  /** `subject_public_key_info`. */
  method SubjectPublicKeyInfo(cert: Bytes) returns (r: Result<Bytes>)
    ensures r == Spki(cert)
  {
    var outer := ReadTlv(cert, 0);
    if outer.Err? {
      return Err(outer.error);
    }
    if outer.value.tag != SEQUENCE {
      return Err(NotACertificate);
    }
    var tbs := ReadTlv(cert, outer.value.start);
    if tbs.Err? {
      return Err(tbs.error);
    }
    if tbs.value.tag != SEQUENCE {
      return Err(NotACertificate);
    }
    var offset: nat := tbs.value.start;
    if offset >= |cert| {
      return Err(OutOfRange);
    }
    if cert[offset] == CONTEXT_0 {
      var version := ReadTlv(cert, offset);
      if version.Err? {
        return Err(version.error);
      }
      offset := version.value.end;
    }
    ghost var first: nat := offset;
    assert Skip(cert, first, 0) == Ok(first);
    assert Spki(cert) == KeyAfter(cert, first, tbs.value.end);
    for i := 0 to 5
      invariant Skip(cert, first, 5) == Skip(cert, offset, 5 - i)
    {
      var element := ReadTlv(cert, offset);
      if element.Err? {
        return Err(element.error);
      }
      offset := element.value.end;
    }
    var key := ReadTlv(cert, offset);
    if key.Err? {
      return Err(key.error);
    }
    if key.value.tag != SEQUENCE || key.value.end > tbs.value.end {
      return Err(MalformedKey);
    }
    return Ok(cert[offset..key.value.end]);
  }

  /** The specification the method is proved against. */
  function Spki(cert: Bytes): Result<Bytes> {
    match ReadTlv(cert, 0)
    case Err(e) => Err(e)
    case Ok(outer) =>
      if outer.tag != SEQUENCE then Err(NotACertificate) else
      match ReadTlv(cert, outer.start)
      case Err(e) => Err(e)
      case Ok(tbs) =>
        if tbs.tag != SEQUENCE then Err(NotACertificate)
        else if tbs.start >= |cert| then Err(OutOfRange)
        else
          match Skip(cert, tbs.start, if cert[tbs.start] == CONTEXT_0 then 1 else 0)
          case Err(e) => Err(e)
          case Ok(serial) => KeyAfter(cert, serial, tbs.end)
  }

  /** The key element after serial number, signature, issuer, validity and subject. */
  function KeyAfter(cert: Bytes, serial: nat, tbsEnd: nat): Result<Bytes> {
    match Skip(cert, serial, 5)
    case Err(e) => Err(e)
    case Ok(offset) =>
      match ReadTlv(cert, offset)
      case Err(e) => Err(e)
      case Ok(key) =>
        if key.tag != SEQUENCE || key.end > tbsEnd then Err(MalformedKey)
        else Ok(cert[offset..key.end])
  }

  // --- On arbitrary bytes --------------------------------------------------

  /** Reading depends only on the bytes of the element itself. */
  lemma ReadShifted(data: Bytes, offset: nat)
    requires ReadTlv(data, offset).Ok?
    ensures
      var e := ReadTlv(data, offset).value;
      ReadTlv(data[offset..e.end], 0) == Ok(Element(e.tag, e.start - offset, e.end - offset))
  {
    var e := ReadTlv(data, offset).value;
    var cut := data[offset..e.end];
    assert cut[0] == data[offset] && cut[1] == data[offset + 1];
    if cut[1] >= 0x80 {
      assert data[offset + 2..e.start] == cut[2..e.start - offset];
    }
  }

  /** `piece` stands in `data` at position `at`. */
  ghost predicate Has(data: Bytes, at: nat, piece: Bytes) {
    at + |piece| <= |data| && data[at..at + |piece|] == piece
  }

  /** Whenever a key is returned it is one whole SEQUENCE element lying inside tbsCertificate. */
  lemma SpkiIsInsideTbs(cert: Bytes) returns (tbs: Element, at: nat, body: nat)
    requires Spki(cert).Ok?
    ensures ReadTlv(cert, 0).Ok? && ReadTlv(cert, ReadTlv(cert, 0).value.start) == Ok(tbs)
    ensures
      var key := Spki(cert).value;
      && tbs.start <= at && at + |key| <= tbs.end && Has(cert, at, key)
      && ReadTlv(key, 0) == Ok(Element(SEQUENCE, body, |key|))
  {
    hide ReadTlv, Skip;
    tbs := ReadTlv(cert, ReadTlv(cert, 0).value.start).value;
    var serial := Skip(cert, tbs.start, if cert[tbs.start] == CONTEXT_0 then 1 else 0).value;
    at := Skip(cert, serial, 5).value;
    var e := ReadTlv(cert, at).value;
    ReadShifted(cert, at);
    body := e.start - at;
  }

  // --- The encoder ---------------------------------------------------------

  /** Big-endian bytes of `n`, without leading zeros. */
  function BytesOf(n: nat): (b: Bytes) {
    if n == 0 then [] else BytesOf(n / 256) + [n % 256]
  }

  lemma {:induction false} BytesRoundTrip(n: nat)
    ensures BigEndian(BytesOf(n)) == n
  {
    if n > 0 {
      BytesRoundTrip(n / 256);
      assert BytesOf(n)[..|BytesOf(n)| - 1] == BytesOf(n / 256);
    }
  }

  lemma BytesFit(n: nat)
    requires 0 < n < 0x1_0000_0000
    ensures 1 <= |BytesOf(n)| <= 4
  {
    var a := n / 256;
    var b := a / 256;
    var c := b / 256;
    assert c / 256 == 0 && BytesOf(c / 256) == [];
    assert |BytesOf(c)| <= 1 && |BytesOf(b)| <= 2 && |BytesOf(a)| <= 3;
  }

  /** Minimal definite length octets. */
  function LengthOctets(n: nat): Bytes
    requires n < 0x1_0000_0000
  {
    if n < 0x80 then [n]
    else BytesFit(n); [0x80 + |BytesOf(n)|] + BytesOf(n)
  }

  ghost predicate Short(content: Bytes) {
    |content| < 0x1_0000_0000
  }

  function Encode(tag: Byte, content: Bytes): Bytes
    requires Short(content)
  {
    [tag] + LengthOctets(|content|) + content
  }

  lemma HasParts(data: Bytes, at: nat, a: Bytes, b: Bytes)
    requires Has(data, at, a + b)
    ensures Has(data, at, a) && Has(data, at + |a|, b)
  {
    var whole := data[at..at + |a + b|];
    assert data[at..at + |a|] == whole[..|a|] && data[at + |a|..at + |a| + |b|] == whole[|a|..];
    assert (a + b)[..|a|] == a && (a + b)[|a|..] == b;
  }

  /** A length in the long form is the big-endian value of its digits. */
  lemma ReadLongForm(data: Bytes, at: nat, digits: Bytes)
    requires 1 <= |digits| <= 4 && at + 2 <= |data| && data[at + 1] == 0x80 + |digits|
    requires Has(data, at + 2, digits)
    requires at + 2 + |digits| + BigEndian(digits) <= |data|
    ensures
      var start := at + 2 + |digits|;
      ReadTlv(data, at) == Ok(Element(data[at], start, start + BigEndian(digits)))
  {
    hide BigEndian;
  }

  /** Length octets, wherever they stand after a tag, are read back as the length. */
  lemma ReadLength(data: Bytes, at: nat, n: nat)
    requires n < 0x1_0000_0000 && Has(data, at + 1, LengthOctets(n))
    requires at + 1 + |LengthOctets(n)| + n <= |data|
    ensures
      var start := at + 1 + |LengthOctets(n)|;
      ReadTlv(data, at) == Ok(Element(data[at], start, start + n))
  {
    hide BigEndian, BytesOf;
    if n < 0x80 {
      FirstOf(data, at + 1, LengthOctets(n));
    } else {
      hide ReadTlv;
      BytesFit(n);
      BytesRoundTrip(n);
      var digits := BytesOf(n);
      HasParts(data, at + 1, [0x80 + |digits|], digits);
      FirstOf(data, at + 1, [0x80 + |digits|]);
      ReadLongForm(data, at, digits);
    }
  }

  lemma FirstOf(data: Bytes, at: nat, piece: Bytes)
    requires Has(data, at, piece) && piece != []
    ensures data[at] == piece[0]
  {
    assert data[at] == data[at..at + |piece|][0];
  }

  lemma SliceOf(data: Bytes, at: nat, piece: Bytes)
    requires Has(data, at, piece)
    ensures data[at..at + |piece|] == piece
  {
  }

  /** Reading an encoded element, wherever it stands, yields its tag and exactly its content. */
  lemma ReadEncoded(data: Bytes, at: nat, tag: Byte, content: Bytes)
    requires Short(content) && Has(data, at, Encode(tag, content))
    ensures
      var end := at + |Encode(tag, content)|;
      && ReadTlv(data, at) == Ok(Element(tag, end - |content|, end))
      && Has(data, end - |content|, content)
      && data[at] == tag
  {
    hide ReadTlv, LengthOctets;
    var octets := LengthOctets(|content|);
    HasParts(data, at, [tag] + octets, content);
    HasParts(data, at, [tag], octets);
    FirstOf(data, at, [tag]);
    ReadLength(data, at, |content|);
  }

  // --- Certificates --------------------------------------------------------

  /** Any element: tag and content. */
  datatype Tlv = Tlv(tag: Byte, content: Bytes)

  /**
    A certificate as RFC 5280 lays it out: an optional explicit version, five
    elements, the key, then whatever else tbsCertificate and the certificate hold.
   */
  datatype Certificate = Certificate(
    version: seq<Bytes>,
    serial: Tlv,
    signature: Tlv,
    issuer: Tlv,
    validity: Tlv,
    subject: Tlv,
    key: Bytes,
    extensions: Bytes,
    trailer: Bytes)

  function EncodeTlv(t: Tlv): Bytes
    requires Short(t.content)
  {
    Encode(t.tag, t.content)
  }

  function Five(x: Certificate): seq<Tlv> {
    [x.serial, x.signature, x.issuer, x.validity, x.subject]
  }

  function EncodeAll(ts: seq<Tlv>): Bytes
    requires forall t :: t in ts ==> Short(t.content)
  {
    if ts == [] then [] else EncodeTlv(ts[0]) + EncodeAll(ts[1..])
  }

  /** At most one version, no component of four gigabytes, and no serial number posing as a version. */
  ghost predicate Encodable(x: Certificate) {
    && |x.version| <= 1
    && (forall v :: v in x.version ==> Short(v))
    && (forall t :: t in Five(x) ==> Short(t.content))
    && Short(x.key)
    && (x.version == [] ==> x.serial.tag != CONTEXT_0)
    && Short(TbsContent(x))
    && Short(CertContent(x))
  }

  function VersionPart(x: Certificate): Bytes
    requires forall v :: v in x.version ==> Short(v)
  {
    if x.version == [] then [] else Encode(CONTEXT_0, x.version[0])
  }

  function TbsContent(x: Certificate): Bytes
    requires forall v :: v in x.version ==> Short(v)
    requires forall t :: t in Five(x) ==> Short(t.content)
    requires Short(x.key)
  {
    VersionPart(x) + EncodeAll(Five(x)) + Encode(SEQUENCE, x.key) + x.extensions
  }

  function CertContent(x: Certificate): Bytes
    requires forall v :: v in x.version ==> Short(v)
    requires forall t :: t in Five(x) ==> Short(t.content)
    requires Short(x.key) && Short(TbsContent(x))
  {
    Encode(SEQUENCE, TbsContent(x)) + x.trailer
  }

  function EncodeCert(x: Certificate): Bytes
    requires Encodable(x)
  {
    Encode(SEQUENCE, CertContent(x))
  }

  lemma {:induction false} SkipEncoded(data: Bytes, at: nat, ts: seq<Tlv>)
    requires forall t :: t in ts ==> Short(t.content)
    requires Has(data, at, EncodeAll(ts))
    ensures Skip(data, at, |ts|) == Ok(at + |EncodeAll(ts)|)
    decreases |ts|
  {
    hide Encode, ReadTlv, Short;
    if ts != [] {
      assert ts[0] in ts;
      HasParts(data, at, EncodeTlv(ts[0]), EncodeAll(ts[1..]));
      ReadEncoded(data, at, ts[0].tag, ts[0].content);
      SkipEncoded(data, at + |EncodeTlv(ts[0])|, ts[1..]);
    }
  }

  /** The certificate starts with its two headers, then tbsCertificate's content. */
  lemma Headers(x: Certificate) returns (tbs: Element)
    requires Encodable(x)
    ensures
      var data := EncodeCert(x);
      && ReadTlv(data, 0).Ok? && ReadTlv(data, 0).value.tag == SEQUENCE
      && ReadTlv(data, ReadTlv(data, 0).value.start) == Ok(tbs) && tbs.tag == SEQUENCE
      && tbs.end == tbs.start + |TbsContent(x)| && Has(data, tbs.start, TbsContent(x))
  {
    hide Encode, ReadTlv, TbsContent, Short;
    var data := EncodeCert(x);
    assert Has(data, 0, Encode(SEQUENCE, CertContent(x)));
    ReadEncoded(data, 0, SEQUENCE, CertContent(x));
    var start := |data| - |CertContent(x)|;
    HasParts(data, start, Encode(SEQUENCE, TbsContent(x)), x.trailer);
    ReadEncoded(data, start, SEQUENCE, TbsContent(x));
    tbs := ReadTlv(data, start).value;
  }

  /** The key stands right after the version and the five elements. */
  lemma TbsParts(x: Certificate, data: Bytes, at: nat)
    requires Encodable(x) && Has(data, at, TbsContent(x))
    ensures Has(data, at, VersionPart(x))
    ensures Has(data, at + |VersionPart(x)|, EncodeAll(Five(x)))
    ensures Has(data, at + |VersionPart(x)| + |EncodeAll(Five(x))|, Encode(SEQUENCE, x.key))
    ensures at + |VersionPart(x)| + |EncodeAll(Five(x))| + |Encode(SEQUENCE, x.key)| <= at + |TbsContent(x)|
  {
    hide Encode, Has;
    var v, five, key := VersionPart(x), EncodeAll(Five(x)), Encode(SEQUENCE, x.key);
    HasParts(data, at, v + five + key, x.extensions);
    HasParts(data, at, v + five, key);
    HasParts(data, at, v, five);
  }

  /** The first of the five elements shows its tag. */
  lemma SerialTag(x: Certificate, data: Bytes, at: nat)
    requires Encodable(x) && Has(data, at, EncodeAll(Five(x)))
    ensures at < |data| && data[at] == x.serial.tag
  {
    hide ReadTlv, Encode;
    assert x.serial in Five(x) && Five(x)[0] == x.serial;
    HasParts(data, at, EncodeTlv(x.serial), EncodeAll(Five(x)[1..]));
    ReadEncoded(data, at, x.serial.tag, x.serial.content);
  }

  lemma SkipOne(data: Bytes, at: nat)
    requires ReadTlv(data, at).Ok?
    ensures Skip(data, at, 1) == Ok(ReadTlv(data, at).value.end)
  {
    hide ReadTlv;
  }

  /** Stepping over the optional version lands on the serial number. */
  lemma SkipVersion(x: Certificate, data: Bytes, at: nat)
    requires Encodable(x)
    requires Has(data, at, VersionPart(x)) && Has(data, at + |VersionPart(x)|, EncodeAll(Five(x)))
    ensures at < |data|
    ensures Skip(data, at, if data[at] == CONTEXT_0 then 1 else 0) == Ok(at + |VersionPart(x)|)
  {
    hide ReadTlv, Encode, EncodeAll, Has, TbsContent, CertContent;
    if x.version == [] {
      SerialTag(x, data, at);
    } else {
      assert x.version[0] in x.version;
      ReadEncoded(data, at, CONTEXT_0, x.version[0]);
      SkipOne(data, at);
    }
  }

  /** The walker finds exactly the encoded key of every encodable certificate. */
  lemma SpkiOfEncoded(x: Certificate)
    requires Encodable(x)
    ensures Spki(EncodeCert(x)) == Ok(Encode(SEQUENCE, x.key))
  {
    hide Encode, ReadTlv, TbsContent, CertContent, EncodeCert, EncodeAll, VersionPart, Skip, Has, Short;
    var data := EncodeCert(x);
    var tbs := Headers(x);
    TbsParts(x, data, tbs.start);
    SkipVersion(x, data, tbs.start);
    var serial := tbs.start + |VersionPart(x)|;
    SkipEncoded(data, serial, Five(x));
    var at := serial + |EncodeAll(Five(x))|;
    ReadEncoded(data, at, SEQUENCE, x.key);
    SliceOf(data, at, Encode(SEQUENCE, x.key));
  }

  /** The pinned bytes survive a renewal: only the key decides them, and different keys give different bytes. */
  lemma PinCoversExactlyTheKey(x: Certificate, y: Certificate)
    requires Encodable(x) && Encodable(y)
    ensures Spki(EncodeCert(x)) == Spki(EncodeCert(y)) <==> x.key == y.key
  {
    hide ReadTlv, Spki, EncodeCert;
    SpkiOfEncoded(x);
    SpkiOfEncoded(y);
    var a, b := Encode(SEQUENCE, x.key), Encode(SEQUENCE, y.key);
    assert Has(a, 0, a) && Has(b, 0, b);
    ReadEncoded(a, 0, SEQUENCE, x.key);
    ReadEncoded(b, 0, SEQUENCE, y.key);
    assert a[|a| - |x.key|..] == x.key && b[|b| - |y.key|..] == y.key;
  }
}

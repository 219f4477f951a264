/**
 Compact JWS (RFC 7515 section 7.1) as internal/fejws/compact.go signs and verifies it. The signature scheme and the
 text of the protected header are parameters.
 */
module CompactJws {
  import opened Prelude
  import opened Text
  import opened Base64Url
  import opened JsonTokens

  const ALGORITHM := "RS256"

  datatype JwsError =
    | InvalidCompact | BadHeader | BadAlgorithm | CriticalHeader | DuplicateHeaderKey | EmptySignature | VerifyFailed
    | NoSigner | NoPublicKey

  datatype ProtectedHeader = ProtectedHeader(alg: string, typ: string)

  /** encoding/json on header bytes: the text written for a header, and the value read from a text, if it is one. */
  datatype HeaderCodec = HeaderCodec(write: ProtectedHeader -> seq<Byte>, read: seq<Byte> -> Option<Json>)

  type Signer = string -> Option<seq<Byte>>
  type Verifier = (string, seq<Byte>) -> bool

  // ----- the protected header -----

  predicate SameName(a: string, b: string) {
    |a| == |b| && forall i :: 0 <= i < |a| ==> LowerCase(a[i]) == LowerCase(b[i])
  }

  /** A JSON value read into a string field: null leaves it alone, anything but a string is an error. */
  function IntoString(value: Json, current: string): Option<string> {
    match value
    case JString(text) => Some(text)
    case JNull => Some(current)
    case _ => None
  }

  /** Reading an object into the header struct: names match in either case, the last one wins. */
  function Unmarshal(fields: Fields, h: ProtectedHeader): Option<ProtectedHeader> {
    match fields
    case NoFields => Some(h)
    case Field(name, value, rest) =>
      if SameName(name, "alg") then
        match IntoString(value, h.alg)
        case None => None
        case Some(alg) => Unmarshal(rest, h.(alg := alg))
      else if SameName(name, "typ") then
        match IntoString(value, h.typ)
        case None => None
        case Some(typ) => Unmarshal(rest, h.(typ := typ))
      else Unmarshal(rest, h)
  }

  function FieldNamed(fields: Fields, name: string): Option<Json> {
    match fields
    case NoFields => None
    case Field(n, value, rest) => if n == name then Some(value) else FieldNamed(rest, name)
  }

  predicate CriticalNamesKnown(items: Items, names: set<string>) {
    match items
    case NoItems => true
    case Item(JString(c), tail) => (c == "alg" || c == "typ") && c in names && CriticalNamesKnown(tail, names)
    case Item(_, _) => false
  }

  predicate CriticalOk(fields: Fields, names: set<string>) {
    match FieldNamed(fields, "crit")
    case None => true
    case Some(JNull) => true
    case Some(JArray(items)) => CriticalNamesKnown(items, names)
    case Some(_) => false
  }

  function ParseHeader(raw: Option<Json>): Result<ProtectedHeader, JwsError> {
    if raw.None? then Err(BadHeader)
    else
      match ObjectKeys(Tokens(raw.value))
      case Err(InvalidHeader) => Err(BadHeader)
      case Err(DuplicateKey) => Err(DuplicateHeaderKey)
      case Ok(names) =>
        match raw.value
        case JObject(fields) =>
          (match Unmarshal(fields, ProtectedHeader("", ""))
           case None => Err(BadHeader)
           case Some(h) =>
             if h.alg != ALGORITHM then Err(BadAlgorithm)
             else if !CriticalOk(fields, names) then Err(CriticalHeader)
             else Ok(h))
        case _ => Err(BadHeader)
  }

  /**
   Which headers are accepted: objects whose names are distinct at the top level, whose algorithm reads RS256, and whose
   critical names are all among the two known ones and present.
   */
  lemma AcceptedHeaders(raw: Option<Json>)
    ensures ParseHeader(raw).Ok? <==>
            && raw.Some? && raw.value.JObject? && DistinctNames(raw.value.fields)
            && Unmarshal(raw.value.fields, ProtectedHeader("", "")).Some?
            && Unmarshal(raw.value.fields, ProtectedHeader("", "")).value.alg == ALGORITHM
            && CriticalOk(raw.value.fields, Names(raw.value.fields))
  {
    if raw.Some? && raw.value.JObject? {
      ObjectKeysOf(raw.value.fields);
    }
  }

  // ----- compact form -----

  function SigningInput(header: seq<Byte>, payload: seq<Byte>): string {
    Encode(header) + "." + Encode(payload)
  }

  function Compact(header: seq<Byte>, payload: seq<Byte>, signature: seq<Byte>): string {
    SigningInput(header, payload) + "." + Encode(signature)
  }

  function SignCompact(signer: Option<Signer>, codec: HeaderCodec, payload: seq<Byte>, header: ProtectedHeader):
    Result<string, JwsError>
  {
    if signer.None? then Err(NoSigner)
    else if header.alg != "" && header.alg != ALGORITHM then Err(BadAlgorithm)
    else
      var bytes := codec.write(header.(alg := ALGORITHM));
      match signer.value(SigningInput(bytes, payload))
      case None => Err(NoSigner)
      case Some(signature) =>
        if signature == [] then Err(EmptySignature) else Ok(Compact(bytes, payload, signature))
  }

  function VerifyCompact(pub: Option<Verifier>, codec: HeaderCodec, compact: string): Result<seq<Byte>, JwsError> {
    var parts := Split(compact, '.');
    if |parts| != 3 then Err(InvalidCompact)
    else if parts[0] == "" || parts[1] == "" || parts[2] == "" then Err(InvalidCompact)
    else
      var header, payload, signature := DecodeCanonical(parts[0]), DecodeCanonical(parts[1]), DecodeCanonical(parts[2]);
      if header.None? || payload.None? || signature.None? then Err(InvalidCompact)
      else if signature.value == [] then Err(EmptySignature)
      else
        match ParseHeader(codec.read(header.value))
        case Err(e) => Err(e)
        case Ok(_) =>
          if pub.None? then Err(NoPublicKey)
          else if !pub.value(parts[0] + "." + parts[1], signature.value) then Err(VerifyFailed)
          else Ok(payload.value)
  }

  lemma SplitThree(a: string, b: string, c: string)
    requires '.' !in a && '.' !in b && '.' !in c
    ensures Split(a + "." + b + "." + c, '.') == [a, b, c]
  {
    assert a + "." + b + "." + c == a + ['.'] + (b + ['.'] + c);
    SplitFirst(a, b + ['.'] + c, '.');
    SplitFirst(b, c, '.');
    assert [a] + ([b] + [c]) == [a, b, c];
  }

  lemma JoinThree(s: string)
    requires |Split(s, '.')| == 3
    ensures var parts := Split(s, '.'); s == parts[0] + "." + parts[1] + "." + parts[2]
  {
    JoinSplit(s, '.');
    JoinedThree(Split(s, '.'));
    hide Split, Join;
  }

  lemma JoinedThree(parts: seq<string>)
    requires |parts| == 3
    ensures Join(parts, '.') == parts[0] + "." + parts[1] + "." + parts[2]
  {
    var rest := parts[1..];
    assert rest[1..] == [parts[2]];
    assert Join(rest, '.') == parts[1] + "." + parts[2];
    hide Join;
    assert parts[0] + "." + (parts[1] + "." + parts[2]) == parts[0] + "." + parts[1] + "." + parts[2];
  }

  lemma SplitCompact(header: seq<Byte>, payload: seq<Byte>, signature: seq<Byte>)
    ensures Split(Compact(header, payload, signature), '.') == [Encode(header), Encode(payload), Encode(signature)]
  {
    EncodeAlphabet(header);
    EncodeAlphabet(payload);
    EncodeAlphabet(signature);
    SplitThree(Encode(header), Encode(payload), Encode(signature));
  }

  /** A header, a payload and a signature have one compact form, and it belongs to no other. */
  lemma CompactInjective(h1: seq<Byte>, p1: seq<Byte>, s1: seq<Byte>, h2: seq<Byte>, p2: seq<Byte>, s2: seq<Byte>)
    ensures Compact(h1, p1, s1) == Compact(h2, p2, s2) <==> h1 == h2 && p1 == p2 && s1 == s2
  {
    SplitCompact(h1, p1, s1);
    SplitCompact(h2, p2, s2);
    EncodeInjective(h1, h2);
    EncodeInjective(p1, p2);
    EncodeInjective(s1, s2);
  }

  ghost predicate Genuine(pub: Option<Verifier>, codec: HeaderCodec, header: seq<Byte>, payload: seq<Byte>,
                          signature: seq<Byte>) {
    && header != [] && payload != [] && signature != []
    && ParseHeader(codec.read(header)).Ok?
    && pub.Some? && pub.value(SigningInput(header, payload), signature)
  }

  /**
   A text is accepted with a payload exactly when it is the compact form of that payload with a header and a signature,
   none of them empty, the header acceptable and the signature verifying over the exact text before it.
   */
  lemma AcceptsExactlyTheGenuine(pub: Option<Verifier>, codec: HeaderCodec, compact: string, payload: seq<Byte>)
    ensures VerifyCompact(pub, codec, compact) == Ok(payload) <==>
            exists header, signature ::
              Genuine(pub, codec, header, payload, signature) && compact == Compact(header, payload, signature)
  {
    hide Split, DecodeCanonical, Encode, ParseHeader;
    if VerifyCompact(pub, codec, compact) == Ok(payload) {
      var parts := Split(compact, '.');
      var header, signature := DecodeCanonical(parts[0]).value, DecodeCanonical(parts[2]).value;
      DecodesExactlyTheEncoded(parts[0], header);
      DecodesExactlyTheEncoded(parts[1], payload);
      DecodesExactlyTheEncoded(parts[2], signature);
      EncodeAlphabet(header);
      EncodeAlphabet(payload);
      JoinThree(compact);
      assert Genuine(pub, codec, header, payload, signature) && compact == Compact(header, payload, signature);
    }
    if header, signature :|
        Genuine(pub, codec, header, payload, signature) && compact == Compact(header, payload, signature) {
      GenuineVerifies(pub, codec, header, payload, signature);
    }
  }

  lemma GenuineVerifies(pub: Option<Verifier>, codec: HeaderCodec, header: seq<Byte>, payload: seq<Byte>,
                        signature: seq<Byte>)
    requires Genuine(pub, codec, header, payload, signature)
    ensures VerifyCompact(pub, codec, Compact(header, payload, signature)) == Ok(payload)
  {
    hide Split, DecodeCanonical, Encode, Compact, ParseHeader;
    SplitCompact(header, payload, signature);
    DecodesExactlyTheEncoded(Encode(header), header);
    DecodesExactlyTheEncoded(Encode(payload), payload);
    DecodesExactlyTheEncoded(Encode(signature), signature);
    EncodeAlphabet(header);
    EncodeAlphabet(payload);
    EncodeAlphabet(signature);
  }

  /**
   No second spelling: two accepted texts whose parts a lenient decoder reads as the same bytes are the same text.
   */
  lemma OneTextPerToken(pub: Option<Verifier>, codec: HeaderCodec, a: string, b: string)
    requires VerifyCompact(pub, codec, a).Ok? && VerifyCompact(pub, codec, b).Ok?
    requires var p, q := Split(a, '.'), Split(b, '.');
             |p| == 3 && |q| == 3 ==> forall i :: 0 <= i < 3 ==> LenientDecode(p[i]) == LenientDecode(q[i])
    ensures a == b
  {
    hide ParseHeader, Split, LenientDecode, Encode;
    var p, q := Split(a, '.'), Split(b, '.');
    JoinThree(a);
    JoinThree(b);
    forall i | 0 <= i < 3
      ensures p[i] == q[i]
    {
      CanonicalIsLenient(p[i]);
      CanonicalIsLenient(q[i]);
      DecodesExactlyTheEncoded(p[i], DecodeCanonical(p[i]).value);
      DecodesExactlyTheEncoded(q[i], DecodeCanonical(q[i]).value);
    }
  }

  lemma CanonicalIsLenient(s: string)
    requires DecodeCanonical(s).Some?
    ensures LenientDecode(s) == DecodeCanonical(s)
  {
  }

  // ----- signing, then verifying -----

  function HeaderJson(h: ProtectedHeader): Json {
    JObject(Field("alg", JString(h.alg), if h.typ == "" then NoFields else Field("typ", JString(h.typ), NoFields)))
  }

  /** The codec reads a header back as it was written, and nothing out of nothing. */
  ghost predicate ReadsBack(codec: HeaderCodec, h: ProtectedHeader) {
    codec.read(codec.write(h)) == Some(HeaderJson(h)) && codec.read([]) == None
  }

  ghost predicate Matches(signer: Signer, pub: Verifier) {
    forall m, signature :: signer(m) == Some(signature) ==> pub(m, signature)
  }

  lemma OwnHeaderParses(h: ProtectedHeader)
    requires h.alg == ALGORITHM
    ensures ParseHeader(Some(HeaderJson(h))) == Ok(h)
  {
    AcceptedHeaders(Some(HeaderJson(h)));
    var fields := HeaderJson(h).fields;
    assert "typ"[0] == 't' && "alg"[0] == 'a' && |"crit"| != |"alg"| && |"crit"| != |"typ"|;
    assert !SameName("typ", "alg") && "typ" != "alg";
    assert Names(NoFields) == {} && DistinctNames(NoFields);
    assert Names(fields.rest) <= {"typ"} && DistinctNames(fields.rest);
    NoCritical(fields.rest);
    NoCritical(fields);
    assert Unmarshal(fields.rest, ProtectedHeader(h.alg, "")) == Some(h);
    assert Unmarshal(fields, ProtectedHeader("", "")) == Some(h);
    assert CriticalOk(fields, Names(fields));
    assert DistinctNames(fields);
    hide Unmarshal, FieldNamed, ObjectKeys, CriticalOk, Names, DistinctNames;
    ObjectKeysOf(fields);
  }

  lemma NoCritical(fields: Fields)
    requires fields.Field? ==> |fields.name| == 3 && FieldNamed(fields.rest, "crit") == None
    ensures FieldNamed(fields, "crit") == None
  {
  }

  /**
   What was signed verifies to the exact payload - unless the payload is empty, which signing takes and verifying
   refuses.
   */
  lemma SignedVerifies(signer: Signer, pub: Verifier, codec: HeaderCodec, payload: seq<Byte>, header: ProtectedHeader)
    requires Matches(signer, pub) && ReadsBack(codec, header.(alg := ALGORITHM))
    requires SignCompact(Some(signer), codec, payload, header).Ok?
    ensures VerifyCompact(Some(pub), codec, SignCompact(Some(signer), codec, payload, header).value) ==
            if payload == [] then Err(InvalidCompact) else Ok(payload)
  {
    var h := header.(alg := ALGORITHM);
    var bytes := codec.write(h);
    var signature := signer(SigningInput(bytes, payload)).value;
    OwnHeaderParses(h);
    if payload == [] {
      hide Split, DecodeCanonical, Encode, Compact, ParseHeader;
      SplitCompact(bytes, payload, signature);
      EncodeAlphabet(payload);
    } else {
      hide ParseHeader;
      GenuineVerifies(Some(pub), codec, bytes, payload, signature);
    }
  }
}

/**
 Which protected headers are accepted, said of the fields of the object and of the elements of its `crit`
 (internal/fejws/compact.go, RFC 7515 sections 4 and 4.1.11), and so which compact texts are.
 */
module HeaderEffects {
  import opened Prelude
  import opened Text
  import opened Base64Url
  import opened JsonTokens
  import opened CompactJws

  /** The fields of an object, in order. */
  function FieldList(fields: Fields): seq<(string, Json)> {
    match fields
    case NoFields => []
    case Field(name, value, rest) => [(name, value)] + FieldList(rest)
  }

  /** The elements of an array, in order. */
  function Elements(items: Items): seq<Json> {
    match items
    case NoItems => []
    case Item(head, tail) => [head] + Elements(tail)
  }

  predicate Distinct(fs: seq<(string, Json)>) {
    forall i, k :: 0 <= i < k < |fs| ==> fs[i].0 != fs[k].0
  }

  predicate IsAlg(f: (string, Json)) {
    ToLower(f.0) == "alg"
  }

  predicate IsTyp(f: (string, Json)) {
    ToLower(f.0) == "typ"
  }

  /** What is read into the header, by a name in any mixture of cases, is a string or null. */
  predicate Readable(fs: seq<(string, Json)>) {
    forall i :: 0 <= i < |fs| ==> IsAlg(fs[i]) || IsTyp(fs[i]) ==> fs[i].1.JString? || fs[i].1.JNull?
  }

  /** The last algorithm that is not null is RS256. */
  ghost predicate SaysRS256(fs: seq<(string, Json)>) {
    exists i :: IsLastAlg(fs, i) && fs[i].1 == JString("RS256")
  }

  predicate IsLastAlg(fs: seq<(string, Json)>, i: int) {
    0 <= i < |fs| && IsAlg(fs[i]) && fs[i].1 != JNull && NoAlg(fs[i + 1..])
  }

  predicate NoAlg(fs: seq<(string, Json)>) {
    forall k :: 0 <= k < |fs| && IsAlg(fs[k]) ==> fs[k].1 == JNull
  }

  ghost predicate Named(fs: seq<(string, Json)>, name: string) {
    exists i :: 0 <= i < |fs| && fs[i].0 == name
  }

  /** A critical name is a string, one of the two known, and the name of a field. */
  ghost predicate CriticalName(e: Json, fs: seq<(string, Json)>) {
    (e == JString("alg") && Named(fs, "alg")) || (e == JString("typ") && Named(fs, "typ"))
  }

  ghost predicate AllCritical(es: seq<Json>, fs: seq<(string, Json)>) {
    forall i :: 0 <= i < |es| ==> CriticalName(es[i], fs)
  }

  ghost predicate CriticalsKnown(value: Json, fs: seq<(string, Json)>) {
    || value == JNull
    || (value.JArray? && AllCritical(Elements(value.items), fs))
  }

  ghost predicate Acceptable(raw: Option<Json>) {
    && raw.Some? && raw.value.JObject?
    && var fs := FieldList(raw.value.fields);
       && Distinct(fs) && Readable(fs) && SaysRS256(fs)
       && forall i :: 0 <= i < |fs| && fs[i].0 == "crit" ==> CriticalsKnown(fs[i].1, fs)
  }

  // ----- names -----

  lemma {:induction false} NamesAre(fields: Fields, name: string)
    ensures name in Names(fields) <==> Named(FieldList(fields), name)
  {
    if fields.Field? {
      NamesAre(fields.rest, name);
      var fs, rest := FieldList(fields), FieldList(fields.rest);
      assert forall i :: 0 <= i < |rest| ==> fs[i + 1] == rest[i];
      if Named(rest, name) {
        var i :| 0 <= i < |rest| && rest[i].0 == name;
        assert fs[i + 1].0 == name;
      }
      assert fs[0].0 == fields.name;
    }
  }

  lemma {:induction false} DistinctAre(fields: Fields)
    ensures DistinctNames(fields) <==> Distinct(FieldList(fields))
  {
    if fields.Field? {
      DistinctAre(fields.rest);
      NamesAre(fields.rest, fields.name);
      var fs, rest := FieldList(fields), FieldList(fields.rest);
      assert forall i :: 0 <= i < |rest| ==> fs[i + 1] == rest[i];
      assert fs[0].0 == fields.name;
    }
  }

  // ----- reading into the header -----

  lemma SameNameLower(name: string, value: Json)
    ensures SameName(name, "alg") <==> IsAlg((name, value))
    ensures SameName(name, "typ") <==> IsTyp((name, value))
    ensures !(IsAlg((name, value)) && IsTyp((name, value)))
  {
    assert ToLower("alg") == "alg" && ToLower("typ") == "typ" && "alg"[0] != "typ"[0];
  }

  ghost predicate ReadsAs(fields: Fields, h: ProtectedHeader, read: Option<ProtectedHeader>) {
    var fs := FieldList(fields);
    && (read.Some? <==> Readable(fs))
    && (read.Some? ==> (read.value.alg == "RS256" <==> SaysRS256(fs) || (NoAlg(fs) && h.alg == "RS256")))
  }

  lemma {:induction false} UnmarshalReads(fields: Fields, h: ProtectedHeader)
    ensures ReadsAs(fields, h, Unmarshal(fields, h))
  {
    hide ReadsAs, Unmarshal, IsAlg, IsTyp;
    match fields
    case NoFields => NothingRead(h);
    case Field(name, value, rest) =>
      var next := Next(name, value, h);
      UnmarshalReads(rest, next);
      UnmarshalNext(name, value, rest, h);
      OneRead(name, value, rest, h, Unmarshal(rest, next));
  }

  /** The header after one field that can be read. */
  function Next(name: string, value: Json, h: ProtectedHeader): ProtectedHeader {
    if IsAlg((name, value)) && value.JString? then h.(alg := value.text)
    else if IsTyp((name, value)) && value.JString? then h.(typ := value.text)
    else h
  }

  lemma NothingRead(h: ProtectedHeader)
    ensures ReadsAs(NoFields, h, Unmarshal(NoFields, h))
  {
  }

  lemma OneRead(name: string, value: Json, rest: Fields, h: ProtectedHeader, read: Option<ProtectedHeader>)
    requires ReadsAs(rest, Next(name, value, h), read)
    ensures var f := (name, value);
            ReadsAs(Field(name, value, rest), h,
                    if (IsAlg(f) || IsTyp(f)) && !value.JString? && !value.JNull? then None else read)
  {
    SameNameLower(name, value);
    hide Readable, SaysRS256, NoAlg, IsAlg, IsTyp;
    OneMoreField((name, value), FieldList(rest));
    if NoAlg(FieldList(rest)) {
      NoAlgSaysNothing(FieldList(rest));
    }
  }

  lemma UnmarshalNext(name: string, value: Json, rest: Fields, h: ProtectedHeader)
    ensures var f := (name, value);
            Unmarshal(Field(name, value, rest), h) ==
            if (IsAlg(f) || IsTyp(f)) && !value.JString? && !value.JNull? then None
            else Unmarshal(rest, Next(name, value, h))
  {
    SameNameLower(name, value);
    hide SameName, IsAlg, IsTyp;
  }

  lemma NoAlgSaysNothing(fs: seq<(string, Json)>)
    requires NoAlg(fs)
    ensures !SaysRS256(fs)
  {
  }

  lemma OneMoreField(f: (string, Json), rest: seq<(string, Json)>)
    ensures var fs := [f] + rest;
            && (Readable(fs) <==> Readable(rest) && (IsAlg(f) || IsTyp(f) ==> f.1.JString? || f.1.JNull?))
            && (NoAlg(fs) <==> NoAlg(rest) && (IsAlg(f) ==> f.1 == JNull))
            && (SaysRS256(fs) <==> SaysRS256(rest) || (IsAlg(f) && f.1 == JString("RS256") && NoAlg(rest)))
  {
    hide *;
    SaysNext(f, rest);
    ReadableNext(f, rest);
    NoAlgNext(f, rest);
  }

  lemma ReadableNext(f: (string, Json), rest: seq<(string, Json)>)
    ensures Readable([f] + rest) <==>
            Readable(rest) && (IsAlg(f) || IsTyp(f) ==> f.1.JString? || f.1.JNull?)
  {
    hide IsAlg, IsTyp;
    var fs := [f] + rest;
    assert fs[0] == f && forall i :: 0 <= i < |rest| ==> fs[i + 1] == rest[i];
  }

  lemma NoAlgNext(f: (string, Json), rest: seq<(string, Json)>)
    ensures NoAlg([f] + rest) <==> NoAlg(rest) && (IsAlg(f) ==> f.1 == JNull)
  {
    hide IsAlg;
    var fs := [f] + rest;
    assert fs[0] == f && forall i :: 0 <= i < |rest| ==> fs[i + 1] == rest[i];
  }

  lemma SaysNext(f: (string, Json), rest: seq<(string, Json)>)
    ensures SaysRS256([f] + rest) <==> SaysRS256(rest) || (IsAlg(f) && f.1 == JString("RS256") && NoAlg(rest))
  {
    hide IsAlg, NoAlg;
    var fs := [f] + rest;
    assert fs[1..] == rest;
    forall i | 0 <= i < |rest|
      ensures fs[i + 1] == rest[i] && (IsLastAlg(fs, i + 1) <==> IsLastAlg(rest, i))
    {
      assert fs[i + 2..] == rest[i + 1..];
    }
    if SaysRS256(fs) {
      var i :| IsLastAlg(fs, i) && fs[i].1 == JString("RS256");
      if i > 0 {
        assert IsLastAlg(rest, i - 1);
      }
    }
    if i :| IsLastAlg(rest, i) && rest[i].1 == JString("RS256") {
      assert IsLastAlg(fs, i + 1);
    }
    if IsAlg(f) && f.1 == JString("RS256") && NoAlg(rest) {
      assert IsLastAlg(fs, 0);
    }
  }

  // ----- critical names -----

  lemma OneMoreElement(e: Json, rest: seq<Json>, fs: seq<(string, Json)>)
    ensures AllCritical([e] + rest, fs) <==> CriticalName(e, fs) && AllCritical(rest, fs)
  {
    hide CriticalName;
    var es := [e] + rest;
    assert es[0] == e && forall i :: 0 <= i < |rest| ==> es[i + 1] == rest[i];
    assert forall i :: 0 < i < |es| ==> es[i] == rest[i - 1];
  }

  lemma OneCritical(e: Json, fields: Fields)
    ensures CriticalName(e, FieldList(fields)) <==>
            e.JString? && (e.text == "alg" || e.text == "typ") && e.text in Names(fields)
  {
    hide Named, Names;
    NamesAre(fields, "alg");
    NamesAre(fields, "typ");
  }

  lemma {:induction false} CriticalItems(items: Items, fields: Fields)
    ensures CriticalNamesKnown(items, Names(fields)) <==> AllCritical(Elements(items), FieldList(fields))
  {
    if items.Item? {
      hide AllCritical, CriticalName, Names;
      CriticalItems(items.tail, fields);
      OneMoreElement(items.head, Elements(items.tail), FieldList(fields));
      OneCritical(items.head, fields);
    }
  }

  lemma {:induction false} FieldNamedIs(fields: Fields, name: string)
    requires Distinct(FieldList(fields))
    ensures FieldNamed(fields, name).None? <==> !Named(FieldList(fields), name)
    ensures forall i :: 0 <= i < |FieldList(fields)| && FieldList(fields)[i].0 == name ==>
              FieldNamed(fields, name) == Some(FieldList(fields)[i].1)
  {
    if fields.Field? {
      var fs, rest := FieldList(fields), FieldList(fields.rest);
      assert fs[0] == (fields.name, fields.value) && forall i :: 0 <= i < |rest| ==> fs[i + 1] == rest[i];
      FieldNamedIs(fields.rest, name);
      if Named(rest, name) {
        var i :| 0 <= i < |rest| && rest[i].0 == name;
        assert fs[i + 1].0 == name;
      }
    }
  }

  lemma CriticalAre(fields: Fields)
    requires Distinct(FieldList(fields))
    ensures var fs := FieldList(fields);
            CriticalOk(fields, Names(fields)) <==>
            forall i :: 0 <= i < |fs| && fs[i].0 == "crit" ==> CriticalsKnown(fs[i].1, fs)
  {
    FieldNamedIs(fields, "crit");
    forall items
      ensures CriticalNamesKnown(items, Names(fields)) <==> AllCritical(Elements(items), FieldList(fields))
    {
      CriticalItems(items, fields);
    }
    hide CriticalNamesKnown, AllCritical, Elements, FieldNamed, Distinct;
  }

  // ----- what is accepted -----

  /**
   Exactly these headers are accepted: objects with distinct names, whose `alg` and `typ` in any mixture of cases are
   strings or null, the last `alg` that is not null being RS256; and whose `crit`, if there is one, is null or an array
   of strings each of which is "alg" or "typ" and the name of a field.
   */
  lemma HeadersAccepted(raw: Option<Json>)
    ensures ParseHeader(raw).Ok? <==> Acceptable(raw)
  {
    AcceptedHeaders(raw);
    if raw.Some? && raw.value.JObject? {
      var fields := raw.value.fields;
      DistinctAre(fields);
      UnmarshalReads(fields, ProtectedHeader("", ""));
      hide *;
      if Distinct(FieldList(fields)) {
        CriticalAre(fields);
      }
    }
  }

  /**
   A text is accepted with a payload exactly when it is three base64url parts joined by dots - an acceptable header,
   that payload and a signature, none of them empty - and the key takes the signature over the text before it.
   */
  lemma TokensAccepted(pub: Option<Verifier>, codec: HeaderCodec, compact: string, payload: seq<Byte>)
    ensures VerifyCompact(pub, codec, compact) == Ok(payload) <==>
            payload != [] && exists header, signature :: Signed(pub, codec, compact, header, payload, signature)
  {
    AcceptsExactlyTheGenuine(pub, codec, compact, payload);
    hide VerifyCompact, ParseHeader, Encode, Acceptable;
    forall header: seq<Byte>, signature: seq<Byte>
      ensures Genuine(pub, codec, header, payload, signature) && compact == Compact(header, payload, signature) <==>
              payload != [] && Signed(pub, codec, compact, header, payload, signature)
    {
      HeadersAccepted(codec.read(header));
    }
  }

  ghost predicate Signed(pub: Option<Verifier>, codec: HeaderCodec, compact: string, header: seq<Byte>,
                         payload: seq<Byte>, signature: seq<Byte>) {
    && header != [] && signature != [] && Acceptable(codec.read(header))
    && compact == Encode(header) + "." + Encode(payload) + "." + Encode(signature)
    && pub.Some? && pub.value(Encode(header) + "." + Encode(payload), signature)
  }

  // ----- what is refused, and with what -----

  lemma NotAnObject(raw: Json)
    requires !raw.JObject?
    ensures ParseHeader(Some(raw)) == Err(BadHeader)
  {
  }

  /** The first thing wrong with a header is the one reported. */
  lemma HeadersRefused(raw: Option<Json>)
    ensures ParseHeader(raw).Err? ==>
              ParseHeader(raw) ==
              if raw.None? || !raw.value.JObject? then Err(BadHeader)
              else
                var fs := FieldList(raw.value.fields);
                if !Distinct(fs) then Err(DuplicateHeaderKey)
                else if !Readable(fs) then Err(BadHeader)
                else if !SaysRS256(fs) then Err(BadAlgorithm)
                else Err(CriticalHeader)
  {
    if raw.Some? && raw.value.JObject? {
      var fields := raw.value.fields;
      ObjectKeysOf(fields);
      DistinctAre(fields);
      UnmarshalReads(fields, ProtectedHeader("", ""));
      hide Unmarshal, ObjectKeys, Tokens, Distinct, Readable, SaysRS256, NoAlg, DistinctNames, CriticalOk;
    } else if raw.Some? {
      NotAnObject(raw.value);
    }
  }

  /**
   A text that is no compact form at all is malformed, and so is one with an empty part - the signature included. Any
   other is judged by its header, then for want of a key, then by its signature.
   */
  lemma VerifyAnswers(pub: Option<Verifier>, codec: HeaderCodec, header: seq<Byte>, payload: seq<Byte>,
                      signature: seq<Byte>)
    ensures VerifyCompact(pub, codec, Compact(header, payload, signature)) ==
            if header == [] || payload == [] || signature == [] then Err(InvalidCompact)
            else
              var judged := ParseHeader(codec.read(header));
              if judged.Err? then Err(judged.error)
              else if pub.None? then Err(NoPublicKey)
              else if !pub.value(Encode(header) + "." + Encode(payload), signature) then Err(VerifyFailed)
              else Ok(payload)
  {
    hide Split, DecodeCanonical, Encode, Compact, ParseHeader;
    SplitCompact(header, payload, signature);
    DecodesExactlyTheEncoded(Encode(header), header);
    DecodesExactlyTheEncoded(Encode(payload), payload);
    DecodesExactlyTheEncoded(Encode(signature), signature);
    EncodeAlphabet(header);
    EncodeAlphabet(payload);
    EncodeAlphabet(signature);
  }

  lemma OtherTextsAreMalformed(pub: Option<Verifier>, codec: HeaderCodec, compact: string)
    ensures VerifyCompact(pub, codec, compact) != Err(InvalidCompact) ==>
              exists header, payload, signature :: compact == Compact(header, payload, signature)
  {
    hide Split, DecodeCanonical, Encode, ParseHeader;
    var parts := Split(compact, '.');
    if |parts| == 3 {
      var h, p, g := DecodeCanonical(parts[0]), DecodeCanonical(parts[1]), DecodeCanonical(parts[2]);
      if h.Some? && p.Some? && g.Some? {
        DecodesExactlyTheEncoded(parts[0], h.value);
        DecodesExactlyTheEncoded(parts[1], p.value);
        DecodesExactlyTheEncoded(parts[2], g.value);
        JoinThree(compact);
        assert compact == Compact(h.value, p.value, g.value);
      }
    }
  }
}

/** When the normal form of a data URL is normal. */
module DataUrlProofs {
  import opened Common
  import opened Text
  import opened DataUrl

  // ---------- writing down and reading back ----------

  lemma {:induction false} IndexOfFirst(a: string, c: char, b: string)
    requires c !in a
    ensures IndexOf(a + [c] + b, c) == |a|
  {
    if a != "" {
      IndexOfFirst(a[1..], c, b);
      assert (a + [c] + b)[1..] == a[1..] + [c] + b;
      assert a == [a[0]] + a[1..];
    }
  }

  lemma {:induction false} IndexOfNone(a: string, c: char)
    requires c !in a
    ensures IndexOf(a, c) == |a|
  {
    if a != "" {
      IndexOfNone(a[1..], c);
      assert a == [a[0]] + a[1..];
    }
  }

  /** Parsing reads back what was rendered. */
  lemma ParseRender(u: DataUrl)
    requires WellFormed(u)
    ensures Parse(Render(u)) == Some(u)
  {
    var body := u.data + if u.hash.Some? then "#" + u.hash.value else "";
    assert Render(u) == PREFIX + (u.mediaType + [','] + body);
    TypeReadBack(u.mediaType, body);
    BodyReadBack(u, body);
  }

  lemma TypeReadBack(mediaType: string, body: string)
    requires ',' !in mediaType
    ensures Parse(PREFIX + (mediaType + [','] + body)) == ParseBody(mediaType, body)
  {
    var rest := mediaType + [','] + body;
    assert (PREFIX + rest)[..|PREFIX|] == PREFIX && (PREFIX + rest)[|PREFIX|..] == rest;
    IndexOfFirst(mediaType, ',', body);
    assert rest[..|mediaType|] == mediaType && rest[|mediaType| + 1..] == body;
  }

  lemma BodyReadBack(u: DataUrl, body: string)
    requires WellFormed(u) && body == u.data + if u.hash.Some? then "#" + u.hash.value else ""
    ensures ParseBody(u.mediaType, body) == Some(u)
  {
    if u.hash.Some? {
      assert body == u.data + ['#'] + u.hash.value;
      IndexOfFirst(u.data, '#', u.hash.value);
      assert forall i :: |u.data| < i < |body| ==> body[i] == u.hash.value[i - |u.data| - 1];
      assert body[..|u.data|] == u.data && body[|u.data| + 1..] == u.hash.value;
    } else {
      assert body == u.data;
      IndexOfNone(u.data, '#');
    }
  }

  /** What is parsed is well-formed. */
  lemma ParsedWellFormed(url: string)
    requires Parse(url).Some?
    ensures WellFormed(Parse(url).value)
  {
  }

  // ---------- attributes ----------

  /** A key or value: trimmed, and without the characters that separate. */
  ghost predicate Clean(s: string) {
    Trim(s) == s && '=' !in s && ';' !in s && ',' !in s
  }

  lemma LowerClean(s: string)
    requires Clean(s)
    ensures Clean(Lower(s))
  {
    LowerTrims(s);
  }

  lemma {:induction false} LowerTrimStart(s: string)
    ensures TrimStart(Lower(s)) == Lower(TrimStart(s))
  {
    if s != "" && IsSpace(s[0]) {
      assert Lower(s)[1..] == Lower(s[1..]);
      LowerTrimStart(s[1..]);
    }
  }

  lemma {:induction false} LowerTrimEnd(s: string)
    ensures TrimEnd(Lower(s)) == Lower(TrimEnd(s))
  {
    if s != "" && IsSpace(s[|s| - 1]) {
      assert Lower(s)[..|s| - 1] == Lower(s[..|s| - 1]);
      LowerTrimEnd(s[..|s| - 1]);
    }
  }

  lemma LowerTrims(s: string)
    ensures Trim(Lower(s)) == Lower(Trim(s))
  {
    LowerTrimStart(s);
    LowerTrimEnd(TrimStart(s));
  }

  /** The key and value read from an attribute are clean. */
  lemma PartsClean(attribute: string)
    requires ';' !in attribute && ',' !in attribute
    ensures var parts := Split(attribute, '=');
            Clean(Trim(parts[0])) && (|parts| > 1 ==> Clean(Trim(parts[1])))
  {
    SplitParts(attribute, '=');
    TrimTwice(Split(attribute, '=')[0]);
    if |Split(attribute, '=')| > 1 { TrimTwice(Split(attribute, '=')[1]); }
  }

  /** A clean key with a clean value is read back as it was written. */
  lemma WithValueStable(key: string, value: string)
    requires Clean(key) && Clean(value)
    requires key == "charset" ==> Lower(value) == value && value != DEFAULT_CHARSET
    ensures NormalAttribute(WithValue(key, value)) == WithValue(key, value)
  {
    if value == "" {
      SplitPlain(key, '=');
      assert key + "" == key;
    } else {
      SplitPlain(value, '=');
      SplitAtFirst(key, '=', value);
      assert WithValue(key, value) == key + "=" + value;
    }
  }

  lemma WithValueLacks(key: string, value: string)
    requires Clean(key) && Clean(value)
    ensures ';' !in WithValue(key, value) && ',' !in WithValue(key, value)
  {
  }

  /** A normal attribute is its own normal form, and contains no separator. */
  lemma NormalAttributeStable(attribute: string)
    requires ';' !in attribute && ',' !in attribute
    ensures var n := NormalAttribute(attribute);
            NormalAttribute(n) == n && ';' !in n && ',' !in n
  {
    PartsClean(attribute);
    var parts := Split(attribute, '=');
    var (key, value) := (Trim(parts[0]), if |parts| > 1 then Trim(parts[1]) else "");
    assert Clean("");
    LowerClean(value);
    LowerTwice(value);
    if key == "charset" && Lower(value) == DEFAULT_CHARSET {
      assert Split("", '=') == [""];
    } else {
      var v := if key == "charset" then Lower(value) else value;
      WithValueStable(key, v);
      WithValueLacks(key, v);
    }
  }

  ghost predicate Stable(attributes: seq<string>) {
    forall i :: 0 <= i < |attributes| ==>
      attributes[i] != "" && NormalAttribute(attributes[i]) == attributes[i] && ';' !in attributes[i]
        && ',' !in attributes[i]
  }

  lemma {:induction false} NormalAttributesStable(attributes: seq<string>)
    requires forall i :: 0 <= i < |attributes| ==> ';' !in attributes[i] && ',' !in attributes[i]
    ensures Stable(NormalAttributes(attributes))
  {
    if attributes != [] {
      NormalAttributesStable(attributes[1..]);
      NormalAttributeStable(attributes[0]);
    }
  }

  lemma {:induction false} StableIsNormal(attributes: seq<string>)
    requires Stable(attributes)
    ensures NormalAttributes(attributes) == attributes
  {
    if attributes != [] { StableIsNormal(attributes[1..]); }
  }

  // ---------- media types ----------

  /** What analysing a media type without commas yields. */
  ghost predicate NormalType(m: MediaType) {
    && Stable(m.attributes) && Lower(m.mime) == m.mime && ';' !in m.mime && ',' !in m.mime
  }

  lemma AnalyseNormal(mediaType: string)
    requires ',' !in mediaType
    ensures NormalType(Analyse(mediaType))
  {
    var parts := Split(mediaType, ';');
    SplitParts(mediaType, ';');
    assert forall i :: 0 <= i < |parts| ==> ',' !in parts[i] && ';' !in parts[i];
    RestNormal(parts, false);
    RestNormal(parts[..|parts| - 1], true);
  }

  lemma RestNormal(rest: seq<string>, isBase64: bool)
    requires forall i :: 0 <= i < |rest| ==> ',' !in rest[i] && ';' !in rest[i]
    ensures rest != [] ==> NormalType(MediaType(Lower(rest[0]), NormalAttributes(rest[1..]), isBase64))
  {
    if rest != [] {
      NormalAttributesStable(rest[1..]);
      LowerLacks(rest[0]);
    }
  }

  lemma LowerLacks(s: string)
    requires ',' !in s && ';' !in s
    ensures Lower(Lower(s)) == Lower(s) && ',' !in Lower(s) && ';' !in Lower(s)
  {
    LowerTwice(s);
    assert forall i :: 0 <= i < |s| ==> s[i] in s;
  }

  /** The one-word type that turns into the base64 marker when it is read again. */
  predicate BecomesMarker(m: MediaType) {
    !m.isBase64 && m.attributes == [] && m.mime == BASE64
  }

  /** A last attribute that reads as the base64 marker, though the original did not have the marker. */
  predicate GainsMarker(m: MediaType) {
    !m.isBase64 && m.attributes != [] && m.attributes[|m.attributes| - 1] == BASE64
  }

  lemma PartsSeparable(m: MediaType)
    requires NormalType(m) && Parts(m) != []
    ensures Split(Join(Parts(m), ';'), ';') == Parts(m) && ',' !in Join(Parts(m), ';')
  {
    var parts := Parts(m);
    assert forall i :: 0 <= i < |parts| ==> ';' !in parts[i] && ',' !in parts[i];
    SplitJoin(parts, ';');
    JoinLacks(parts, ';', ',');
  }

  lemma RestReadBack(m: MediaType, parts: seq<string>)
    requires NormalType(m) && parts == [m.mime] + m.attributes
    ensures Lower(parts[0]) == m.mime && NormalAttributes(parts[1..]) == m.attributes
  {
    assert parts[1..] == m.attributes;
    StableIsNormal(m.attributes);
  }

  lemma MarkedParts(m: MediaType, parts: seq<string>)
    requires NormalType(m) && parts == [m.mime] + m.attributes + [BASE64]
    ensures AnalyseParts(parts) == MediaType(m.mime, m.attributes, true)
  {
    assert parts[..|parts| - 1] == [m.mime] + m.attributes;
    RestReadBack(m, parts[..|parts| - 1]);
  }

  lemma UnmarkedParts(m: MediaType, parts: seq<string>)
    requires NormalType(m) && parts == [m.mime] + m.attributes && parts[|parts| - 1] != BASE64
    ensures AnalyseParts(parts) == MediaType(m.mime, m.attributes, false)
  {
    RestReadBack(m, parts);
  }

  /** Parts with the marker, or without it and without a last attribute that reads as it. */
  lemma OwnParts(m: MediaType)
    requires NormalType(m) && Parts(m) != [] && !BecomesMarker(m) && !GainsMarker(m)
    ensures AnalyseParts(Parts(m)) == MediaType(m.mime, m.attributes, m.isBase64)
  {
    if m.isBase64 {
      assert Parts(m) == [m.mime] + m.attributes + [BASE64];
      MarkedParts(m, Parts(m));
    } else {
      assert Parts(m) == [m.mime] + m.attributes;
      UnmarkedParts(m, Parts(m));
    }
  }

  lemma GainedMarkerParts(m: MediaType)
    requires NormalType(m) && GainsMarker(m)
    ensures AnalyseParts(Parts(m)) == MediaType(m.mime, m.attributes[..|m.attributes| - 1], true)
  {
    var front := m.attributes[..|m.attributes| - 1];
    assert NormalType(MediaType(m.mime, front, true));
    MarkerBehind(m.mime, front, m.attributes);
    MarkedParts(MediaType(m.mime, front, true), Parts(m));
  }

  lemma MarkerBehind(mime: string, front: seq<string>, attributes: seq<string>)
    requires attributes != [] && front == attributes[..|attributes| - 1] && attributes[|attributes| - 1] == BASE64
    ensures [mime] + attributes == [mime] + front + [BASE64]
  {
    assert attributes == front + [BASE64];
  }

  /** Reading back the joined parts. */
  lemma AnalyseAgain(m: MediaType)
    requires NormalType(m)
    ensures var again := Analyse(Join(Parts(m), ';'));
            if BecomesMarker(m) then again == MediaType("", [], true)
            else if GainsMarker(m) then again == MediaType(m.mime, m.attributes[..|m.attributes| - 1], true)
            else again.isBase64 == m.isBase64 && Parts(again) == Parts(m)
  {
    if Parts(m) == [] {
      assert Split("", ';') == [""];
      assert Parts(MediaType("", [], false)) == [];
    } else {
      PartsSeparable(m);
      if BecomesMarker(m) {
        assert Parts(m) == [BASE64];
      } else if GainsMarker(m) {
        GainedMarkerParts(m);
      } else {
        OwnParts(m);
      }
    }
  }

  lemma NormalWellFormed(u: DataUrl, stripHash: bool)
    requires WellFormed(u)
    ensures WellFormed(Normal(u, stripHash))
  {
    var m := Analyse(u.mediaType);
    AnalyseNormal(u.mediaType);
    if Parts(m) != [] { PartsSeparable(m); }
    TrimTwice(u.data);
  }

  lemma GainedPartsAlike(m: MediaType)
    requires GainsMarker(m)
    ensures Parts(MediaType(m.mime, m.attributes[..|m.attributes| - 1], true)) == Parts(m)
  {
    var front := m.attributes[..|m.attributes| - 1];
    assert front + [BASE64] == m.attributes;
  }

  lemma MarkerTypesDiffer(m: MediaType)
    requires BecomesMarker(m)
    ensures Join(Parts(m), ';') == BASE64 && Join(Parts(MediaType("", [], true)), ';') != BASE64
  {
    assert Parts(MediaType("", [], true)) == ["", BASE64];
    assert Parts(m) == [BASE64];
    assert Join(["", BASE64], ';')[0] == ';';
  }

  /** What a second normalisation makes of the first one's result. */
  lemma SecondNormal(u: DataUrl, stripHash: bool)
    requires WellFormed(u)
    ensures var (m, n) := (Analyse(u.mediaType), Normal(u, stripHash));
            var again := Normal(n, stripHash);
            && again.hash == n.hash
            && (again.mediaType == n.mediaType <==> !BecomesMarker(m))
            && (!BecomesMarker(m) ==> again.data == if GainsMarker(m) then Trim(u.data) else n.data)
            && (GainsMarker(m) ==> n.data == u.data)
  {
    var m := Analyse(u.mediaType);
    AnalyseNormal(u.mediaType);
    AnalyseAgain(m);
    TrimTwice(u.data);
    if BecomesMarker(m) { MarkerTypesDiffer(m); }
    if GainsMarker(m) { GainedPartsAlike(m); }
  }

  /** Exactly when normalising the parsed URL twice is normalising it once. */
  lemma NormalTwiceIff(u: DataUrl, stripHash: bool)
    requires WellFormed(u)
    ensures var m := Analyse(u.mediaType);
            Normal(Normal(u, stripHash), stripHash) == Normal(u, stripHash) <==>
            !BecomesMarker(m) && (GainsMarker(m) ==> Trim(u.data) == u.data)
  {
    SecondNormal(u, stripHash);
  }

  /** Normalising a data URL twice equals normalising it once, except in two cases: the media type is the word
      base64 in other case, which is then read as the marker; or the last attribute only becomes the marker by
      trimming, and the data it did not trim the first time has outer white space. */
  lemma NormalFormIff(url: string, stripHash: bool)
    requires Parse(url).Some?
    ensures var (u, once) := (Parse(url).value, NormalizeDataUrl(url, stripHash).value);
            var m := Analyse(u.mediaType);
            NormalizeDataUrl(once, stripHash) == Some(once) <==>
            !BecomesMarker(m) && (GainsMarker(m) ==> Trim(u.data) == u.data)
  {
    var u := Parse(url).value;
    ParsedWellFormed(url);
    var n := Normal(u, stripHash);
    NormalWellFormed(u, stripHash);
    ParseRender(n);
    NormalWellFormed(n, stripHash);
    ParseRender(Normal(n, stripHash));
    NormalTwiceIff(u, stripHash);
  }

  /** A data URL as section 3 of RFC 2397 has it, with data that needs no trimming, has a stable normal form. */
  lemma StandardDataUrlsAreStable(url: string, stripHash: bool)
    requires Parse(url).Some?
    requires var u := Parse(url).value;
             Trim(u.data) == u.data && (Analyse(u.mediaType).mime == "" || '/' in Analyse(u.mediaType).mime)
    ensures var once := NormalizeDataUrl(url, stripHash).value;
            NormalizeDataUrl(once, stripHash) == Some(once)
  {
    NormalFormIff(url, stripHash);
  }

  lemma AnalyseBase64()
    ensures Analyse("BASE64") == MediaType(BASE64, [], false) && Analyse(BASE64) == MediaType("", [], true)
  {
    SplitPlain("BASE64", ';');
    SplitPlain(BASE64, ';');
    LowerBase64();
    assert "BASE64"[0] != BASE64[0];
  }

  lemma LowerBase64()
    ensures Lower("BASE64") == BASE64
  {
  }

  /** The exception in a concrete URL. */
  lemma ShoutedBase64IsUnstable()
    ensures NormalizeDataUrl("data:BASE64,", false) == Some("data:base64,")
    ensures NormalizeDataUrl("data:base64,", false) != Some("data:base64,")
  {
    var (u, v) := (DataUrl("BASE64", "", None), DataUrl(BASE64, "", None));
    assert Render(u) == "data:BASE64," && Render(v) == "data:base64,";
    ParseRender(u);
    ParseRender(v);
    AnalyseBase64();
    MarkerTypesDiffer(Analyse("BASE64"));
    assert Normal(u, false) == v;
    NormalWellFormed(v, false);
    if Render(Normal(v, false)) == Render(v) { RenderIsInjective(Normal(v, false), v); }
  }

  /** Different well-formed URLs are written differently. */
  lemma RenderIsInjective(u: DataUrl, v: DataUrl)
    requires WellFormed(u) && WellFormed(v) && Render(u) == Render(v)
    ensures u == v
  {
    ParseRender(u);
    ParseRender(v);
  }
}

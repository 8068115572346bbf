/** What normalising makes of a data URL, part by part. */
module DataUrlLaws {
  import opened Common
  import opened Text
  import opened DataUrl
  import opened DataUrlProofs

  /** An attribute as it is written: a key, and perhaps a value. */
  datatype Attribute = Attribute(key: string, value: Option<string>)

  predicate Writable(a: Attribute) {
    '=' !in a.key && ';' !in a.key && ',' !in a.key
    && (a.value.Some? ==> '=' !in a.value.value && ';' !in a.value.value && ',' !in a.value.value)
  }

  function Written(a: Attribute): string {
    a.key + if a.value.Some? then "=" + a.value.value else ""
  }

  function AllWritten(attributes: seq<Attribute>): (r: seq<string>)
    ensures |r| == |attributes| && forall i :: 0 <= i < |r| ==> r[i] == Written(attributes[i])
  {
    seq(|attributes|, i requires 0 <= i < |attributes| => Written(attributes[i]))
  }

  /** Its normal form: trimmed, without an empty value; a charset in lower case, and nothing at all for us-ascii. */
  function Tidy(a: Attribute): string {
    var (key, value) := (Trim(a.key), if a.value.Some? then Trim(a.value.value) else "");
    if key != "charset" then (if value == "" then key else key + "=" + value)
    else if Lower(value) == "us-ascii" then ""
    else if value == "" then "charset" else "charset=" + Lower(value)
  }

  /** The normal forms that are not empty, in order. */
  function TidyAll(attributes: seq<Attribute>): seq<string> {
    if attributes == [] then [] else
      TidyAll(attributes[..|attributes| - 1])
      + if Tidy(attributes[|attributes| - 1]) == "" then [] else [Tidy(attributes[|attributes| - 1])]
  }

  lemma SplitWritten(a: Attribute)
    requires Writable(a)
    ensures Split(Written(a), '=') == [a.key] + if a.value.Some? then [a.value.value] else []
  {
    if a.value.Some? {
      SplitAtFirst(a.key, '=', a.value.value);
      SplitPlain(a.value.value, '=');
      assert Written(a) == a.key + ['='] + a.value.value;
    } else {
      SplitPlain(a.key, '=');
      assert Written(a) == a.key;
    }
  }

  lemma AttributeTidied(a: Attribute)
    requires Writable(a)
    ensures NormalAttribute(Written(a)) == Tidy(a)
  {
    SplitWritten(a);
    var value := if a.value.Some? then Trim(a.value.value) else "";
    assert Lower(value) == "" <==> value == "";
  }

  /** What stands behind a second equals sign is dropped. */
  lemma SecondEqualsCuts(a: Attribute, rest: string)
    requires Writable(a) && a.value.Some?
    ensures NormalAttribute(Written(a) + "=" + rest) == Tidy(a)
  {
    AttributeTidied(a);
    SplitWritten(a);
    SplitAtFirst(a.value.value, '=', rest);
    SplitAtFirst(a.key, '=', a.value.value + ['='] + rest);
    assert Written(a) + "=" + rest == a.key + ['='] + (a.value.value + ['='] + rest);
  }

  function NormalOf(a: string): seq<string> {
    if NormalAttribute(a) == "" then [] else [NormalAttribute(a)]
  }

  lemma NormalCons(a: string, rest: seq<string>)
    ensures NormalAttributes([a] + rest) == NormalOf(a) + NormalAttributes(rest)
  {
    assert ([a] + rest)[1..] == rest;
  }

  lemma {:induction false} NormalSnoc(attributes: seq<string>, a: string)
    ensures NormalAttributes(attributes + [a]) == NormalAttributes(attributes) + NormalOf(a)
  {
    if attributes == [] {
      NormalCons(a, []);
      assert [] + [a] == [a] + [];
    } else {
      NormalSnoc(attributes[1..], a);
      assert (attributes + [a])[1..] == attributes[1..] + [a];
      Regroup(NormalOf(attributes[0]), NormalAttributes(attributes[1..]), NormalOf(a));
    }
  }

  lemma Regroup(a: seq<string>, b: seq<string>, c: seq<string>)
    ensures a + (b + c) == a + b + c
  {
  }

  lemma {:induction false} AttributesTidied(attributes: seq<Attribute>)
    requires forall i :: 0 <= i < |attributes| ==> Writable(attributes[i])
    ensures NormalAttributes(AllWritten(attributes)) == TidyAll(attributes)
  {
    if attributes != [] {
      var (front, last) := (attributes[..|attributes| - 1], attributes[|attributes| - 1]);
      AttributesTidied(front);
      OneMoreTidied(front, last);
      assert attributes == front + [last];
    }
  }

  lemma OneMoreTidied(front: seq<Attribute>, last: Attribute)
    requires NormalAttributes(AllWritten(front)) == TidyAll(front) && Writable(last)
    ensures NormalAttributes(AllWritten(front + [last])) == TidyAll(front + [last])
  {
    AttributeTidied(last);
    WrittenSnoc(front, last);
    TidySnoc(front, last);
    NormalSnoc(AllWritten(front), Written(last));
  }

  lemma WrittenSnoc(front: seq<Attribute>, last: Attribute)
    ensures AllWritten(front + [last]) == AllWritten(front) + [Written(last)]
  {
  }

  lemma TidySnoc(front: seq<Attribute>, last: Attribute)
    ensures TidyAll(front + [last]) == TidyAll(front) + if Tidy(last) == "" then [] else [Tidy(last)]
  {
    assert (front + [last])[..|front|] == front;
  }

  // ---------- the whole URL ----------

  /** A data URL in its parts. */
  datatype UrlParts =
    UrlParts(mime: string, attributes: seq<Attribute>, marked: bool, data: string, hash: Option<string>)

  function Pieces(u: UrlParts): (r: seq<string>)
    ensures r != [] && r[0] == u.mime
  {
    [u.mime] + AllWritten(u.attributes) + if u.marked then ["base64"] else []
  }

  /** The parts can be told apart again: separators are not part of them, and without the marker the last piece does
      not look like one. */
  ghost predicate Separable(u: UrlParts) {
    && ';' !in u.mime && ',' !in u.mime && '#' !in u.data
    && (forall i :: 0 <= i < |u.attributes| ==> Writable(u.attributes[i]))
    && (!u.marked ==> Pieces(u)[|Pieces(u)| - 1] != "base64")
    && (u.hash.Some? ==> forall i :: 0 <= i < |u.hash.value| ==> !IsLineEnd(u.hash.value[i]))
  }

  function Url(mediaType: string, data: string, hash: Option<string>): string {
    "data:" + mediaType + "," + data + if hash.Some? then "#" + hash.value else ""
  }

  /** The media type: MIME type in lower case, tidy attributes, marker; the default type alone is left out. */
  function TidyMediaType(u: UrlParts): string {
    var rest := TidyAll(u.attributes) + if u.marked then ["base64"] else [];
    if rest == [] && Lower(u.mime) in {"", "text/plain"} then "" else Join([Lower(u.mime)] + rest, ';')
  }

  lemma PiecesLackSeparators(u: UrlParts)
    requires Separable(u)
    ensures forall i :: 0 <= i < |Pieces(u)| ==> ';' !in Pieces(u)[i] && ',' !in Pieces(u)[i]
  {
    var n := |u.attributes|;
    forall i | 0 <= i < |Pieces(u)| ensures ';' !in Pieces(u)[i] && ',' !in Pieces(u)[i] {
      if 1 <= i <= n {
        assert Pieces(u)[i] == Written(u.attributes[i - 1]);
        WrittenLacksSeparators(u.attributes[i - 1]);
      } else if i > n {
        assert Pieces(u)[i] == "base64";
      }
    }
  }

  lemma WrittenLacksSeparators(a: Attribute)
    requires Writable(a)
    ensures ';' !in Written(a) && ',' !in Written(a)
  {
  }

  lemma PiecesAnalysed(u: UrlParts)
    requires Separable(u)
    ensures Analyse(Join(Pieces(u), ';')) == MediaType(Lower(u.mime), TidyAll(u.attributes), u.marked)
  {
    var pieces := Pieces(u);
    PiecesLackSeparators(u);
    SplitJoin(pieces, ';');
    AttributesTidied(u.attributes);
    PartsAnalysed(u.mime, AllWritten(u.attributes), u.marked);
  }

  lemma PartsAnalysed(mime: string, texts: seq<string>, marked: bool)
    requires !marked ==> ([mime] + texts)[|texts|] != BASE64
    ensures AnalyseParts([mime] + texts + if marked then [BASE64] else [])
            == MediaType(Lower(mime), NormalAttributes(texts), marked)
  {
    var front := [mime] + texts;
    var pieces := front + if marked then [BASE64] else [];
    assert front[1..] == texts;
    assert marked ==> pieces[..|front|] == front;
    assert !marked ==> pieces == front;
  }

  lemma MediaTypeTidied(u: UrlParts)
    ensures Join(Parts(MediaType(Lower(u.mime), TidyAll(u.attributes), u.marked)), ';') == TidyMediaType(u)
  {
    var rest := TidyAll(u.attributes) + if u.marked then ["base64"] else [];
    assert rest == [] ==> Join(rest, ';') == "";
  }

  /** Normalising tidies the media type, trims base64 data and no other, and drops the hash when asked to, or when it
      is empty. */
  lemma NormalizedUrl(u: UrlParts, stripHash: bool)
    requires Separable(u)
    ensures NormalizeDataUrl(Url(Join(Pieces(u), ';'), u.data, u.hash), stripHash)
            == Some(Url(TidyMediaType(u), if u.marked then Trim(u.data) else u.data,
                        if stripHash || u.hash == Some("") then None else u.hash))
  {
    var mediaType := Join(Pieces(u), ';');
    PiecesLackSeparators(u);
    JoinLacks(Pieces(u), ';', ',');
    var d := DataUrl(mediaType, u.data, u.hash);
    ParseRender(d);
    assert Render(d) == Url(mediaType, u.data, u.hash);
    PiecesAnalysed(u);
    MediaTypeTidied(u);
    RenderedUrl(Normal(d, stripHash));
  }

  lemma RenderedUrl(d: DataUrl)
    ensures Render(d) == Url(d.mediaType, d.data, d.hash)
  {
  }

  /** Exactly the strings that are no data URL are refused. */
  lemma RefusedIff(url: string, stripHash: bool)
    ensures NormalizeDataUrl(url, stripHash).None? <==>
            forall d: DataUrl :: WellFormed(d) ==> Url(d.mediaType, d.data, d.hash) != url
  {
    if Parse(url).Some? {
      var d := Parse(url).value;
      ParsedWellFormed(url);
      ParsedIsRendered(url);
      RenderedUrl(d);
    } else {
      forall d: DataUrl | WellFormed(d) ensures Url(d.mediaType, d.data, d.hash) != url {
        ParseRender(d);
        RenderedUrl(d);
      }
    }
  }

  lemma ParsedIsRendered(url: string)
    requires Parse(url).Some?
    ensures Render(Parse(url).value) == url
  {
    var rest := url[|PREFIX|..];
    var comma := IndexOf(rest, ',');
    BodyIsRendered(rest[..comma], rest[comma + 1..]);
    assert url == PREFIX + rest && rest == rest[..comma] + "," + rest[comma + 1..];
  }

  lemma BodyIsRendered(mediaType: string, body: string)
    requires ParseBody(mediaType, body).Some?
    ensures Render(ParseBody(mediaType, body).value) == PREFIX + (mediaType + "," + body)
  {
    var mark := IndexOf(body, '#');
    if mark < |body| { assert body == body[..mark] + ("#" + body[mark + 1..]); }
    var d := ParseBody(mediaType, body).value;
    var ending := if d.hash.Some? then "#" + d.hash.value else "";
    assert d.mediaType == mediaType && d.data + ending == body;
    assert PREFIX + mediaType + "," + d.data + ending == PREFIX + (mediaType + "," + (d.data + ending));
  }
}

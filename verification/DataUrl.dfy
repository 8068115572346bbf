/** Data URLs (RFC 2397) and their normal form. */
module DataUrl {
  import opened Common
  import opened Text

  /** data:<mediaType>,<data>#<hash> */
  datatype DataUrl = DataUrl(mediaType: string, data: string, hash: Option<string>)

  const PREFIX := "data:"
  const DEFAULT_MIME_TYPE := "text/plain"
  const DEFAULT_CHARSET := "us-ascii"
  const BASE64 := "base64"

  function IndexOf(s: string, c: char): (i: nat)
    ensures i <= |s| && c !in s[..i] && (i < |s| ==> s[i] == c)
  {
    if s == "" || s[0] == c then 0 else
      var i := 1 + IndexOf(s[1..], c);
      assert s[..i] == [s[0]] + s[1..][..i - 1];
      i
  }

  predicate IsLineEnd(c: char) {
    c == '\n' || c == '\r' || c == '\U{2028}' || c == '\U{2029}'
  }

  /** The regular expression at the head of normalizeDataURL: the media type runs to the first comma, the data
      to the first '#', and the hash may not contain a line end. */
  function Parse(url: string): Option<DataUrl> {
    if !(PREFIX <= url) then None else
      var rest := url[|PREFIX|..];
      var comma := IndexOf(rest, ',');
      if comma == |rest| then None else ParseBody(rest[..comma], rest[comma + 1..])
  }

  function ParseBody(mediaType: string, body: string): Option<DataUrl> {
    var mark := IndexOf(body, '#');
    if mark == |body| then Some(DataUrl(mediaType, body, None))
    else if exists i :: mark < i < |body| && IsLineEnd(body[i]) then None
    else Some(DataUrl(mediaType, body[..mark], Some(body[mark + 1..])))
  }

  function Render(u: DataUrl): string {
    PREFIX + u.mediaType + "," + u.data + if u.hash.Some? then "#" + u.hash.value else ""
  }

  /** A data URL that Render can write down and Parse reads back. */
  ghost predicate WellFormed(u: DataUrl) {
    && ',' !in u.mediaType && '#' !in u.data
    && (u.hash.Some? ==> forall i :: 0 <= i < |u.hash.value| ==> !IsLineEnd(u.hash.value[i]))
  }

  // ---------- normalising ----------

  function WithValue(key: string, value: string): string {
    key + if value != "" then "=" + value else ""
  }

  /** One attribute: key and value trimmed, a charset in lower case, the default charset dropped. */
  function NormalAttribute(attribute: string): string {
    var parts := Split(attribute, '=');
    var (key, value) := (Trim(parts[0]), if |parts| > 1 then Trim(parts[1]) else "");
    if key == "charset" && Lower(value) == DEFAULT_CHARSET then ""
    else WithValue(key, if key == "charset" then Lower(value) else value)
  }

  /** map and filter(Boolean). */
  function NormalAttributes(attributes: seq<string>): seq<string> {
    if attributes == [] then [] else
      var a := NormalAttribute(attributes[0]);
      (if a != "" then [a] else []) + NormalAttributes(attributes[1..])
  }

  /** The parts of a media type: the MIME type in lower case, the normal attributes, and the base64 marker. */
  datatype MediaType = MediaType(mime: string, attributes: seq<string>, isBase64: bool)

  function Analyse(mediaType: string): MediaType {
    AnalyseParts(Split(mediaType, ';'))
  }

  function AnalyseParts(parts: seq<string>): MediaType
    requires parts != []
  {
    var isBase64 := parts[|parts| - 1] == BASE64;
    var rest := if isBase64 then parts[..|parts| - 1] else parts;
    if rest == [] then MediaType("", [], isBase64)
    else MediaType(Lower(rest[0]), NormalAttributes(rest[1..]), isBase64)
  }

  /** What is joined again with ";". */
  function Parts(m: MediaType): seq<string> {
    var parts := m.attributes + if m.isBase64 then [BASE64] else [];
    if |parts| > 0 || (m.mime != "" && m.mime != DEFAULT_MIME_TYPE) then [m.mime] + parts else parts
  }

  function Normal(u: DataUrl, stripHash: bool): DataUrl {
    var m := Analyse(u.mediaType);
    DataUrl(Join(Parts(m), ';'), if m.isBase64 then Trim(u.data) else u.data,
            if stripHash || u.hash == Some("") then None else u.hash)
  }

  function NormalizeDataUrl(url: string, stripHash: bool): Option<string> {
    match Parse(url)
    case None => None
    case Some(u) => Some(Render(Normal(u, stripHash)))
  }

  /** normalizeDataURL: None stands for the exception on an invalid URL. */
  method Normalize(url: string, stripHash: bool) returns (normal: Option<string>)
    ensures normal == NormalizeDataUrl(url, stripHash)
  {
    var parsed := Parse(url);
    if parsed.None? { return None; }
    var u := parsed.value;
    var mediaType := Split(u.mediaType, ';');
    var hash := if stripHash then None else u.hash;
    var isBase64 := false;
    if mediaType[|mediaType| - 1] == BASE64 {
      mediaType := mediaType[..|mediaType| - 1];
      isBase64 := true;
    }
    var mimeType := "";
    if mediaType != [] {
      mimeType := Lower(mediaType[0]);
      mediaType := mediaType[1..];
    }
    var normalized := NormalAttributes(mediaType);
    ghost var m := Analyse(u.mediaType);
    assert m == MediaType(mimeType, normalized, isBase64);
    if isBase64 {
      normalized := normalized + [BASE64];
    }
    if |normalized| > 0 || (mimeType != "" && mimeType != DEFAULT_MIME_TYPE) {
      normalized := [mimeType] + normalized;
    }
    assert normalized == Parts(m);
    var data := if isBase64 then Trim(u.data) else u.data;
    RenderedNormal(u, stripHash);
    var suffix := if hash.Some? && hash.value != "" then "#" + hash.value else "";
    return Some(PREFIX + Join(normalized, ';') + "," + data + suffix);
  }

  lemma RenderedNormal(u: DataUrl, stripHash: bool)
    ensures var m := Analyse(u.mediaType);
            var hash := if stripHash then None else u.hash;
            Render(Normal(u, stripHash))
            == PREFIX + Join(Parts(m), ';') + "," + (if m.isBase64 then Trim(u.data) else u.data)
               + if hash.Some? && hash.value != "" then "#" + hash.value else ""
  {
  }
}

/** What `uploadMedia` and the image loop of `create-post` compute from a file name and an
    uploaded media item: the declared content type, the error messages, and the markup that takes
    the place of a placeholder. */
module Media {
  import opened Wrappers
  import opened JsStrings
  import opened Paths
  import opened WpApi

  // ---------------------------------------------------------------- content type

  const KnownContentTypes: map<string, string> :=
    map[".png" := "image/png", ".gif" := "image/gif", ".webp" := "image/webp",
        ".jpg" := "image/jpeg", ".jpeg" := "image/jpeg"]

  const DefaultContentType := "image/jpeg"

  /** The content type declared for a lower-cased extension: the table above, JPEG otherwise. */
  function ContentTypeFor(ext: string): string {
    if ext in KnownContentTypes then KnownContentTypes[ext] else DefaultContentType
  }

  /** Each listed type is declared for exactly its own extension, and JPEG for every other. */
  lemma ContentTypeForCases(ext: string)
    ensures ContentTypeFor(ext) == "image/png" <==> ext == ".png"
    ensures ContentTypeFor(ext) == "image/gif" <==> ext == ".gif"
    ensures ContentTypeFor(ext) == "image/webp" <==> ext == ".webp"
    ensures ContentTypeFor(ext) == "image/jpeg" <==> ext !in {".png", ".gif", ".webp"}
  {
  }

  /** The if-chain of `uploadMedia` that overwrites the default content type, given the
      lower-cased extension of the upload's file name. */
  method SelectContentType(ext: string) returns (contentType: string)
    ensures contentType == "image/png" <==> ext == ".png"
    ensures contentType == "image/gif" <==> ext == ".gif"
    ensures contentType == "image/webp" <==> ext == ".webp"
    ensures contentType == "image/jpeg" <==> ext !in {".png", ".gif", ".webp"}
    ensures contentType == ContentTypeFor(ext)
  {
    contentType := DefaultContentType;
    if ext == ".png" {
      contentType := "image/png";
    } else if ext == ".gif" {
      contentType := "image/gif";
    } else if ext == ".webp" {
      contentType := "image/webp";
    } else if ext == ".jpg" || ext == ".jpeg" {
      contentType := "image/jpeg";
    }
  }

  /** The content type declared for a file name. */
  function ContentTypeOfFile(filename: string): string {
    ContentTypeFor(ToLower(Extname(filename)))
  }

  /** The content type `uploadMedia` declares for the file name it sends: the if-chain applied to
      the lower-cased extension. */
  method UploadContentType(filename: string) returns (contentType: string)
    ensures contentType == ContentTypeOfFile(filename)
  {
    var ext := ToLower(Extname(filename));
    contentType := SelectContentType(ext);
  }

  /** The case of the file name does not matter, only its lower-cased extension does. */
  lemma ContentTypeIgnoresCase(filename: string)
    ensures ContentTypeOfFile(ToLower(filename)) == ContentTypeOfFile(filename)
  {
    ExtnameToLower(filename);
    ToLowerIdempotent(Extname(filename));
  }

  // ---------------------------------------------------------------- file names and messages

  /** `filename || basename(filePath)`. */
  function FilenameOr(name: string, filePath: string): string {
    if name != "" then name else Basename(filePath)
  }

  /** The message of the error thrown when the file is missing. */
  function FileNotFoundMessage(filePath: string): string {
    "File not found: " + filePath
  }

  /** The message of the error `uploadMedia` throws when the multipart POST fails. */
  function UploadErrorMessage(f: RequestFailure): string {
    match f
    case HttpError(remote, transport) => "Media upload error: " + RemoteOrTransport(remote, transport)
    case OtherError(m) => m
  }

  // ---------------------------------------------------------------- markup

  const TagOpen := "<img src=\""
  const AltOpen := "\" alt=\""
  const ClassOpen := "\" class=\"wp-image-"
  const TagClose := "\" />"

  /** The inline image that replaces a placeholder; nothing in it is escaped. */
  function ImageTag(sourceUrl: string, alt: string, mediaId: int): string {
    TagOpen + sourceUrl + AltOpen + alt + ClassOpen + IntToString(mediaId) + TagClose
  }

  const ErrorOpen := "[画像アップロードエラー: "

  /** The marker that replaces a placeholder when an image fails. */
  function ErrorMarker(filename: string, message: string): string {
    ErrorOpen + filename + " - " + message + "]"
  }

  datatype ImageFields = ImageFields(sourceUrl: string, alt: string, mediaId: int)

  /** The longest prefix of `s` without `c`. */
  function PrefixBefore(s: string, c: char): (r: string)
    ensures |r| <= |s| && r == s[..|r|] && c !in r
    ensures |r| < |s| ==> s[|r|] == c
  {
    if |s| == 0 || s[0] == c then "" else [s[0]] + PrefixBefore(s[1..], c)
  }

  lemma {:induction false} PrefixBeforeStops(a: string, b: string, c: char)
    requires c !in a && |b| > 0 && b[0] == c
    ensures PrefixBefore(a + b, c) == a
  {
    if |a| > 0 {
      assert (a + b)[0] == a[0] && (a + b)[1..] == a[1..] + b;
      PrefixBeforeStops(a[1..], b, c);
    }
  }

  /** The rest of `s` after the prefix `p`, if `s` starts with it. */
  function AfterPrefix(s: string, p: string): Option<string> {
    if |p| <= |s| && s[..|p|] == p then Some(s[|p|..]) else None
  }

  lemma AfterPrefixConcat(p: string, rest: string)
    ensures AfterPrefix(p + rest, p) == Some(rest)
  {
    assert (p + rest)[..|p|] == p;
  }

  /** A quote-free field and what follows it. */
  function SplitField(s: string): (string, string) {
    var field := PrefixBefore(s, '"');
    (field, s[|field|..])
  }

  lemma SplitFieldConcat(field: string, rest: string)
    requires '"' !in field && |rest| > 0 && rest[0] == '"'
    ensures SplitField(field + rest) == (field, rest)
  {
    PrefixBeforeStops(field, rest, '"');
  }

  function ParseIdTail(s: string): Option<int> {
    match AfterPrefix(s, ClassOpen)
    case None => None
    case Some(r) =>
      var (digits, rest) := SplitField(r);
      if rest == TagClose then ParseInt(digits) else None
  }

  function ParseAltTail(s: string): Option<(string, int)> {
    match AfterPrefix(s, AltOpen)
    case None => None
    case Some(r) =>
      var (alt, rest) := SplitField(r);
      match ParseIdTail(rest)
      case None => None
      case Some(id) => Some((alt, id))
  }

  /** Reads the source URL, the alt text and the media id back out of an image tag. */
  function ParseImageTag(t: string): Option<ImageFields> {
    match AfterPrefix(t, TagOpen)
    case None => None
    case Some(r) =>
      var (url, rest) := SplitField(r);
      match ParseAltTail(rest)
      case None => None
      case Some((alt, id)) => Some(ImageFields(url, alt, id))
  }

  lemma IdTailRoundTrip(mediaId: int)
    ensures ParseIdTail(ClassOpen + (IntToString(mediaId) + TagClose)) == Some(mediaId)
  {
    IntToStringPlain(mediaId);
    ParseIntToString(mediaId);
    AfterPrefixConcat(ClassOpen, IntToString(mediaId) + TagClose);
    SplitFieldConcat(IntToString(mediaId), TagClose);
  }

  lemma AltTailRoundTrip(alt: string, mediaId: int)
    requires '"' !in alt
    ensures ParseAltTail(AltOpen + (alt + (ClassOpen + (IntToString(mediaId) + TagClose)))) == Some((alt, mediaId))
  {
    var tail := ClassOpen + (IntToString(mediaId) + TagClose);
    AfterPrefixConcat(AltOpen, alt + tail);
    SplitFieldConcat(alt, tail);
    IdTailRoundTrip(mediaId);
  }

  /** When neither the URL nor the alt text holds a quote, the tag gives back all three values,
      so distinct images get distinct tags. */
  lemma ImageTagRoundTrip(sourceUrl: string, alt: string, mediaId: int)
    requires '"' !in sourceUrl && '"' !in alt
    ensures ParseImageTag(ImageTag(sourceUrl, alt, mediaId)) == Some(ImageFields(sourceUrl, alt, mediaId))
  {
    var ds := IntToString(mediaId);
    var altTail := AltOpen + (alt + (ClassOpen + (ds + TagClose)));
    assert ImageTag(sourceUrl, alt, mediaId) == TagOpen + (sourceUrl + altTail);
    AfterPrefixConcat(TagOpen, sourceUrl + altTail);
    SplitFieldConcat(sourceUrl, altTail);
    AltTailRoundTrip(alt, mediaId);
  }

  /** A failure marker never reads as an image tag. */
  lemma ErrorMarkerIsNoImageTag(filename: string, message: string)
    ensures ParseImageTag(ErrorMarker(filename, message)).None?
  {
    var m := ErrorMarker(filename, message);
    assert m[0] == '[' && TagOpen[0] == '<';
    assert AfterPrefix(m, TagOpen).None? by {
      if |TagOpen| <= |m| { assert m[..|TagOpen|][0] != TagOpen[0]; }
    }
  }

  /** A tag built from `$`-free parts holds no `$`, so `replace` inserts it literally. */
  lemma ImageTagWithoutDollar(sourceUrl: string, alt: string, mediaId: int)
    requires '$' !in sourceUrl && '$' !in alt
    ensures '$' !in ImageTag(sourceUrl, alt, mediaId)
  {
    IntToStringPlain(mediaId);
  }

  lemma ErrorMarkerWithoutDollar(filename: string, message: string)
    requires '$' !in filename && '$' !in message
    ensures '$' !in ErrorMarker(filename, message)
  {
  }
}

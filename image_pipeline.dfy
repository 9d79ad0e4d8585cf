/** The image loop of the `create-post` tool. For each requested image, in the order given, it
    checks that the file exists, uploads it, lets the first upload claim the featured slot, looks
    up the media item's URL, and replaces the first occurrence of the image's placeholder with an
    image tag, or with an error marker when any of these steps fails. A failure is caught for that
    image alone. The file system and the site are not modelled: what they answer for each image is
    an `Outcome` fixed in advance. */
module ImagePipeline {
  import opened Wrappers
  import opened JsStrings
  import opened Paths
  import opened WpApi
  import opened Media

  datatype ImageRequest = ImageRequest(filePath: string, filename: Option<string>, placeholder: string)

  /** What the file system and the site answer for one image: whether the file exists, what the
      upload returns (the media id or the failure) and what the media lookup returns (the
      `source_url` or the failure). */
  datatype Outcome = Outcome(
    fileExists: bool,
    upload: Result<int, RequestFailure>,
    lookup: Result<string, RequestFailure>)

  /** A call the loop makes to a collaborator, tagged with the index of its image. */
  datatype Call =
    | CheckFile(image: nat, path: string)
    | UploadFile(image: nat, url: string, path: string, filename: string, contentType: string)
    | FetchMedia(image: nat, url: string)

  // ---------------------------------------------------------------- one image

  /** The name the image is shown under: its own name when truthy, else the base name of its path. */
  function EffectiveFilename(img: ImageRequest): string {
    if TruthyString(img.filename) then img.filename.value else Basename(img.filePath)
  }

  /** What `uploadMedia` returns for the image's file: it checks the file again (with the same
      answer as the loop's own check), then returns the new media id or throws the upload's
      error message. */
  function UploadResult(filePath: string, o: Outcome): Result<int, string> {
    if !o.fileExists then Err(FileNotFoundMessage(filePath))
    else
      match o.upload
      case Ok(id) => Ok(id)
      case Err(f) => Err(UploadErrorMessage(f))
  }

  /** What the media lookup returns: the item's `source_url`, or the message `makeWPRequest`
      throws. */
  function LookupResult(o: Outcome): Result<string, string> {
    match o.lookup
    case Ok(url) => Ok(url)
    case Err(f) => Err(ApiErrorMessage(f))
  }

  /** The id of the uploaded media item, when the file was there and the upload succeeded. */
  function UploadedId(o: Outcome): Option<int> {
    if o.fileExists && o.upload.Ok? then Some(o.upload.value) else None
  }

  /** The message of the error caught for the image, if one is thrown: the missing file, then the
      failed upload, then the failed lookup. */
  function Failure(img: ImageRequest, o: Outcome): Option<string> {
    match UploadResult(img.filePath, o)
    case Err(message) => Some(message)
    case Ok(_) =>
      match LookupResult(o)
      case Err(message) => Some(message)
      case Ok(_) => None
  }

  /** The text the image's placeholder gives way to. */
  function Replacement(img: ImageRequest, o: Outcome): string {
    match Failure(img, o)
    case Some(message) => ErrorMarker(EffectiveFilename(img), message)
    case None => ImageTag(o.lookup.value, EffectiveFilename(img), o.upload.value)
  }

  /** The featured slot after an upload: a falsy slot takes the new id, a truthy one is kept. */
  function Claim(slot: Option<int>, uploaded: Option<int>): Option<int> {
    if !TruthyNumber(slot) && uploaded.Some? then uploaded else slot
  }

  /** The content after the image's one replacement. */
  function StepContent(content: string, img: ImageRequest, o: Outcome): string {
    ReplaceFirst(content, img.placeholder, Replacement(img, o))
  }

  /** The multipart upload of image `k`, under `filename || basename(filePath)` and the content
      type of that name. */
  function UploadCall(siteUrl: string, k: nat, filePath: string, filename: string): Call {
    var actual := FilenameOr(filename, filePath);
    UploadFile(k, RequestUrl(siteUrl, "media"), filePath, actual, ContentTypeOfFile(actual))
  }

  /** The lookup of the media item `id` uploaded for image `k`. */
  function FetchCall(siteUrl: string, k: nat, id: int): Call {
    FetchMedia(k, RequestUrl(siteUrl, "media/" + IntToString(id)))
  }

  /** The calls made for image `k`: the existence check; the upload if the file is there; the
      media lookup if the upload returned an id. */
  function ImageCalls(siteUrl: string, k: nat, img: ImageRequest, o: Outcome): seq<Call> {
    [CheckFile(k, img.filePath)]
    + (if o.fileExists then [UploadCall(siteUrl, k, img.filePath, EffectiveFilename(img))] else [])
    + (match UploadedId(o)
       case Some(id) => [FetchCall(siteUrl, k, id)]
       case None => [])
  }

  // ---------------------------------------------------------------- the whole list

  /** The content after the images, processed first to last. */
  function ContentAfter(content: string, images: seq<ImageRequest>, outcomes: seq<Outcome>): string
    requires |images| == |outcomes|
  {
    if |images| == 0 then content
    else
      var n := |images| - 1;
      StepContent(ContentAfter(content, images[..n], outcomes[..n]), images[n], outcomes[n])
  }

  /** The featured slot after the images, processed first to last; it depends on the outcomes
      alone, not on the content or the placeholders. */
  function FeaturedAfter(slot: Option<int>, outcomes: seq<Outcome>): Option<int> {
    if |outcomes| == 0 then slot
    else
      var n := |outcomes| - 1;
      Claim(FeaturedAfter(slot, outcomes[..n]), UploadedId(outcomes[n]))
  }

  /** The calls made for the images, first to last. */
  function Trace(siteUrl: string, images: seq<ImageRequest>, outcomes: seq<Outcome>): seq<Call>
    requires |images| == |outcomes|
  {
    if |images| == 0 then []
    else
      var n := |images| - 1;
      Trace(siteUrl, images[..n], outcomes[..n]) + ImageCalls(siteUrl, n, images[n], outcomes[n])
  }

  lemma ContentAfterStep(content: string, images: seq<ImageRequest>, outcomes: seq<Outcome>, i: nat)
    requires |images| == |outcomes| && i < |images|
    ensures ContentAfter(content, images[..i + 1], outcomes[..i + 1])
         == StepContent(ContentAfter(content, images[..i], outcomes[..i]), images[i], outcomes[i])
  {
    assert images[..i + 1][..i] == images[..i];
    assert outcomes[..i + 1][..i] == outcomes[..i];
  }

  lemma FeaturedAfterStep(slot: Option<int>, outcomes: seq<Outcome>, i: nat)
    requires i < |outcomes|
    ensures FeaturedAfter(slot, outcomes[..i + 1]) == Claim(FeaturedAfter(slot, outcomes[..i]), UploadedId(outcomes[i]))
  {
    assert outcomes[..i + 1][..i] == outcomes[..i];
  }

  lemma TraceStep(siteUrl: string, images: seq<ImageRequest>, outcomes: seq<Outcome>, i: nat)
    requires |images| == |outcomes| && i < |images|
    ensures Trace(siteUrl, images[..i + 1], outcomes[..i + 1])
         == Trace(siteUrl, images[..i], outcomes[..i]) + ImageCalls(siteUrl, i, images[i], outcomes[i])
  {
    assert images[..i + 1][..i] == images[..i];
    assert outcomes[..i + 1][..i] == outcomes[..i];
  }

  /** `uploadMedia(siteUrl, auth, filePath, filename)` for image `k`. */
  method UploadMedia(siteUrl: string, k: nat, filePath: string, filename: string, outcome: Outcome)
    returns (calls: seq<Call>, result: Result<int, string>)
    ensures result == UploadResult(filePath, outcome)
    ensures calls == if outcome.fileExists then [UploadCall(siteUrl, k, filePath, filename)] else []
  {
    if !outcome.fileExists {
      return [], Err(FileNotFoundMessage(filePath));
    }
    var actualFilename := FilenameOr(filename, filePath);
    var contentType := UploadContentType(actualFilename);
    calls := [UploadFile(k, RequestUrl(siteUrl, "media"), filePath, actualFilename, contentType)];
    match outcome.upload {
      case Ok(id) =>
        result := Ok(id);
      case Err(f) =>
        result := Err(UploadErrorMessage(f));
    }
  }

  /** The `media/{mediaId}` request of image `k`. */
  method GetMediaDetails(siteUrl: string, k: nat, mediaId: int, outcome: Outcome)
    returns (calls: seq<Call>, result: Result<string, string>)
    ensures result == LookupResult(outcome)
    ensures calls == [FetchCall(siteUrl, k, mediaId)]
  {
    calls := [FetchMedia(k, RequestUrl(siteUrl, "media/" + IntToString(mediaId)))];
    match outcome.lookup {
      case Ok(url) =>
        result := Ok(url);
      case Err(f) =>
        result := Err(ApiErrorMessage(f));
    }
  }

  /** The try block for image `k`: it stops at the first failure and reports its message in
      `caught`; only a full success replaces the placeholder here. */
  method TryImage(siteUrl: string, k: nat, content: string, featured: Option<int>,
                  image: ImageRequest, outcome: Outcome)
    returns (newContent: string, newFeatured: Option<int>, calls: seq<Call>, caught: Option<string>)
    ensures caught == Failure(image, outcome)
    ensures newContent == if caught.None? then StepContent(content, image, outcome) else content
    ensures newFeatured == Claim(featured, UploadedId(outcome))
    ensures calls == ImageCalls(siteUrl, k, image, outcome)
  {
    newContent := content;
    newFeatured := featured;
    var filename := EffectiveFilename(image);
    calls := [CheckFile(k, image.filePath)];
    if !outcome.fileExists {
      caught := Some(FileNotFoundMessage(image.filePath));
      return;
    }
    var uploadCalls, uploaded := UploadMedia(siteUrl, k, image.filePath, filename, outcome);
    calls := calls + uploadCalls;
    if uploaded.Err? {
      caught := Some(uploaded.error);
      return;
    }
    var mediaId := uploaded.value;
    if !TruthyNumber(newFeatured) {
      newFeatured := Some(mediaId);
    }
    var fetchCalls, details := GetMediaDetails(siteUrl, k, mediaId, outcome);
    calls := calls + fetchCalls;
    if details.Err? {
      caught := Some(details.error);
      return;
    }
    caught := None;
    newContent := ReplaceFirst(newContent, image.placeholder, ImageTag(details.value, filename, mediaId));
  }

  /** One pass of the loop body: the try block for image `k`, then its catch, which puts the
      failure marker in place of the placeholder. */
  method ProcessImage(siteUrl: string, k: nat, content: string, featured: Option<int>,
                      image: ImageRequest, outcome: Outcome)
    returns (newContent: string, newFeatured: Option<int>, calls: seq<Call>)
    ensures newContent == StepContent(content, image, outcome)
    ensures newFeatured == Claim(featured, UploadedId(outcome))
    ensures calls == ImageCalls(siteUrl, k, image, outcome)
  {
    var caught;
    newContent, newFeatured, calls, caught := TryImage(siteUrl, k, content, featured, image, outcome);
    if caught.Some? {
      var filename := EffectiveFilename(image);
      assert Replacement(image, outcome) == ErrorMarker(filename, caught.value);
      newContent := ReplaceFirst(newContent, image.placeholder, ErrorMarker(filename, caught.value));
    }
  }

  /** The loop of the handler, with `processedContent` and `uploadedMediaId` as its state and the
      calls it makes recorded in `calls`. */
  method ProcessImages(siteUrl: string, content: string, featuredMedia: Option<int>,
                       images: seq<ImageRequest>, outcomes: seq<Outcome>)
    returns (processedContent: string, uploadedMediaId: Option<int>, calls: seq<Call>)
    requires |outcomes| == |images|
    ensures processedContent == ContentAfter(content, images, outcomes)
    ensures uploadedMediaId == FeaturedAfter(featuredMedia, outcomes)
    ensures calls == Trace(siteUrl, images, outcomes)
  {
    processedContent := content;
    uploadedMediaId := featuredMedia;
    calls := [];
    var i := 0;
    while i < |images|
      invariant 0 <= i <= |images|
      invariant processedContent == ContentAfter(content, images[..i], outcomes[..i])
      invariant uploadedMediaId == FeaturedAfter(featuredMedia, outcomes[..i])
      invariant calls == Trace(siteUrl, images[..i], outcomes[..i])
    {
      var imageCalls;
      processedContent, uploadedMediaId, imageCalls :=
        ProcessImage(siteUrl, i, processedContent, uploadedMediaId, images[i], outcomes[i]);
      calls := calls + imageCalls;
      ContentAfterStep(content, images, outcomes, i);
      FeaturedAfterStep(featuredMedia, outcomes, i);
      TraceStep(siteUrl, images, outcomes, i);
      i := i + 1;
    }
    assert images[..|images|] == images;
    assert outcomes[..|outcomes|] == outcomes;
  }

  // ---------------------------------------------------------------- the featured slot

  /** A truthy caller-supplied `featuredMedia` is never overwritten. */
  lemma {:induction false} CallerFeaturedKept(slot: Option<int>, outcomes: seq<Outcome>)
    requires TruthyNumber(slot)
    ensures FeaturedAfter(slot, outcomes) == slot
  {
    if |outcomes| > 0 {
      CallerFeaturedKept(slot, outcomes[..|outcomes| - 1]);
    }
  }

  /** When no upload succeeds, the slot ends as it started. */
  lemma {:induction false} FeaturedUnsetWithoutUpload(slot: Option<int>, outcomes: seq<Outcome>)
    requires forall k :: 0 <= k < |outcomes| ==> UploadedId(outcomes[k]).None?
    ensures FeaturedAfter(slot, outcomes) == slot
  {
    if |outcomes| > 0 {
      var n := |outcomes| - 1;
      assert forall k :: 0 <= k < n ==> outcomes[..n][k] == outcomes[k];
      FeaturedUnsetWithoutUpload(slot, outcomes[..n]);
    }
  }

  /** The slot ends truthy exactly when it started truthy or some upload returned a truthy id. */
  lemma {:induction false} FeaturedSetIff(slot: Option<int>, outcomes: seq<Outcome>)
    ensures TruthyNumber(FeaturedAfter(slot, outcomes)) <==>
      TruthyNumber(slot) || exists k :: 0 <= k < |outcomes| && TruthyNumber(UploadedId(outcomes[k]))
  {
    if |outcomes| > 0 {
      var n := |outcomes| - 1;
      var front := outcomes[..n];
      FeaturedSetIff(slot, front);
      assert forall k :: 0 <= k < n ==> front[k] == outcomes[k];
      if exists k :: 0 <= k < |outcomes| && TruthyNumber(UploadedId(outcomes[k])) {
        var k :| 0 <= k < |outcomes| && TruthyNumber(UploadedId(outcomes[k]));
        if k < n {
          assert TruthyNumber(UploadedId(front[k]));
        }
      }
    }
  }

  /** Otherwise the featured id is that of the first upload, in list order, to return a truthy
      id, whether or not that image's media lookup succeeds. */
  lemma {:induction false} FeaturedIsFirstUpload(slot: Option<int>, outcomes: seq<Outcome>, k: nat)
    requires k < |outcomes|
    requires !TruthyNumber(slot)
    requires TruthyNumber(UploadedId(outcomes[k]))
    requires forall j :: 0 <= j < k ==> !TruthyNumber(UploadedId(outcomes[j]))
    ensures FeaturedAfter(slot, outcomes) == UploadedId(outcomes[k])
  {
    var n := |outcomes| - 1;
    var front := outcomes[..n];
    assert forall j :: 0 <= j < n ==> front[j] == outcomes[j];
    if k == n {
      FeaturedSetIff(slot, front);
    } else {
      FeaturedIsFirstUpload(slot, front, k);
    }
  }

  // ---------------------------------------------------------------- one replacement per image

  /** Success: the placeholder's first occurrence becomes the image tag, which holds the media
      item's URL, the file name and the media id (see `ImageTagRoundTrip`). */
  lemma StepInsertsImageTag(content: string, img: ImageRequest, o: Outcome, i: nat)
    requires o.fileExists && o.upload.Ok? && o.lookup.Ok?
    requires IsFirstOccurrence(content, img.placeholder, i)
    requires '$' !in o.lookup.value && '$' !in EffectiveFilename(img)
    ensures StepContent(content, img, o) ==
      content[..i] + ImageTag(o.lookup.value, EffectiveFilename(img), o.upload.value)
      + content[i + |img.placeholder|..]
  {
    var tag := ImageTag(o.lookup.value, EffectiveFilename(img), o.upload.value);
    assert Replacement(img, o) == tag;
    ImageTagWithoutDollar(o.lookup.value, EffectiveFilename(img), o.upload.value);
    ReplaceFirstLiteral(content, img.placeholder, tag, i);
  }

  /** A missing file: the placeholder becomes the not-found marker. */
  lemma StepMarksMissingFile(content: string, img: ImageRequest, o: Outcome, i: nat)
    requires !o.fileExists
    requires IsFirstOccurrence(content, img.placeholder, i)
    requires '$' !in EffectiveFilename(img) && '$' !in img.filePath
    ensures StepContent(content, img, o) ==
      content[..i] + ErrorMarker(EffectiveFilename(img), FileNotFoundMessage(img.filePath))
      + content[i + |img.placeholder|..]
  {
    var marker := ErrorMarker(EffectiveFilename(img), FileNotFoundMessage(img.filePath));
    assert Replacement(img, o) == marker;
    ErrorMarkerWithoutDollar(EffectiveFilename(img), FileNotFoundMessage(img.filePath));
    ReplaceFirstLiteral(content, img.placeholder, marker, i);
  }

  /** A failed upload: the placeholder becomes a marker with the upload's message. */
  lemma StepMarksUploadError(content: string, img: ImageRequest, o: Outcome, i: nat)
    requires o.fileExists && o.upload.Err?
    requires IsFirstOccurrence(content, img.placeholder, i)
    requires '$' !in EffectiveFilename(img) && '$' !in UploadErrorMessage(o.upload.error)
    ensures StepContent(content, img, o) ==
      content[..i] + ErrorMarker(EffectiveFilename(img), UploadErrorMessage(o.upload.error))
      + content[i + |img.placeholder|..]
  {
    var marker := ErrorMarker(EffectiveFilename(img), UploadErrorMessage(o.upload.error));
    assert Replacement(img, o) == marker;
    ErrorMarkerWithoutDollar(EffectiveFilename(img), UploadErrorMessage(o.upload.error));
    ReplaceFirstLiteral(content, img.placeholder, marker, i);
  }

  /** A failed lookup: the placeholder becomes a marker with the request's message, although the
      upload has already claimed a falsy featured slot. */
  lemma StepMarksLookupError(content: string, slot: Option<int>, img: ImageRequest, o: Outcome, i: nat)
    requires o.fileExists && o.upload.Ok? && o.lookup.Err?
    requires IsFirstOccurrence(content, img.placeholder, i)
    requires '$' !in EffectiveFilename(img) && '$' !in ApiErrorMessage(o.lookup.error)
    ensures StepContent(content, img, o) ==
      content[..i] + ErrorMarker(EffectiveFilename(img), ApiErrorMessage(o.lookup.error))
      + content[i + |img.placeholder|..]
    ensures Claim(slot, UploadedId(o)) == if TruthyNumber(slot) then slot else Some(o.upload.value)
  {
    var marker := ErrorMarker(EffectiveFilename(img), ApiErrorMessage(o.lookup.error));
    assert Replacement(img, o) == marker;
    ErrorMarkerWithoutDollar(EffectiveFilename(img), ApiErrorMessage(o.lookup.error));
    ReplaceFirstLiteral(content, img.placeholder, marker, i);
  }

  /** An absent placeholder leaves the content as it is, whatever happened to the image. */
  lemma StepWithoutPlaceholder(content: string, img: ImageRequest, o: Outcome)
    requires !Contains(content, img.placeholder)
    ensures StepContent(content, img, o) == content
  {
  }

  // ---------------------------------------------------------------- order and completeness

  /** Every call is tagged `k`. */
  predicate AllFor(calls: seq<Call>, k: nat) {
    forall a :: 0 <= a < |calls| ==> calls[a].image == k
  }

  lemma AllForConcat(x: seq<Call>, y: seq<Call>, z: seq<Call>, k: nat)
    requires AllFor(x, k) && AllFor(y, k) && AllFor(z, k)
    ensures AllFor(x + y + z, k)
  {
    var t := x + y + z;
    forall a | 0 <= a < |t| ensures t[a].image == k {
      if a < |x| { assert t[a] == x[a]; }
      else if a < |x| + |y| { assert t[a] == y[a - |x|]; }
      else { assert t[a] == z[a - |x| - |y|]; }
    }
  }

  /** Every call made for image `k` is tagged `k`. */
  lemma ImageCallsTagged(siteUrl: string, k: nat, img: ImageRequest, o: Outcome)
    ensures AllFor(ImageCalls(siteUrl, k, img, o), k)
  {
    var upload: seq<Call> := if o.fileExists then [UploadCall(siteUrl, k, img.filePath, EffectiveFilename(img))] else [];
    var fetch: seq<Call> := match UploadedId(o) case Some(id) => [FetchCall(siteUrl, k, id)] case None => [];
    assert AllFor(upload, k);
    assert AllFor(fetch, k);
    AllForConcat([CheckFile(k, img.filePath)], upload, fetch, k);
  }

  /** Every call belongs to an image below `n`. */
  predicate ImagesBelow(calls: seq<Call>, n: nat) {
    forall a :: 0 <= a < |calls| ==> calls[a].image < n
  }

  /** The calls' image indexes never decrease. */
  predicate InImageOrder(calls: seq<Call>) {
    forall a, b :: 0 <= a < b < |calls| ==> calls[a].image <= calls[b].image
  }

  lemma OrderedAppend(prev: seq<Call>, last: seq<Call>, n: nat)
    requires ImagesBelow(prev, n) && InImageOrder(prev)
    requires AllFor(last, n)
    ensures ImagesBelow(prev + last, n + 1) && InImageOrder(prev + last)
  {
    var t := prev + last;
    forall a | 0 <= a < |t| ensures t[a].image <= n {
      if a < |prev| { assert t[a] == prev[a]; } else { assert t[a] == last[a - |prev|]; }
    }
    forall a, b | 0 <= a < b < |t| ensures t[a].image <= t[b].image {
      if b < |prev| {
        assert t[a] == prev[a] && t[b] == prev[b];
      } else if a < |prev| {
        assert t[a] == prev[a] && t[b] == last[b - |prev|];
      } else {
        assert t[a] == last[a - |prev|] && t[b] == last[b - |prev|];
      }
    }
  }

  /** Calls are made image by image in list order, and only for images of the list. */
  lemma {:induction false} TraceInOrder(siteUrl: string, images: seq<ImageRequest>, outcomes: seq<Outcome>)
    requires |images| == |outcomes|
    ensures ImagesBelow(Trace(siteUrl, images, outcomes), |images|)
    ensures InImageOrder(Trace(siteUrl, images, outcomes))
  {
    if |images| > 0 {
      var n := |images| - 1;
      TraceInOrder(siteUrl, images[..n], outcomes[..n]);
      ImageCallsTagged(siteUrl, n, images[n], outcomes[n]);
      OrderedAppend(Trace(siteUrl, images[..n], outcomes[..n]), ImageCalls(siteUrl, n, images[n], outcomes[n]), n);
    }
  }

  /** The calls of a trace that belong to image `k`, in trace order. */
  function CallsFor(calls: seq<Call>, k: nat): seq<Call> {
    if |calls| == 0 then []
    else CallsFor(calls[..|calls| - 1], k) + (if calls[|calls| - 1].image == k then [calls[|calls| - 1]] else [])
  }

  lemma {:induction false} CallsForAppend(a: seq<Call>, b: seq<Call>, k: nat)
    ensures CallsFor(a + b, k) == CallsFor(a, k) + CallsFor(b, k)
  {
    if |b| > 0 {
      assert (a + b)[..|a + b| - 1] == a + b[..|b| - 1];
      CallsForAppend(a, b[..|b| - 1], k);
    } else {
      assert a + b == a;
    }
  }

  lemma {:induction false} CallsForAll(calls: seq<Call>, k: nat)
    requires AllFor(calls, k)
    ensures CallsFor(calls, k) == calls
  {
    if |calls| > 0 {
      var front := calls[..|calls| - 1];
      assert AllFor(front, k) by {
        forall a | 0 <= a < |front| ensures front[a].image == k {
          assert front[a] == calls[a];
        }
      }
      CallsForAll(front, k);
      assert calls == front + [calls[|calls| - 1]];
    }
  }

  lemma {:induction false} CallsForNone(calls: seq<Call>, k: nat)
    requires forall a :: 0 <= a < |calls| ==> calls[a].image != k
    ensures CallsFor(calls, k) == []
  {
    if |calls| > 0 {
      var front := calls[..|calls| - 1];
      assert forall a :: 0 <= a < |front| ==> front[a].image != k by {
        forall a | 0 <= a < |front| ensures front[a].image != k {
          assert front[a] == calls[a];
        }
      }
      CallsForNone(front, k);
    }
  }

  lemma CallsForSplit(prev: seq<Call>, last: seq<Call>, n: nat, k: nat)
    requires ImagesBelow(prev, n)
    requires AllFor(last, n)
    ensures CallsFor(prev + last, k) == if k == n then last else CallsFor(prev, k)
  {
    CallsForAppend(prev, last, k);
    if k == n {
      CallsForAll(last, k);
      CallsForNone(prev, k);
    } else {
      CallsForNone(last, k);
    }
  }

  /** Whatever happens to the other images, image `k` gets its existence check, then an upload
      exactly when its file exists, then a media lookup exactly when its upload returned an id. */
  lemma {:induction false} TraceCallsPerImage(siteUrl: string, images: seq<ImageRequest>, outcomes: seq<Outcome>, k: nat)
    requires |images| == |outcomes| && k < |images|
    ensures CallsFor(Trace(siteUrl, images, outcomes), k) == ImageCalls(siteUrl, k, images[k], outcomes[k])
  {
    var n := |images| - 1;
    TraceInOrder(siteUrl, images[..n], outcomes[..n]);
    ImageCallsTagged(siteUrl, n, images[n], outcomes[n]);
    CallsForSplit(Trace(siteUrl, images[..n], outcomes[..n]), ImageCalls(siteUrl, n, images[n], outcomes[n]), n, k);
    if k < n {
      TraceCallsPerImage(siteUrl, images[..n], outcomes[..n], k);
    }
  }
}

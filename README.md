# WordPress posts MCP server — image pipeline and post payloads

This project models the part of the WordPress MCP server (`src/posts-only.ts`) that decides what
gets sent to WordPress when a post is created or updated:

- the `create-post` credential check;
- the image loop of `create-post`. For each image it checks that the file exists, uploads it
  through `uploadMedia`, claims the featured slot, looks up the media item, and replaces the
  image's placeholder with an `<img>` tag. On any failure it replaces the placeholder with an
  error marker instead;
- `uploadMedia`'s choice of content type from the lower-cased extension of the file name, and the
  message it throws when the upload fails;
- the `postData` body of `create-post` and the `updateData` body of `update-post`, including the
  "no update data" answer;
- the shape of every REST URL, `{siteUrl}/wp-json/wp/v2/{endpoint}`.

Network and file-system effects are parameters. Each image comes with an `Outcome` fixed in
advance: whether its file exists, what the upload returns (a media id or a failure), and what the
media lookup returns (a `source_url` or a failure). The calls the loop makes are recorded as a
trace of `Call` values. Each call is tagged with the index of its image.

Modules, one per file:

- `Wrappers`: `Option` and `Result`.
- `JsStrings`: the JavaScript semantics the handlers rely on:
  - truthiness of optional strings and numbers;
  - `String.prototype.replace` with a string pattern, which replaces the first occurrence only and
    expands `$` patterns as the GetSubstitution abstract operation of ECMA-262 defines
    them;
  - ASCII `toLowerCase`;
  - the decimal text of an integer inside a template literal.
- `Paths`: Node's POSIX `path.basename` and `path.extname`.
- `WpApi`:
  - request URLs, post statuses and JSON bodies;
  - the message `makeWPRequest` throws;
  - the credential and no-data messages.
- `Media`: the content-type table, the error messages, the image tag and the error marker.
- `ImagePipeline`: the loop.
  - Specification functions (`StepContent`, `ContentAfter`, `FeaturedAfter`, `Trace`) say what one
    image and the whole list do.
  - The imperative methods `UploadMedia`, `GetMediaDetails`, `TryImage`, `ProcessImage` and
    `ProcessImages` follow the handler's control flow and are proved against those functions.
- `PostTools`: the `create-post` and `update-post` handlers up to the request they send.

The replacement markup is passed to `replace` without escaping. So a `$&`, `$$`, `` $` `` or `$'`
inside a file name, a `source_url` or an error message is expanded by `replace`. The model keeps
that behaviour. The lemmas that state the exact markup assume the inserted parts hold no `$`.

`update-post` does not check credentials. Its model does not either.

## Model

| member | source | states |
|---|---|---|
| `WpApi.RequestUrl` | src/posts-only.ts:82 | the URL is the site URL, then `/wp-json/wp/v2/`, then the endpoint, each at its own offset |
| `WpApi.RequestUrlInjective` | src/posts-only.ts:82 | for one site, two endpoints giving the same URL are the same endpoint |
| `JsStrings.IndexOf` | src/posts-only.ts:304 | found exactly when the pattern occurs, and then at its first occurrence |
| `JsStrings.ReplaceFirst` | src/posts-only.ts:304 | an absent pattern leaves the text unchanged; otherwise only the first occurrence gives way to the substitution of the replacement |
| `JsStrings.SubstitutionWithoutDollar` | src/posts-only.ts:315 | a replacement without `$` is inserted literally |
| `JsStrings.ReplaceFirstLiteral` | src/posts-only.ts:304 | a `$`-free replacement is spliced in place of the first occurrence, and the text around it is kept |
| `JsStrings.ToLower` | src/posts-only.ts:461 | the result has the same length, and each character is lower-cased on its own |
| `JsStrings.ToLowerIdempotent` | src/posts-only.ts:461 | lower-casing twice is lower-casing once |
| `JsStrings.ParseIntToString` | src/posts-only.ts:410 | the decimal text of any integer reads back as that integer |
| `JsStrings.IntToStringPlain` | src/posts-only.ts:293 | the decimal text of an id holds neither a quote nor a `$` |
| `Paths.BasenameShape` | src/posts-only.ts:263 | the base name holds no `/`, and a path without `/` is its own base name |
| `Paths.BasenameOfJoin` | src/posts-only.ts:453 | the base name of `dir/name` is `name` |
| `Paths.ExtnameWithoutDot` | src/posts-only.ts:461 | a base name without a dot has no extension |
| `Paths.ExtnameOfName` | src/posts-only.ts:461 | the extension of `stem.ext` is `.ext` |
| `Paths.ExtnameToLower` | src/posts-only.ts:461 | the extension of the lower-cased name is the lower-cased extension |
| `Media.ContentTypeForCases` | src/posts-only.ts:462-466 | in the table, `.png`, `.gif` and `.webp` map to their own types, each exactly for that extension; every other extension, none included, maps to `image/jpeg` |
| `Media.SelectContentType` | src/posts-only.ts:462-466 | the if-chain over the JPEG default declares PNG, GIF and WebP each exactly for its own extension and JPEG for every other, which is the table's type |
| `Media.UploadContentType` | src/posts-only.ts:461-466 | the declared type is the table's type for the lower-cased extension of the file name |
| `Media.ContentTypeIgnoresCase` | src/posts-only.ts:461 | the case of the file name does not change its content type |
| `Media.ImageTagRoundTrip` | src/posts-only.ts:293 | URL, alt text and media id read back out of the image tag when neither text holds a quote |
| `Media.ErrorMarkerIsNoImageTag` | src/posts-only.ts:315 | no failure marker reads as an image tag |
| `Media.ImageTagWithoutDollar` | src/posts-only.ts:293 | a tag built from `$`-free parts holds no `$` |
| `Media.ErrorMarkerWithoutDollar` | src/posts-only.ts:315 | a marker built from `$`-free parts holds no `$` |
| `ImagePipeline.UploadMedia` | src/posts-only.ts:441-505 | a missing file throws `File not found: {filePath}` and sends nothing. Otherwise it makes one multipart POST to the media endpoint, under the given file name (the base name of the path when it is empty) and that name's content type. It returns the new id or throws `Media upload error: …` (other errors unchanged) |
| `ImagePipeline.GetMediaDetails` | src/posts-only.ts:285-289 | one GET of `media/{id}`, returning its `source_url`, or what `makeWPRequest` throws (lines 93-96): for an HTTP error `WordPress API error: …`; other errors unchanged |
| `ImagePipeline.TryImage` | src/posts-only.ts:266-309 | stops at the first of: missing file, failed upload, failed lookup. A successful upload claims a falsy featured slot, even when the lookup then fails. Only a full success replaces the placeholder with the tag |
| `ImagePipeline.ProcessImage` | src/posts-only.ts:263-316 | one pass of the loop body: exactly one replacement of the placeholder's first occurrence, by the tag or by the marker carrying the caught message |
| `ImagePipeline.ContentAfterStep` | src/posts-only.ts:262 | helper of the `ProcessImages` loop invariant: the content after `i + 1` images is one more step applied to the content after `i` |
| `ImagePipeline.FeaturedAfterStep` | src/posts-only.ts:278-281 | helper of the `ProcessImages` loop invariant: the featured slot after `i + 1` images is one more claim on the slot after `i` |
| `ImagePipeline.TraceStep` | src/posts-only.ts:262 | helper of the `ProcessImages` loop invariant: the calls after `i + 1` images are those after `i`, then image `i`'s own calls |
| `ImagePipeline.ProcessImages` | src/posts-only.ts:262-317 | the loop visits every image in order: the content it ends with, the featured id and the calls are those of the specification folds |
| `ImagePipeline.CallerFeaturedKept` | src/posts-only.ts:278 | a truthy caller-supplied `featuredMedia` is never overwritten |
| `ImagePipeline.FeaturedUnsetWithoutUpload` | src/posts-only.ts:253-281 | when no upload succeeds, the featured slot ends as the caller left it |
| `ImagePipeline.FeaturedSetIff` | src/posts-only.ts:278-281 | the slot ends truthy exactly when it started truthy or some upload returned a truthy id |
| `ImagePipeline.FeaturedIsFirstUpload` | src/posts-only.ts:278-289 | from a falsy slot, the featured id is that of the first upload in list order to return a truthy id, whatever its lookup does |
| `ImagePipeline.StepInsertsImageTag` | src/posts-only.ts:293-304 | after a full success, the first occurrence of the placeholder becomes `<img src="{source_url}" alt="{filename}" class="wp-image-{id}" />` and nothing else changes |
| `ImagePipeline.StepMarksMissingFile` | src/posts-only.ts:268-315 | a missing file turns the first occurrence into `[画像アップロードエラー: {filename} - File not found: {filePath}]` |
| `ImagePipeline.StepMarksUploadError` | src/posts-only.ts:274-315 | a failed upload turns the first occurrence into the marker with the upload's message |
| `ImagePipeline.StepMarksLookupError` | src/posts-only.ts:278-315 | a failed lookup turns the first occurrence into the marker with the request's message, yet the upload's id has claimed a falsy featured slot |
| `ImagePipeline.StepWithoutPlaceholder` | src/posts-only.ts:304 | an absent placeholder leaves the content unchanged, whatever happened to the image |
| `ImagePipeline.ImageCallsTagged` | src/posts-only.ts:264-309 | every call made for image `k` is tagged `k` |
| `ImagePipeline.TraceInOrder` | src/posts-only.ts:262-316 | calls are made image by image, in list order, and only for images of the list |
| `ImagePipeline.TraceCallsPerImage` | src/posts-only.ts:262-316 | whatever fails for other images, image `k` gets its existence check; it gets the upload exactly when its file exists and the lookup exactly when its upload returned an id |
| `PostTools.BuildCreatePayload` | src/posts-only.ts:325-334 | title, processed content and status are always present; excerpt and featured id only when truthy; categories and tags whenever given; no other key |
| `PostTools.CreatePost` | src/posts-only.ts:228-342 | missing credentials, exactly when one of site, user or password is empty, yield the credentials error before any call. Otherwise the images are processed and one POST to `posts` carries the fields. The status sent is the caller's, or `draft` when the caller left it out. `featured_media` is sent exactly when the caller's id or some upload's id is truthy |
| `PostTools.BuildUpdatePayload` | src/posts-only.ts:387-395 | exactly the truthy supplied fields, with `featuredMedia` as `featured_media`, and no other key |
| `PostTools.UpdatePost` | src/posts-only.ts:386-414 | when no field is truthy the answer is the no-data message and no request is sent; otherwise one POST to `posts/{postId}` carries the fields |
| `PostTools.PostEndpointInjective` | src/posts-only.ts:410 | distinct post ids are sent to distinct URLs |

## Left out

- HTTP traffic (axios, `makeWPRequest`, the multipart POST). Each request is a recorded `Call`, and its answer comes from the image's `Outcome`.
- File I/O. `existsSync` is the `fileExists` oracle. `uploadMedia` checks existence a second time (line 447) and gets the same answer; that second check is not a separate `Call` in the trace. `readFileSync` and the file's bytes are not modelled.
- `ImagePipeline.ImageCalls`: a file that exists but cannot be read (a directory, say, for which `readFileSync` throws at line 452) can only be given as a failed upload, `upload = Err(OtherError(msg))`. The marker then carries the right message, since that throw happens before the `try` at line 479 and is not wrapped. But the trace still records an `UploadFile` call that was never sent.
- Building the `FormData` body and the multipart headers.
- The `Authorization: Basic` header (RFC 7617, section 2). It is built with a base64 library call.
- The `console.error` logging and the `appendFileSync` debug log, including its `new Date().toISOString()` timestamp (line 299), the only place the source reads the clock. A throw from any log write inside the `try` is not modelled: one before the replace (lines 299-302) would put the error marker where the tag goes, and one after it (lines 306-307) would follow the tag with a second, error-marker replace.
- What WordPress answers to the final request, and how each handler words its reply.
- The outer `Error creating post: …` / `Error updating post: …` answers for a failure of the final request.
- The MCP server set-up, zod schemas and `main`. The schema defaults are the one exception: the site and credential defaults are taken as already applied. The status default, `draft`, is modelled by `PostTools.CreateStatus`.
- The list-posts and get-post tools, and the debug scripts under `test/debug`. They are not part of this model.
- Numbers are unbounded integers. JavaScript's NaN, fractional numbers and ids of 1e21 or more, which a template literal writes in exponent form, are not modelled.
- `JsStrings.ToLower`: lower-cases ASCII `A`-`Z` only. No non-ASCII character lower-cases to text that completes a table entry, so content types are unaffected.
- Strings are sequences of Unicode scalar values, where JavaScript strings are sequences of UTF-16 code units. Lengths and `indexOf` positions can differ for text outside the Basic Multilingual Plane, and lone surrogates cannot be written at all. On well-formed text the strings the handlers build are the same.
- `Paths.Basename`: models Node's POSIX `path` functions only; Windows paths are not modelled.
- `ImagePipeline.StepInsertsImageTag`: takes the looked-up `source_url` as a string; a media item without `source_url` (which the template would render as `undefined`) is not modelled.
- A lemma that no placeholder is left after the loop is not stated. It does not hold in general: inserted markup, or a later image's placeholder inside an earlier one, can bring a placeholder back.

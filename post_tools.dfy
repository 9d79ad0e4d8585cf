/** The `create-post` and `update-post` tool handlers: the credential check, the image loop, and
    the request bodies they fill in field by field. What the final request returns, and how the
    handlers word their replies, is not modelled. */
module PostTools {
  import opened Wrappers
  import opened JsStrings
  import opened WpApi
  import opened ImagePipeline

  // ---------------------------------------------------------------- create-post

  /** The handler's arguments after the schema has applied its defaults. `status` is `None` when
      the caller left it out; `images` is `None` when the caller sent no list. */
  datatype CreateArgs = CreateArgs(
    siteUrl: string, username: string, password: string,
    title: string, content: string, status: Option<Status>,
    excerpt: Option<string>, categories: Option<seq<int>>, tags: Option<seq<int>>,
    featuredMedia: Option<int>, images: Option<seq<ImageRequest>>)

  /** The schema's default for a status the caller left out. */
  function CreateStatus(status: Option<Status>): Status {
    if status.Some? then status.value else Draft
  }

  /** The images the loop walks over: an absent list is walked like an empty one. */
  function ImagesOf(args: CreateArgs): seq<ImageRequest> {
    if args.images.Some? then args.images.value else []
  }

  datatype CreateResult =
    | CredentialsMissing(message: string)
    | Submitted(calls: seq<Call>, request: Request)

  /** `postData`: title, the processed content and the status always; the optional fields only
      when truthy. */
  method BuildCreatePayload(title: string, processedContent: string, status: Status,
                            excerpt: Option<string>, categories: Option<seq<int>>,
                            tags: Option<seq<int>>, uploadedMediaId: Option<int>)
    returns (postData: map<string, Json>)
    ensures "title" in postData && postData["title"] == JString(title)
    ensures "content" in postData && postData["content"] == JString(processedContent)
    ensures "status" in postData && postData["status"] == JString(status.Name())
    ensures StringField(postData, "excerpt", excerpt)
    ensures ListField(postData, "categories", categories)
    ensures ListField(postData, "tags", tags)
    ensures NumberField(postData, "featured_media", uploadedMediaId)
    ensures postData.Keys <= PostKeys
  {
    postData := map["title" := JString(title), "content" := JString(processedContent), "status" := JString(status.Name())];
    if TruthyString(excerpt) {
      postData := postData["excerpt" := JString(excerpt.value)];
    }
    if categories.Some? {
      postData := postData["categories" := JNumbers(categories.value)];
    }
    if tags.Some? {
      postData := postData["tags" := JNumbers(tags.value)];
    }
    if TruthyNumber(uploadedMediaId) {
      postData := postData["featured_media" := JNumber(uploadedMediaId.value)];
    }
  }

  /** The `create-post` handler up to the request it sends: without credentials it answers with
      the credentials error and does nothing else; otherwise it runs the image loop and posts the
      title, the status, the processed content, the optional fields and the featured id. */
  method CreatePost(args: CreateArgs, outcomes: seq<Outcome>) returns (result: CreateResult)
    requires |outcomes| == |ImagesOf(args)|
    ensures result.CredentialsMissing? <==> !HasCredentials(args.siteUrl, args.username, args.password)
    ensures result.CredentialsMissing? ==> result.message == CredentialsMissingMessage
    ensures result.Submitted? ==>
      && result.calls == Trace(args.siteUrl, ImagesOf(args), outcomes)
      && result.request.verb == Post
      && result.request.url == RequestUrl(args.siteUrl, "posts")
    ensures result.Submitted? ==>
      var body := result.request.body;
      && body.Keys <= PostKeys
      && "title" in body && body["title"] == JString(args.title)
      && "status" in body && body["status"] == JString(CreateStatus(args.status).Name())
      && "content" in body && body["content"] == JString(ContentAfter(args.content, ImagesOf(args), outcomes))
      && StringField(body, "excerpt", args.excerpt)
      && ListField(body, "categories", args.categories)
      && ListField(body, "tags", args.tags)
      && NumberField(body, "featured_media", FeaturedAfter(args.featuredMedia, outcomes))
    ensures result.Submitted? && args.status.None? ==>
      "status" in result.request.body && result.request.body["status"] == JString("draft")
    ensures result.Submitted? && args.status.Some? ==>
      "status" in result.request.body && result.request.body["status"] == JString(args.status.value.Name())
    ensures result.Submitted? ==>
      ("featured_media" in result.request.body <==>
        TruthyNumber(args.featuredMedia) || exists k :: 0 <= k < |outcomes| && TruthyNumber(UploadedId(outcomes[k])))
  {
    if !HasCredentials(args.siteUrl, args.username, args.password) {
      return CredentialsMissing(CredentialsMissingMessage);
    }
    var processedContent := args.content;
    var uploadedMediaId := args.featuredMedia;
    var calls: seq<Call> := [];
    var images := ImagesOf(args);
    if |images| > 0 {
      processedContent, uploadedMediaId, calls := ProcessImages(args.siteUrl, args.content, args.featuredMedia, images, outcomes);
    }
    var postData := BuildCreatePayload(args.title, processedContent, CreateStatus(args.status),
                                       args.excerpt, args.categories, args.tags, uploadedMediaId);
    FeaturedSetIff(args.featuredMedia, outcomes);
    result := Submitted(calls, Request(Post, RequestUrl(args.siteUrl, "posts"), postData));
  }

  // ---------------------------------------------------------------- update-post

  datatype UpdateArgs = UpdateArgs(
    siteUrl: string, username: string, password: string, postId: int,
    title: Option<string>, content: Option<string>, status: Option<Status>,
    excerpt: Option<string>, categories: Option<seq<int>>, tags: Option<seq<int>>,
    featuredMedia: Option<int>)

  /** Some field of the update would be sent. */
  predicate HasUpdateField(args: UpdateArgs) {
    || TruthyString(args.title) || TruthyString(args.content) || args.status.Some?
    || TruthyString(args.excerpt) || args.categories.Some? || args.tags.Some?
    || TruthyNumber(args.featuredMedia)
  }

  datatype UpdateResult =
    | NoUpdateData(message: string)
    | Sent(request: Request)

  /** `updateData`: exactly the truthy fields among those the caller supplied. */
  method BuildUpdatePayload(args: UpdateArgs) returns (updateData: map<string, Json>)
    ensures StringField(updateData, "title", args.title)
    ensures StringField(updateData, "content", args.content)
    ensures StatusField(updateData, "status", args.status)
    ensures StringField(updateData, "excerpt", args.excerpt)
    ensures ListField(updateData, "categories", args.categories)
    ensures ListField(updateData, "tags", args.tags)
    ensures NumberField(updateData, "featured_media", args.featuredMedia)
    ensures updateData.Keys <= PostKeys
  {
    updateData := map[];
    if TruthyString(args.title) {
      updateData := updateData["title" := JString(args.title.value)];
    }
    if TruthyString(args.content) {
      updateData := updateData["content" := JString(args.content.value)];
    }
    if args.status.Some? {
      updateData := updateData["status" := JString(args.status.value.Name())];
    }
    if TruthyString(args.excerpt) {
      updateData := updateData["excerpt" := JString(args.excerpt.value)];
    }
    if args.categories.Some? {
      updateData := updateData["categories" := JNumbers(args.categories.value)];
    }
    if args.tags.Some? {
      updateData := updateData["tags" := JNumbers(args.tags.value)];
    }
    if TruthyNumber(args.featuredMedia) {
      updateData := updateData["featured_media" := JNumber(args.featuredMedia.value)];
    }
  }

  /** The endpoint of one post. */
  function PostEndpoint(postId: int): string {
    "posts/" + IntToString(postId)
  }

  /** The `update-post` handler up to the request it sends: an update with no field to send is
      answered with the no-data message and sends nothing; otherwise the fields go to the post's
      endpoint. The handler checks no credentials. */
  method UpdatePost(args: UpdateArgs) returns (result: UpdateResult)
    ensures result.NoUpdateData? <==> !HasUpdateField(args)
    ensures result.NoUpdateData? ==> result.message == NoUpdateDataMessage
    ensures result.Sent? ==>
      && result.request.verb == Post
      && result.request.url == RequestUrl(args.siteUrl, PostEndpoint(args.postId))
      && |result.request.body| > 0
      && result.request.body.Keys <= PostKeys
    ensures result.Sent? ==>
      var body := result.request.body;
      && StringField(body, "title", args.title)
      && StringField(body, "content", args.content)
      && StatusField(body, "status", args.status)
      && StringField(body, "excerpt", args.excerpt)
      && ListField(body, "categories", args.categories)
      && ListField(body, "tags", args.tags)
      && NumberField(body, "featured_media", args.featuredMedia)
  {
    var updateData := BuildUpdatePayload(args);
    if |updateData.Keys| == 0 {
      return NoUpdateData(NoUpdateDataMessage);
    }
    result := Sent(Request(Post, RequestUrl(args.siteUrl, PostEndpoint(args.postId)), updateData));
  }

  /** Distinct post ids are sent to distinct URLs. */
  lemma PostEndpointInjective(siteUrl: string, id1: int, id2: int)
    requires RequestUrl(siteUrl, PostEndpoint(id1)) == RequestUrl(siteUrl, PostEndpoint(id2))
    ensures id1 == id2
  {
    RequestUrlInjective(siteUrl, PostEndpoint(id1), PostEndpoint(id2));
    assert IntToString(id1) == PostEndpoint(id1)[|"posts/"|..];
    assert IntToString(id2) == PostEndpoint(id2)[|"posts/"|..];
    ParseIntToString(id1);
    ParseIntToString(id2);
  }
}

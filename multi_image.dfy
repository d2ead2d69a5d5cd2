/** The request check and the response rule of the `/api/generate-multi-image`
    proxy handler (server.js). The request body is the parsed JSON the handler
    receives; the upstream generation call is an input (`Upstream`). */
module MultiImage {
  import opened Options

  /** The `inline_data` object of a part; only its presence matters here. */
  datatype InlineData = InlineData(mimeType: string, data: string)

  /** One element of `contents[0].parts`. `NullPart` is a `null` element:
      reading a field of it throws a TypeError. */
  datatype Part = NullPart | Part(inlineData: Option<InlineData>, text: Option<string>)

  /** The `parts` field: absent or falsy, a truthy value that is not an array
      (it has no `filter`, so calling it throws), or an array. */
  datatype Parts = NoParts | NotAnArray | PartList(items: seq<Part>)

  datatype Content = Content(parts: Parts)

  /** `contents` is absent/falsy (`None`) or an array whose elements may be
      falsy (`None`). */
  datatype RequestBody = RequestBody(contents: Option<seq<Option<Content>>>)

  /** `part.inline_data` is truthy: an object is always truthy. */
  predicate HasImage(p: Part) {
    p.Part? && p.inlineData.Some?
  }

  /** `part.text` is truthy: a non-empty string. */
  predicate HasText(p: Part) {
    p.Part? && p.text.Some? && p.text.value != ""
  }

  /** `Array.prototype.filter`: the elements that satisfy `keep`, in order. */
  function Filter(s: seq<Part>, keep: Part -> bool): (r: seq<Part>)
    ensures |r| <= |s|
    ensures forall i :: 0 <= i < |r| ==> keep(r[i])
    ensures forall x :: x in r <==> x in s && keep(x)
    ensures |s| == 1 ==> r == (if keep(s[0]) then s else [])
  {
    if s == [] then []
    else if keep(s[0]) then [s[0]] + Filter(s[1..], keep)
    else Filter(s[1..], keep)
  }

  /** The number of positions of `s` whose element satisfies `keep`, defined
      independently of `Filter`. */
  ghost function CountWhere(s: seq<Part>, keep: Part -> bool): nat {
    |set i | 0 <= i < |s| && keep(s[i])|
  }

  /** Filtering a concatenation filters each half and keeps them in order;
      with the one-element case of `Filter`, this fixes the order and the
      multiplicity of what `filter` keeps. */
  lemma {:induction false} FilterAppend(s: seq<Part>, t: seq<Part>, keep: Part -> bool)
    ensures Filter(s + t, keep) == Filter(s, keep) + Filter(t, keep)
  {
    if s != [] {
      assert (s + t)[1..] == s[1..] + t;
      FilterAppend(s[1..], t, keep);
    } else {
      assert s + t == t;
    }
  }

  /** Appending one element adds one matching position exactly when it
      matches. */
  lemma CountWhereSnoc(s: seq<Part>, x: Part, keep: Part -> bool)
    ensures CountWhere(s + [x], keep) == CountWhere(s, keep) + (if keep(x) then 1 else 0)
  {
    var before := set i | 0 <= i < |s| && keep(s[i]);
    var after := set i | 0 <= i < |s + [x]| && keep((s + [x])[i]);
    if keep(x) {
      assert after == before + {|s|};
    } else {
      assert after == before;
    }
  }

  /** The array `filter` returns has one element per matching position. */
  lemma {:induction false} FilterCount(s: seq<Part>, keep: Part -> bool)
    ensures |Filter(s, keep)| == CountWhere(s, keep)
    decreases |s|
  {
    if s != [] {
      var n := |s| - 1;
      var init, last := s[..n], s[n];
      assert s == init + [last];
      FilterCount(init, keep);
      FilterAppend(init, [last], keep);
      CountWhereSnoc(init, last, keep);
    }
  }

  const InvalidFormat := "Invalid request format"
  const ImageRequired := "At least one image is required"
  const TextRequired := "Text prompt is required"
  const TooManyImages := "Maximum 3 images allowed"
  const MaxImages := 3

  /** The outcome of the checks: go ahead with the image and text parts,
      answer with a 400 error, or a TypeError thrown while checking. */
  datatype Verdict =
    | Accept(imageParts: seq<Part>, textParts: seq<Part>)
    | Reject(status: nat, message: string)
    | Fault

  /** `req.body.contents[0].parts`, or `NoParts` when any link of that chain
      is falsy. */
  function PartsOf(body: Option<RequestBody>): (p: Parts)
    ensures p != NoParts ==>
      && body.Some? && body.value.contents.Some?
      && |body.value.contents.value| > 0
      && body.value.contents.value[0].Some?
      && p == body.value.contents.value[0].value.parts
    ensures (body.Some? && body.value.contents.Some? && |body.value.contents.value| > 0
             && body.value.contents.value[0].Some?) ==> p == body.value.contents.value[0].value.parts
  {
    if body.None? || body.value.contents.None? then NoParts
    else if |body.value.contents.value| == 0 || body.value.contents.value[0].None? then NoParts
    else body.value.contents.value[0].value.parts
  }

  /** The checks on a parts array, in the order the handler makes them. */
  function ValidateParts(parts: seq<Part>): (v: Verdict)
    ensures v.Accept? ==> 1 <= |v.imageParts| <= MaxImages && |v.textParts| >= 1
    ensures v.Accept? ==> forall p :: p in v.imageParts <==> p in parts && HasImage(p)
    ensures v.Accept? ==> forall p :: p in v.textParts <==> p in parts && HasText(p)
  {
    if NullPart in parts then Fault
    else
      var images := Filter(parts, HasImage);
      var texts := Filter(parts, HasText);
      if |images| == 0 then Reject(400, ImageRequired)
      else if |texts| == 0 then Reject(400, TextRequired)
      else if |images| > MaxImages then Reject(400, TooManyImages)
      else Accept(images, texts)
  }

  /** The request check of the handler. */
  function Validate(body: Option<RequestBody>): (v: Verdict)
    ensures PartsOf(body) == NoParts ==> v == Reject(400, InvalidFormat)
    ensures PartsOf(body) == NotAnArray ==> v == Fault
  {
    match PartsOf(body)
    case NoParts => Reject(400, InvalidFormat)
    case NotAnArray => Fault
    case PartList(parts) => ValidateParts(parts)
  }

  /** Each rejection, stated with the independent counts, and which check
      wins when several apply. */
  lemma ValidatePartsOrder(parts: seq<Part>)
    requires NullPart !in parts
    ensures CountWhere(parts, HasImage) == 0 ==>
      ValidateParts(parts) == Reject(400, ImageRequired)
    ensures CountWhere(parts, HasImage) >= 1 && CountWhere(parts, HasText) == 0 ==>
      ValidateParts(parts) == Reject(400, TextRequired)
    ensures CountWhere(parts, HasImage) > MaxImages && CountWhere(parts, HasText) >= 1 ==>
      ValidateParts(parts) == Reject(400, TooManyImages)
  {
    FilterCount(parts, HasImage);
    FilterCount(parts, HasText);
  }

  /** A request is accepted exactly when its parts form an array without null
      elements holding one to three image parts and at least one text part. */
  lemma AcceptIff(body: Option<RequestBody>)
    ensures Validate(body).Accept? <==>
      && PartsOf(body).PartList?
      && NullPart !in PartsOf(body).items
      && 1 <= CountWhere(PartsOf(body).items, HasImage) <= MaxImages
      && CountWhere(PartsOf(body).items, HasText) >= 1
  {
    if PartsOf(body).PartList? {
      FilterCount(PartsOf(body).items, HasImage);
      FilterCount(PartsOf(body).items, HasText);
    }
  }

  /** A part carrying both `inline_data` and `text` counts in both tallies:
      it is kept by both filters, removing it lowers both counts by one, and
      on its own it makes an acceptable request. */
  lemma {:induction false} PartCountsTwice(parts: seq<Part>, k: nat)
    requires k < |parts| && HasImage(parts[k]) && HasText(parts[k])
    ensures parts[k] in Filter(parts, HasImage) && parts[k] in Filter(parts, HasText)
    ensures CountWhere(parts[..k] + parts[k + 1..], HasImage) == CountWhere(parts, HasImage) - 1
    ensures CountWhere(parts[..k] + parts[k + 1..], HasText) == CountWhere(parts, HasText) - 1
    ensures ValidateParts([parts[k]]).Accept?
  {
    var before, p, after := parts[..k], parts[k], parts[k + 1..];
    assert parts == before + [p] + after;
    FilterAppend(before + [p], after, HasImage);
    FilterAppend(before, [p], HasImage);
    FilterAppend(before, after, HasImage);
    FilterAppend(before + [p], after, HasText);
    FilterAppend(before, [p], HasText);
    FilterAppend(before, after, HasText);
    FilterCount(parts, HasImage);
    FilterCount(parts, HasText);
    FilterCount(before + after, HasImage);
    FilterCount(before + after, HasText);
  }

  /** The result of the upstream generation call: it threw (network failure
      or a body that is not JSON), or it answered with a status and a body. */
  datatype Upstream = UpstreamThrew | UpstreamReply(status: nat, data: string)

  datatype Payload = Relayed(data: string) | ErrorBody(error: string)

  datatype HttpResponse = HttpResponse(status: nat, payload: Payload)

  /** `response.ok` of the Fetch API. */
  predicate IsOk(status: nat) {
    200 <= status <= 299
  }

  const InternalError := "Internal server error"

  /** What the handler answers; `upstream` is only consulted when the
      request passed the checks. */
  function Handle(body: Option<RequestBody>, upstream: Upstream): (res: HttpResponse)
    ensures Validate(body).Reject? ==>
      res == HttpResponse(400, ErrorBody(Validate(body).message))
    ensures Validate(body).Fault? || (Validate(body).Accept? && upstream.UpstreamThrew?) ==>
      res == HttpResponse(500, ErrorBody(InternalError))
    ensures Validate(body).Accept? && upstream.UpstreamReply? && !IsOk(upstream.status) ==>
      res == HttpResponse(upstream.status, Relayed(upstream.data))
    ensures Validate(body).Accept? && upstream.UpstreamReply? && IsOk(upstream.status) ==>
      res == HttpResponse(200, Relayed(upstream.data))
  {
    match Validate(body)
    case Reject(status, message) => HttpResponse(status, ErrorBody(message))
    case Fault => HttpResponse(500, ErrorBody(InternalError))
    case Accept(_, _) =>
      match upstream
      case UpstreamThrew => HttpResponse(500, ErrorBody(InternalError))
      case UpstreamReply(status, data) =>
        if IsOk(status) then HttpResponse(200, Relayed(data))
        else HttpResponse(status, Relayed(data))
  }

  /** A request that fails the checks never reaches upstream: the answer does
      not depend on what upstream would have said. */
  lemma RejectedIgnoresUpstream(body: Option<RequestBody>, u1: Upstream, u2: Upstream)
    requires !Validate(body).Accept?
    ensures Handle(body, u1) == Handle(body, u2)
  {
  }

  /** Every answer is 200, 400, 500 or the upstream's own failing status; an
      error body is sent only with 400 or 500. */
  lemma HandleStatuses(body: Option<RequestBody>, upstream: Upstream)
    ensures var res := Handle(body, upstream);
      || res.status == 200
      || res.status == 400
      || res.status == 500
      || (upstream.UpstreamReply? && res.status == upstream.status && !IsOk(res.status))
    ensures Handle(body, upstream).payload.ErrorBody? ==> Handle(body, upstream).status in {400, 500}
  {
  }
}

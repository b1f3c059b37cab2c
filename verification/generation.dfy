/** Submitting the form: validation, the prompt sent to the service and
    the one recorded in history, the image count, the history entries made
    from the service's reply, and the effect that keeps the model and
    count choices consistent with the staged images. */
module Generation {
  import opened Optional
  import opened Types
  import opened Text
  import opened Seqs
  import History

  /** Joins a text prompt and its style label (", in the style of "). */
  const StyleJoiner: string := ", в стиле "

  /** The history prompt of an image request whose image prompt is blank
      ("image variation"). */
  const ImagePlaceholder: string := "Вариация изображения"

  /** Shown when there is nothing to send ("please enter a description"). */
  const EmptyPromptError: string := "Пожалуйста, введите описание."

  /** Shown when the service throws something that is not an Error
      ("an unknown error occurred"). */
  const UnknownError: string := "Произошла неизвестная ошибка."

  /** The label of each style option. */
  function StyleLabel(s: Style): (text: string)
    ensures |text| > 0
  {
    match s
    case NoStyle => "Без стиля"
    case Photorealistic => "Фотореализм"
    case Anime => "Аниме"
    case Impressionism => "Импрессионизм"
    case Cyberpunk => "Киберпанк"
  }

  /** The form state read when the generate button is pressed. */
  datatype Form = Form(
    prompt: string,
    imagePrompt: string,
    model: Model,
    aspectRatio: AspectRatio,
    style: Style,
    numberOfImages: int,
    seed: Option<int>,
    images: seq<UploadedImage>)

  /** The arguments of the `generateImage` call. */
  datatype Request = Request(
    prompt: string,
    model: Model,
    aspectRatio: AspectRatio,
    imageCount: int,
    images: seq<UploadedImage>,
    seed: Option<int>)

  /** A submission is refused, or yields a request and the prompt the
      resulting history entries are saved under. */
  datatype Submission =
    | Rejected(error: string)
    | Accepted(request: Request, historyPrompt: string)

  /** `finalApiPrompt`. With images staged it is the image prompt, even an
      empty one; otherwise the style label, which is never empty, is
      appended unless no style is chosen. */
  function ApiPrompt(f: Form): string {
    var styleText := StyleLabel(f.style);
    if |f.images| > 0 then f.imagePrompt
    else if f.style != NoStyle && |styleText| > 0 then f.prompt + StyleJoiner + styleText
    else f.prompt
  }

  /** `historyPrompt`: the placeholder replaces a blank image prompt, and a
      text-only request is recorded without its style suffix. */
  function HistoryPrompt(f: Form): string {
    if |f.images| > 0 then (if Trim(f.imagePrompt) != [] then f.imagePrompt else ImagePlaceholder)
    else f.prompt
  }

  /** `imageCount`. */
  function ImageCount(f: Form): int {
    if f.model == Imagen && |f.images| == 0 then f.numberOfImages else 1
  }

  /** The synchronous part of `handleGenerateImage`. */
  function Compose(f: Form): (r: Submission)
    ensures r.Rejected? <==> |f.images| == 0 && Blank(f.prompt)
    ensures r.Rejected? ==> r.error == EmptyPromptError
    ensures r.Accepted? ==>
      && r.request.model == f.model
      && r.request.aspectRatio == f.aspectRatio
      && r.request.images == f.images
      && r.request.seed == f.seed
    ensures r.Accepted? && |f.images| > 0 ==>
      && r.request.prompt == f.imagePrompt
      && r.request.imageCount == 1
      && (Blank(f.imagePrompt) ==> r.historyPrompt == ImagePlaceholder)
      && (!Blank(f.imagePrompt) ==> r.historyPrompt == f.imagePrompt)
    ensures r.Accepted? && |f.images| == 0 ==>
      && !Blank(f.prompt)
      && r.historyPrompt == f.prompt
      && (f.style == NoStyle ==> r.request.prompt == f.prompt)
      && (f.style != NoStyle ==> r.request.prompt == f.prompt + StyleJoiner + StyleLabel(f.style))
      && (f.model == Imagen ==> r.request.imageCount == f.numberOfImages)
      && (f.model != Imagen ==> r.request.imageCount == 1)
  {
    if |f.images| == 0 && Trim(f.prompt) == [] then Rejected(EmptyPromptError)
    else Accepted(Request(ApiPrompt(f), f.model, f.aspectRatio, ImageCount(f), f.images, f.seed),
                  HistoryPrompt(f))
  }

  /** Worked case: one staged image and an empty image prompt. The image
      prompt, empty, is sent, and the entry is saved under the
      placeholder. */
  lemma OneImageEmptyPromptUsesPlaceholder(f: Form)
    requires |f.images| == 1 && f.imagePrompt == []
    ensures Compose(f).Accepted?
    ensures Compose(f).request.prompt == []
    ensures Compose(f).historyPrompt == ImagePlaceholder
  {
  }

  // ---------------------------------------------------------------------
  // The reply
  // ---------------------------------------------------------------------

  /** What `generateImage` can throw. */
  datatype Thrown = ErrorObject(message: string) | NotAnError

  /** What `generateImage` resolves to: the image URLs, or a throw. */
  datatype Reply = Urls(urls: seq<string>) | Threw(thrown: Thrown)

  /** The visible effect of one press of the generate button. */
  datatype Outcome =
    | Invalid(error: string)                                        // nothing else changes
    | Failed(error: string)                                         // result images cleared
    | Generated(images: seq<string>, history: seq<HistoryItem>)

  /** One history entry per returned URL, all with the same prompt and
      settings. `now` is the instant `new Date()` reads. */
  function NewItems(urls: seq<string>, historyPrompt: string, f: Form, now: int): (items: seq<HistoryItem>)
    ensures |items| == |urls|
    ensures forall i :: 0 <= i < |items| ==>
      && items[i].imageUrl == urls[i]
      && items[i].prompt == historyPrompt
      && items[i].timestamp == Some(now)
      && items[i].style == Some(f.style)
      && items[i].model == Some(f.model)
      && items[i].aspectRatio == Some(f.aspectRatio)
      && items[i].quality.None?
      && items[i].seed == f.seed
  {
    seq(|urls|, i requires 0 <= i < |urls| =>
      HistoryItem(urls[i], historyPrompt, Some(now), Some(f.style), Some(f.model), Some(f.aspectRatio),
                  None, f.seed))
  }

  /** `h` is the history after a reply with `urls`: at most `MaxHistory`
      entries, one per URL in front carrying that URL and the submission's
      prompt and settings, then the previous entries in order. */
  ghost predicate NewestFirst(h: seq<HistoryItem>, urls: seq<string>, historyPrompt: string, f: Form, now: int,
                              history: seq<HistoryItem>) {
    && History.Capped(h)
    && |h| == Min(History.MaxHistory, |urls| + |history|)
    && (forall i :: 0 <= i < |urls| && i < |h| ==>
          && h[i].imageUrl == urls[i]
          && h[i].prompt == historyPrompt
          && h[i].timestamp == Some(now)
          && h[i].style == Some(f.style)
          && h[i].model == Some(f.model)
          && h[i].aspectRatio == Some(f.aspectRatio)
          && h[i].quality.None?
          && h[i].seed == f.seed)
    && (forall j :: 0 <= j < |history| && |urls| + j < |h| ==> h[|urls| + j] == history[j])
  }

  /** The history after a reply with `urls`: one new entry per URL in
      front, then the previous entries, capped. */
  function Record(urls: seq<string>, historyPrompt: string, f: Form, now: int, history: seq<HistoryItem>)
    : (h: seq<HistoryItem>)
    ensures NewestFirst(h, urls, historyPrompt, f, now, history)
  {
    var items := NewItems(urls, historyPrompt, f, now);
    History.AddToHistory(items, history)
  }

  /** What the screen shows once `generateImage` has settled with `reply`
      for an accepted submission. */
  function Settle(reply: Reply, historyPrompt: string, f: Form, now: int, history: seq<HistoryItem>)
    : (r: Outcome)
    ensures !r.Invalid?
    ensures reply == Threw(NotAnError) ==> r == Failed(UnknownError)
    ensures reply.Threw? && reply.thrown.ErrorObject? ==> r == Failed(reply.thrown.message)
    ensures reply.Urls? ==> r.Generated? && r.images == reply.urls
    ensures r.Generated? ==> reply == Urls(r.images) && NewestFirst(r.history, r.images, historyPrompt, f, now, history)
  {
    match reply
    case Threw(ErrorObject(m)) => Failed(m)
    case Threw(NotAnError) => Failed(UnknownError)
    case Urls(urls) => Generated(urls, Record(urls, historyPrompt, f, now, history))
  }

  /** `handleGenerateImage`, with `service` standing for `generateImage`. */
  function Generate(f: Form, history: seq<HistoryItem>, now: int, service: Request -> Reply): (r: Outcome)
    ensures r.Invalid? <==> |f.images| == 0 && Blank(f.prompt)
    ensures r.Invalid? ==> r.error == EmptyPromptError
    ensures Compose(f).Accepted? ==>
      var reply := service(Compose(f).request);
      && (r.Failed? ==> reply.Threw?)
      && (reply == Threw(NotAnError) ==> r == Failed(UnknownError))
      && (reply.Threw? && reply.thrown.ErrorObject? ==> r == Failed(reply.thrown.message))
      && (r.Generated? ==> reply == Urls(r.images)
                           && NewestFirst(r.history, r.images, Compose(f).historyPrompt, f, now, history))
  {
    match Compose(f)
    case Rejected(e) => Invalid(e)
    case Accepted(request, historyPrompt) => Settle(service(request), historyPrompt, f, now, history)
  }

  /** Entries added by a generation read back unchanged after a save and a
      reload, since each carries a model. */
  lemma GeneratedEntriesSurviveReload(f: Form, history: seq<HistoryItem>, now: int, service: Request -> Reply)
    requires forall i :: 0 <= i < |history| ==> history[i].model.Some?
    ensures var r := Generate(f, history, now, service);
      r.Generated? ==> History.LoadHistory(History.StoredArray(r.history)) == r.history
  {
    var r := Generate(f, history, now, service);
    if r.Generated? {
      forall i | 0 <= i < |r.history|
        ensures r.history[i].model.Some?
      {
        if i >= |r.images| {
          assert r.history[|r.images| + (i - |r.images|)] == history[i - |r.images|];
        }
      }
      History.LoadRestoresCurrentEntries(r.history);
    }
  }

  // ---------------------------------------------------------------------
  // Keeping model and count consistent
  // ---------------------------------------------------------------------

  /** The model and image-count choices. */
  datatype Choice = Choice(model: Model, numberOfImages: int)

  /** The effect that runs whenever the model or the staged images change:
      only Imagen on a text-only request may produce several images, and
      Imagen cannot take reference images. */
  function Normalize(c: Choice, staged: nat): (r: Choice)
    ensures c.model == Gemini || c.model == NanoBanana || staged > 0 ==> r.numberOfImages == 1
    ensures staged > 0 ==> r.model != Imagen
    ensures c.model == Imagen && staged == 0 ==> r == c
    ensures r.model != c.model ==> c.model == Imagen && r.model == Gemini
    ensures r.numberOfImages != c.numberOfImages ==> r.numberOfImages == 1
  {
    var count := if c.model == Gemini || c.model == NanoBanana || staged > 0 then 1 else c.numberOfImages;
    var model := if staged > 0 && c.model == Imagen then Gemini else c.model;
    Choice(model, count)
  }

  /** The effect re-runs after it changes the model; that second run
      changes nothing more. */
  lemma NormalizeIdempotent(c: Choice, staged: nat)
    ensures Normalize(Normalize(c, staged), staged) == Normalize(c, staged)
  {
  }

  /** Once the effect has run, the request asks for exactly the count the
      form holds. */
  lemma NormalizedCountIsRequested(f: Form)
    requires Normalize(Choice(f.model, f.numberOfImages), |f.images|) == Choice(f.model, f.numberOfImages)
    ensures Compose(f).Accepted? ==> Compose(f).request.imageCount == f.numberOfImages
  {
  }
}

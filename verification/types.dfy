/** The records and enumerations of the image generator screen. */
module Types {
  import opened Optional

  /** The generation back end the user picked. */
  datatype Model = Gemini | Imagen | NanoBanana

  /** '1:1', '16:9' and '9:16'. */
  datatype AspectRatio = Square | Landscape | Portrait

  /** The style whose label is appended to a text-only prompt. */
  datatype Style = NoStyle | Photorealistic | Anime | Impressionism | Cyberpunk

  /** The field older saved entries carried instead of a model. */
  datatype Quality = Standard | High

  /** One saved generation. `timestamp` is the instant (in milliseconds)
      that `new Date(timestamp)` yields for the stored ISO string, and None
      when that string does not parse, so that every comparison with it is
      false. */
  datatype HistoryItem = HistoryItem(
    imageUrl: string,
    prompt: string,
    timestamp: Option<int>,
    style: Option<Style>,
    model: Option<Model>,
    aspectRatio: Option<AspectRatio>,
    quality: Option<Quality>,
    seed: Option<int>)

  /** A reference image staged for the next request. */
  datatype UploadedImage = UploadedImage(
    id: string,
    previewUrl: string,
    base64: string,
    mimeType: string)
}

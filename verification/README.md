# Image generator screen: history, staging and request rules

A functional Dafny model of the state logic in the single React screen of an
image generator (`App.tsx`, with the records of `types.ts`). Rendering has been
stripped away, and storage, the clock and the generation service are
parameters. What is left:

- **History** (`history.dfy`, module `History`):
  - new generations are prepended and the list is capped at 20 entries;
  - `saveHistory` writes the list to `localStorage` and, when the quota is
    exceeded, drops entries and retries;
  - the list is loaded at start-up, and entries from the older schema
    (`quality` instead of `model`) are migrated;
  - a filtered view takes a keyword and a date window (all time, today,
    last seven days).
- **Staged images** (`staging.dfy`, module `Staging`): a reference image can be
  removed by index, and the images can be reordered by drag and drop. The drag
  state is an explicit session of two markers: the drag start and the position
  the drag is currently over.
- **Submission** (`generation.dfy`, module `Generation`):
  - the form is validated;
  - the prompt sent to the service and the prompt recorded in history are
    composed;
  - the number of images to request is chosen;
  - one history entry is made per URL the service returns;
  - an effect keeps the model and image-count choices consistent with the
    staged images.
- Shared pieces:
  - `Optional` (`optional.dfy`) is the option type for nullable fields.
  - `Seqs` (`seqs.dfy`) models `filter`, `includes` and `splice` on
    sequences. Each one's meaning is stated apart from how it is computed.
  - `Text` (`text.dfy`) models `trim` using the ECMAScript whitespace and
    line-terminator set.
  - `Types` (`types.dfy`) holds the enumerations `Model`, `AspectRatio`,
    `Style` and `Quality`, and the records `HistoryItem` and `UploadedImage`.

Parameters stand in for the environment:

- `write: seq<HistoryItem> -> WriteOutcome` is one `localStorage.setItem` of
  the serialised list. A failed write leaves storage as it was, so during one
  save the outcome depends only on the list offered.
- `StoredHistory` is what reading and `JSON.parse` of the key produced.
- `now` and `midnight` are the current instant and the start of the local day,
  in milliseconds.
- A history timestamp is `Option<int>`. It is the instant `new Date(...)`
  yields, and None when the string does not parse; every comparison with None
  is false.
- `lower: string -> string` is `toLowerCase`.
- `service: Request -> Reply` is the `generateImage` call.

Three facts about the code that are easy to misread:

- The comment at App.tsx:79 says the quota retry loop removes the oldest
  entry. The code removes the newest one (see Findings).
- With images staged, the prompt sent to the service is the image prompt even
  when it is empty. The placeholder is used only as the history prompt.
- On a text-only request, the style suffix is appended to the prompt exactly
  when the style is not `none` (App.tsx:215).

## Model

| member | source | states |
|---|---|---|
| `Seqs.Filter` | App.tsx:254-269 | the result is a subsequence of the input and every kept element satisfies the predicate. Each element satisfying it appears as often as in the input, and every other element not at all |
| `Seqs.FilterKeepsAll` | App.tsx:254-268 | a filter whose predicate holds for every element returns the whole list |
| `Seqs.Includes` | App.tsx:256 | `includes` is true exactly when the block occurs contiguously somewhere in the string (the empty block always does) |
| `Seqs.WithoutIndex` | App.tsx:189 | filtering out index i leaves the elements before and after i, in order, and loses exactly that one element (as a multiset); for an index outside the list the list is unchanged |
| `Seqs.InsertAt` | App.tsx:337 | inserting at k puts the element at k, keeps everything before k and shifts everything from k up by one, adding exactly that element |
| `Seqs.SpliceStart` | App.tsx:336-337 | the start position of `splice`: in range it is the requested index, negative values count from the end, and the result is clamped to 0 and to the length |
| `Seqs.WithoutInserted` | App.tsx:336-337 | removing the element just inserted at k gives back the original list |
| `Text.Trim` | App.tsx:203 | the trimmed prompt is empty exactly when every character is whitespace; otherwise it starts and ends with a non-whitespace character |
| `History.AddToHistory` | App.tsx:236-240 | the result never holds more than 20 entries and its length is min(20, new + old); the new items come first in their returned order, followed by the previous entries in their order |
| `History.AddToHistoryTwice` | App.tsx:236-240 | adding batch b, then batch a, gives the same list as adding a followed by b at once |
| `History.LargeBatchEvictsAll` | App.tsx:237-239 | a batch of 20 or more new items evicts every previous entry and keeps its own first 20 |
| `History.SaveHistory` | App.tsx:71-97 | a successful first write stores the list and keeps it. A non-quota failure changes neither memory nor storage. After a quota failure, the state becomes `h[k..]` for the least k ≥ 1 whose write succeeds (and that list is stored); if no such k exists, the history is emptied and the key removed. The loop always terminates |
| `History.SaveHistoryDropsNewest` | App.tsx:79-88 | two entries with room for only one: the entry that is kept is the older one, so the generation just added is lost |
| `History.SaveHistoryOldestFirst` | App.tsx:79-88 | the loop as its comment describes it: retries drop the last (oldest) entry. The stored list is the longest writable proper prefix, so whatever survives is a prefix of the list (newest entries kept) |
| `History.SaveHistoryOldestFirstKeepsNewest` | App.tsx:79-88 | for the same two-entry input, the corrected loop keeps the newer entry |
| `History.LoadHistory` | App.tsx:46-66 | a missing, empty, unparsable or non-array value yields the empty list. Otherwise the length and order are kept, and only `model` may change. An entry with a model, or with no quality, is unchanged. An entry with quality `high` and no model gets `imagen`; one with `standard` and no model gets `gemini` |
| `History.LoadHistoryIdempotent` | App.tsx:52-58 | after loading, every entry with a quality has a model, and migrating the loaded list again changes nothing |
| `History.LoadRestoresCurrentEntries` | App.tsx:53-58 | a stored list whose entries all carry a model is loaded unchanged |
| `History.FilterHistory` | App.tsx:248-270 | the view is a subsequence of the history. Each shown entry's lower-cased prompt contains the lower-cased keyword. Under `today` each shown timestamp is ≥ local midnight; under `week` each is ≥ now − 7·24·3600·1000. An entry is shown if and only if it passes both tests, and then as many times as it occurs in the history |
| `History.FilterWithoutCriteriaShowsAll` | App.tsx:254-268 | with a keyword that lower-cases to the empty string and the `all` window, the view is the whole history |
| `Staging.RemoveImage` | App.tsx:184-193 | removing an index in range shortens the list by exactly one and keeps all other images in their relative order; any other index leaves the list unchanged. The image prompt is cleared when the list had exactly one image, and kept otherwise |
| `Staging.RemovingOnlyImageClearsAll` | App.tsx:189-192 | removing the only staged image leaves no images and an empty image prompt |
| `Staging.DragStart` | App.tsx:323-326 | starting a drag sets the start marker to the position and leaves the other marker unchanged |
| `Staging.DragEnter` | App.tsx:328-330 | entering a tile sets the over marker to its position and leaves the start marker unchanged |
| `Staging.DragEnd` | App.tsx:341-345 | ending a drag resets both markers to unset |
| `Staging.Move` | App.tsx:334-337 | taking out the image at `from` and reinserting it at k is a permutation of the same length, with that image at k and the others in their original relative order |
| `Staging.Drop` | App.tsx:332-339 | if either marker is unset, the list is unchanged. A start marker outside the list is the undefined-entry outcome. Any other drop is a permutation of the same length. When both markers are in range, the image from `from` ends at `over` and the others keep their relative order |
| `Staging.DropAfterDragEndIsNoOp` | App.tsx:341-345 | a drop after a drag ends leaves the list unchanged; it rests on `DragEnd` resetting both markers and on `Drop` doing nothing when a marker is unset |
| `Staging.DragGestureMovesOneImage` | App.tsx:323-339 | starting a drag on `from` and entering `over` (both in range), then dropping, moves that one image to `over` and keeps the rest in order |
| `Staging.DragFirstToLast` | App.tsx:332-339 | dragging the first image onto the last position rotates the list left by one |
| `Staging.DragFirstOfThreeToEnd` | App.tsx:332-339 | dragging the first of three images onto the third position yields [second, third, first] |
| `Generation.StyleLabel` | App.tsx:125-147 | every style has a non-empty label, so the `styleText` check never blocks the suffix |
| `Generation.Compose` | App.tsx:202-223 | a submission is refused with the fixed message exactly when no image is staged and the prompt is blank. With images staged, the API prompt is the image prompt, the history prompt is the image prompt or the placeholder when it is blank, and one image is requested. Without images, the API prompt is the prompt plus ", в стиле " plus the style label unless the style is `none`, and the history prompt is the bare prompt. The user's count is requested only for `imagen`. Model, aspect ratio, images and seed are passed through |
| `Generation.OneImageEmptyPromptUsesPlaceholder` | App.tsx:212-219 | one staged image and an empty image prompt: the empty prompt is sent, and the history entry is saved under the placeholder |
| `Generation.NewItems` | App.tsx:225-233 | one entry per returned URL, in order. Each entry carries its URL, the history prompt, the current instant, the form's style, model, aspect ratio and seed, and no quality |
| `Generation.Record` | App.tsx:225-240 | the history after a reply is capped at 20 and of length min(20, URLs + previous). Its front holds one entry per URL, in order, with that URL, the history prompt, the current instant, the form's style, model, aspect ratio and seed, and no quality; the previous entries follow in order |
| `Generation.Settle` | App.tsx:224-242 | a thrown Error shows its message; any other thrown value shows the fixed unknown-error text. A list of URLs becomes the shown images, and the history takes the form `Record` states |
| `Generation.Generate` | App.tsx:202-246 | a form with no image and a blank prompt yields only the fixed validation error. Otherwise the reply to the composed request decides: an Error shows its message, any other thrown value the fixed unknown-error text. URLs become the shown images and a history capped at 20, whose front holds one entry per URL with that URL, the history prompt, the current instant, the form's style, model, aspect ratio and seed, and no quality, followed by the previous entries |
| `Generation.GeneratedEntriesSurviveReload` | App.tsx:225-240 | when the previous entries all carry a model, the history after a generation reads back unchanged through the load migration |
| `Generation.Normalize` | App.tsx:103-110 | with `gemini` or `nano-banana`, or with any image staged, the count becomes 1. With images staged the model is not `imagen`. `imagen` without images is left as it is. The only model change is `imagen` to `gemini`, and the only count change is to 1 |
| `Generation.NormalizeIdempotent` | App.tsx:103-110 | applying the effect twice is the same as applying it once, so its re-run after a model change is a no-op |
| `Generation.NormalizedCountIsRequested` | App.tsx:223 | once the effect has run, the requested image count equals the count in the form |

## Left out

- Rendering, icons, CSS classes, example prompts, the model preview table and the option lists other than the style labels: presentation only.
- `localStorage` and `JSON.stringify`/`JSON.parse`: replaced by the `write` outcome function and the `StoredHistory` input. Field values of parsed JSON are assumed to have the declared types.
- The save effect (App.tsx:99-101) runs again after a pruned or cleared save sets the state. That repeated save is not modelled.
- Adding images (App.tsx:149-182): `FileReader`, base64 decoding and `URL.createObjectURL` are browser I/O. The preview revocation in `handleRemoveImage` (App.tsx:186-188) and the cleanup effect (App.tsx:196-200) are left out for the same reason.
- `handleHistoryClick` (App.tsx:310-318), the seed input parsing and the random seed button (App.tsx:555-571): UI plumbing around `parseInt` and `Math.random`.
- `draggedIndex` (App.tsx:321-326, 344): it only drives the opacity of the dragged tile.
- `generateImage` in `./services/geminiService` is not part of this model. It is the `service` parameter, and an empty list of URLs is passed through as the screen does.
- `isLoading`, clearing the error and result images before the call, and the async sequencing of `handleGenerateImage`: event-loop concurrency.
- Local midnight, `Date` arithmetic and ISO timestamp parsing are left out: they are inputs (`now`, `midnight`, `Option<int>` timestamps).
- History.FilterHistory: `toLowerCase` is the parameter `lower`, not Unicode case mapping. The contract holds for any such function.
- Generation.NewItems: all entries of one reply get the same instant `now`. The source calls `new Date()` once per entry, which can differ by a millisecond.
- Generation.Record: the new entries share the one instant `now`, as for `NewItems`.
- Generation.Settle: the new entries share the one instant `now`, as for `NewItems`.
- Generation.Generate: the new entries share the one instant `now`, as for `NewItems`.
- Staging.Drop: a start marker outside the list yields None. The source instead stores a list containing an `undefined` entry, which a sequence of images cannot hold.
- Number width: counts, seeds and timestamps are unbounded integers. The source's JavaScript numbers are doubles, but every value involved is a small integer.

## Findings

| source | as written | input that shows it | evidently intended | confidence | as-written member | corrected member |
|---|---|---|---|---|---|---|
| App.tsx:79 | `newHistory.slice(1)`, and `slice(1)` again on each retry, drops index 0. New entries are prepended (App.tsx:237), so index 0 is the most recent generation | history [newer, older] where storage has room for one entry: the loop stores and keeps [older] | drop the oldest entry, the last one, as the comment says, so that [newer] is kept | high; not executed | `History.SaveHistoryDropsNewest` | `History.SaveHistoryOldestFirst` |

`History.SaveHistory` models the loop as written. `History.SaveHistoryOldestFirst` is the corrected loop, and its contract proves that what it keeps is a prefix of the list, so the newest entries survive.

/** The staged reference images: removing one, and reordering them by drag
    and drop. */
module Staging {
  import opened Optional
  import opened Types
  import opened Seqs

  /** The staged images together with the image-specific prompt, which
      removal may clear. */
  datatype Staged = Staged(images: seq<UploadedImage>, imagePrompt: string)

  /** `handleRemoveImage(index)`. The list loses the image at `index`, and
      nothing for an index that is not one of its positions. The image
      prompt is cleared when the list held exactly one image before the
      call, whatever the index. */
  function RemoveImage(st: Staged, index: int): (r: Staged)
    ensures 0 <= index < |st.images| ==>
      && |r.images| == |st.images| - 1
      && r.images == st.images[..index] + st.images[index + 1..]
      && multiset(r.images) + multiset{st.images[index]} == multiset(st.images)
    ensures !(0 <= index < |st.images|) ==> r.images == st.images
    ensures |st.images| == 1 ==> r.imagePrompt == []
    ensures |st.images| != 1 ==> r.imagePrompt == st.imagePrompt
  {
    var images := WithoutIndex(st.images, index);
    Staged(images, if |st.images| == 1 then [] else st.imagePrompt)
  }

  /** Removing the last staged image empties the list and the image
      prompt, so a further submission is back on the text-only path. */
  lemma RemovingOnlyImageClearsAll(st: Staged)
    requires |st.images| == 1
    ensures RemoveImage(st, 0) == Staged([], [])
  {
  }

  /** The two drag markers: where the drag started and the position it is
      currently over. */
  datatype DragSession = DragSession(from: Option<int>, over: Option<int>)

  /** No drag in progress. */
  const Idle := DragSession(None, None)

  /** `handleDragStart(position)`: records where the drag started and
      leaves the other marker as it was. */
  function DragStart(d: DragSession, position: int): (r: DragSession)
    ensures r.from == Some(position) && r.over == d.over
  {
    d.(from := Some(position))
  }

  /** `handleDragEnter(position)`: records the position the drag is over
      and leaves the start marker as it was. */
  function DragEnter(d: DragSession, position: int): (r: DragSession)
    ensures r.over == Some(position) && r.from == d.from
  {
    d.(over := Some(position))
  }

  /** `handleDragEnd`: both markers are reset. */
  function DragEnd(d: DragSession): (r: DragSession)
    ensures r.from.None? && r.over.None?
  {
    Idle
  }

  /** `handleDrop`: copy the list, take the dragged image out with
      `splice(from, 1)` and put it back with `splice(over, 0, image)`.
      Nothing happens unless both markers are set. A start marker outside
      the list makes the source store an `undefined` entry; that outcome is
      None. The drop position follows the clamping rules of `splice`. */
  function Drop(images: seq<UploadedImage>, d: DragSession): (r: Option<seq<UploadedImage>>)
    ensures d.from.None? || d.over.None? ==> r == Some(images)
    ensures d.from.Some? && d.over.Some? ==> (r.None? <==> !(0 <= d.from.value < |images|))
    ensures r.Some? ==> |r.value| == |images| && multiset(r.value) == multiset(images)
    ensures d.from.Some? && d.over.Some? && 0 <= d.from.value < |images| && 0 <= d.over.value < |images| ==>
      && r.Some?
      && r.value[d.over.value] == images[d.from.value]
      && WithoutIndex(r.value, d.over.value) == WithoutIndex(images, d.from.value)
  {
    match (d.from, d.over)
    case (Some(from), Some(over)) =>
      if 0 <= from < |images| then Some(Move(images, from, SpliceStart(over, |images| - 1)))
      else
        None
    case _ => Some(images)
  }

  /** The two `splice` calls of a drop with the start marker on an image:
      the image at `from` is taken out and reinserted at position `k` of
      what remains. */
  function Move(images: seq<UploadedImage>, from: nat, k: nat): (r: seq<UploadedImage>)
    requires from < |images| && k < |images|
    ensures |r| == |images| && multiset(r) == multiset(images)
    ensures r[k] == images[from]
    ensures WithoutIndex(r, k) == WithoutIndex(images, from)
  {
    var rest := WithoutIndex(images, from);
    WithoutInserted(rest, k, images[from]);
    InsertAt(rest, k, images[from])
  }

  /** After a drag ends nothing is left for a stray drop to act on. */
  lemma DropAfterDragEndIsNoOp(images: seq<UploadedImage>, d: DragSession)
    ensures Drop(images, DragEnd(d)) == Some(images)
  {
  }

  /** A complete gesture from rest, starting on `from` and entering `over`,
      moves that one image and keeps all others in their relative order. */
  lemma DragGestureMovesOneImage(images: seq<UploadedImage>, from: int, over: int)
    requires 0 <= from < |images| && 0 <= over < |images|
    ensures var r := Drop(images, DragEnter(DragStart(Idle, from), over));
      && r.Some?
      && |r.value| == |images|
      && r.value[over] == images[from]
      && WithoutIndex(r.value, over) == WithoutIndex(images, from)
  {
  }

  /** Dragging the first image onto the last position rotates the list
      left by one. */
  lemma DragFirstToLast(images: seq<UploadedImage>)
    requires |images| > 0
    ensures Drop(images, DragSession(Some(0), Some(|images| - 1))) == Some(images[1..] + [images[0]])
  {
    var k := |images| - 1;
    var m := Move(images, 0, k);
    assert Drop(images, DragSession(Some(0), Some(k))) == Some(m) by {
      assert SpliceStart(k, k) == k;
    }
    assert m[..k] == images[1..] by {
      assert WithoutIndex(m, k) == m[..k];
      assert WithoutIndex(images, 0) == images[1..];
    }
    assert m == m[..k] + [m[k]];
  }

  /** Three staged images, the first dragged onto the last position: the
      first image ends last and the other two move up by one. */
  lemma DragFirstOfThreeToEnd(a: UploadedImage, b: UploadedImage, c: UploadedImage)
    ensures Drop([a, b, c], DragSession(Some(0), Some(2))) == Some([b, c, a])
  {
    DragFirstToLast([a, b, c]);
    assert [a, b, c][1..] + [a] == [b, c, a];
  }
}

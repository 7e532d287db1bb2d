/**
 * The viewfinder overlay view (`WXViewfinderView`): it caches the camera preview's
 * two rectangles, keeps the scan-line offset and the status caption, and on every
 * draw paints the mask, border, corner accents, laser strip and caption, then asks
 * to be redrawn shortly over the frame's region. Painting is modelled as the list
 * of commands the view issues, in the order it issues them.
 */
module Viewfinder {
  import opened Wrappers
  import opened Geometry
  import opened Animation

  /** What the camera preview's two getters return when the view asks them */
  datatype PreviewRects = PreviewRects(framingRect: Option<Rect>, previewFramingRect: Option<Rect>)

  /** One call the view makes on its canvas, or one redraw it requests */
  datatype DrawCommand =
    | Mask(rect: Rect)                            // filled with the mask colour
    | Border(rect: Rect)                          // stroked with the border paint
    | Corner(path: seq<Point>)                    // stroked with the corner paint
    | Laser(rect: Rect)                           // the laser bitmap stretched into `rect`
    | Text(text: string, x: int)                  // the caption, centred on `x`
    | InvalidateDelayed(delay: int, region: Rect) // redraw `region` after `delay` ms
    | Invalidate                                  // redraw the whole view

  /** Milliseconds between two frames of the animation (field `animationDelay`) */
  const AnimationDelay: int := 5

  /** Default length of a corner accent's legs */
  const CornerLength: int := 12

  /** Default stroke width of the corner accents */
  const CornerWidth: int := 3

  /** Caption shown when the layout sets none */
  const DefaultStatusText: string := "将二维码入框内，即可自动扫描"

  /** The collaborator supplies both rectangles, so the view takes them */
  predicate Supplies(preview: Option<PreviewRects>) {
    preview.Some? && preview.value.framingRect.Some? && preview.value.previewFramingRect.Some?
  }

  /** `(int) (cornerWidth / 2)`: half the stroke width, truncated */
  function HalfWidth(cornerWidth: int): (h: int)
    ensures cornerWidth >= 0 ==> 0 <= h && h <= cornerWidth - h <= h + 1
  {
    TruncDiv(cornerWidth, 2)
  }

  /**
   * Everything one draw paints and requests for `frame`, once the offset has advanced:
   * four masks, the border, four corner accents, one laser strip, the caption, and
   * last the delayed redraw of exactly the frame.
   */
  function Scene(frame: Rect, width: int, height: int, offset: int, statusText: string): (s: seq<DrawCommand>)
    ensures |s| == 12
    ensures forall i :: 0 <= i < 4 ==> s[i].Mask? && s[i].rect == MaskRects(frame, width, height)[i]
    ensures s[4] == Border(BorderRect(frame))
    ensures forall k :: 0 <= k < 4 ==> s[5 + k] == Corner(CornerPaths(frame, CornerLength, HalfWidth(CornerWidth))[k])
    ensures s[9] == Laser(LaserRect(frame, offset))
    ensures forall i :: 0 <= i < |s| && s[i].Laser? ==> i == 9
    ensures forall i :: 0 <= i < |s| && s[i].Text? ==> s[i] == Text(statusText, TextAnchorX(frame))
    ensures s[10].Text? && s[|s| - 1] == InvalidateDelayed(AnimationDelay, frame)
  {
    var masks := MaskRects(frame, width, height);
    var corners := CornerPaths(frame, CornerLength, HalfWidth(CornerWidth));
    [Mask(masks[0]), Mask(masks[1]), Mask(masks[2]), Mask(masks[3]),
     Border(BorderRect(frame)),
     Corner(corners[0]), Corner(corners[1]), Corner(corners[2]), Corner(corners[3]),
     Laser(LaserRect(frame, offset)),
     Text(statusText, TextAnchorX(frame)),
     InvalidateDelayed(AnimationDelay, frame)]
  }

  /**
   * For a frame 201 pixels high the offset reaches 200 after 40 draws from 0, and the
   * 3-row strip drawn there ends two rows below the frame's cells.
   */
  lemma LaserOverhangsFrame()
    ensures Ticks(0, 201, 40) == 200
    ensures var frame := Rect(100, 200, 300, 401);
      LaserRect(frame, 200).bottom == FrameCells(frame).bottom + 2
  {
    TicksFromZero(201, 0, 40);
  }

  class ViewfinderView {
    /** Last target frame the camera preview supplied, kept after the preview stops */
    var framingRect: Option<Rect>
    /** Last frame in preview coordinates, cached alongside `framingRect` */
    var previewFramingRect: Option<Rect>
    /** Rows the laser strip sits below the top of the frame */
    var offset: int
    /** Caption drawn under the frame */
    var statusText: string

    /** The offset never goes negative, and the two rectangles are cached together or not at all */
    predicate Valid()
      reads this
    {
      offset >= 0 && (framingRect.Some? <==> previewFramingRect.Some?)
    }

    /**
     * A view inflated from a layout: no rectangles cached yet, the laser at the top,
     * and the caption from the layout attribute or the default one.
     */
    constructor (statusTextAttribute: Option<string>)
      ensures Valid()
      ensures framingRect == None && previewFramingRect == None && offset == 0
      ensures statusText == statusTextAttribute.GetOr(DefaultStatusText)
    {
      framingRect := None;
      previewFramingRect := None;
      offset := 0;
      match statusTextAttribute
      case Some(text) => statusText := text;
      case None => statusText := DefaultStatusText;
    }

    /**
     * Take both rectangles from the camera preview (`None` when no preview is
     * attached), but only when it supplies both: otherwise the cached pair stays.
     */
    method RefreshSizes(preview: Option<PreviewRects>)
      requires Valid()
      modifies this`framingRect, this`previewFramingRect
      ensures Valid()
      ensures Supplies(preview) ==>
        framingRect == preview.value.framingRect && previewFramingRect == preview.value.previewFramingRect
      ensures !Supplies(preview) ==>
        framingRect == old(framingRect) && previewFramingRect == old(previewFramingRect)
    {
      if preview.None? {
        return;
      }
      var fr := preview.value.framingRect;
      var pfr := preview.value.previewFramingRect;
      if fr.Some? && pfr.Some? {
        framingRect := fr;
        previewFramingRect := pfr;
      }
    }

    /** Replace the caption and ask for the whole view to be redrawn */
    method SetStatusText(text: string) returns (request: DrawCommand)
      requires Valid()
      modifies this`statusText
      ensures Valid()
      ensures statusText == text && request == Invalidate
      ensures framingRect == old(framingRect) && previewFramingRect == old(previewFramingRect)
      ensures offset == old(offset)
    {
      statusText := text;
      request := Invalidate;
    }

    /**
     * One draw on a `width` x `height` canvas. After refreshing the cached rectangles,
     * a view without both of them issues nothing and keeps its offset. Otherwise the
     * offset takes one animation step over the frame's height and the view paints
     * the scene for that new offset with its current caption, ending with a request
     * to redraw the frame in `AnimationDelay` ms.
     */
    method OnDraw(preview: Option<PreviewRects>, width: int, height: int) returns (cmds: seq<DrawCommand>)
      requires Valid()
      modifies this
      ensures Valid()
      ensures Supplies(preview) ==>
        framingRect == preview.value.framingRect && previewFramingRect == preview.value.previewFramingRect
      ensures !Supplies(preview) ==>
        framingRect == old(framingRect) && previewFramingRect == old(previewFramingRect)
      ensures statusText == old(statusText)
      ensures framingRect.None? || previewFramingRect.None? ==> cmds == [] && offset == old(offset)
      ensures framingRect.Some? && previewFramingRect.Some? ==>
        var frame := framingRect.value;
        && offset == Tick(old(offset), frame.bottom - frame.top)
        && (offset == 0 || offset < frame.bottom - frame.top)
        && cmds == Scene(frame, width, height, offset, statusText)
    {
      RefreshSizes(preview);
      if framingRect.None? || previewFramingRect.None? {
        return [];
      }
      var frame := framingRect.value;

      var masks := MaskRects(frame, width, height);
      var border := BorderRect(frame);
      var corners := CornerPaths(frame, CornerLength, HalfWidth(CornerWidth));
      var painted := [Mask(masks[0]), Mask(masks[1]), Mask(masks[2]), Mask(masks[3]),
                      Border(border),
                      Corner(corners[0]), Corner(corners[1]), Corner(corners[2]), Corner(corners[3])];

      offset := offset + Speed;
      if offset >= frame.bottom - frame.top {
        offset := 0;
      }
      var laser := LaserRect(frame, offset);
      cmds := painted + [Laser(laser), Text(statusText, TextAnchorX(frame)), InvalidateDelayed(AnimationDelay, frame)];
    }
  }
}

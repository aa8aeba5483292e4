/**
 * The control-placement calculator (`useDynamicButtonPosition`): where, in pixels from the
 * container's left edge, the commit/cancel buttons go so that they follow the end of the
 * text without overflowing the container.
 *
 * Pixel arithmetic is exact (`real`). The root font size, which the source reads from the
 * computed style of the document element and parses, is an input: `Some(px)` when the
 * parse gave a number, `None` when it gave NaN or the lookup threw.
 */
module ButtonPositionHook {
  import opened Wrappers

  /** Default width of the button cluster, in rem. */
  const DefaultButtonWidthRem: real := 4.0
  /** Default gap between the end of the text and the buttons, in rem. */
  const DefaultOffsetRem: real := 1.25
  /** Root font size assumed when it cannot be measured, in pixels. */
  const FallbackFontSize: real := 16.0

  function Max(a: real, b: real): real {
    if a >= b then a else b
  }

  /** The root font size in pixels: the parsed value, or 16 when there is none. */
  function RootFontSize(parsed: Option<real>): (px: real)
    ensures parsed.None? ==> px == FallbackFontSize
    ensures parsed.Some? ==> px == parsed.value
  {
    parsed.GetOr(FallbackFontSize)
  }

  /**
   * Where the buttons go, as a decision table: right after the text (plus the gap) when
   * that fits, flush right when it would overflow, and never left of the container.
   */
  function Placement(textWidth: real, containerWidth: real, buttonWidth: real, offset: real): (x: real)
    ensures x >= 0.0
    ensures textWidth + offset + buttonWidth <= containerWidth && textWidth + offset >= 0.0 ==> x == textWidth + offset
    ensures textWidth + offset + buttonWidth <= containerWidth && textWidth + offset < 0.0 ==> x == 0.0
    ensures textWidth + offset + buttonWidth > containerWidth ==> x == Max(0.0, containerWidth - buttonWidth)
    ensures containerWidth >= buttonWidth ==> x + buttonWidth <= containerWidth
  {
    if textWidth + offset + buttonWidth <= containerWidth then Max(0.0, textWidth + offset)
    else Max(0.0, containerWidth - buttonWidth)
  }

  /** One calculator: its rem-based sizes, the root font size it memoised, and the current `buttonX`. */
  class ButtonPosition {
    const buttonWidthRem: real
    const offsetRem: real
    const rootFontSize: real
    var buttonX: real

    /**
     * Creation: omitted sizes take their defaults, the root font size is measured once
     * (with the 16px fallback), and `buttonX` starts at 0.
     */
    constructor(buttonWidthRem: Option<real>, offsetRem: Option<real>, measuredFontSize: Option<real>)
      ensures this.buttonWidthRem == buttonWidthRem.GetOr(DefaultButtonWidthRem)
      ensures this.offsetRem == offsetRem.GetOr(DefaultOffsetRem)
      ensures rootFontSize == RootFontSize(measuredFontSize)
      ensures buttonX == 0.0
    {
      this.buttonWidthRem := buttonWidthRem.GetOr(DefaultButtonWidthRem);
      this.offsetRem := offsetRem.GetOr(DefaultOffsetRem);
      rootFontSize := RootFontSize(measuredFontSize);
      buttonX := 0.0;
    }

    /**
     * `updatePosition`: `containerWidth` is the container's `offsetWidth`, or `None` when
     * the container is missing, in which case `buttonX` keeps its previous value.
     */
    method UpdatePosition(textWidth: real, containerWidth: Option<real>)
      modifies this
      ensures containerWidth.None? ==> buttonX == old(buttonX)
      ensures containerWidth.Some? ==>
                buttonX == Placement(textWidth, containerWidth.value, buttonWidthRem * rootFontSize, offsetRem * rootFontSize)
    {
      if containerWidth.None? {
        return;
      }
      var buttonWidth := buttonWidthRem * rootFontSize;
      var offset := offsetRem * rootFontSize;
      var newX := textWidth + offset;
      if newX + buttonWidth > containerWidth.value {
        newX := Max(0.0, containerWidth.value - buttonWidth);
      }
      newX := Max(0.0, newX);
      buttonX := newX;
    }
  }

  /** A fresh calculator with a 16px root font, updated once against `containerWidth`. */
  method MeasureOnce(textWidth: real, containerWidth: Option<real>, buttonWidthRem: Option<real>, offsetRem: Option<real>)
    returns (x: real)
    ensures containerWidth.None? ==> x == 0.0
    ensures containerWidth.Some? ==>
              x == Placement(textWidth, containerWidth.value,
                             buttonWidthRem.GetOr(DefaultButtonWidthRem) * 16.0, offsetRem.GetOr(DefaultOffsetRem) * 16.0)
  {
    var position := new ButtonPosition(buttonWidthRem, offsetRem, Some(16.0));
    position.UpdatePosition(textWidth, containerWidth);
    x := position.buttonX;
  }

  /** The positions the hook's own examples pin down, all with a 16px root font. */
  method PinnedPositions() returns (fits: real, custom: real, overflow: real, negative: real, clamped: real, missing: real)
    ensures fits == 120.0 && custom == 58.0 && overflow == 236.0
    ensures negative == 10.0 && clamped == 0.0 && missing == 0.0
  {
    fits := MeasureOnce(100.0, Some(300.0), None, None);
    custom := MeasureOnce(50.0, Some(300.0), Some(2.0), Some(0.5));
    overflow := MeasureOnce(250.0, Some(300.0), Some(4.0), Some(1.25));
    negative := MeasureOnce(-10.0, Some(300.0), None, None);
    clamped := MeasureOnce(-50.0, Some(300.0), None, Some(0.0));
    missing := MeasureOnce(100.0, None, None, None);
  }

  /** An unparsable root font size falls back to 16px: the default layout still lands at 120. */
  method FontFallbackPosition() returns (x: real)
    ensures x == 120.0
  {
    var position := new ButtonPosition(None, None, None);
    position.UpdatePosition(100.0, Some(300.0));
    x := position.buttonX;
  }
}

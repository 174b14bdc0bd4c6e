/**
 * The comment overlay of stream/script.js: placing an incoming message on a
 * row of the canvas (`addCommentToCanvas`) and dropping comments whose time is
 * up on each animation frame (`animateCanvasComments`).
 *
 * Times are integer milliseconds from `performance.now()`, the canvas and
 * video sizes, the slider's value and minimum, the flow checkbox and the text
 * width from `measureText` are inputs, and `Math.random()` enters as draws
 * for the two samplers.
 */
module StreamOverlay {
  import opened Wrappers
  import opened StreamRandom

  const COMMENT_DURATION_MS: nat := 6000
  /** Added to the font size to get a row's height. */
  const ROW_PADDING: nat := 10
  /** The `end` of `yPosRandom`: rows are drawn from `[0, 10)` before reduction. */
  const ROW_SAMPLES: nat := 10
  const AVAILABLE_COLORS: seq<string> :=
    ["red", "orange", "skyblue", "springgreen", "mediumpurple", "mediumblue"]

  /**
   * A comment in flight. `row` is the row it was placed on (its pixel `y`
   * derives from it); `x` is its position when spawned; `width` is the
   * measured text width.
   */
  datatype Comment = Comment(
    text: string, x: int, row: nat, color: string, fontSize: int,
    startTime: int, duration: nat, width: real)

  // ---------------------------------------------------------------------------
  // Layout arithmetic

  /**
   * The font size used: the slider's value, or the slider's minimum when the
   * value is not a number (`None`) or is below the minimum.
   */
  function FontSize(sliderValue: Option<int>, sliderMin: int): (size: int)
    ensures size >= sliderMin
    ensures sliderValue.Some? && sliderValue.value >= sliderMin ==> size == sliderValue.value
    ensures size != sliderMin ==> sliderValue == Some(size)
  {
    if sliderValue.None? || sliderValue.value < sliderMin then sliderMin else sliderValue.value
  }

  /**
   * `Math.max(1, Math.floor(canvasHeight / (fontSize + 10)))`: as many rows
   * of height `fontSize + 10` as fit in the canvas, and at least one.
   */
  function RowCount(canvasHeight: nat, fontSize: int): (rows: nat)
    requires fontSize + ROW_PADDING > 0
    ensures rows >= 1
    ensures rows == 1 || rows * (fontSize + ROW_PADDING) <= canvasHeight
    ensures canvasHeight < (rows + 1) * (fontSize + ROW_PADDING)
  {
    var rowHeight := fontSize + ROW_PADDING;
    var fit := canvasHeight / rowHeight;
    if fit < 1 then 1 else fit
  }

  /** The row a sampled value lands on: `sample % rows`. */
  function RowIndex(sample: nat, rows: nat): (row: nat)
    requires rows >= 1
    ensures row < rows
    ensures sample < rows ==> row == sample
  {
    sample % rows
  }

  /** When one row is taller than the canvas there is a single row, and every comment goes on it. */
  lemma TallRowsCollapse(canvasHeight: nat, fontSize: int, sample: nat)
    requires fontSize + ROW_PADDING > canvasHeight
    ensures RowCount(canvasHeight, fontSize) == 1
    ensures RowIndex(sample, RowCount(canvasHeight, fontSize)) == 0
  {
  }

  // ---------------------------------------------------------------------------
  // Expiry

  predicate Expired(c: Comment, now: int) {
    now - c.startTime >= c.duration
  }

  /** The comments a frame at time `now` keeps, in their original order. */
  function Survivors(comments: seq<Comment>, now: int): seq<Comment>
  {
    if comments == [] then []
    else
      var rest := Survivors(comments[1..], now);
      if Expired(comments[0], now) then rest else [comments[0]] + rest
  }

  /**
   * A frame removes exactly the expired comments: every comment still in
   * time is kept as often as it occurs, every expired one is gone.
   */
  lemma {:induction false} SurvivorsExact(comments: seq<Comment>, now: int)
    ensures forall c :: multiset(Survivors(comments, now))[c] ==
                          if Expired(c, now) then 0 else multiset(comments)[c]
  {
    if comments != [] {
      SurvivorsExact(comments[1..], now);
      assert comments == [comments[0]] + comments[1..];
    }
  }

  /** Filtering distributes over concatenation, so survivors keep their relative order. */
  lemma {:induction false} SurvivorsAppend(a: seq<Comment>, b: seq<Comment>, now: int)
    ensures Survivors(a + b, now) == Survivors(a, now) + Survivors(b, now)
  {
    if a != [] {
      assert (a + b)[0] == a[0];
      assert (a + b)[1..] == a[1..] + b;
      SurvivorsAppend(a[1..], b, now);
    } else {
      assert a + b == b;
    }
  }

  /** Survivors of a suffix, peeled off at its first comment. */
  lemma SurvivorsStep(comments: seq<Comment>, i: nat, now: int)
    requires i < |comments|
    ensures Survivors(comments[i..], now) ==
              (if Expired(comments[i], now) then [] else [comments[i]]) + Survivors(comments[i + 1..], now)
  {
    assert comments[i..][1..] == comments[i + 1..];
  }

  /** `splice(i, 1)` on `prefix + [c] + rest` with `i == |prefix|` leaves `prefix + rest`. */
  lemma SpliceOut(prefix: seq<Comment>, c: Comment, rest: seq<Comment>)
    ensures var s := prefix + [c] + rest;
      s[|prefix|] == c && s[..|prefix|] + s[|prefix| + 1..] == prefix + rest
  {
    var s := prefix + [c] + rest;
    assert s[..|prefix|] == prefix;
    assert s[|prefix| + 1..] == rest;
  }

  /**
   * One iteration of the reverse splice loop: with the comments from `i + 1`
   * on already filtered, deciding comment `i` filters the comments from `i` on.
   */
  lemma FrameStep(original: seq<Comment>, i: nat, now: int, current: seq<Comment>)
    requires i < |original|
    requires current == original[..i + 1] + Survivors(original[i + 1..], now)
    ensures i < |current| && current[i] == original[i]
    ensures Expired(original[i], now) ==>
              current[..i] + current[i + 1..] == original[..i] + Survivors(original[i..], now)
    ensures !Expired(original[i], now) ==> current == original[..i] + Survivors(original[i..], now)
  {
    SurvivorsStep(original, i, now);
    var rest := Survivors(original[i + 1..], now);
    assert original[..i + 1] == original[..i] + [original[i]];
    SpliceOut(original[..i], original[i], rest);
    assert current == original[..i] + [original[i]] + rest;
    if !Expired(original[i], now) {
      assert current == original[..i] + ([original[i]] + rest);
    }
  }

  /** A comment lasting 6000 ms is still shown 5999 ms after it spawned and gone from 6000 ms on. */
  lemma CommentLifetime(c: Comment, later: nat)
    requires c.duration == COMMENT_DURATION_MS
    ensures Survivors([c], c.startTime + 5999) == [c]
    ensures Survivors([c], c.startTime + COMMENT_DURATION_MS + later) == []
  {
  }

  // ---------------------------------------------------------------------------
  // The overlay's state

  class Overlay {
    var activeComments: seq<Comment>
    var canvasWidth: nat
    var canvasHeight: nat
    const colorRandom: CustomRandom
    const yPosRandom: CustomRandom

    ghost predicate Valid()
      reads this
    {
      && colorRandom != yPosRandom
      && colorRandom.start == 0 && colorRandom.end == |AVAILABLE_COLORS|
      && yPosRandom.start == 0 && yPosRandom.end == ROW_SAMPLES
    }

    /** The page's start-up: an empty overlay on a viewport-sized canvas, and the two samplers. */
    constructor (viewportWidth: nat, viewportHeight: nat)
      ensures Valid() && fresh(colorRandom) && fresh(yPosRandom)
      ensures activeComments == [] && canvasWidth == viewportWidth && canvasHeight == viewportHeight
      ensures colorRandom.lastValue == 0 && yPosRandom.lastValue == 0
    {
      activeComments := [];
      canvasWidth := viewportWidth;
      canvasHeight := viewportHeight;
      colorRandom := new CustomRandom(1000, 0, |AVAILABLE_COLORS|);
      yPosRandom := new CustomRandom(1000, 0, ROW_SAMPLES);
    }

    /**
     * `addCommentToCanvas`: with flow disabled nothing happens; otherwise one
     * comment is appended, spawned at the right edge on a row of the current
     * canvas, with a palette color and the fixed duration. The row sampler
     * is drawn before the color sampler.
     */
    method AddComment(text: string, allowFlow: bool, sliderValue: Option<int>, sliderMin: int,
                      textWidth: real, now: int, rowDraws: seq<real>, colorDraws: seq<real>)
      requires Valid() && sliderMin + ROW_PADDING > 0
      requires ValidDraws(rowDraws) && HasFresh(rowDraws, 0, ROW_SAMPLES, yPosRandom.lastValue)
      requires ValidDraws(colorDraws) && HasFresh(colorDraws, 0, |AVAILABLE_COLORS|, colorRandom.lastValue)
      modifies this`activeComments, yPosRandom`lastValue, colorRandom`lastValue
      ensures Valid()
      ensures !allowFlow ==> activeComments == old(activeComments) &&
                             yPosRandom.lastValue == old(yPosRandom.lastValue) &&
                             colorRandom.lastValue == old(colorRandom.lastValue)
      ensures allowFlow ==> |activeComments| == |old(activeComments)| + 1 &&
                            activeComments[..|old(activeComments)|] == old(activeComments)
      ensures allowFlow ==> 0 <= yPosRandom.lastValue < ROW_SAMPLES &&
                            0 <= colorRandom.lastValue < |AVAILABLE_COLORS|
      ensures allowFlow ==>
                var c := activeComments[|activeComments| - 1];
                var size := FontSize(sliderValue, sliderMin);
                && c.text == text && c.x == canvasWidth && c.startTime == now
                && c.duration == COMMENT_DURATION_MS && c.width == textWidth && c.fontSize == size
                && c.row == RowIndex(yPosRandom.lastValue, RowCount(canvasHeight, size))
                && c.row < RowCount(canvasHeight, size)
                && c.color == AVAILABLE_COLORS[colorRandom.lastValue] && c.color in AVAILABLE_COLORS
      ensures allowFlow ==> yPosRandom.lastValue != old(yPosRandom.lastValue) &&
                            colorRandom.lastValue != old(colorRandom.lastValue)
    {
      if !allowFlow {
        return;
      }
      var size := FontSize(sliderValue, sliderMin);
      var rows := RowCount(canvasHeight, size);
      var sample, _ := yPosRandom.GetNotNearlyRandomValue(rowDraws);
      var row := RowIndex(sample, rows);
      var colorIndex, _ := colorRandom.GetRandomValue(colorDraws);
      var comment := Comment(text, canvasWidth, row, AVAILABLE_COLORS[colorIndex], size,
                             now, COMMENT_DURATION_MS, textWidth);
      activeComments := activeComments + [comment];
    }

    /**
     * One frame of `animateCanvasComments`: the canvas takes the video's size
     * once the video has a frame (`readyState >= 2`), the viewport's size
     * otherwise; then a loop from the last comment down to the first splices
     * out every comment whose time is up.
     */
    method AnimateFrame(videoReady: bool, videoWidth: nat, videoHeight: nat,
                        innerWidth: nat, innerHeight: nat, now: int)
      requires Valid()
      modifies this`activeComments, this`canvasWidth, this`canvasHeight
      ensures Valid()
      ensures canvasWidth == (if videoReady then videoWidth else innerWidth)
      ensures canvasHeight == (if videoReady then videoHeight else innerHeight)
      ensures activeComments == Survivors(old(activeComments), now)
    {
      if videoReady {
        canvasWidth, canvasHeight := videoWidth, videoHeight;
      } else {
        canvasWidth, canvasHeight := innerWidth, innerHeight;
      }
      ghost var original := activeComments;
      var i := |activeComments|;
      assert original[..i] == original && original[i..] == [];
      while i > 0
        modifies this`activeComments
        invariant 0 <= i <= |original|
        invariant activeComments == original[..i] + Survivors(original[i..], now)
      {
        i := i - 1;
        FrameStep(original, i, now, activeComments);
        var comment := activeComments[i];
        if now - comment.startTime >= comment.duration {
          activeComments := activeComments[..i] + activeComments[i + 1..];
        }
      }
      assert original[..0] == [] && original[0..] == original;
    }
  }
}

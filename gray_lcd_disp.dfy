/**
 * The grey LCD display task: it keeps a FIFO of detection results handed
 * over by the detector, converts each camera frame to grey RGB565, and
 * shows it with the newest result that is not later than the frame.
 * The mutex, the event group waits and the LCD drawing are not modelled;
 * the queue methods are sequential operations of one object.
 */
module GrayLcdDisp {
  import opened DlTypes
  import opened Rgb565

  /** `struct timeval`. */
  datatype Timeval = Timeval(sec: int, usec: int)

  /** `compare_timestamp`: t1 is strictly earlier than t2, seconds first, then microseconds. */
  function Earlier(t1: Timeval, t2: Timeval): (r: bool)
    ensures r <==> t1.sec < t2.sec || (t1.sec == t2.sec && t1.usec < t2.usec)
  {
    if t1.sec == t2.sec then t1.usec < t2.usec else t1.sec < t2.sec
  }

  /** Exactly one of "earlier", "later" and "equal" holds, and "earlier" is transitive. */
  lemma EarlierIsStrictTotalOrder(a: Timeval, b: Timeval, c: Timeval)
    ensures !(Earlier(a, b) && Earlier(b, a))
    ensures Earlier(a, b) || Earlier(b, a) || a == b
    ensures Earlier(a, b) && Earlier(b, c) ==> Earlier(a, c)
    ensures Earlier(a, b) && !Earlier(c, b) ==> Earlier(a, c)
  {
  }

  /** `detect::WhoDetect::result_t`: the boxes of one inference and the timestamp of its frame. */
  datatype DetectResult = DetectResult(detRes: seq<DetBox>, timestamp: Timeval)

  /** The value-initialised result `{}`. */
  const DefaultResult := DetectResult([], Timeval(0, 0))

  /**
   * How many results `update_result` pops for a frame taken at `t`: the
   * longest prefix of the queue whose timestamps are not later than `t`.
   */
  function PopCount(q: seq<DetectResult>, t: Timeval): (k: nat)
    ensures k <= |q|
    ensures forall j :: 0 <= j < k ==> !Earlier(t, q[j].timestamp)
    ensures k < |q| ==> Earlier(t, q[k].timestamp)
  {
    if q == [] || Earlier(t, q[0].timestamp) then 0 else 1 + PopCount(q[1..], t)
  }

  /** The two facts of `PopCount`'s contract determine it. */
  lemma {:induction false} PopCountUnique(q: seq<DetectResult>, t: Timeval, k: nat)
    requires k <= |q|
    requires forall j :: 0 <= j < k ==> !Earlier(t, q[j].timestamp)
    requires k < |q| ==> Earlier(t, q[k].timestamp)
    ensures k == PopCount(q, t)
  {
    if k > 0 {
      PopCountUnique(q[1..], t, k - 1);
    }
  }

  /** The queue in the order results arrive: no entry earlier than one before it. */
  predicate TimeOrdered(q: seq<DetectResult>) {
    forall i, j :: 0 <= i < j < |q| ==> !Earlier(q[j].timestamp, q[i].timestamp)
  }

  /**
   * On a time-ordered queue the popped prefix is exactly the set of results
   * not later than the frame: nothing not later than it stays behind.
   */
  lemma SortedQueuePopsAllEarlier(q: seq<DetectResult>, t: Timeval, j: nat)
    requires TimeOrdered(q) && j < |q|
    ensures j < PopCount(q, t) <==> !Earlier(t, q[j].timestamp)
  {
    var k := PopCount(q, t);
    if j >= k {
      EarlierIsStrictTotalOrder(t, q[k].timestamp, q[j].timestamp);
    }
  }

  /**
   * `r` is what remains of queue `q` and current result `cur` after popping
   * some prefix: the queue's suffix, and the last popped entry or `cur` when
   * nothing was popped.
   */
  ghost predicate PoppedFrom(q: seq<DetectResult>, cur: DetectResult, r: (seq<DetectResult>, DetectResult)) {
    exists m :: 0 <= m <= |q| && r.0 == q[m..] && r.1 == (if m == 0 then cur else q[m - 1])
  }

  /** Popping nothing is a way of popping a prefix. */
  lemma PoppedNothing(q: seq<DetectResult>, cur: DetectResult)
    ensures PoppedFrom(q, cur, (q, cur))
  {
    assert q == q[0..];
  }

  /** Popping a prefix and then a prefix of the rest pops a prefix. */
  lemma PoppedTwice(q: seq<DetectResult>, cur: DetectResult,
                    u: (seq<DetectResult>, DetectResult), r: (seq<DetectResult>, DetectResult))
    requires PoppedFrom(q, cur, u) && PoppedFrom(u.0, u.1, r)
    ensures PoppedFrom(q, cur, r)
  {
    var m1 :| 0 <= m1 <= |q| && u.0 == q[m1..] && u.1 == (if m1 == 0 then cur else q[m1 - 1]);
    var m2 :| 0 <= m2 <= |u.0| && r.0 == u.0[m2..] && r.1 == (if m2 == 0 then u.1 else u.0[m2 - 1]);
    if m2 == 0 {
      assert r.0 == q[m1..] && r.1 == (if m1 == 0 then cur else q[m1 - 1]);
    } else {
      DropDrop(q, m1, m2);
      assert r.0 == q[m1 + m2..] && r.1 == q[m1 + m2 - 1];
    }
  }

  lemma DropDrop<T>(q: seq<T>, i: nat, j: nat)
    requires 0 < j && i + j <= |q|
    ensures q[i..][j..] == q[i + j..] && q[i..][j - 1] == q[i + j - 1]
  {
  }

  /** The queue and the current result after `update_result` for a frame taken at `t`. */
  function AfterUpdate(q: seq<DetectResult>, cur: DetectResult, t: Timeval): (r: (seq<DetectResult>, DetectResult))
    ensures PoppedFrom(q, cur, r)
    ensures r.0 == [] || Earlier(t, r.0[0].timestamp)
    ensures r.1 == cur || !Earlier(t, r.1.timestamp)
  {
    var k := PopCount(q, t);
    (q[k..], if k == 0 then cur else q[k - 1])
  }

  /**
   * The display's time-order invariant: the queue is in arrival order and
   * holds nothing earlier than the result on screen.
   */
  predicate Ahead(q: seq<DetectResult>, cur: DetectResult) {
    && TimeOrdered(q)
    && forall j :: 0 <= j < |q| ==> !Earlier(q[j].timestamp, cur.timestamp)
  }

  /**
   * `update_result` never shows a result older than the one on screen, and
   * the invariant holds again for the new queue and result.
   */
  lemma AfterUpdateKeepsAhead(q: seq<DetectResult>, cur: DetectResult, t: Timeval)
    requires Ahead(q, cur)
    ensures var r := AfterUpdate(q, cur, t);
      !Earlier(r.1.timestamp, cur.timestamp) && Ahead(r.0, r.1)
  {
    var k := PopCount(q, t);
    var rest := q[k..];
    forall i, j | 0 <= i < j < |rest|
      ensures !Earlier(rest[j].timestamp, rest[i].timestamp)
    {
      assert rest[i] == q[k + i] && rest[j] == q[k + j];
    }
    if k > 0 {
      forall j | 0 <= j < |rest|
        ensures !Earlier(rest[j].timestamp, q[k - 1].timestamp)
      {
        assert rest[j] == q[k + j];
      }
    }
  }

  /**
   * `save_detect_result` keeps the invariant when the new result is not
   * earlier than the one on screen or the last one queued.
   */
  lemma SaveKeepsAhead(q: seq<DetectResult>, cur: DetectResult, r: DetectResult)
    requires Ahead(q, cur) && !Earlier(r.timestamp, cur.timestamp)
    requires q != [] ==> !Earlier(r.timestamp, q[|q| - 1].timestamp)
    ensures Ahead(q + [r], cur)
  {
    var s := q + [r];
    forall i, j | 0 <= i < j < |s|
      ensures !Earlier(s[j].timestamp, s[i].timestamp)
    {
      if j == |q| {
        var last := q[|q| - 1];
        EarlierIsStrictTotalOrder(r.timestamp, q[i].timestamp, last.timestamp);
      }
    }
  }

  /**
   * Over any run of the display loop the invariant is kept, and the result on
   * screen at the end is never older than the one at the start.
   */
  lemma {:induction false} HandOffKeepsAhead(q: seq<DetectResult>, cur: DetectResult, events: seq<Wake>)
    requires Ahead(q, cur)
    ensures var r := HandOff(q, cur, events);
      !Earlier(r.1.timestamp, cur.timestamp) && Ahead(r.0, r.1)
    decreases |events|
  {
    if events == [] || events[0].bits.stop {
    } else if events[0].bits.pause {
      if |events| >= 2 && !events[1].bits.stop {
        HandOffKeepsAhead(q, cur, events[2..]);
      }
    } else if events[0].frame.format == FmtOther {
      HandOffKeepsAhead(q, cur, events[1..]);
    } else {
      var u := AfterUpdate(q, cur, events[0].frame.timestamp);
      AfterUpdateKeepsAhead(q, cur, events[0].frame.timestamp);
      HandOffKeepsAhead(u.0, u.1, events[1..]);
      var r := HandOff(u.0, u.1, events[1..]);
      EarlierIsStrictTotalOrder(r.1.timestamp, cur.timestamp, u.1.timestamp);
    }
  }

  /** The frame formats the display task converts. */
  datatype PixFormat = FmtRgb565 | FmtRgb888 | FmtOther

  /** What `cam_fb_peek` returns: extents, format, pixel bytes and capture time. */
  datatype Frame = Frame(width: nat, height: nat, format: PixFormat, buf: seq<bv8>, timestamp: Timeval)

  /** A camera frame: 16-bit extents, a pixel count that fits an `int`, and all its pixel bytes. */
  predicate FrameFits(f: Frame) {
    && f.width < 0x1_0000 && f.height < 0x1_0000
    && f.width * f.height < 0x8000_0000
    && (f.format == FmtRgb565 ==> 2 * (f.width * f.height) <= |f.buf|)
    && (f.format == FmtRgb888 ==> 3 * (f.width * f.height) <= |f.buf|)
  }

  /** The bits `xEventGroupWaitBits` returns. */
  datatype EventBits = EventBits(newFrame: bool, pause: bool, stop: bool, resume: bool)

  /** One wake-up of the display task: the bits it woke on and the frame a peek would return then. */
  datatype Wake = Wake(bits: EventBits, frame: Frame)

  /**
   * The queue and current result after the display loop handles `events` (a wait
   * while paused consumes the next wake-up): STOP ends the loop and wins over
   * PAUSE, PAUSE wins over a frame, a frame in an unsupported format leaves
   * both untouched, and any other frame runs `update_result`.
   */
  function HandOff(q: seq<DetectResult>, cur: DetectResult, events: seq<Wake>): (seq<DetectResult>, DetectResult)
    decreases |events|
  {
    if events == [] || events[0].bits.stop then (q, cur)
    else if events[0].bits.pause then
      if |events| < 2 || events[1].bits.stop then (q, cur) else HandOff(q, cur, events[2..])
    else if events[0].frame.format == FmtOther then HandOff(q, cur, events[1..])
    else
      var r := AfterUpdate(q, cur, events[0].frame.timestamp);
      HandOff(r.0, r.1, events[1..])
  }

  /** Whether the display loop reaches a STOP within `events`. */
  function Stops(events: seq<Wake>): bool
    decreases |events|
  {
    if events == [] then false
    else if events[0].bits.stop then true
    else if events[0].bits.pause then
      if |events| < 2 then false else events[1].bits.stop || Stops(events[2..])
    else Stops(events[1..])
  }

  /**
   * However the display task runs, the queue only ever loses a prefix, and the
   * shown result is the old one or the last result that prefix held.
   */
  lemma {:induction false} HandOffPopsPrefix(q: seq<DetectResult>, cur: DetectResult, events: seq<Wake>)
    ensures PoppedFrom(q, cur, HandOff(q, cur, events))
    decreases |events|
  {
    if events == [] || events[0].bits.stop {
      PoppedNothing(q, cur);
    } else if events[0].bits.pause {
      if |events| < 2 || events[1].bits.stop {
        PoppedNothing(q, cur);
      } else {
        HandOffPopsPrefix(q, cur, events[2..]);
      }
    } else if events[0].frame.format == FmtOther {
      HandOffPopsPrefix(q, cur, events[1..]);
    } else {
      var u := AfterUpdate(q, cur, events[0].frame.timestamp);
      HandOffPopsPrefix(u.0, u.1, events[1..]);
      PoppedTwice(q, cur, u, HandOff(u.0, u.1, events[1..]));
    }
  }

  /** `static_cast<size_t>(width) * height * 2` with the 32-bit `size_t` of the target. */
  function BufferSize(width: nat, height: nat): (n: nat)
    requires width < 0x1_0000 && height < 0x1_0000
    ensures n < 0x1_0000_0000
    ensures width * height < 0x8000_0000 ==> n == 2 * (width * height)
  {
    (width * height * 2) % 0x1_0000_0000
  }

  /** The float luminance `static_cast<uint8_t>(0.299 r + 0.587 g + 0.114 b)`, left uninterpreted. */
  type Luma = (bv8, bv8, bv8) -> bv8

  /** The grey pixel `convert_rgb565_to_gray` makes of source pixel `i`. */
  function Gray565At(src: seq<bv8>, i: nat, luma: Luma): bv16
    requires 2 * i + 1 < |src|
  {
    var pixel := JoinBytes(src[2 * i], src[2 * i + 1]);
    var r8 := Expand5(Red5(pixel));
    var g8 := Expand6(Green6(pixel));
    var b8 := Expand5(Blue5(pixel));
    Gray565(luma(r8, g8, b8))
  }

  /** The grey pixel `convert_rgb888_to_gray` makes of source pixel `i`. */
  function Gray888At(src: seq<bv8>, i: nat, luma: Luma): bv16
    requires 3 * i + 2 < |src|
  {
    Gray565(luma(src[3 * i], src[3 * i + 1], src[3 * i + 2]))
  }

  /** `[hi, lo]` of the RGB565 colour of a palette entry; missing components count as 0. */
  function PaletteEntry(color: seq<bv8>): (e: seq<bv8>)
    ensures |e| == 2
    ensures var p := JoinBytes(e[0], e[1]);
            && Red5(p) == Channel(color, 0) >> 3
            && Green6(p) == Channel(color, 1) >> 2
            && Blue5(p) == Channel(color, 2) >> 3
  {
    Bytes565(Pack565(Channel(color, 0), Channel(color, 1), Channel(color, 2)))
  }

  function Channel(color: seq<bv8>, k: nat): bv8 {
    if |color| > k then color[k] else 0
  }

  class SimpleGrayLcdDisp {
    /** `m_results`, front first. */
    var results: seq<DetectResult>
    /** `m_result`, the result drawn on the frames. */
    var result: DetectResult
    /** `m_gray_buf`. */
    var grayBuf: array<bv8>
    /** `m_palette565`. */
    const palette565: seq<seq<bv8>>

    /** Converts every palette colour, in order, to its two RGB565 bytes. */
    constructor (palette: seq<seq<bv8>>)
      ensures |palette565| == |palette|
      ensures forall i :: 0 <= i < |palette| ==> palette565[i] == PaletteEntry(palette[i])
      ensures results == [] && result == DefaultResult && grayBuf.Length == 0
    {
      var converted: seq<seq<bv8>> := [];
      for i := 0 to |palette|
        invariant |converted| == i
        invariant forall j :: 0 <= j < i ==> converted[j] == PaletteEntry(palette[j])
      {
        converted := converted + [PaletteEntry(palette[i])];
      }
      palette565 := converted;
      results := [];
      result := DefaultResult;
      grayBuf := new bv8[0];
    }

    /** `save_detect_result`: append at the tail. */
    method SaveDetectResult(r: DetectResult)
      modifies this`results
      ensures results == old(results) + [r]
    {
      results := results + [r];
    }

    /** `cleanup_results`: empty the queue and reset the current result. */
    method CleanupResults()
      modifies this`results, this`result
      ensures results == [] && result == DefaultResult
    {
      results := [];
      result := DefaultResult;
    }

    /**
     * `update_result`: pop results while the front is not later than the
     * frame, keeping the last one popped as the current result.
     */
    method UpdateResult(frameTime: Timeval)
      modifies this`results, this`result
      ensures (results, result) == AfterUpdate(old(results), old(result), frameTime)
    {
      ghost var k := 0;
      while results != []
        invariant k <= |old(results)| && results == old(results)[k..]
        invariant forall j :: 0 <= j < k ==> !Earlier(frameTime, old(results)[j].timestamp)
        invariant result == if k == 0 then old(result) else old(results)[k - 1]
        decreases |results|
      {
        var front := results[0];
        if !Earlier(frameTime, front.timestamp) {
          result := front;
          results := results[1..];
          k := k + 1;
        } else {
          break;
        }
      }
      PopCountUnique(old(results), frameTime, k);
    }

    /** `ensure_buffer`: reallocate a zeroed buffer only when the size differs. */
    method EnsureBuffer(width: nat, height: nat)
      requires width < 0x1_0000 && height < 0x1_0000
      modifies this`grayBuf
      ensures grayBuf.Length == BufferSize(width, height)
      ensures old(grayBuf.Length) == BufferSize(width, height) ==> grayBuf == old(grayBuf)
      ensures old(grayBuf.Length) != BufferSize(width, height) ==>
                fresh(grayBuf) && forall i :: 0 <= i < grayBuf.Length ==> grayBuf[i] == 0
    {
      var needed := BufferSize(width, height);
      if grayBuf.Length != needed {
        grayBuf := new bv8[needed](_ => 0);
      }
    }

    /**
     * `convert_rgb565_to_gray`: pixel i of the output, high byte first, is the
     * grey of source pixel i; bytes from 2*width*height on are not written.
     */
    method ConvertRgb565ToGray(src: seq<bv8>, dst: array<bv8>, width: int, height: int, luma: Luma)
      requires width * height > 0 ==> 2 * (width * height) <= |src| && 2 * (width * height) <= dst.Length
      modifies dst
      ensures forall i :: 0 <= i < width * height ==>
                dst[2 * i] == Bytes565(Gray565At(src, i, luma))[0] && dst[2 * i + 1] == Bytes565(Gray565At(src, i, luma))[1]
      ensures forall j :: 0 <= j < dst.Length && j >= 2 * (width * height) ==> dst[j] == old(dst[j])
    {
      var pixelCount := width * height;
      var i := 0;
      while i < pixelCount
        invariant 0 <= i && (i == 0 || i <= pixelCount)
        invariant forall k :: 0 <= k < i ==>
                    dst[2 * k] == Bytes565(Gray565At(src, k, luma))[0] && dst[2 * k + 1] == Bytes565(Gray565At(src, k, luma))[1]
        invariant forall j :: 0 <= j < dst.Length && j >= 2 * i ==> dst[j] == old(dst[j])
      {
        var pixel := JoinBytes(src[i * 2], src[i * 2 + 1]);
        var r8 := Expand5(Red5(pixel));
        var g8 := Expand6(Green6(pixel));
        var b8 := Expand5(Blue5(pixel));
        var gray := Gray565(luma(r8, g8, b8));
        assert gray == Gray565At(src, i, luma);
        dst[i * 2] := (gray >> 8) as bv8;
        dst[i * 2 + 1] := (gray & 0xFF) as bv8;
        i := i + 1;
      }
    }

    /**
     * `convert_rgb888_to_gray`: pixel i of the output, high byte first, is the
     * grey of source pixel i; bytes from 2*width*height on are not written.
     */
    method ConvertRgb888ToGray(src: seq<bv8>, dst: array<bv8>, width: int, height: int, luma: Luma)
      requires width * height > 0 ==> 3 * (width * height) <= |src| && 2 * (width * height) <= dst.Length
      modifies dst
      ensures forall i :: 0 <= i < width * height ==>
                dst[2 * i] == Bytes565(Gray888At(src, i, luma))[0] && dst[2 * i + 1] == Bytes565(Gray888At(src, i, luma))[1]
      ensures forall j :: 0 <= j < dst.Length && j >= 2 * (width * height) ==> dst[j] == old(dst[j])
    {
      var pixelCount := width * height;
      var i := 0;
      while i < pixelCount
        invariant 0 <= i && (i == 0 || i <= pixelCount)
        invariant forall k :: 0 <= k < i ==>
                    dst[2 * k] == Bytes565(Gray888At(src, k, luma))[0] && dst[2 * k + 1] == Bytes565(Gray888At(src, k, luma))[1]
        invariant forall j :: 0 <= j < dst.Length && j >= 2 * i ==> dst[j] == old(dst[j])
      {
        var base := i * 3;
        var gray := Gray565(luma(src[base], src[base + 1], src[base + 2]));
        assert gray == Gray888At(src, i, luma);
        dst[i * 2] := (gray >> 8) as bv8;
        dst[i * 2 + 1] := (gray & 0xFF) as bv8;
        i := i + 1;
      }
    }

    /**
     * One pass of the display loop past the event checks: size the buffer, convert
     * the frame, and only for a supported format take over the results.
     */
    method HandleFrame(fb: Frame, luma: Luma)
      requires FrameFits(fb)
      modifies this, grayBuf
      ensures grayBuf.Length == BufferSize(fb.width, fb.height)
      ensures old(grayBuf.Length) == BufferSize(fb.width, fb.height) ==>
                grayBuf == old(grayBuf)
                && forall j :: 0 <= j < grayBuf.Length && (fb.format == FmtOther || j >= 2 * (fb.width * fb.height)) ==>
                     grayBuf[j] == old(grayBuf[j])
      ensures old(grayBuf.Length) != BufferSize(fb.width, fb.height) ==>
                fresh(grayBuf)
                && forall j :: 0 <= j < grayBuf.Length && (fb.format == FmtOther || j >= 2 * (fb.width * fb.height)) ==>
                     grayBuf[j] == 0
      ensures fb.format == FmtRgb565 ==> forall i :: 0 <= i < fb.width * fb.height ==>
                grayBuf[2 * i] == Bytes565(Gray565At(fb.buf, i, luma))[0]
                && grayBuf[2 * i + 1] == Bytes565(Gray565At(fb.buf, i, luma))[1]
      ensures fb.format == FmtRgb888 ==> forall i :: 0 <= i < fb.width * fb.height ==>
                grayBuf[2 * i] == Bytes565(Gray888At(fb.buf, i, luma))[0]
                && grayBuf[2 * i + 1] == Bytes565(Gray888At(fb.buf, i, luma))[1]
      ensures fb.format == FmtOther ==> results == old(results) && result == old(result)
      ensures fb.format != FmtOther ==> (results, result) == AfterUpdate(old(results), old(result), fb.timestamp)
    {
      EnsureBuffer(fb.width, fb.height);
      if fb.format == FmtRgb565 {
        ConvertRgb565ToGray(fb.buf, grayBuf, fb.width, fb.height, luma);
      } else if fb.format == FmtRgb888 {
        ConvertRgb888ToGray(fb.buf, grayBuf, fb.width, fb.height, luma);
      } else {
        return;
      }
      UpdateResult(fb.timestamp);
    }

    /**
     * The display task's loop over a finite run of wake-ups.  It returns once STOP is
     * seen (`stopped`) or the wake-ups run out; the queue and current result
     * then follow `HandOff`.
     */
    method Task(events: seq<Wake>, luma: Luma) returns (stopped: bool)
      requires forall e :: e in events ==> FrameFits(e.frame)
      modifies this, grayBuf
      ensures (results, result) == HandOff(old(results), old(result), events)
      ensures stopped == Stops(events)
    {
      ghost var q0, r0 := results, result;
      var i := 0;
      stopped := false;
      while i < |events|
        invariant i <= |events|
        invariant HandOff(results, result, events[i..]) == HandOff(q0, r0, events)
        invariant Stops(events[i..]) == Stops(events)
        invariant grayBuf == old(grayBuf) || fresh(grayBuf)
        decreases |events| - i
      {
        var bits := events[i].bits;
        if bits.stop {
          stopped := true;
          break;
        } else if bits.pause {
          if i + 1 == |events| {
            break;
          }
          if events[i + 1].bits.stop {
            stopped := true;
            break;
          }
          assert events[i..][2..] == events[i + 2..];
          i := i + 2;
          continue;
        }
        assert events[i..][1..] == events[i + 1..];
        HandleFrame(events[i].frame, luma);
        i := i + 1;
      }
    }
  }
}

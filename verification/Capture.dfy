/** Capturing the screen: the rectangle around all monitors, where each is copied to, and the rows of the bitmap. */
module Capture {
  import opened Bytes
  import opened Options

  /** The RECT of a monitor, in 32-bit coordinates of the virtual screen. */
  datatype Rect = Rect(left: int32, top: int32, right: int32, bottom: int32)

  predicate WellFormed(r: Rect) {
    r.left <= r.right && r.top <= r.bottom
  }

  function SmallestBoundingRect(a: Rect, b: Rect): Rect {
    Rect(if a.left < b.left then a.left else b.left, if a.top < b.top then a.top else b.top,
         if a.right > b.right then a.right else b.right, if a.bottom > b.bottom then a.bottom else b.bottom)
  }

  predicate Contains(outer: Rect, inner: Rect) {
    outer.left <= inner.left && outer.top <= inner.top && inner.right <= outer.right && inner.bottom <= outer.bottom
  }

  /** std::transform_reduce may combine its operands in any order and any grouping. */
  datatype Grouping = One(rect: Rect) | Pair(first: Grouping, second: Grouping)

  function Operands(g: Grouping): set<Rect> {
    match g
    case One(r) => {r}
    case Pair(a, b) => Operands(a) + Operands(b)
  }

  function Reduce(g: Grouping): Rect {
    match g
    case One(r) => r
    case Pair(a, b) => SmallestBoundingRect(Reduce(a), Reduce(b))
  }

  /** However the reduction goes, it contains every operand and is contained in whatever contains them all. */
  lemma {:induction false} ReduceIsLeast(g: Grouping, outer: Rect)
    ensures forall r <- Operands(g) :: Contains(Reduce(g), r)
    ensures (forall r <- Operands(g) :: Contains(outer, r)) <==> Contains(outer, Reduce(g))
  {
    match g
    case One(r) =>
    case Pair(a, b) =>
      ReduceIsLeast(a, outer);
      ReduceIsLeast(b, outer);
  }

  /** So every permutation and grouping of the same monitors gives the same rectangle. */
  lemma ReduceIndependentOfGrouping(g: Grouping, h: Grouping)
    requires Operands(g) == Operands(h)
    ensures Reduce(g) == Reduce(h)
  {
    ReduceIsLeast(g, Reduce(h));
    ReduceIsLeast(h, Reduce(g));
    ReduceIsLeast(h, Reduce(h));
    ReduceIsLeast(g, Reduce(g));
  }

  function InListOrder(monitors: seq<Rect>): Grouping
    requires monitors != []
  {
    if |monitors| == 1 then One(monitors[0])
    else Pair(InListOrder(monitors[..|monitors| - 1]), One(monitors[|monitors| - 1]))
  }

  lemma {:induction false} OperandsInListOrder(monitors: seq<Rect>)
    requires monitors != []
    ensures forall r :: r in Operands(InListOrder(monitors)) <==> r in monitors
  {
    if |monitors| > 1 {
      var before := monitors[..|monitors| - 1];
      OperandsInListOrder(before);
      assert monitors == before + [monitors[|monitors| - 1]];
    }
  }

  /** 32-bit wrap-around of long and int arithmetic. */
  function Wrap(x: int): int32 {
    ToSigned(x % U32)
  }

  datatype Blit = Blit(x: int32, y: int32, width: int32, height: int32)

  datatype Bitmap = Bitmap(width: uint32, height: uint32, rightFormat: bool)

  datatype CaptureError =
    | NoMonitorsDetected | ScreenTooLargeToCapture | ProvidedBitmapTooSmall | PixelFormatMismatch
    | FailedToCreateMonitorDC | DesktopCopyFailed

  datatype Captured = Screen(width: int32, height: int32, blits: seq<Blit>) | Failed(error: CaptureError)

  function Width(r: Rect): int {
    r.right - r.left
  }

  function Height(r: Rect): int {
    r.bottom - r.top
  }

  /** Where a monitor belongs in the bitmap of all of them. */
  function BlitOf(all: Rect, monitor: Rect): Blit {
    Blit(Wrap(monitor.left - all.left), Wrap(monitor.top - all.top), Wrap(Width(monitor)), Wrap(Height(monitor)))
  }

  method Reduction(monitors: seq<Rect>) returns (all: Rect)
    requires monitors != []
    ensures all == Reduce(InListOrder(monitors))
  {
    all := monitors[0];
    for i := 1 to |monitors|
      invariant all == Reduce(InListOrder(monitors[..i]))
    {
      all := SmallestBoundingRect(all, monitors[i]);
      assert monitors[..i + 1][..i] == monitors[..i];
    }
    assert monitors[..|monitors|] == monitors;
  }

  method Placed(monitor: Rect, all: Rect) returns (blit: Blit)
    ensures blit == BlitOf(all, monitor)
  {
    var targetX, targetY := Wrap(monitor.left - all.left), Wrap(monitor.top - all.top);
    var width, height := Wrap(monitor.right - monitor.left), Wrap(monitor.bottom - monitor.top);
    return Blit(targetX, targetY, width, height);
  }

  /** What becomes of a monitor: whether a device context for it can be had, and whether copying from that succeeds. */
  datatype Outcome = NoContext | NotCopied | Copied

  /** Monitor k is the first not to be copied. */
  predicate FirstFailure(outcomes: seq<Outcome>, k: nat) {
    k < |outcomes| && outcomes[k] != Copied && forall j :: 0 <= j < k ==> outcomes[j] == Copied
  }

  function ErrorOf(o: Outcome): (error: CaptureError)
    requires o != Copied
    ensures o == NoContext ==> error == FailedToCreateMonitorDC
    ensures o == NotCopied ==> error == DesktopCopyFailed
  {
    if o == NoContext then FailedToCreateMonitorDC else DesktopCopyFailed
  }

  /** The loop of device copies: each monitor once, in list order, up to the first that fails. */
  method CopyMonitors(monitors: seq<Rect>, all: Rect, outcomes: seq<Outcome>)
    returns (blits: seq<Blit>, error: Option<CaptureError>)
    requires |outcomes| == |monitors|
    ensures |blits| <= |monitors| && forall i :: 0 <= i < |blits| ==> blits[i] == BlitOf(all, monitors[i])
    ensures forall i :: 0 <= i < |blits| ==> outcomes[i] == Copied
    ensures if |blits| == |monitors| then error == None
            else FirstFailure(outcomes, |blits|) && error == Some(ErrorOf(outcomes[|blits|]))
  {
    blits, error := [], None;
    for i := 0 to |monitors|
      invariant |blits| == i && forall j :: 0 <= j < i ==> blits[j] == BlitOf(all, monitors[j])
      invariant forall j :: 0 <= j < i ==> outcomes[j] == Copied
    {
      if outcomes[i] == NoContext {
        return blits, Some(FailedToCreateMonitorDC);
      }
      var blit := Placed(monitors[i], all);
      if outcomes[i] == NotCopied {
        return blits, Some(DesktopCopyFailed);
      }
      blits := blits + [blit];
    }
  }

  /** Compared as unsigned numbers: a size that came out negative fits no bitmap of less than 2^31 pixels a side. */
  predicate Fits(bitmap: Bitmap, monitors: seq<Rect>)
    requires monitors != []
  {
    var all := Reduce(InListOrder(monitors));
    ToUnsigned(Wrap(Width(all))) <= bitmap.width && ToUnsigned(Wrap(Height(all))) <= bitmap.height
  }

  /** CaptureScreen. The bitmap passed in is only checked; the capture goes to a new one of the size computed. */
  method CaptureScreen(monitors: seq<Rect>, existing: Option<Bitmap>, outcomes: seq<Outcome>) returns (r: Captured)
    requires |outcomes| == |monitors|
    ensures r == Failed(NoMonitorsDetected) <==> monitors == []
    ensures r != Failed(ScreenTooLargeToCapture)  // on this target; see GuardNeverFires
    ensures r == Failed(ProvidedBitmapTooSmall) <==> monitors != [] && existing.Some? && !Fits(existing.value, monitors)
    ensures r == Failed(PixelFormatMismatch) <==>
              monitors != [] && existing.Some? && Fits(existing.value, monitors) && !existing.value.rightFormat
    ensures r == Failed(FailedToCreateMonitorDC) || r == Failed(DesktopCopyFailed) ==>
              exists k: nat :: FirstFailure(outcomes, k) && r == Failed(ErrorOf(outcomes[k]))
    ensures r.Screen? <==>
              && monitors != [] && (existing.Some? ==> Fits(existing.value, monitors) && existing.value.rightFormat)
              && forall k :: 0 <= k < |outcomes| ==> outcomes[k] == Copied
    ensures r.Screen? ==>
              var all := Reduce(InListOrder(monitors));
              r.width == Wrap(Width(all)) && r.height == Wrap(Height(all))
              && |r.blits| == |monitors| && forall i :: 0 <= i < |monitors| ==> r.blits[i] == BlitOf(all, monitors[i])
  {
    if |monitors| == 0 {
      return Failed(NoMonitorsDetected);
    }
    var all := Reduction(monitors);
    var minWidth, minHeight := Wrap(all.right - all.left), Wrap(all.bottom - all.top);
    // So the check for ScreenTooLargeToCapture lets everything pass.
    assert minWidth <= INT_MAX && minHeight <= INT_MAX;
    if existing.Some? {
      if existing.value.width < ToUnsigned(minWidth) || existing.value.height < ToUnsigned(minHeight) {
        return Failed(ProvidedBitmapTooSmall);
      }
      if !existing.value.rightFormat {
        return Failed(PixelFormatMismatch);
      }
    }
    var blits, error := CopyMonitors(monitors, all, outcomes);
    if error.Some? {
      return Failed(error.value);
    }
    return Screen(minWidth, minHeight, blits);
  }

  predicate Inside(b: Blit, width: int, height: int) {
    0 <= b.x && 0 <= b.y && 0 <= b.width && 0 <= b.height && b.x + b.width <= width && b.y + b.height <= height
  }

  /** The sizes computed are the true ones exactly when the virtual screen spans at most INT_MAX in each direction. The
      check meant to catch the rest compares a 32-bit long with INT_MAX and so never does. */
  lemma GuardNeverFires(all: Rect)
    requires WellFormed(all)
    ensures !(Wrap(Width(all)) > INT_MAX || Wrap(Height(all)) > INT_MAX)
    ensures Wrap(Width(all)) == Width(all) && Wrap(Height(all)) == Height(all) <==>
              Width(all) <= INT_MAX && Height(all) <= INT_MAX
  {
  }

  /** A screen that the check should have refused: its width comes out as -1. */
  lemma GuardFails()
    ensures var all := Rect(-0x8000_0000, 0, 0x7FFF_FFFF, 1);
            WellFormed(all) && Width(all) > INT_MAX && Wrap(Width(all)) == -1
  {
  }

  lemma WrapIs(x: int)
    requires -0x8000_0000 <= x < U32
    ensures Wrap(x) == if x <= INT_MAX then x else x - U32
  {
    if x < 0 {
      assert x % U32 == x + U32;
    }
  }

  /** A blit in one direction: from..to within low..high. */
  lemma AxisExact(low: int32, high: int32, from: int32, to: int32)
    requires low <= from <= to <= high
    ensures high - low <= INT_MAX ==> Wrap(from - low) == from - low && Wrap(to - from) == to - from
    ensures (0 <= Wrap(from - low) && 0 <= Wrap(to - from) && Wrap(from - low) + Wrap(to - from) <= Wrap(high - low))
            <==> high - low <= INT_MAX
  {
    WrapIs(from - low);
    WrapIs(to - from);
    WrapIs(high - low);
  }

  lemma BlitExact(all: Rect, monitor: Rect)
    requires WellFormed(monitor) && Contains(all, monitor)
    ensures Width(all) <= INT_MAX && Height(all) <= INT_MAX ==>
              BlitOf(all, monitor)
              == Blit(monitor.left - all.left, monitor.top - all.top, Width(monitor), Height(monitor))
    ensures Inside(BlitOf(all, monitor), Wrap(Width(all)), Wrap(Height(all))) <==>
              Width(all) <= INT_MAX && Height(all) <= INT_MAX
  {
    AxisExact(all.left, all.right, monitor.left, monitor.right);
    AxisExact(all.top, all.bottom, monitor.top, monitor.bottom);
  }

  lemma BoundsContain(monitors: seq<Rect>, i: nat)
    requires i < |monitors|
    ensures Contains(Reduce(InListOrder(monitors)), monitors[i])
  {
    OperandsInListOrder(monitors);
    ReduceIsLeast(InListOrder(monitors), monitors[i]);
  }

  /** A monitor is copied inside the bitmap exactly within those limits. Then it is copied whole, and lies relative to
      any other as it does on the screen, so monitors that do not overlap are not copied over one another. */
  lemma BlitsInside(monitors: seq<Rect>, i: nat, j: nat)
    requires i < |monitors| && j < |monitors| && WellFormed(monitors[i]) && WellFormed(monitors[j])
    ensures var all := Reduce(InListOrder(monitors));
            Inside(BlitOf(all, monitors[i]), Wrap(Width(all)), Wrap(Height(all))) <==>
              Width(all) <= INT_MAX && Height(all) <= INT_MAX
    ensures var all := Reduce(InListOrder(monitors));
            var a, b := BlitOf(all, monitors[i]), BlitOf(all, monitors[j]);
            Inside(a, Wrap(Width(all)), Wrap(Height(all))) ==>
              && a.width == Width(monitors[i]) && a.height == Height(monitors[i])
              && a.x - b.x == monitors[i].left - monitors[j].left && a.y - b.y == monitors[i].top - monitors[j].top
  {
    var all := Reduce(InListOrder(monitors));
    BoundsContain(monitors, i);
    BoundsContain(monitors, j);
    BlitExact(all, monitors[i]);
    BlitExact(all, monitors[j]);
  }

  lemma {:induction false} EdgesAreMonitors(monitors: seq<Rect>) returns (i: nat, j: nat)
    requires monitors != []
    ensures i < |monitors| && monitors[i].right == Reduce(InListOrder(monitors)).right
    ensures j < |monitors| && monitors[j].bottom == Reduce(InListOrder(monitors)).bottom
  {
    var n := |monitors| - 1;
    i, j := n, n;
    if n > 0 {
      var a, b := EdgesAreMonitors(monitors[..n]);
      var before := Reduce(InListOrder(monitors[..n]));
      i := if before.right > monitors[n].right then a else n;
      j := if before.bottom > monitors[n].bottom then b else n;
    }
  }

  /** Where a monitor's blit ends. */
  lemma BlitEnds(monitors: seq<Rect>, i: nat)
    requires i < |monitors| && WellFormed(monitors[i])
    requires var all := Reduce(InListOrder(monitors)); Width(all) <= INT_MAX && Height(all) <= INT_MAX
    ensures var all := Reduce(InListOrder(monitors));
            var blit := BlitOf(all, monitors[i]);
            && 0 <= Width(all) && 0 <= Height(all) && Inside(blit, Width(all), Height(all))
            && blit.x + blit.width == monitors[i].right - all.left
            && blit.y + blit.height == monitors[i].bottom - all.top
  {
    BoundsContain(monitors, i);
    BlitExact(Reduce(InListOrder(monitors)), monitors[i]);
    SizesExact(Reduce(InListOrder(monitors)));
  }

  lemma FitsMeans(monitors: seq<Rect>, bitmap: Bitmap)
    requires monitors != [] && WellFormed(monitors[0])
    requires var all := Reduce(InListOrder(monitors)); Width(all) <= INT_MAX && Height(all) <= INT_MAX
    ensures var all := Reduce(InListOrder(monitors));
            Fits(bitmap, monitors) <==> Width(all) <= bitmap.width && Height(all) <= bitmap.height
  {
    BlitEnds(monitors, 0);
    SizesExact(Reduce(InListOrder(monitors)));
  }

  /** Within those limits, the bitmap passed in is let through for its size exactly if every monitor would be copied
      inside it. */
  lemma FitsIff(monitors: seq<Rect>, bitmap: Bitmap)
    requires monitors != [] && forall m <- monitors :: WellFormed(m)
    requires var all := Reduce(InListOrder(monitors)); Width(all) <= INT_MAX && Height(all) <= INT_MAX
    ensures Fits(bitmap, monitors) <==>
              forall i :: 0 <= i < |monitors| ==>
                            Inside(BlitOf(Reduce(InListOrder(monitors)), monitors[i]), bitmap.width, bitmap.height)
  {
    assert monitors[0] in monitors;
    FitsMeans(monitors, bitmap);
    if Fits(bitmap, monitors) {
      forall i | 0 <= i < |monitors|
        ensures Inside(BlitOf(Reduce(InListOrder(monitors)), monitors[i]), bitmap.width, bitmap.height)
      {
        BlitEnds(monitors, i);
      }
    } else {
      var i, j := EdgesAreMonitors(monitors);
      BlitEnds(monitors, i);
      BlitEnds(monitors, j);
    }
  }

  lemma SizesExact(all: Rect)
    requires 0 <= Width(all) <= INT_MAX && 0 <= Height(all) <= INT_MAX
    ensures Wrap(Width(all)) == ToUnsigned(Wrap(Width(all))) == Width(all)
    ensures Wrap(Height(all)) == ToUnsigned(Wrap(Height(all))) == Height(all)
  {
  }

  // ---- GetPixelData ----

  /** Where row y starts: y * pitch, as a sum. */
  function RowStart(y: nat, pitch: nat): nat {
    if y == 0 then 0 else RowStart(y - 1, pitch) + pitch
  }

  lemma {:induction false} RowStartIs(y: nat, pitch: nat)
    ensures RowStart(y, pitch) == y * pitch
  {
    if y > 0 {
      RowStartIs(y - 1, pitch);
      assert y * pitch == (y - 1) * pitch + pitch;
    }
  }

  lemma {:induction false} RowsFollow(j: nat, k: nat, pitch: nat)
    requires j <= k
    ensures RowStart(j, pitch) <= RowStart(k, pitch)
    ensures j < k ==> RowStart(j, pitch) + pitch <= RowStart(k, pitch)
  {
    if j < k {
      RowsFollow(j, k - 1, pitch);
    }
  }

  /** The rows 0 to n - 1 all lie in the buffer. */
  predicate Holds(buffer: seq<byte>, pitch: nat, line: nat, n: nat) {
    forall y: nat :: y < n ==> RowStart(y, pitch) + line <= |buffer|
  }

  function Row(buffer: seq<byte>, pitch: nat, line: nat, y: nat): (r: seq<byte>)
    requires RowStart(y, pitch) + line <= |buffer|
    ensures |r| == line
  {
    buffer[RowStart(y, pitch)..RowStart(y, pitch) + line]
  }

  function Downward(buffer: seq<byte>, pitch: nat, line: nat, n: nat): seq<byte>
    requires Holds(buffer, pitch, line, n)
  {
    if n == 0 then [] else Downward(buffer, pitch, line, n - 1) + Row(buffer, pitch, line, n - 1)
  }

  function Upward(buffer: seq<byte>, pitch: nat, line: nat, n: nat): seq<byte>
    requires Holds(buffer, pitch, line, n)
  {
    if n == 0 then [] else Row(buffer, pitch, line, n - 1) + Upward(buffer, pitch, line, n - 1)
  }

  lemma SliceLeft<T>(a: seq<T>, b: seq<T>, i: nat, j: nat)
    requires i <= j <= |a|
    ensures (a + b)[i..j] == a[i..j]
  {
  }

  lemma SliceRight<T>(a: seq<T>, b: seq<T>, i: nat, j: nat)
    requires i <= j <= |b|
    ensures (a + b)[|a| + i..|a| + j] == b[i..j]
  {
  }

  /** Row k of n, of which all but the last come first... */
  lemma RowOfLonger<T>(before: seq<T>, last: seq<T>, n: nat, k: nat, line: nat)
    requires k < n && |before| == RowStart(n - 1, line) && |last| == line
    ensures RowStart(k, line) + line <= |before + last|
    ensures k < n - 1 ==> RowStart(k, line) + line <= |before|
    ensures (before + last)[RowStart(k, line)..RowStart(k, line) + line]
            == if k < n - 1 then before[RowStart(k, line)..RowStart(k, line) + line] else last
  {
    if k < n - 1 {
      RowsFollow(k, n - 1, line);
      SliceLeft(before, last, RowStart(k, line), RowStart(k, line) + line);
    } else {
      SliceRight(before, last, 0, line);
    }
  }

  /** ... or all but the first come last. */
  lemma RowOfLater<T>(first: seq<T>, rest: seq<T>, n: nat, k: nat, line: nat)
    requires k < n && |first| == line && |rest| == RowStart(n - 1, line)
    ensures RowStart(k, line) + line <= |first + rest|
    ensures k > 0 ==> RowStart(k - 1, line) + line <= |rest|
    ensures (first + rest)[RowStart(k, line)..RowStart(k, line) + line]
            == if k > 0 then rest[RowStart(k - 1, line)..RowStart(k - 1, line) + line] else first
  {
    if k > 0 {
      RowsFollow(k - 1, n - 1, line);
      SliceRight(first, rest, RowStart(k - 1, line), RowStart(k - 1, line) + line);
    } else {
      SliceLeft(first, rest, 0, line);
    }
  }

  lemma {:induction false} DownwardRow(buffer: seq<byte>, pitch: nat, line: nat, n: nat, k: nat)
    requires Holds(buffer, pitch, line, n) && k < n
    ensures RowStart(k, line) + line <= |Downward(buffer, pitch, line, n)|
    ensures Downward(buffer, pitch, line, n)[RowStart(k, line)..RowStart(k, line) + line] == Row(buffer, pitch, line, k)
  {
    Sizes(buffer, pitch, line, n - 1);
    RowOfLonger(Downward(buffer, pitch, line, n - 1), Row(buffer, pitch, line, n - 1), n, k, line);
    if k < n - 1 {
      DownwardRow(buffer, pitch, line, n - 1, k);
    }
  }

  lemma {:induction false} UpwardRow(buffer: seq<byte>, pitch: nat, line: nat, n: nat, k: nat)
    requires Holds(buffer, pitch, line, n) && k < n
    ensures RowStart(k, line) + line <= |Upward(buffer, pitch, line, n)|
    ensures Upward(buffer, pitch, line, n)[RowStart(k, line)..RowStart(k, line) + line]
            == Row(buffer, pitch, line, n - 1 - k)
  {
    Sizes(buffer, pitch, line, n - 1);
    RowOfLater(Row(buffer, pitch, line, n - 1), Upward(buffer, pitch, line, n - 1), n, k, line);
    if k > 0 {
      UpwardRow(buffer, pitch, line, n - 1, k - 1);
    }
  }

  lemma {:induction false} Sizes(buffer: seq<byte>, pitch: nat, line: nat, n: nat)
    requires Holds(buffer, pitch, line, n)
    ensures |Downward(buffer, pitch, line, n)| == RowStart(n, line) == |Upward(buffer, pitch, line, n)|
  {
    if n > 0 {
      Sizes(buffer, pitch, line, n - 1);
    }
  }

  /** Row k of the output, counted from the top, for either direction: where it is, and where it comes from. */
  lemma DownwardAt(buffer: seq<byte>, pitch: nat, line: nat, n: nat, k: nat)
    requires Holds(buffer, pitch, line, n) && k < n
    ensures |Downward(buffer, pitch, line, n)| == n * line
    ensures 0 <= k * line && k * line + line <= n * line && 0 <= k * pitch && k * pitch + line <= |buffer|
    ensures Downward(buffer, pitch, line, n)[k * line..k * line + line] == buffer[k * pitch..k * pitch + line]
  {
    Sizes(buffer, pitch, line, n);
    DownwardRow(buffer, pitch, line, n, k);
    RowStartIs(n, line);
    RowStartIs(k, line);
    RowStartIs(k, pitch);
  }

  lemma UpwardAt(buffer: seq<byte>, pitch: nat, line: nat, n: nat, k: nat)
    requires Holds(buffer, pitch, line, n) && k < n
    ensures |Upward(buffer, pitch, line, n)| == n * line
    ensures var y := n - 1 - k;
            && 0 <= k * line && k * line + line <= n * line && 0 <= y * pitch && y * pitch + line <= |buffer|
            && Upward(buffer, pitch, line, n)[k * line..k * line + line] == buffer[y * pitch..y * pitch + line]
  {
    Sizes(buffer, pitch, line, n);
    UpwardRow(buffer, pitch, line, n, k);
    RowStartIs(n, line);
    RowStartIs(k, line);
    RowStartIs(n - 1 - k, pitch);
  }

  lemma Associate<T>(a: seq<T>, b: seq<T>, c: seq<T>)
    ensures (a + b) + c == a + (b + c)
  {
  }

  /** size_t y plus int yStep, which is 1 or -1. */
  method Stepped(y: nat, descending: bool) returns (next: nat)
    requires y < U32
    ensures next == if !descending then y + 1 else if y == 0 then U64 - 1 else y - 1
  {
    next := (y + if descending then U64 - 1 else 1) % U64;
  }

  /** UINT Height - 1 */
  method LastRow(height: nat) returns (y: nat)
    requires height < U32
    ensures y == if height == 0 then U32 - 1 else height - 1
  {
    y := (height - 1) % U32;
  }

  method RowAt(buffer: seq<byte>, pitch: nat, line: nat, y: nat) returns (row: seq<byte>)
    requires RowStart(y, pitch) + line <= |buffer|
    ensures row == Row(buffer, pitch, line, y)
  {
    RowStartIs(y, pitch);
    var start: nat := y * pitch;
    row := buffer[start..start + line];
  }

  /** What the row loop still has to append, having done some of its rows. */
  lemma OneRowUp(data: seq<byte>, buffer: seq<byte>, pitch: nat, line: nat, left: nat)
    requires Holds(buffer, pitch, line, left) && left > 0
    ensures data + Upward(buffer, pitch, line, left)
            == (data + Row(buffer, pitch, line, left - 1)) + Upward(buffer, pitch, line, left - 1)
  {
    Associate(data, Row(buffer, pitch, line, left - 1), Upward(buffer, pitch, line, left - 1));
  }

  /** The row loop of GetPixelData. Counting down ends when the unsigned row number wraps around. */
  method CopyRows(buffer: seq<byte>, pitch: nat, line: nat, height: nat, descending: bool) returns (data: seq<byte>)
    requires height <= INT_MAX && Holds(buffer, pitch, line, height)
    ensures data == if descending then Upward(buffer, pitch, line, height) else Downward(buffer, pitch, line, height)
  {
    data := [];
    var y := 0;
    if descending {
      y := LastRow(height);
    }
    ghost var done := 0;
    ghost var whole := Upward(buffer, pitch, line, height);
    assert data + whole == whole;
    while y < height
      invariant 0 <= done <= height
      invariant if !descending then y == done else if done == height then y >= height else y == height - 1 - done
      invariant !descending ==> data == Downward(buffer, pitch, line, done)
      invariant descending ==> data + Upward(buffer, pitch, line, height - done) == whole
      decreases height - done
    {
      if descending {
        OneRowUp(data, buffer, pitch, line, height - done);
      }
      var row := RowAt(buffer, pitch, line, y);
      data := data + row;
      y := Stepped(y, descending);
      done := done + 1;
    }
    assert Upward(buffer, pitch, line, 0) == [];
  }

  datatype PixelData = Pixels(data: seq<byte>) | BitmapTooBig | BitmapLockFailed | BitmapUnlockFailed

  lemma Product(a: nat, b: nat, c: nat)
    requires a <= b
    ensures a * c <= b * c
  {
    assert b * c == a * c + (b - a) * c;
  }

  /** If the last row lies in the buffer, every row does. */
  lemma LastRowHolds(buffer: seq<byte>, pitch: nat, line: nat, n: nat)
    requires n > 0 ==> (n - 1) * pitch + line <= |buffer|
    ensures Holds(buffer, pitch, line, n)
  {
    forall y: nat | y < n ensures RowStart(y, pitch) + line <= |buffer| {
      RowStartIs(n - 1, pitch);
      RowsFollow(y, n - 1, pitch);
    }
  }

  /** Byte p of n rows is byte p % line of row p / line. */
  lemma Place(p: nat, line: nat, n: nat)
    requires p < n * line
    ensures line > 0 && p / line < n && p == p / line * line + p % line
  {
    if p / line >= n {
      Product(n, p / line, line);
    }
  }

  lemma DownwardByte(buffer: seq<byte>, pitch: nat, line: nat, n: nat, k: nat, i: nat)
    requires Holds(buffer, pitch, line, n) && k < n && i < line
    ensures 0 <= k * line + i < |Downward(buffer, pitch, line, n)| && 0 <= k * pitch + i < |buffer|
    ensures Downward(buffer, pitch, line, n)[k * line + i] == buffer[k * pitch + i]
  {
    DownwardAt(buffer, pitch, line, n, k);
    SameByte(Downward(buffer, pitch, line, n), buffer, k * line, k * pitch, line, i);
  }

  lemma UpwardByte(buffer: seq<byte>, pitch: nat, line: nat, n: nat, k: nat, i: nat)
    requires Holds(buffer, pitch, line, n) && k < n && i < line
    ensures 0 <= k * line + i < |Upward(buffer, pitch, line, n)| && 0 <= (n - 1 - k) * pitch + i < |buffer|
    ensures Upward(buffer, pitch, line, n)[k * line + i] == buffer[(n - 1 - k) * pitch + i]
  {
    UpwardAt(buffer, pitch, line, n, k);
    SameByte(Upward(buffer, pitch, line, n), buffer, k * line, (n - 1 - k) * pitch, line, i);
  }

  lemma SameByte(s: seq<byte>, t: seq<byte>, a: nat, b: nat, line: nat, i: nat)
    requires a + line <= |s| && b + line <= |t| && s[a..a + line] == t[b..b + line] && i < line
    ensures s[a + i] == t[b + i]
  {
    assert s[a..a + line][i] == t[b..b + line][i];
  }

  /** Byte p of n rows of `line` bytes, where row y starts at y * pitch in the buffer, from the first row to the last or
      from the last to the first. */
  predicate ByteOf(data: seq<byte>, buffer: seq<byte>, pitch: nat, line: nat, n: nat, upward: bool, p: nat)
    requires p < |data| && line > 0
  {
    var y := if upward then n - 1 - p / line else p / line;
    0 <= y * pitch + p % line < |buffer| && data[p] == buffer[y * pitch + p % line]
  }

  /** What the rows of a bitmap are, byte by byte. */
  ghost predicate RowsOf(data: seq<byte>, buffer: seq<byte>, pitch: nat, line: nat, n: nat, upward: bool) {
    |data| == n * line
    && (line > 0 ==> forall p :: 0 <= p < |data| ==> ByteOf(data, buffer, pitch, line, n, upward, p))
  }

  lemma DownwardIs(buffer: seq<byte>, pitch: nat, line: nat, n: nat)
    requires Holds(buffer, pitch, line, n)
    ensures RowsOf(Downward(buffer, pitch, line, n), buffer, pitch, line, n, false)
  {
    Sizes(buffer, pitch, line, n);
    RowStartIs(n, line);
    var data := Downward(buffer, pitch, line, n);
    forall p | line > 0 && 0 <= p < |data|
      ensures ByteOf(data, buffer, pitch, line, n, false, p)
    {
      OneDownward(buffer, pitch, line, n, p);
    }
  }

  lemma OneDownward(buffer: seq<byte>, pitch: nat, line: nat, n: nat, p: nat)
    requires Holds(buffer, pitch, line, n) && p < n * line
    ensures line > 0 && p < |Downward(buffer, pitch, line, n)|
    ensures ByteOf(Downward(buffer, pitch, line, n), buffer, pitch, line, n, false, p)
  {
    Place(p, line, n);
    var k, i := p / line, p % line;
    DownwardByte(buffer, pitch, line, n, k, i);
    ByteFrom(Downward(buffer, pitch, line, n), buffer, pitch, line, n, false, p, k * line + i, k * pitch + i);
  }

  lemma OneUpward(buffer: seq<byte>, pitch: nat, line: nat, n: nat, p: nat)
    requires Holds(buffer, pitch, line, n) && p < n * line
    ensures line > 0 && p < |Upward(buffer, pitch, line, n)|
    ensures ByteOf(Upward(buffer, pitch, line, n), buffer, pitch, line, n, true, p)
  {
    Place(p, line, n);
    var k, i := p / line, p % line;
    UpwardByte(buffer, pitch, line, n, k, i);
    ByteFrom(Upward(buffer, pitch, line, n), buffer, pitch, line, n, true, p, k * line + i, (n - 1 - k) * pitch + i);
  }

  lemma ByteFrom(data: seq<byte>, buffer: seq<byte>, pitch: nat, line: nat, n: nat, upward: bool, p: nat, place: int,
                 at: int)
    requires line > 0 && place == p && 0 <= place < |data| && 0 <= at < |buffer| && data[place] == buffer[at]
    requires var y := if upward then n - 1 - p / line else p / line; at == y * pitch + p % line
    ensures ByteOf(data, buffer, pitch, line, n, upward, p)
  {
  }

  lemma UpwardIs(buffer: seq<byte>, pitch: nat, line: nat, n: nat)
    requires Holds(buffer, pitch, line, n)
    ensures RowsOf(Upward(buffer, pitch, line, n), buffer, pitch, line, n, true)
  {
    Sizes(buffer, pitch, line, n);
    RowStartIs(n, line);
    var data := Upward(buffer, pitch, line, n);
    forall p | line > 0 && 0 <= p < |data|
      ensures ByteOf(data, buffer, pitch, line, n, true, p)
    {
      OneUpward(buffer, pitch, line, n, p);
    }
  }

  /** GetPixelData, given whether the bitmap can be locked, what it then lies in, and whether it can be unlocked again:
      every row once, downward for a stride that is not negative and upward otherwise. */
  method GetPixelData(width: uint32, height: uint32, bytesPerPixel: nat, locks: bool, buffer: seq<byte>, stride: int32,
                      unlocks: bool)
    returns (r: PixelData)
    requires bytesPerPixel <= 8 && stride > -0x8000_0000
    requires locks && width <= INT_MAX && 0 < height <= INT_MAX ==>
               (height - 1) * (if stride < 0 then -stride else stride) + width * bytesPerPixel <= |buffer|
    ensures r == BitmapTooBig <==> width > INT_MAX || height > INT_MAX
    ensures r == BitmapLockFailed <==> width <= INT_MAX && height <= INT_MAX && !locks
    ensures r == BitmapUnlockFailed <==> width <= INT_MAX && height <= INT_MAX && locks && !unlocks
    ensures r.Pixels? ==>
              RowsOf(r.data, buffer, if stride < 0 then -stride else stride, width * bytesPerPixel, height, stride < 0)
  {
    if width > INT_MAX || height > INT_MAX {
      return BitmapTooBig;
    }
    if !locks {
      return BitmapLockFailed;
    }
    var bytesPerLine := width * bytesPerPixel;
    var absStride: nat := if stride < 0 then -stride else stride;
    LastRowHolds(buffer, absStride, bytesPerLine, height);
    DownwardIs(buffer, absStride, bytesPerLine, height);
    UpwardIs(buffer, absStride, bytesPerLine, height);
    var data := CopyRows(buffer, absStride, bytesPerLine, height, stride < 0);
    if !unlocks {
      return BitmapUnlockFailed;
    }
    return Pixels(data);
  }
}

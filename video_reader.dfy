/** `VideoReader` of `video_reader.py`, with its decode thread and its
    consumer run one after the other: `ReadVideo` is the producer loop that
    fills the frame queue from the capture's successive read results, and
    `Generator` is the consumer loop that pulls every frame and keeps every
    `skip_rate`-th one. */
module VideoReading {
  import opened Common
  import Utils

  /** A decoded frame, kept opaque. */
  type Image = int

  /** One `cap.read()`: a frame, None, or an exception from the backend. */
  datatype Read = Got(image: Image) | Empty | Raise(error: Error)

  /** How the producer loop ends. `Spins` is the gopro retry on a stream
      that has nothing left: Python keeps reading None forever. */
  datatype ProducerEnd = Finished | EndOfStream | Raised(error: Error) | Spins

  /** The frames the producer enqueues, how it ends, and how many results it
      consumed. */
  datatype Run = Run(frames: seq<Image>, end: ProducerEnd, used: nat)

  /** The producer from read position `pos`: `remaining` frames still to
      enqueue; a None read is retried when the video is a gopro one and ends
      the stream otherwise; a read past the end of the stream gives None. */
  function Produce(results: seq<Read>, pos: int, remaining: int, gopro: bool): (r: Run)
    requires 0 <= pos <= |results|
    ensures pos + r.used <= |results|
    decreases |results| - pos
  {
    if remaining <= 0 then Run([], Finished, 0)
    else if pos == |results| then Run([], if gopro then Spins else EndOfStream, 0)
    else match results[pos]
      case Raise(e) => Run([], Raised(e), 1)
      case Empty =>
        if gopro then
          var r := Produce(results, pos + 1, remaining, gopro);
          Run(r.frames, r.end, r.used + 1)
        else Run([], EndOfStream, 1)
      case Got(img) =>
        var r := Produce(results, pos + 1, remaining - 1, gopro);
        Run([img] + r.frames, r.end, r.used + 1)
  }

  /** The frames among the read results at positions `lo` to `hi`, in order. */
  function Images(results: seq<Read>, lo: int, hi: int): seq<Image>
    requires 0 <= lo && hi <= |results|
    decreases hi - lo
  {
    if lo >= hi then []
    else (if results[lo].Got? then [results[lo].image] else []) + Images(results, lo + 1, hi)
  }

  /** The producer enqueues the frames of the reads it consumed, in read
      order: at most `remaining` of them, and exactly that many when (and
      only when) it finishes normally. */
  lemma {:induction false} ProduceFrames(results: seq<Read>, pos: int, remaining: int, gopro: bool)
    requires 0 <= pos <= |results|
    ensures var r := Produce(results, pos, remaining, gopro);
      && r.frames == Images(results, pos, pos + r.used)
      && |r.frames| <= (if remaining < 0 then 0 else remaining)
      && (r.end == Finished <==> |r.frames| == (if remaining < 0 then 0 else remaining))
    decreases |results| - pos
  {
    if remaining > 0 && pos < |results| && !results[pos].Raise? && (results[pos].Got? || gopro) {
      ProduceFrames(results, pos + 1, if results[pos].Got? then remaining - 1 else remaining, gopro);
    }
  }

  /** End-of-stream comes only from a non-gopro video, whose consumed reads
      are all frames but the last; an endless retry only for a gopro video
      that has used up every read; an exception from the read that raised it. */
  lemma {:induction false} ProduceEnd(results: seq<Read>, pos: int, remaining: int, gopro: bool)
    requires 0 <= pos <= |results|
    ensures var r := Produce(results, pos, remaining, gopro);
      && (r.end == EndOfStream ==> !gopro)
      && (r.end == Spins ==> gopro && pos + r.used == |results|)
      && (r.end.Raised? ==> r.used >= 1 && results[pos + r.used - 1] == Raise(r.end.error))
      && (!gopro ==> forall k :: pos <= k < pos + r.used - 1 ==> results[k].Got?)
    decreases |results| - pos
  {
    if remaining > 0 && pos < |results| && !results[pos].Raise? && (results[pos].Got? || gopro) {
      ProduceEnd(results, pos + 1, if results[pos].Got? then remaining - 1 else remaining, gopro);
    }
  }

  /** Frames read cleanly stop at `end_frame` even when more are
      available; a None read is skipped for a gopro video and ends the
      stream otherwise. */
  lemma StopsAtEndFrame(a: Image, b: Image, c: Image)
    ensures Produce([Got(a), Got(b), Got(c)], 0, 2, false) == Run([a, b], Finished, 2)
    ensures Produce([Got(a), Empty, Got(c)], 0, 3, true) == Run([a, c], Spins, 3)
    ensures Produce([Got(a), Empty, Got(c)], 0, 3, false) == Run([a], EndOfStream, 2)
  {
    var clean := [Got(a), Got(b), Got(c)];
    assert Produce(clean, 1, 1, false) == Run([b], Finished, 1) by {
      assert Produce(clean, 2, 0, false) == Run([], Finished, 0);
    }
    var gap := [Got(a), Empty, Got(c)];
    assert Produce(gap, 1, 2, true) == Run([c], Spins, 2) by {
      assert Produce(gap, 2, 2, true) == Run([c], Spins, 1) by {
        assert Produce(gap, 3, 1, true) == Run([], Spins, 0);
      }
    }
    assert Produce(gap, 1, 2, false) == Run([], EndOfStream, 1);
  }

  /** `ceil(n / s)` for a positive `s`. */
  function CeilDiv(n: int, s: int): int
    requires s >= 1
  {
    -((-n) / s)
  }

  lemma ProductSign(x: int, s: int)
    requires s >= 1
    ensures x >= 1 ==> x * s >= s
    ensures x <= -1 ==> x * s <= -s
  {
    if x >= 1 {
      assert (x - 1) * s >= 0;
    } else if x <= -1 {
      assert (-x - 1) * s >= 0;
    }
  }

  lemma DivUnique(a: int, s: int, q: int)
    requires s >= 1 && q * s <= a < q * s + s
    ensures a / s == q
  {
    var e := a / s - q;
    assert e * s == (a / s) * s - q * s;
    ProductSign(e, s);
  }

  /** `ceil` just below, at and just above a multiple `q * s`. */
  lemma CeilDivNear(q: int, r: int, s: int)
    requires s >= 1 && 0 <= r < s
    ensures r == 0 ==> CeilDiv(q * s + r, s) == q
    ensures r > 0 ==> CeilDiv(q * s + r, s) == q + 1
    ensures CeilDiv(q * s + r + 1, s) == q + 1
  {
    var m := q * s;
    assert (-q) * s == -m && (-q - 1) * s == -m - s;
    if r == 0 {
      DivUnique(-m, s, -q);
    } else {
      DivUnique(-m - r, s, -q - 1);
    }
    DivUnique(-m - r - 1, s, -q - 1);
  }

  /** One more pulled item adds a yield exactly when its counter value is a
      multiple of `s`, and the yields so far then number `k / s`. */
  lemma CeilDivStep(k: int, s: int)
    requires k >= 0 && s >= 1
    ensures CeilDiv(k + 1, s) == CeilDiv(k, s) + (if k % s == 0 then 1 else 0)
    ensures k % s == 0 ==> CeilDiv(k, s) * s == k
    ensures CeilDiv(k, s) >= 0 && (CeilDiv(k, s) - 1) * s < k
  {
    var q := k / s;
    var m := q * s;
    assert k == m + k % s && 0 <= k % s < s;
    CeilDivNear(q, k % s, s);
    ProductSign(q + 1, s);
    assert (q - 1) * s == m - s && (q + 1) * s == m + s;
  }

  /** The items the generator keeps: counter values start at `c0`, and the
      item pulled at counter value `c` is kept when `c % s == 0`. */
  function Yields(pulls: seq<Option<Image>>, c0: int, s: int): seq<Option<Image>>
    requires s >= 1
    decreases |pulls|
  {
    if pulls == [] then []
    else
      var n := |pulls| - 1;
      Yields(pulls[..n], c0, s) + (if (c0 + n) % s == 0 then [pulls[n]] else [])
  }

  /** From a fresh counter, the k-th yielded item is the (k·s)-th item pulled,
      and there are `ceil(n / s)` of them. */
  lemma {:induction false} YieldsFromZero(pulls: seq<Option<Image>>, s: int)
    requires s >= 1
    ensures |Yields(pulls, 0, s)| == CeilDiv(|pulls|, s)
    ensures forall j :: 0 <= j < |Yields(pulls, 0, s)| ==>
      j * s < |pulls| && Yields(pulls, 0, s)[j] == pulls[j * s]
    decreases |pulls|
  {
    CeilDivStep(0, s);
    if pulls != [] {
      var n := |pulls| - 1;
      var prefix := pulls[..n];
      YieldsFromZero(prefix, s);
      CeilDivStep(n, s);
      var y := Yields(pulls, 0, s);
      assert y[..|Yields(prefix, 0, s)|] == Yields(prefix, 0, s);
      forall j | 0 <= j < |y|
        ensures j * s < |pulls| && y[j] == pulls[j * s]
      {
        if j < |Yields(prefix, 0, s)| {
          assert y[j] == Yields(prefix, 0, s)[j];
        } else {
          assert j == CeilDiv(n, s) && n % s == 0;
        }
      }
    }
  }

  /** What the generator pulls on each of `n` iterations: the queued frames
      in order, then None once the queue is empty and the worker has ended. */
  function Pulled(queue: seq<Image>, n: nat): (p: seq<Option<Image>>)
    ensures |p| == n
    ensures forall i :: 0 <= i < n ==> p[i] == if i < |queue| then Some(queue[i]) else None
  {
    seq(n, i requires 0 <= i < n => if i < |queue| then Some(queue[i]) else None)
  }

  /** Pulling `n` and then `m` more frames gives the same items as pulling
      `n + m` at once: the second run starts where the queue was left. */
  lemma PulledSplit(queue: seq<Image>, n: nat, m: nat)
    ensures var rest := queue[if n < |queue| then n else |queue|..];
      Pulled(queue, n + m) == Pulled(queue, n) + Pulled(rest, m)
  {
  }

  /** The loop of `read_video`: read from the capture until `end_frame`
      frames are decoded, retrying a None read for a gopro video and
      stopping at the first None otherwise, or at the first exception. */
  method DecodeFrames(results: seq<Read>, startFrame: int, endFrame: int, gopro: bool)
    returns (frames: seq<Image>, end: ProducerEnd)
    ensures var run := Produce(results, 0, endFrame - startFrame, gopro);
      frames == run.frames && end == run.end
  {
    ghost var run0 := Produce(results, 0, endFrame - startFrame, gopro);
    frames := [];
    var frameId := startFrame;
    var pos := 0;
    while frameId < endFrame
      invariant 0 <= pos <= |results|
      invariant run0.frames == frames + Produce(results, pos, endFrame - frameId, gopro).frames
      invariant run0.end == Produce(results, pos, endFrame - frameId, gopro).end
      decreases |results| - pos
    {
      if pos == |results| {
        return frames, if gopro then Spins else EndOfStream;
      }
      var read := results[pos];
      if read.Raise? {
        return frames, Raised(read.error);
      } else if read.Empty? {
        if !gopro {
          return frames, EndOfStream;
        }
      } else {
        ghost var later := Produce(results, pos + 1, endFrame - frameId - 1, gopro).frames;
        assert frames + [read.image] + later == frames + ([read.image] + later);
        frames := frames + [read.image];
        frameId := frameId + 1;
      }
      pos := pos + 1;
    }
    end := Finished;
  }

  /** The outcome of `next_thread`: the oldest queued frame, None when the
      queue is empty and the worker has ended, or waiting for the worker. */
  datatype Pull = Next(image: Image) | NoneLeft | Waits

  class VideoReader {
    const frameNum: int       // video.frame_num
    const skipRate: int
    const startFrame: int
    const endFrame: int
    const gopro: bool         // video.is_gopro is truthy
    const results: seq<Read>    // successive cap.read() results from start_frame on
    var frameCounter: int
    var done: bool
    var alive: bool           // the decode thread is still running
    var queue: seq<Image>

    /** The reader as `__init__` leaves it, before its thread has run. */
    constructor (frameNum: int, skipRate: int, startFrame: int, endFrame: int, gopro: bool, results: seq<Read>)
      requires skipRate >= 1
      ensures this.frameNum == frameNum && this.skipRate == skipRate
      ensures this.startFrame == startFrame && this.endFrame == endFrame
      ensures this.gopro == gopro && this.results == results
      ensures frameCounter == 0 && !done && alive && queue == []
    {
      this.frameNum := frameNum;
      this.skipRate := skipRate;
      this.startFrame := startFrame;
      this.endFrame := endFrame;
      this.gopro := gopro;
      this.results := results;
      frameCounter := 0;
      done := false;
      alive := true;
      queue := [];
    }

    /** `__len__`. */
    function Len(): int
      requires skipRate >= 1
    {
      CeilDiv(frameNum, skipRate)
    }

    /** The `read_video` thread body: enqueue the frames decoded from
        `start_frame` up to `end_frame`; every way out but the endless gopro
        retry sets `done` and ends the worker. */
    method ReadVideo() returns (end: ProducerEnd)
      modifies this
      ensures var run := Produce(results, 0, endFrame - startFrame, gopro);
        && queue == old(queue) + run.frames
        && end == run.end
      ensures done == (end != Spins || old(done))
      ensures alive == (end == Spins)
      ensures frameCounter == old(frameCounter)
    {
      var frames;
      frames, end := DecodeFrames(results, startFrame, endFrame, gopro);
      queue := queue + frames;
      if end == Spins {
        alive := true;
      } else {
        done, alive := true, false;
      }
    }

    /** `next_thread`: the oldest queued frame (FIFO); None only once the
        queue is empty and the worker has ended. */
    method NextThread() returns (p: Pull)
      modifies this
      ensures old(queue) != [] ==> p == Next(old(queue)[0]) && queue == old(queue)[1..]
      ensures old(queue) == [] && !alive ==> p == NoneLeft && queue == []
      ensures old(queue) == [] && alive ==> p == Waits && queue == []
      ensures frameCounter == old(frameCounter) && done == old(done) && alive == old(alive)
    {
      if queue == [] {
        return if alive then Waits else NoneLeft;
      }
      p := Next(queue[0]);
      queue := queue[1..];
    }

    /** `generator`: pull one item per counter value up to `frame_num` and
        yield it when the counter is a multiple of `skip_rate` (None items
        included). With the worker still running and the queue drained, the
        generator would wait forever; that is reported as `blocked`. */
    method Generator() returns (yielded: seq<Option<Image>>, blocked: bool)
      requires skipRate >= 1
      modifies this
      ensures var n := if frameNum > old(frameCounter) then frameNum - old(frameCounter) else 0;
        && (blocked <==> alive && |old(queue)| < n)
        && (!blocked ==>
              yielded == Yields(Pulled(old(queue), n), old(frameCounter), skipRate)
              && frameCounter == old(frameCounter) + n
              && queue == old(queue)[if n < |old(queue)| then n else |old(queue)|..])
        && (blocked ==>
              yielded == Yields(Pulled(old(queue), |old(queue)|), old(frameCounter), skipRate)
              && frameCounter == old(frameCounter) + |old(queue)|
              && queue == [])
      ensures done == old(done) && alive == old(alive)
    {
      ghost var c0 := frameCounter;
      ghost var q0 := queue;
      ghost var n := if frameNum > c0 then frameNum - c0 else 0;
      ghost var pulls := Pulled(q0, n);
      yielded := [];
      blocked := false;
      while frameCounter < frameNum
        invariant c0 <= frameCounter && frameCounter - c0 <= n
        invariant frameCounter < frameNum ==> frameCounter - c0 < n
        invariant frameCounter >= frameNum ==> frameCounter - c0 == n
        invariant var i := frameCounter - c0;
          && yielded == Yields(pulls[..i], c0, skipRate)
          && queue == q0[if i < |q0| then i else |q0|..]
          && (alive ==> i <= |q0|)
        invariant done == old(done) && alive == old(alive)
        decreases frameNum - frameCounter
      {
        ghost var i := frameCounter - c0;
        var p := NextThread();
        if p.Waits? {
          assert i == |q0|;
          assert pulls[..i] == Pulled(q0, |q0|);
          return yielded, true;
        }
        var frame := if p.Next? then Some(p.image) else None;
        assert frame == pulls[i];
        assert pulls[..i + 1][..i] == pulls[..i];
        if frameCounter % skipRate == 0 {
          yielded := yielded + [frame];
        }
        frameCounter := frameCounter + 1;
      }
      assert pulls[..n] == pulls;
    }
  }

  /** `VideoReader(video, target_fps, start_frame, end_frame)`: a zero
      start or end stands for None; the skip rate comes from the video's
      fps and the target, and a zero target raises before any thread runs. */
  method Open(videoFps: real, frameNum: int, targetFps: real, startFrame: int, endFrame: int,
              gopro: Option<bool>, results: seq<Read>) returns (r: Result<VideoReader>)
    ensures targetFps == 0.0 <==> r == Err(DivisionByZero)
    ensures r.Ok? ==>
      && fresh(r.value)
      && r.value.skipRate == Utils.FrameSkipRatio(videoFps, targetFps).value
      && r.value.startFrame == startFrame
      && r.value.endFrame == (if endFrame == 0 then frameNum else endFrame)
      && r.value.gopro == (gopro == Some(true))
      && r.value.frameNum == frameNum && r.value.results == results
      && r.value.frameCounter == 0 && r.value.queue == [] && !r.value.done && r.value.alive
  {
    var skip := Utils.FrameSkipRatio(videoFps, targetFps);
    if skip.Err? {
      return Err(skip.error);
    }
    var reader := new VideoReader(frameNum, skip.value, startFrame,
      if endFrame == 0 then frameNum else endFrame, gopro == Some(true), results);
    r := Ok(reader);
  }

  /** A fresh reader whose worker has ended yields `__len__` items: pulling
      `frame_num` times from a zero counter, the number of yields is
      `ceil(frame_num / skip_rate)`. */
  lemma FreshReaderYieldsLen(reader: VideoReader, queue: seq<Image>)
    requires reader.skipRate >= 1 && reader.frameNum >= 0
    ensures |Yields(Pulled(queue, reader.frameNum), 0, reader.skipRate)| == reader.Len()
  {
    YieldsFromZero(Pulled(queue, reader.frameNum), reader.skipRate);
  }
}

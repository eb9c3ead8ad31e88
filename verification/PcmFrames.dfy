/** The 20 ms reframer of `src/media/pcm_frames.rs`. */
module PcmFrames {
  import opened Arithmetic
  import opened Words
  import opened Sequences

  /** The complete frames of `x`, and the samples after the last of them. */
  function Frames(x: seq<int>, n: pos): seq<seq<int>>
    decreases |x|
  {
    if |x| < n then [] else [x[..n]] + Frames(x[n..], n)
  }

  function Tail(x: seq<int>, n: pos): seq<int>
    decreases |x|
  {
    if |x| < n then x else Tail(x[n..], n)
  }

  lemma {:induction false} FlatFrames(x: seq<int>, n: pos)
    requires |x| >= n
    ensures Flat(Frames(x, n)) == x[..n] + Flat(Frames(x[n..], n))
  {
    assert Frames(x, n)[1..] == Frames(x[n..], n);
  }

  lemma {:induction false} Regrouped(x: seq<int>, n: nat, a: seq<int>, b: seq<int>)
    requires n <= |x| && a + b == x[n..]
    ensures x[..n] + a + b == x
  {
    assert x[..n] + a + b == x[..n] + (a + b);
  }

  lemma {:induction false} FramesRebuild(x: seq<int>, n: pos)
    ensures Flat(Frames(x, n)) + Tail(x, n) == x
    decreases |x|
  {
    if |x| >= n {
      hide Flat;
      FramesRebuild(x[n..], n);
      FlatFrames(x, n);
      Regrouped(x, n, Flat(Frames(x[n..], n)), Tail(x[n..], n));
    }
  }

  /** Reframing loses, repeats and reorders nothing. */
  lemma {:induction false} FramesPartition(x: seq<int>, n: pos)
    ensures Flat(Frames(x, n)) + Tail(x, n) == x
    ensures |Tail(x, n)| < n && forall f <- Frames(x, n) :: |f| == n
    decreases |x|
  {
    hide Flat;
    FramesRebuild(x, n);
    if |x| >= n { FramesPartition(x[n..], n); }
  }

  /** Frames already cut stay cut: what follows depends on the tail alone. */
  lemma {:induction false} FramesAppend(x: seq<int>, y: seq<int>, n: pos)
    ensures Frames(x + y, n) == Frames(x, n) + Frames(Tail(x, n) + y, n)
    ensures Tail(x + y, n) == Tail(Tail(x, n) + y, n)
    decreases |x|
  {
    if |x| >= n {
      FramesAppend(x[n..], y, n);
      assert (x + y)[..n] == x[..n] && (x + y)[n..] == x[n..] + y;
    }
  }

  class PcmFrames {
    var samples: seq<int>
    const frame: nat
    ghost var heard: seq<int>

    ghost predicate Valid()
      reads this
    {
      if frame == 0 then samples == [] && heard == [] else samples == Tail(heard, frame)
    }

    constructor (rate: nat)
      ensures Valid() && frame == rate / 50 && heard == []
    {
      samples, frame, heard := [], rate / 50, [];
    }

    method Clear()
      requires Valid()
      modifies this
      ensures Valid() && heard == []
    {
      samples, heard := [], [];
    }

    /** A packet of at most 120 ms adds exactly the frames that it completes; a longer one, or a
        rate below 50 Hz, is refused and changes nothing. */
    method Push(pcm: seq<int>) returns (r: Result<seq<seq<int>>, string>)
      requires Valid()
      modifies this
      ensures Valid()
      ensures r.Ok? <==> frame > 0 && |pcm| <= frame * 6
      ensures r.Ok? ==> heard == old(heard) + pcm && Frames(heard, frame) == Frames(old(heard), frame) + r.value
      ensures r.Err? ==> heard == old(heard) && samples == old(samples)
    {
      if frame == 0 || |pcm| > frame * 6 {
        return Err("audio packet exceeds 120 ms");
      }
      FramesAppend(heard, pcm, frame);
      ghost var all := samples + pcm;
      heard, samples := heard + pcm, samples + pcm;
      var frames := [];
      while |samples| >= frame
        invariant frames + Frames(samples, frame) == Frames(all, frame)
        invariant Tail(samples, frame) == Tail(all, frame)
        invariant heard == old(heard) + pcm
        decreases |samples|
      {
        frames, samples := frames + [samples[..frame]], samples[frame..];
      }
      r := Ok(frames);
    }
  }
}

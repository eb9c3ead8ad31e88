/** The transcoding pipeline of `src/media/transcode.rs`: decode, resample, reframe, encode. The
    codecs are parameters: any state and any step that may fail. */
module Transcode {
  import opened Arithmetic
  import opened Words
  import opened Resample
  import opened PcmFrames

  type Packet = seq<u8>

  datatype Step<S, T> = Step(state: S, output: Option<T>)

  type Decoder<!D> = (D, Packet) -> Step<D, seq<int>>

  type Encoder<!E> = (E, seq<int>) -> Step<E, Packet>

  /** One packet a frame, in order, stopping at the first failure. */
  function EncodeAll<E>(encode: Encoder<E>, e: E, frames: seq<seq<int>>): Step<E, seq<Packet>> {
    if frames == [] then Step(e, Some([]))
    else
      var p := EncodeAll(encode, e, frames[..|frames| - 1]);
      if p.output.None? then p
      else
        var s := encode(p.state, frames[|frames| - 1]);
        Step(s.state, if s.output.None? then None else Some(p.output.value + [s.output.value]))
  }

  /** All the audio of a run of packets, stopping at the first failure. */
  function DecodeAll<D>(decode: Decoder<D>, d: D, packets: seq<Packet>): Step<D, seq<int>> {
    if packets == [] then Step(d, Some([]))
    else
      var p := DecodeAll(decode, d, packets[..|packets| - 1]);
      if p.output.None? then p
      else
        var s := decode(p.state, packets[|packets| - 1]);
        Step(s.state, if s.output.None? then None else Some(p.output.value + s.output.value))
  }

  lemma {:induction false} EncodeAllAppend<E>(encode: Encoder<E>, e: E, a: seq<seq<int>>, b: seq<seq<int>>)
    requires EncodeAll(encode, e, a).output.Some?
    ensures var p := EncodeAll(encode, e, a);
            var q := EncodeAll(encode, p.state, b);
            EncodeAll(encode, e, a + b)
              == Step(q.state, if q.output.None? then None else Some(p.output.value + q.output.value))
  {
    if b == [] {
      assert a + b == a;
      assert EncodeAll(encode, e, a).output.value + [] == EncodeAll(encode, e, a).output.value;
    } else {
      var init := b[..|b| - 1];
      EncodeAllAppend(encode, e, a, init);
      assert (a + b)[..|a + b| - 1] == a + init && (a + b)[|a + b| - 1] == b[|b| - 1];
      var p := EncodeAll(encode, e, a).output.value;
      var q := EncodeAll(encode, EncodeAll(encode, e, a).state, init);
      var s := encode(q.state, b[|b| - 1]);
      assert q.output.Some? && s.output.Some? ==>
          (p + q.output.value) + [s.output.value] == p + (q.output.value + [s.output.value]);
    }
  }

  class Pipeline<!D, !E> {
    const decode: Decoder<D>
    const encode: Encoder<E>
    const fromRate: pos
    const toRate: pos
    const passthrough: bool
    var decoder: Option<D>
    var encoder: E
    const resampler: Resampler?
    const framer: PcmFrames

    ghost const made: E          // the encoder as it was made
    ghost var pcm: seq<int>      // the audio decoded so far
    ghost var sent: seq<Packet>  // the packets returned so far
    ghost var intact: bool       // no decoded audio was dropped by a failure

    ghost predicate Parts()
      reads this, framer, resampler
    {
      && toRate < 1_000_000_000
      && framer.Valid() && framer.frame == toRate / 50
      && (resampler == null <==> fromRate == toRate)
      && (resampler != null ==> resampler.Valid() && resampler.fromRate == fromRate && resampler.toRate == toRate)
    }

    ghost predicate Valid()
      reads this, framer, resampler
    {
      && Parts()
      && (intact ==>
            && (resampler != null ==> resampler.heard == pcm)
            && framer.heard == Resampled(pcm, fromRate, toRate)
            && Encoded(framer.heard, encoder, sent))
    }

    /** The frames of `audio` have all been encoded, to `packets`. */
    ghost predicate Encoded(audio: seq<int>, e: E, packets: seq<Packet>)
      reads framer
    {
      if framer.frame == 0 then e == made && packets == []
      else EncodeAll(encode, made, Frames(audio, framer.frame)) == Step(e, Some(packets))
    }

    constructor (decode: Decoder<D>, encode: Encoder<E>, decoder: Option<D>, encoder: E, from: pos, to: pos, same: bool)
      requires to < 1_000_000_000
      ensures Valid() && intact && pcm == [] && sent == [] && fresh(framer) && (resampler == null || fresh(resampler))
      ensures this.decode == decode && this.encode == encode && this.decoder == decoder && this.encoder == encoder
      ensures fromRate == from && toRate == to && passthrough == same && this.made == encoder
    {
      this.decode, this.encode, this.decoder, this.encoder := decode, encode, decoder, encoder;
      fromRate, toRate, passthrough, this.made := from, to, same, encoder;
      pcm, sent, intact := [], [], true;
      framer := new PcmFrames(to);
      if from == to {
        resampler := null;
      } else {
        resampler := new Resampler(from, to);
      }
      new;
      EmptyStream(from, to);
    }

    method Resample(chunk: seq<int>) returns (out: seq<int>)
      requires Parts()
      modifies resampler
      ensures Parts()
      ensures resampler != null ==>
                && resampler.heard == old(resampler.heard) + chunk
                && Resampled(old(resampler.heard), fromRate, toRate) + out
                   == Resampled(old(resampler.heard) + chunk, fromRate, toRate)
      ensures resampler == null ==> out == chunk
    {
      if resampler != null {
        out := resampler.Process(chunk);
      } else {
        out := chunk;
      }
    }

    method EncodeFrames(frames: seq<seq<int>>) returns (packets: Option<seq<Packet>>)
      modifies this`encoder
      ensures Step(encoder, packets) == EncodeAll(encode, old(encoder), frames)
    {
      var output := [];
      for i := 0 to |frames|
        invariant EncodeAll(encode, old(encoder), frames[..i]) == Step(encoder, Some(output))
      {
        var s := encode(encoder, frames[i]);
        assert frames[..i + 1][..i] == frames[..i];
        encoder := s.state;
        if s.output.None? {
          Stuck(encode, old(encoder), frames, i + 1);
          return None;
        }
        output := output + [s.output.value];
      }
      assert frames[..|frames|] == frames;
      packets := Some(output);
    }

    /** The packet that took the audio from `before` to `after` is at most 120 ms at the output
        rate, and the encoder takes every frame. */
    ghost predicate Fits(before: seq<int>, after: seq<int>)
      reads framer
    {
      && framer.frame > 0
      && |Resampled(after, fromRate, toRate)| - |Resampled(before, fromRate, toRate)| <= framer.frame * 6
      && EncodeAll(encode, made, Frames(Resampled(after, fromRate, toRate), framer.frame)).output.Some?
    }

    /** Passthrough returns its input. Otherwise success appends the decoded audio and the packets
        it completes; an undecodable packet changes neither; any later failure drops audio. */
    method ProcessFrames(input: Packet) returns (r: Result<seq<Packet>, string>)
      requires Valid()
      modifies this, framer, resampler
      ensures Valid()
      ensures passthrough ==>
                r == Ok([input]) && decoder == old(decoder) && pcm == old(pcm) && sent == old(sent) && intact == old(intact)
      ensures !passthrough && decoder.None? ==> r.Err? && pcm == old(pcm) && sent == old(sent) && intact == old(intact)
      ensures decoder.Some? <==> old(decoder).Some?
      ensures !passthrough && old(decoder).Some? ==>
                var s := decode(old(decoder).value, input);
                && decoder == Some(s.state)
                && (s.output.None? ==> r.Err? && pcm == old(pcm) && sent == old(sent) && intact == old(intact))
                && (s.output.Some? ==> pcm == old(pcm) + s.output.value && (intact <==> old(intact) && r.Ok?))
                && (r.Ok? ==> s.output.Some? && sent == old(sent) + r.value)
                && (old(intact) && s.output.Some? ==> (r.Ok? <==> Fits(old(pcm), pcm)))
    {
      hide Resampled, Resampler.Valid, Frames, PcmFrames.Valid, EncodeAll;
      if passthrough {
        return Ok([input]);
      }
      if decoder.None? {
        return Err("encoder-only pipeline");
      }
      var s := decode(decoder.value, input);
      decoder := Some(s.state);
      if s.output.None? {
        return Err("decode");
      }
      r := Reframe(s.output.value);
    }

    method Reframe(chunk: seq<int>) returns (r: Result<seq<Packet>, string>)
      requires Valid()
      modifies this`encoder, this`pcm, this`sent, this`intact, framer, resampler
      ensures Valid() && pcm == old(pcm) + chunk && (intact <==> old(intact) && r.Ok?)
      ensures sent == old(sent) + if r.Ok? then r.value else []
      ensures old(intact) ==> (r.Ok? <==> Fits(old(pcm), pcm))
    {
      hide Resampled, Resampler.Valid, Frames, PcmFrames.Valid, EncodeAll;
      ghost var before := pcm;
      pcm := pcm + chunk;
      var out := Resample(chunk);
      if resampler == null { EqualRatesCopy(before, chunk, fromRate); }
      var pushed := framer.Push(out);
      if pushed.Err? {
        intact := false;
        return Err(pushed.error);
      }
      var packets := EncodeFrames(pushed.value);
      if intact { EncodeAllAppend(encode, made, Frames(old(framer.heard), framer.frame), pushed.value); }
      if packets.None? {
        intact := false;
        return Err("encode");
      }
      r := Ok(packets.value);
      sent := sent + packets.value;
    }
  }

  /** The run of packets `input` decodes, its last packet lasts at most 120 ms at the output rate,
      and all its frames encode. Below 50 Hz there is no frame to cut, and no packet is deliverable. */
  ghost predicate Deliverable<D, E>(decode: Decoder<D>, encode: Encoder<E>, d: D, e: E, from: pos, to: pos,
                                    input: seq<Packet>)
  {
    && DecodeAll(decode, d, input).output.Some?
    && (input != [] ==> to >= 50)
    && var audio := Resampled(DecodeAll(decode, d, input).output.value, from, to);
       && (to >= 50 ==> EncodeAll(encode, e, Frames(audio, to / 50)).output.Some?)
       && (input != [] ==>
             && DecodeAll(decode, d, input[..|input| - 1]).output.Some?
             && |audio| - |Resampled(DecodeAll(decode, d, input[..|input| - 1]).output.value, from, to)| <= to / 50 * 6)
  }

  /** The packets of a whole run depend only on the audio: its split into packets, and the state
      kept between calls, do not show. A run succeeds exactly when each of its prefixes is deliverable. */
  method TranscodeAll<D, E>(decode: Decoder<D>, encode: Encoder<E>, d: D, e: E, from: pos, to: pos, input: seq<Packet>)
      returns (r: Result<seq<Packet>, string>)
    requires to < 1_000_000_000
    ensures r.Ok? <==> forall i | 0 <= i <= |input| :: Deliverable(decode, encode, d, e, from, to, input[..i])
    ensures r.Ok? ==>
              && DecodeAll(decode, d, input).output.Some?
              && var audio := Resampled(DecodeAll(decode, d, input).output.value, from, to);
                 if to >= 50 then EncodeAll(encode, e, Frames(audio, to / 50)).output == Some(r.value) else r.value == []
  {
    hide Resampled, Resampler.Valid, Frames, PcmFrames.Valid, EncodeAll;
    if to >= 50 { Silence(encode, e, from, to); }
    var p := new Pipeline(decode, encode, Some(d), e, from, to, false);
    var output := [];
    for i := 0 to |input|
      invariant fresh(p) && fresh(p.framer) && (p.resampler == null || fresh(p.resampler))
      invariant p.Valid() && p.intact && !p.passthrough && p.decoder.Some?
      invariant p.decode == decode && p.encode == encode && p.made == e && p.fromRate == from && p.toRate == to
      invariant DecodeAll(decode, d, input[..i]) == Step(p.decoder.value, Some(p.pcm))
      invariant output == p.sent
      invariant forall j | 0 <= j <= i :: Deliverable(decode, encode, d, e, from, to, input[..j])
    {
      var one := p.ProcessFrames(input[i]);
      assert input[..i + 1][..i] == input[..i];
      if one.Err? {
        assert !Deliverable(decode, encode, d, e, from, to, input[..i + 1]);
        return one;
      }
      output := output + one.value;
    }
    assert input[..|input|] == input;
    r := Ok(output);
  }

  lemma {:induction false} Silence<E>(encode: Encoder<E>, e: E, from: pos, to: pos)
    requires to >= 50
    ensures EncodeAll(encode, e, Frames(Resampled([], from, to), to / 50)).output.Some?
  {
    EmptyStream(from, to);
    assert Frames([], to / 50) == [];
  }

  lemma {:induction false} Stuck<E>(encode: Encoder<E>, e: E, frames: seq<seq<int>>, i: nat)
    requires i <= |frames| && EncodeAll(encode, e, frames[..i]).output.None?
    ensures EncodeAll(encode, e, frames) == EncodeAll(encode, e, frames[..i])
    decreases |frames|
  {
    if i < |frames| {
      assert frames[..|frames| - 1][..i] == frames[..i];
      Stuck(encode, e, frames[..|frames| - 1], i);
    } else {
      assert frames[..i] == frames;
    }
  }
}

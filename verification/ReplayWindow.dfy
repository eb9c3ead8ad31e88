/** The 64-entry replay window that `SrtpStreamState::check_replay` and
    `SrtcpRecvState::check_replay` of `src/media/srtp.rs` both keep. */
module ReplayWindow {
  import opened Words

  datatype Window = Window(initialized: bool, highest: nat, bits: u64)

  datatype Refusal = TooOld | Duplicate

  /** Slide the bitmap forward over a new highest index, or mark a bit behind it. */
  function Admit(w: Window, index: nat): Result<Window, Refusal> {
    if !w.initialized then Ok(Window(true, index, 1))
    else if index > w.highest then
      var delta := index - w.highest;
      Ok(Window(true, index, if delta < 64 then Or64(Shl64(w.bits, delta), 1) else 1))
    else
      var delta := w.highest - index;
      if delta >= 64 then Err(TooOld)
      else if And(w.bits, Shl64(1, delta)) != 0 then Err(Duplicate)
      else Ok(w.(bits := Or64(w.bits, Shl64(1, delta))))
  }

  /** The ideal filter: refuse what was seen, and what lies 64 or more behind anything seen. */
  ghost predicate Accepts(seen: set<nat>, index: nat) {
    index !in seen && forall a :: a in seen ==> a < index + 64
  }

  /** The bitmap shows exactly the last 64 members of `seen`. */
  ghost predicate Represents(w: Window, seen: set<nat>) {
    if !w.initialized then seen == {}
    else
      && w.highest in seen
      && (forall a :: a in seen ==> a <= w.highest)
      && (forall k: nat :: k < 64 ==> (Bit(w.bits, k) <==> k <= w.highest && w.highest - k in seen))
  }

  /** One step of the bitmap is one step of the ideal filter. */
  lemma {:induction false} AdmitRefinesSet(w: Window, seen: set<nat>, index: nat)
    requires Represents(w, seen)
    ensures Admit(w, index).Ok? <==> Accepts(seen, index)
    ensures Admit(w, index).Ok? ==> Represents(Admit(w, index).value, seen + {index})
    ensures Admit(w, index) == Err(Duplicate) ==> index in seen
  {
    if !w.initialized {
      forall k: nat | k < 64 ensures Bit(1, k) <==> k == 0 { BitOne(k); }
    } else if index > w.highest {
      var delta := index - w.highest;
      forall k: nat | k < 64
        ensures Bit(Admit(w, index).value.bits, k) <==> k <= index && index - k in seen + {index}
      {
        BitOne(k);
        if delta < 64 {
          BitOr(Shl64(w.bits, delta), 1, k);
          BitShl64(w.bits, delta, k);
          if k >= delta { assert w.highest - (k - delta) == index - k; }
        }
      }
    } else if w.highest - index < 64 {
      var delta := w.highest - index;
      TestBit(w.bits, delta);
      assert index == w.highest - delta;
      if Admit(w, index).Ok? {
        forall k: nat | k < 64
          ensures Bit(Admit(w, index).value.bits, k) <==> k <= w.highest && w.highest - k in seen + {index}
        {
          BitOr(w.bits, Shl64(1, delta), k);
          BitOfMask(delta, k);
        }
      }
    }
  }

  /** Feed indices one after another; each answer is whether the index was admitted. */
  function AdmitAll(w: Window, indices: seq<nat>): (r: (Window, seq<bool>))
    ensures |r.1| == |indices|
    decreases |indices|
  {
    if indices == [] then (w, [])
    else
      var first := Admit(w, indices[0]);
      var (end, rest) := AdmitAll(if first.Ok? then first.value else w, indices[1..]);
      (end, [first.Ok?] + rest)
  }

  /** The indices among the first `n` that were answered `true`. */
  ghost function Admitted(indices: seq<nat>, answers: seq<bool>, n: nat): set<nat>
    requires n <= |indices| == |answers|
  {
    set i | 0 <= i < n && answers[i] :: indices[i]
  }

  /** Whole runs of a window that already represents `seen`: each answer is the ideal filter's on the set
      admitted so far, and the bitmap at the end is exact. */
  lemma {:induction false} AdmitAllRefinesSet(w: Window, seen: set<nat>, indices: seq<nat>, n: nat)
    requires Represents(w, seen) && n <= |indices|
    ensures var (end, answers) := AdmitAll(w, indices);
            && Represents(end, seen + Admitted(indices, answers, |indices|))
            && (n < |indices| ==> (answers[n] <==> Accepts(seen + Admitted(indices, answers, n), indices[n])))
    decreases |indices|
  {
    hide Admit, Represents, Accepts;
    var (end, answers) := AdmitAll(w, indices);
    assert seen + Admitted(indices, answers, 0) == seen;
    if indices != [] {
      AdmitRefinesSet(w, seen, indices[0]);
      var first := Admit(w, indices[0]);
      var seen' := if first.Ok? then seen + {indices[0]} else seen;
      AdmitAllRefinesSet(if first.Ok? then first.value else w, seen', indices[1..], if n == 0 then 0 else n - 1);
      AdmittedTail(indices, answers, |indices|);
      assert seen' + Admitted(indices[1..], answers[1..], |indices| - 1) == seen + Admitted(indices, answers, |indices|);
      if n > 0 {
        AdmittedTail(indices, answers, n);
        assert seen' + Admitted(indices[1..], answers[1..], n - 1) == seen + Admitted(indices, answers, n);
      }
    }
  }

  lemma {:induction false} AdmittedTail(indices: seq<nat>, answers: seq<bool>, n: nat)
    requires 0 < n <= |indices| == |answers|
    ensures Admitted(indices, answers, n)
         == (if answers[0] then {indices[0]} else {}) + Admitted(indices[1..], answers[1..], n - 1)
  {
    forall x | x in Admitted(indices, answers, n)
      ensures x in (if answers[0] then {indices[0]} else {}) + Admitted(indices[1..], answers[1..], n - 1)
    {
      var i :| 0 <= i < n && answers[i] && indices[i] == x;
      if i > 0 { assert answers[1..][i - 1] && indices[1..][i - 1] == x; }
    }
    forall x | x in Admitted(indices[1..], answers[1..], n - 1) ensures x in Admitted(indices, answers, n) {
      var i :| 0 <= i < n - 1 && answers[1..][i] && indices[1..][i] == x;
      assert answers[i + 1] && indices[i + 1] == x;
    }
  }

  /** No index is ever admitted twice. */
  lemma {:induction false} NeverTwice(indices: seq<nat>, i: nat, j: nat)
    requires i < j < |indices| && indices[i] == indices[j]
    ensures var answers := AdmitAll(Window(false, 0, 0), indices).1; !(answers[i] && answers[j])
  {
    AdmitAllRefinesSet(Window(false, 0, 0), {}, indices, j);
    var answers := AdmitAll(Window(false, 0, 0), indices).1;
    if answers[i] { assert indices[i] in Admitted(indices, answers, j); }
  }
}

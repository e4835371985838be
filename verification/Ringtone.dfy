/** The fallback ringtone: mobile/src/ringtone.ts. A start reads the ringer state asynchronously, so it
    is two steps, `Begin` and `Resume`, with anything in between. */
module Ringtone {
  import opened Wrappers

  datatype NativeCall = StartRinging | StopRinging

  /** The native calls alternate, beginning with a start. */
  ghost predicate Alternating(calls: seq<NativeCall>) {
    forall i :: 0 <= i < |calls| ==> calls[i] == if i % 2 == 0 then StartRinging else StopRinging
  }

  function CountOf(calls: seq<NativeCall>, c: NativeCall): (n: nat)
    ensures n <= |calls|
  {
    if calls == [] then 0 else CountOf(calls[..|calls| - 1], c) + if calls[|calls| - 1] == c then 1 else 0
  }

  /** Alternating calls balance, or have one start over. */
  lemma {:induction false} AlternatingBalance(calls: seq<NativeCall>)
    requires Alternating(calls)
    ensures CountOf(calls, StartRinging) == CountOf(calls, StopRinging) + |calls| % 2
  {
    if calls != [] {
      AlternatingBalance(calls[..|calls| - 1]);
    }
  }

  class Ringer {
    /** Whether the native module is there, and which of its functions it has. */
    const present: bool
    const canStart: bool
    const canStop: bool

    var isRinging: bool
    var epoch: nat
    /** Starts still reading the ringer state, with the epoch each captured. */
    var waiting: map<nat, nat>
    var nextStart: nat

    /** Native calls that took effect. */
    ghost var native: seq<NativeCall>
    /** Stops so far; the stops there had been when each waiting start began; stops that could not
        reach the module. */
    ghost var stops: nat
    ghost var begunAt: map<nat, nat>
    ghost var unheard: nat

    ghost predicate Valid()
      reads this
    {
      && epoch == stops && waiting.Keys == begunAt.Keys
      && (forall id :: id in waiting ==> waiting[id] == begunAt[id] <= stops && id < nextStart)
      && (isRinging ==> present && canStart)
      && (unheard == 0 ==> Alternating(native) && (isRinging <==> |native| % 2 == 1))
    }

    constructor (present: bool, canStart: bool, canStop: bool)
      ensures Valid() && !isRinging && native == [] && stops == 0 && unheard == 0
      ensures this.present == present && this.canStart == canStart && this.canStop == canStop
    {
      this.present, this.canStart, this.canStop := present, canStart, canStop;
      isRinging, epoch, waiting, nextStart := false, 0, map[], 0;
      native, stops, begunAt, unheard := [], 0, map[], 0;
    }

    ghost function Snapshot(): State
      reads this
    {
      State(isRinging, stops, begunAt, nextStart, native)
    }

    function Native(): Module {
      Module(present, canStart, canStop)
    }

    /** `startIncomingRingtone` up to its await. `id` names the start when it goes on. */
    method Begin() returns (alreadyRinging: bool, id: nat)
      requires Valid()
      modifies `waiting, `nextStart, `begunAt
      ensures Valid() && (alreadyRinging <==> isRinging) && id == old(nextStart)
      ensures alreadyRinging ==> waiting == old(waiting) && begunAt == old(begunAt) && nextStart == old(nextStart)
      ensures !alreadyRinging ==>
                && waiting == old(waiting)[id := epoch] && begunAt == old(begunAt)[id := stops]
                && nextStart == old(nextStart) + 1
    {
      id := nextStart;
      if isRinging {
        return true, id;
      }
      waiting := waiting[id := epoch];
      begunAt := begunAt[id := stops];
      nextStart := nextStart + 1;
      return false, id;
    }

    /** The rest of a start. It rings only if nothing has been stopped since it began. */
    method Resume(id: nat, audible: bool, throws: bool) returns (ringing: bool)
      requires Valid() && id in waiting
      modifies `isRinging, `waiting, `native, `begunAt
      ensures Valid() && waiting == old(waiting) - {id} && begunAt == old(begunAt) - {id}
      ensures native == old(native) || native == old(native) + [StartRinging]
      ensures native != old(native) ==> old(begunAt)[id] == stops && !old(isRinging) && isRinging
      ensures native == old(native) ==> isRinging == old(isRinging)
      ensures native != old(native) <==>
                audible && !old(isRinging) && old(begunAt)[id] == stops && present && canStart && !throws
      ensures ringing <==> audible && (isRinging)
    {
      var captured := waiting[id];
      waiting := waiting - {id};
      begunAt := begunAt - {id};
      if !audible {
        return false;
      }
      if isRinging {
        return true;
      }
      if captured != epoch || !present {
        return false;
      }
      if canStart && !throws {
        native := native + [StartRinging];
        isRinging := true;
      }
      return isRinging;
    }

    /** `stopIncomingRingtone`. */
    method Stop(throws: bool)
      requires Valid()
      modifies `isRinging, `epoch, `native, `stops, `unheard
      ensures Valid() && !isRinging && stops == old(stops) + 1
      ensures native == old(native) + if old(isRinging) && present && canStop && !throws then [StopRinging] else []
      ensures unheard == old(unheard) + if old(isRinging) && !(present && canStop && !throws) then 1 else 0
    {
      epoch, stops := epoch + 1, stops + 1;
      if !isRinging {
        return;
      }
      isRinging := false;
      if present && canStop && !throws {
        native := native + [StopRinging];
      } else {
        unheard := unheard + 1;
      }
    }
  }

  // ----- what a script does -----

  datatype Step = BeginStep | ResumeStep(id: nat, audible: bool, throws: bool) | StopStep(throws: bool)

  /** Which native functions there are. */
  datatype Module = Module(present: bool, canStart: bool, canStop: bool)

  /** Whether it rings, the stops so far, the waiting starts with the stops before each, the next start, and
      the native calls. */
  datatype State = State(ringing: bool, stops: nat, begunAt: map<nat, nat>, nextStart: nat, native: seq<NativeCall>)

  /** A start goes on to ring when the device is audible, nothing rings, and nothing was stopped since. */
  predicate Rings(m: Module, s: State, id: nat, audible: bool, throws: bool) {
    id in s.begunAt && audible && !s.ringing && s.begunAt[id] == s.stops && m.present && m.canStart && !throws
  }

  function Next(m: Module, s: State, step: Step): State {
    match step
    case BeginStep =>
      if s.ringing then s else s.(begunAt := s.begunAt[s.nextStart := s.stops], nextStart := s.nextStart + 1)
    case ResumeStep(id, audible, throws) =>
      var resumed := s.(begunAt := s.begunAt - {id});
      if Rings(m, s, id, audible, throws) then resumed.(ringing := true, native := s.native + [StartRinging])
        else resumed
    case StopStep(throws) =>
      s.(ringing := false, stops := s.stops + 1,
         native := s.native + if s.ringing && m.present && m.canStop && !throws then [StopRinging] else [])
  }

  function Play(m: Module, s: State, script: seq<Step>): State {
    if script == [] then s else Next(m, Play(m, s, script[..|script| - 1]), script[|script| - 1])
  }

  /** The starts of a script, in the order they began, are numbered; and each waits with the stops there had
      been when it began. */
  ghost predicate BegunBy(m: Module, s: State, script: seq<Step>, id: nat, j: nat) {
    && j < |script| && script[j].BeginStep? && !Play(m, s, script[..j]).ringing
    && Play(m, s, script[..j]).nextStart == id
  }

  ghost predicate NoStop(script: seq<Step>, from: nat) {
    forall i :: from <= i < |script| ==> !script[i].StopStep?
  }

  lemma {:induction false} StopsSince(m: Module, s: State, script: seq<Step>, j: nat)
    requires j <= |script|
    ensures Play(m, s, script[..j]).stops <= Play(m, s, script).stops
    ensures Play(m, s, script[..j]).stops == Play(m, s, script).stops <==> NoStop(script, j)
    decreases script
  {
    if j == |script| {
      assert script[..j] == script;
    } else {
      var init := script[..|script| - 1];
      StopsSince(m, s, init, j);
      assert init[..j] == script[..j];
    }
  }

  /** Every waiting start was begun by some step of the script, and waits with the stops of that time. */
  lemma {:induction false} WaitingBegan(m: Module, s: State, script: seq<Step>, id: nat) returns (j: nat)
    requires s.begunAt == map[] && id in Play(m, s, script).begunAt
    ensures BegunBy(m, s, script, id, j) && Play(m, s, script).begunAt[id] == Play(m, s, script[..j]).stops
    decreases script
  {
    var init := script[..|script| - 1];
    var before := Play(m, s, init);
    if script[|script| - 1].BeginStep? && !before.ringing && before.nextStart == id {
      j := |script| - 1;
    } else {
      j := WaitingBegan(m, s, init, id);
      assert init[..j] == script[..j];
    }
  }

  /** A start begun before a stop never rings after it: what makes it ring at a step is that it began at an
      earlier step and nothing was stopped in between. */
  lemma OutdatedStartNeverRings(m: Module, s: State, script: seq<Step>, id: nat, audible: bool, throws: bool)
    returns (j: nat)
    requires s.begunAt == map[] && Rings(m, Play(m, s, script), id, audible, throws)
    ensures BegunBy(m, s, script, id, j) && NoStop(script, j)
  {
    j := WaitingBegan(m, s, script, id);
    StopsSince(m, s, script, j);
  }

  /** Any overlapping of starts and stops does what its script says. With a module that is there and does not
      throw from `stop`, native starts and stops alternate, and there is one start over exactly while the
      flag is set. */
  method Run(r: Ringer, script: seq<Step>)
    requires r.Valid()
    modifies r
    ensures r.Valid() && r.Snapshot() == Play(r.Native(), old(r.Snapshot()), script)
    ensures WellBehaved(r.Native(), script) && old(r.unheard) == 0 ==>
              Alternating(r.native)
              && CountOf(r.native, StartRinging) == CountOf(r.native, StopRinging) + if r.isRinging then 1 else 0
  {
    ghost var start := r.Snapshot();
    for i := 0 to |script|
      invariant r.Valid() && r.Snapshot() == Play(r.Native(), start, script[..i])
      invariant WellBehaved(r.Native(), script[..i]) && old(r.unheard) == 0 ==> r.unheard == 0
    {
      assert script[..i + 1][..i] == script[..i];
      Perform(r, script[i]);
      assert WellBehaved(r.Native(), script[..i + 1]) ==> WellBehaved(r.Native(), script[..i]);
      assert script[..i + 1][i] == script[i];
    }
    assert script[..|script|] == script;
    if WellBehaved(r.Native(), script) && old(r.unheard) == 0 {
      AlternatingBalance(r.native);
    }
  }

  predicate WellBehaved(m: Module, script: seq<Step>) {
    m.present && m.canStop && forall i :: 0 <= i < |script| && script[i].StopStep? ==> !script[i].throws
  }

  method Perform(r: Ringer, step: Step)
    requires r.Valid()
    modifies r
    ensures r.Valid() && r.Snapshot() == Next(r.Native(), old(r.Snapshot()), step)
    ensures r.present && r.canStop && (step.StopStep? ==> !step.throws) ==> r.unheard == old(r.unheard)
  {
    match step {
      case BeginStep => var ringing, id := r.Begin();
      case ResumeStep(id, audible, throws) =>
        if id in r.waiting {
          var ringing := r.Resume(id, audible, throws);
        } else {
          assert r.begunAt - {id} == r.begunAt;
        }
      case StopStep(throws) => r.Stop(throws);
    }
  }
}

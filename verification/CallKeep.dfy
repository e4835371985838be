/** Incoming-call answers and displays: mobile/src/callKeep.ts.

    A call flow's callback is the last thing each function does, so whatever it calls back into comes
    after; runs are therefore sequences of whole calls. `displayIncomingCall` is taken as one of them. */
module CallKeep {
  import opened Wrappers
  import opened Text

  /** What became of a queued answer. `Lost`: drained for handlers that had no `onAnswer`. */
  datatype Fate = Pending | Replayed | Consumed | Superseded | Cleared | Lost

  datatype Answer = Answer(callId: string, fate: Fate)

  /** Attached handlers; `token` is the identity of the handlers object. */
  datatype Handlers = Handlers(token: nat, hasOnAnswer: bool, hasOnEnd: bool)

  datatype Shown = Shown | NotShown(reason: string)

  /** The native side, as one display call finds it. */
  datatype Native = Native(present: bool, ready: bool, hasAccount: bool, enabled: bool, throws: bool)

  // ----- the ledger of queued answers -----

  /** Only the newest answer can be pending, and it is the one in the slot. */
  ghost predicate Settled(answers: seq<Answer>, slot: Option<string>) {
    && (slot.Some? ==> answers != [] && answers[|answers| - 1] == Answer(slot.value, Pending))
    && (forall i :: 0 <= i < |answers| && answers[i].fate == Pending ==> slot.Some? && i == |answers| - 1)
  }

  /** The pending answer's fate is decided. */
  function Decide(answers: seq<Answer>, fate: Fate): seq<Answer> {
    if answers == [] then [] else answers[..|answers| - 1] + [answers[|answers| - 1].(fate := fate)]
  }

  /** The ledger once `callId` is queued: nothing new if it is in the slot already. */
  function Queued(answers: seq<Answer>, slot: Option<string>, callId: string): seq<Answer> {
    if slot == Some(callId) then answers
    else (if slot.Some? then Decide(answers, Superseded) else answers) + [Answer(callId, Pending)]
  }

  function WithFate(answers: seq<Answer>, fate: Fate): seq<string> {
    if answers == [] then []
    else WithFate(answers[..|answers| - 1], fate)
         + if answers[|answers| - 1].fate == fate then [answers[|answers| - 1].callId] else []
  }

  lemma DecideSettles(answers: seq<Answer>, slot: Option<string>, fate: Fate)
    requires Settled(answers, slot) && slot.Some? && fate != Pending
    ensures Settled(Decide(answers, fate), None)
    ensures WithFate(Decide(answers, fate), fate) == WithFate(answers, fate) + [slot.value]
    ensures forall f :: f != fate && f != Pending ==> WithFate(Decide(answers, fate), f) == WithFate(answers, f)
  {
    var init := answers[..|answers| - 1];
    assert Decide(answers, fate)[..|answers| - 1] == init;
  }

  /** The ledger against the lists of what was replayed, consumed and lost. */
  ghost predicate Ledger(answers: seq<Answer>, slot: Option<string>, replays: seq<(nat, string)>, drained: seq<string>,
                         lost: seq<string>) {
    && (slot.Some? ==> slot.value != "") && Settled(answers, slot)
    && Seconds(replays) == WithFate(answers, Replayed) && drained == WithFate(answers, Consumed)
    && lost == WithFate(answers, Lost)
  }

  lemma ReplaySettles(answers: seq<Answer>, callId: string, replays: seq<(nat, string)>, drained: seq<string>,
                      lost: seq<string>, token: nat)
    requires Ledger(answers, Some(callId), replays, drained, lost)
    ensures Ledger(Decide(answers, Replayed), None, replays + [(token, callId)], drained, lost)
  {
    DecideSettles(answers, Some(callId), Replayed);
    SecondsAppend(replays, (token, callId));
  }

  lemma LossSettles(answers: seq<Answer>, callId: string, replays: seq<(nat, string)>, drained: seq<string>,
                    lost: seq<string>)
    requires Ledger(answers, Some(callId), replays, drained, lost)
    ensures Ledger(Decide(answers, Lost), None, replays, drained, lost + [callId])
  {
    DecideSettles(answers, Some(callId), Lost);
  }

  lemma QueueSettles(answers: seq<Answer>, callId: string)
    requires Settled(answers, None)
    ensures Settled(answers + [Answer(callId, Pending)], Some(callId))
    ensures forall f :: f != Pending ==> WithFate(answers + [Answer(callId, Pending)], f) == WithFate(answers, f)
  {
    assert (answers + [Answer(callId, Pending)])[..|answers|] == answers;
  }

  lemma QueuedSettles(answers: seq<Answer>, slot: Option<string>, callId: string, replays: seq<(nat, string)>,
                      drained: seq<string>, lost: seq<string>)
    requires Ledger(answers, slot, replays, drained, lost) && callId != ""
    ensures Ledger(Queued(answers, slot, callId), Some(callId), replays, drained, lost)
  {
    if slot != Some(callId) {
      if slot.Some? {
        DecideSettles(answers, slot, Superseded);
        QueueSettles(Decide(answers, Superseded), callId);
      } else {
        QueueSettles(answers, callId);
      }
    }
  }

  /** Every queued answer is in exactly one of the lists, and at most one is pending. */
  lemma {:induction false} FatesPartition(answers: seq<Answer>, slot: Option<string>)
    requires Settled(answers, slot)
    ensures |answers| == |WithFate(answers, Replayed)| + |WithFate(answers, Consumed)| + |WithFate(answers, Superseded)|
                         + |WithFate(answers, Cleared)| + |WithFate(answers, Lost)| + (if slot.Some? then 1 else 0)
    ensures WithFate(answers, Pending) == if slot.Some? then [slot.value] else []
  {
    if answers != [] {
      FatesPartition(answers[..|answers| - 1], None);
    }
  }

  // ----- the display registries -----

  /** What is kept about the calls on display. */
  datatype Board = Board(ids: set<string>, callers: map<string, string>, names: map<string, string>,
                         video: map<string, bool>) {
    /** No two displayed calls have one caller, and nothing is kept about a call not displayed. */
    ghost predicate Valid() {
      && callers.Keys <= ids && names.Keys <= ids && video.Keys <= ids
      && "" !in ids && (forall k :: k in callers ==> callers[k] != "")
      && (forall j, k :: j in callers && k in callers && callers[j] == callers[k] ==> j == k)
    }

    function Without(gone: set<string>): Board {
      Board(ids - gone, callers - gone, names - gone, video - gone)
    }

    /** One more call on display; an empty caller or name is not kept. */
    function With(callId: string, callerId: string, displayName: string, hasVideo: bool): Board {
      Board(ids + {callId}, if callerId != "" then callers[callId := callerId] else callers,
            if Trim(displayName) != "" then names[callId := Trim(displayName)] else names, video[callId := hasVideo])
    }
  }

  const EMPTY_BOARD := Board({}, map[], map[], map[])

  lemma WithoutNothing(b: Board)
    ensures b.Without({}) == b
  {
  }

  lemma WithoutJoins(b: Board, gone: set<string>, other: string)
    ensures b.Without(gone).Without({other}) == b.Without(gone + {other})
  {
    assert b.callers - gone - {other} == b.callers - (gone + {other});
    assert b.names - gone - {other} == b.names - (gone + {other});
    assert b.video - gone - {other} == b.video - (gone + {other});
    assert b.ids - gone - {other} == b.ids - (gone + {other});
  }

  lemma WithIsUndone(b: Board, callId: string, callerId: string, displayName: string, hasVideo: bool)
    requires b.Valid() && callId !in b.ids
    ensures b.With(callId, callerId, displayName, hasVideo).Without({callId}) == b
  {
    var c := b.With(callId, callerId, displayName, hasVideo);
    assert c.callers - {callId} == b.callers && c.names - {callId} == b.names && c.video - {callId} == b.video;
    assert c.ids - {callId} == b.ids;
  }

  lemma WithoutIsValid(b: Board, gone: set<string>)
    requires b.Valid()
    ensures b.Without(gone).Valid()
  {
  }

  class Calls {
    var pending: Option<string>
    var handlers: Option<Handlers>
    var nextToken: nat

    var displayed: set<string>
    var callerIds: map<string, string>
    var callerNames: map<string, string>
    var videoModes: map<string, bool>

    /** Every answer ever queued, and what became of it. */
    ghost var answers: seq<Answer>
    /** The replays made to handlers, the ids handed out by consuming, and the ids drained for handlers
        that could not take them, each in order. */
    ghost var replays: seq<(nat, string)>
    ghost var drained: seq<string>
    ghost var lost: seq<string>

    ghost predicate LedgerValid()
      reads this
    {
      && Ledger(answers, pending, replays, drained, lost)
      && (handlers.Some? ==> handlers.value.token < nextToken)
    }

    ghost predicate Valid()
      reads this
    {
      LedgerValid() && OnDisplay().Valid()
    }

    /** The four registries together. */
    ghost function OnDisplay(): Board
      reads this
    {
      Board(displayed, callerIds, callerNames, videoModes)
    }

    constructor ()
      ensures Valid() && answers == [] && pending == None && handlers == None && displayed == {}
    {
      pending, handlers, nextToken := None, None, 0;
      displayed, callerIds, callerNames, videoModes := {}, map[], map[], map[];
      answers, replays, drained, lost := [], [], [], [];
    }

    // ----- answers -----

    /** `recordPendingAnswer`: a different answer already queued is superseded. */
    method RecordPendingAnswer(callId: string) returns (queued: bool)
      requires LedgerValid()
      modifies `pending, `answers
      ensures LedgerValid() && (queued <==> callId != "")
      ensures !queued ==> pending == old(pending) && answers == old(answers)
      ensures queued ==> pending == Some(callId) && answers == Queued(old(answers), old(pending), callId)
    {
      if callId == "" {
        return false;
      }
      QueuedSettles(answers, pending, callId, replays, drained, lost);
      if pending.Some? && pending != Some(callId) {
        answers := Decide(answers, Superseded);
      }
      if pending != Some(callId) {
        answers := answers + [Answer(callId, Pending)];
      }
      pending := Some(callId);
      return true;
    }

    /** `consumePendingAnswer`: drains the slot, or only a matching one when an id is given. */
    method ConsumePendingAnswer(callId: Option<string>) returns (taken: Option<string>)
      requires LedgerValid()
      modifies `pending, `answers, `drained
      ensures LedgerValid()
      ensures taken == if callId == None || callId == Some("") || callId == old(pending) then old(pending) else None
      ensures taken.None? ==> pending == old(pending) && answers == old(answers) && drained == old(drained)
      ensures taken.Some? ==>
                pending == None && answers == Decide(old(answers), Consumed) && drained == old(drained) + [taken.value]
    {
      if pending.None? || !Matches(callId, pending) {
        return None;
      }
      DecideSettles(answers, pending, Consumed);
      taken := pending;
      drained := drained + [pending.value];
      answers := Decide(answers, Consumed);
      pending := None;
    }

    /** `clearPendingAnswer`. */
    method ClearPendingAnswer(callId: Option<string>) returns (dropped: bool)
      requires LedgerValid()
      modifies `pending, `answers
      ensures LedgerValid()
      ensures dropped <==> old(pending).Some? && (callId == None || callId == Some("") || callId == old(pending))
      ensures !dropped ==> pending == old(pending) && answers == old(answers)
      ensures dropped ==> pending == None && answers == Decide(old(answers), Cleared)
    {
      if pending.None? || !Matches(callId, pending) {
        return false;
      }
      DecideSettles(answers, pending, Cleared);
      answers := Decide(answers, Cleared);
      pending := None;
      return true;
    }

    /** `setCallActionHandlers`: take over, and replay the queued answer. Returns what detaching needs. */
    method SetCallActionHandlers(hasOnAnswer: bool, hasOnEnd: bool) returns (h: Handlers)
      requires LedgerValid()
      modifies `pending, `answers, `replays, `lost, `handlers, `nextToken
      ensures LedgerValid() && pending == None && handlers == Some(h) && nextToken == old(nextToken) + 1
      ensures h == Handlers(old(nextToken), hasOnAnswer, hasOnEnd)
      ensures old(pending).None? ==> answers == old(answers) && replays == old(replays)
      ensures old(pending).Some? ==>
                && answers == Decide(old(answers), if hasOnAnswer then Replayed else Lost)
                && replays == old(replays) + if hasOnAnswer then [(h.token, old(pending).value)] else []
      ensures lost == old(lost) + if old(pending).Some? && !hasOnAnswer then [old(pending).value] else []
    {
      h := Handlers(nextToken, hasOnAnswer, hasOnEnd);
      nextToken := nextToken + 1;
      handlers := Some(h);
      if pending.Some? {
        Replay(h);
      }
    }

    /** The queued answer leaves the slot, and goes to the new handlers if they take answers. */
    method Replay(h: Handlers)
      requires LedgerValid() && pending.Some?
      modifies `pending, `answers, `replays, `lost
      ensures LedgerValid() && pending == None
      ensures answers == Decide(old(answers), if h.hasOnAnswer then Replayed else Lost)
      ensures replays == old(replays) + if h.hasOnAnswer then [(h.token, old(pending).value)] else []
      ensures lost == old(lost) + if h.hasOnAnswer then [] else [old(pending).value]
    {
      var callId := pending.value;
      pending := None;
      if h.hasOnAnswer {
        ReplaySettles(answers, callId, replays, drained, lost, h.token);
        answers := Decide(answers, Replayed);
        replays := replays + [(h.token, callId)];
      } else {
        LossSettles(answers, callId, replays, drained, lost);
        answers := Decide(answers, Lost);
        lost := lost + [callId];
      }
    }

    /** The detach function `SetCallActionHandlers` returned: handlers attached later stay. */
    method Detach(h: Handlers)
      requires LedgerValid()
      modifies `handlers
      ensures LedgerValid()
      ensures handlers == if old(handlers).Some? && old(handlers).value.token == h.token then None else old(handlers)
    {
      if handlers.Some? && handlers.value.token == h.token {
        handlers := None;
      }
    }

    /** The native `answerCall` event. `told` is the handlers object it was passed to, if any. */
    method OnAnswerCall(callId: string) returns (told: Option<nat>)
      requires LedgerValid()
      modifies `pending, `answers
      ensures LedgerValid()
      ensures told == if handlers.Some? && handlers.value.hasOnAnswer then Some(handlers.value.token) else None
      ensures told.Some? ==> pending == old(pending) && answers == old(answers)
      ensures told.None? && callId == "" ==> pending == old(pending) && answers == old(answers)
      ensures told.None? && callId != "" ==>
                pending == Some(callId) && answers == Queued(old(answers), old(pending), callId)
    {
      if handlers.Some? && handlers.value.hasOnAnswer {
        return Some(handlers.value.token);
      }
      var queued := RecordPendingAnswer(callId);
      return None;
    }

    /** The native `endCall` event. */
    method OnEndCall(callId: string) returns (told: Option<nat>)
      requires Valid()
      modifies `pending, `answers, `displayed, `callerIds, `callerNames, `videoModes
      ensures Valid() && pending != Some(callId)
      ensures if old(pending) == Some(callId) then pending == None && answers == Decide(old(answers), Cleared)
              else pending == old(pending) && answers == old(answers)
      ensures told == if handlers.Some? && handlers.value.hasOnEnd then Some(handlers.value.token) else None
      ensures OnDisplay() == if told.Some? then old(OnDisplay()) else old(OnDisplay()).Without({callId})
    {
      if pending == Some(callId) {
        var dropped := ClearPendingAnswer(Some(callId));
      }
      if handlers.Some? && handlers.value.hasOnEnd {
        return Some(handlers.value.token);
      }
      ClearDisplayedCall(callId);
      return None;
    }

    // ----- displays -----

    method ClearDisplayedCall(callId: string)
      requires OnDisplay().Valid()
      modifies `displayed, `callerIds, `callerNames, `videoModes
      ensures OnDisplay().Valid() && OnDisplay() == old(OnDisplay()).Without({callId})
    {
      WithoutIsValid(OnDisplay(), {callId});
      displayed := displayed - {callId};
      callerIds := callerIds - {callId};
      callerNames := callerNames - {callId};
      videoModes := videoModes - {callId};
    }

    /** `endAllCalls`. */
    method EndAllCalls()
      requires Valid()
      modifies `displayed, `callerIds, `callerNames, `videoModes
      ensures Valid() && OnDisplay() == EMPTY_BOARD
    {
      displayed, callerIds, callerNames, videoModes := {}, map[], map[], map[];
    }

    /** `dismissStaleCallsFromCaller`: earlier calls of the caller end, and with them a queued answer
        to one. */
    method DismissStaleCalls(callId: string, callerId: string)
      requires Valid() && callId !in displayed
      modifies `pending, `answers, `displayed, `callerIds, `callerNames, `videoModes
      ensures Valid() && OnDisplay() == old(OnDisplay()).Without(CallsOf(old(callerIds), callerId))
      ensures forall k :: k in old(displayed) ==>
                (k in displayed <==> callerId == "" || k !in old(callerIds) || old(callerIds)[k] != callerId)
      ensures callerId != "" ==> callerId !in callerIds.Values
      ensures ClearedFor(CallsOf(old(callerIds), callerId), old(pending), old(answers), pending, answers)
    {
      WithoutNothing(OnDisplay());
      if callerId == "" {
        assert CallsOf(callerIds, callerId) == {};
        return;
      }
      ghost var stale := CallsOf(callerIds, callerId);
      ghost var gone: set<string> := {};
      var rest := callerIds.Keys;
      while rest != {}
        invariant Valid() && gone <= stale <= gone + rest && gone !! rest
        invariant OnDisplay() == old(OnDisplay()).Without(gone)
        invariant ClearedFor(gone, old(pending), old(answers), pending, answers)
      {
        var other :| other in rest;
        rest := rest - {other};
        if other in callerIds && callerIds[other] == callerId {
          DismissCall(other);
          WithoutJoins(old(OnDisplay()), gone, other);
          gone := gone + {other};
        }
      }
      assert gone == stale;
    }

    /** End one displayed call and drop a queued answer to it. */
    method DismissCall(callId: string)
      requires Valid()
      modifies `pending, `answers, `displayed, `callerIds, `callerNames, `videoModes
      ensures Valid() && OnDisplay() == old(OnDisplay()).Without({callId})
      ensures callId != "" ==> ClearedFor({callId}, old(pending), old(answers), pending, answers)
    {
      ClearDisplayedCall(callId);
      var dropped := ClearPendingAnswer(Some(callId));
    }

    /** `displayIncomingCall`. */
    method DisplayIncomingCall(callId: string, callerId: string, displayName: string, hasVideo: bool, native: Native)
      returns (r: Shown)
      requires Valid()
      modifies `pending, `answers, `displayed, `callerIds, `callerNames, `videoModes
      ensures Valid()
      ensures r.Shown? <==>
                callId != "" && callId !in old(displayed) && native.present && native.ready && native.hasAccount
                && native.enabled && !native.throws
      ensures var left := old(OnDisplay()).Without(Replaced(callId, callerId, old(displayed), old(callerIds), native));
              OnDisplay() == if r.Shown? then left.With(callId, callerId, displayName, hasVideo) else left
      ensures ClearedFor(Replaced(callId, callerId, old(displayed), old(callerIds), native), old(pending), old(answers),
                         pending, answers)
    {
      WithoutNothing(OnDisplay());
      if callId == "" {
        return NotShown("missing_call_id");
      }
      if callId in displayed {
        return NotShown("duplicate_callId_deduped");
      }
      if !native.present {
        return NotShown("native_module_absent");
      }
      if !native.ready {
        return NotShown("phone_account_not_registered");
      }
      DismissStaleCalls(callId, callerId);
      r := Present(callId, callerId, displayName, hasVideo, native);
    }

    /** The rest of `displayIncomingCall`: the account checks and the call to the native module. */
    method Present(callId: string, callerId: string, displayName: string, hasVideo: bool, native: Native)
      returns (r: Shown)
      requires Valid() && callId != "" && callId !in displayed
      requires callerId != "" ==> callerId !in callerIds.Values
      modifies `displayed, `callerIds, `callerNames, `videoModes
      ensures Valid() && (r.Shown? <==> native.hasAccount && native.enabled && !native.throws)
      ensures OnDisplay() == if r.Shown? then old(OnDisplay()).With(callId, callerId, displayName, hasVideo)
                             else old(OnDisplay())
    {
      if !native.hasAccount {
        return NotShown("phone_account_not_registered");
      }
      if !native.enabled {
        return NotShown("phone_account_disabled_by_user");
      }
      Register(callId, callerId, displayName, hasVideo);
      if native.throws {
        ClearDisplayedCall(callId);
        WithIsUndone(old(OnDisplay()), callId, callerId, displayName, hasVideo);
        return NotShown("telecom_threw");
      }
      return Shown.Shown;
    }

    /** Enter a call in the registries. */
    method Register(callId: string, callerId: string, displayName: string, hasVideo: bool)
      requires OnDisplay().Valid()
      requires callId != "" && callId !in displayed && (callerId != "" ==> callerId !in callerIds.Values)
      modifies `displayed, `callerIds, `callerNames, `videoModes
      ensures OnDisplay().Valid() && OnDisplay() == old(OnDisplay()).With(callId, callerId, displayName, hasVideo)
    {
      WithIsValid(OnDisplay(), callId, callerId, displayName, hasVideo);
      displayed := displayed + {callId};
      videoModes := videoModes[callId := hasVideo];
      if callerId != "" {
        callerIds := callerIds[callId := callerId];
      }
      if Trim(displayName) != "" {
        callerNames := callerNames[callId := Trim(displayName)];
      }
    }

    /** Everything the script of a run determines. */
    ghost function Snapshot(): World
      reads this
    {
      World(pending, handlers, nextToken, answers, replays, OnDisplay())
    }
  }

  lemma WithIsValid(b: Board, callId: string, callerId: string, displayName: string, hasVideo: bool)
    requires b.Valid() && callId != "" && callId !in b.ids && (callerId != "" ==> callerId !in b.callers.Values)
    ensures b.With(callId, callerId, displayName, hasVideo).Valid()
  {
    assert forall k :: k in b.callers ==> b.callers[k] in b.callers.Values;
  }

  datatype Command =
    | AnswerCall(callId: string) | EndCallEvent(callId: string)
    | Attach(hasOnAnswer: bool, hasOnEnd: bool) | DetachHandlers(handlers: Handlers)
    | Record(callId: string) | Consume(wanted: Option<string>) | Clear(wanted: Option<string>)
    | Display(callId: string, callerId: string, displayName: string, hasVideo: bool, native: Native)
    | EndCall(callId: string) | EndAll

  // ----- what a script does -----

  /** The answer slot, the handlers, what became of each answer, and the calls on display. */
  datatype World = World(pending: Option<string>, handlers: Option<Handlers>, nextToken: nat, answers: seq<Answer>,
                         replays: seq<(nat, string)>, board: Board)

  function QueueAnswer(w: World, callId: string): World {
    if callId == "" then w else w.(pending := Some(callId), answers := Queued(w.answers, w.pending, callId))
  }

  /** The queued answer's fate is decided, if there is one. */
  function Settle(w: World, applies: bool, fate: Fate): World {
    if w.pending.Some? && applies then w.(pending := None, answers := Decide(w.answers, fate)) else w
  }

  function AfterAttach(w: World, hasOnAnswer: bool, hasOnEnd: bool): World {
    var replay := if w.pending.Some? && hasOnAnswer then [(w.nextToken, w.pending.value)] else [];
    Settle(w, true, if hasOnAnswer then Replayed else Lost)
    .(handlers := Some(Handlers(w.nextToken, hasOnAnswer, hasOnEnd)), nextToken := w.nextToken + 1,
      replays := w.replays + replay)
  }

  function AfterDisplay(w: World, callId: string, callerId: string, displayName: string, hasVideo: bool, native: Native)
    : World
  {
    var gone := Replaced(callId, callerId, w.board.ids, w.board.callers, native);
    var left := w.board.Without(gone);
    Settle(w, w.pending.Some? && w.pending.value in gone, Cleared)
    .(board := if IsShown(callId, w.board.ids, native) then left.With(callId, callerId, displayName, hasVideo)
               else left)
  }

  /** What one event or call does. */
  function Next(w: World, c: Command): World {
    match c
    case AnswerCall(callId) => if w.handlers.Some? && w.handlers.value.hasOnAnswer then w else QueueAnswer(w, callId)
    case EndCallEvent(callId) =>
      var settled := Settle(w, w.pending == Some(callId), Cleared);
      if w.handlers.Some? && w.handlers.value.hasOnEnd then settled
      else settled.(board := w.board.Without({callId}))
    case Attach(hasOnAnswer, hasOnEnd) => AfterAttach(w, hasOnAnswer, hasOnEnd)
    case DetachHandlers(h) =>
      if w.handlers.Some? && w.handlers.value.token == h.token then w.(handlers := None) else w
    case Record(callId) => QueueAnswer(w, callId)
    case Consume(wanted) => Settle(w, Matches(wanted, w.pending), Consumed)
    case Clear(wanted) => Settle(w, Matches(wanted, w.pending), Cleared)
    case Display(callId, callerId, displayName, hasVideo, native) =>
      AfterDisplay(w, callId, callerId, displayName, hasVideo, native)
    case EndCall(callId) => w.(board := w.board.Without({callId}))
    case EndAll => w.(board := EMPTY_BOARD)
  }

  function Play(w: World, script: seq<Command>): World {
    if script == [] then w else Next(Play(w, script[..|script| - 1]), script[|script| - 1])
  }

  /** A display that goes well ends the caller's other calls and no one else's, leaves what is kept about the
      rest, and enters the call with the name between any white space. */
  lemma DisplayReplacesOwn(w: World, callId: string, callerId: string, a: string, name: string, b: string,
                           hasVideo: bool)
    requires w.board.Valid() && callId != "" && callId !in w.board.ids
    requires AllSpace(a) && AllSpace(b) && IsTrimmed(name)
    ensures var was, board := w.board, AfterDisplay(w, callId, callerId, a + name + b, hasVideo,
                                                     Native(true, true, true, true, false)).board;
            && callId in board.ids && callId in board.video && board.video[callId] == hasVideo
            && (callId in board.callers <==> callerId != "") && (callerId != "" ==> board.callers[callId] == callerId)
            && (callId in board.names <==> name != "") && (name != "" ==> board.names[callId] == name)
            && (forall k :: k in was.ids ==>
                  (k in board.ids <==> callerId == "" || k !in was.callers || was.callers[k] != callerId))
            && (forall k :: k in board.ids && k != callId ==>
                  && k in was.ids && (k in board.callers <==> k in was.callers)
                  && (k in board.callers ==> board.callers[k] == was.callers[k])
                  && (k in board.names <==> k in was.names) && (k in board.names ==> board.names[k] == was.names[k])
                  && (k in board.video <==> k in was.video) && (k in board.video ==> board.video[k] == was.video[k]))
  {
    TrimCuts(a, name, b);
  }

  /** Handlers attached last stay through any detaching of others. */
  lemma {:induction false} LaterHandlersStay(w: World, script: seq<Command>)
    requires w.handlers.Some?
    requires forall i :: 0 <= i < |script| ==>
               !script[i].Attach? && (script[i].DetachHandlers? ==> script[i].handlers.token != w.handlers.value.token)
    ensures Play(w, script).handlers == w.handlers
  {
    if script != [] {
      LaterHandlersStay(w, script[..|script| - 1]);
    }
  }

  /** Any run of events and calls does what its script says. Every answer ever queued is exactly one of
      replayed, consumed, superseded, cleared, lost and still pending, and none is lost while handlers come
      with an `onAnswer`; no two displayed calls ever share a caller. */
  method Run(calls: Calls, script: seq<Command>)
    requires calls.Valid()
    modifies calls
    ensures calls.Valid() && calls.Snapshot() == Play(old(calls.Snapshot()), script)
    ensures |calls.answers| == |calls.replays| + |calls.drained| + |WithFate(calls.answers, Superseded)|
                               + |WithFate(calls.answers, Cleared)| + |calls.lost|
                               + (if calls.pending.Some? then 1 else 0)
    ensures (forall i :: 0 <= i < |script| && script[i].Attach? ==> script[i].hasOnAnswer) ==>
              calls.lost == old(calls.lost)
  {
    for i := 0 to |script|
      invariant calls.Valid() && calls.Snapshot() == Play(old(calls.Snapshot()), script[..i])
      invariant (forall j :: 0 <= j < i && script[j].Attach? ==> script[j].hasOnAnswer) ==>
                  calls.lost == old(calls.lost)
    {
      assert script[..i + 1][..i] == script[..i];
      Perform(calls, script[i]);
    }
    assert script[..|script|] == script;
    FatesPartition(calls.answers, calls.pending);
  }

  method PerformAnswer(calls: Calls, callId: string)
    requires calls.Valid()
    modifies calls
    ensures calls.Valid() && calls.lost == old(calls.lost)
    ensures calls.Snapshot() == Next(old(calls.Snapshot()), AnswerCall(callId))
  {
    var told := calls.OnAnswerCall(callId);
  }

  method PerformEndEvent(calls: Calls, callId: string)
    requires calls.Valid()
    modifies calls
    ensures calls.Valid() && calls.lost == old(calls.lost)
    ensures calls.Snapshot() == Next(old(calls.Snapshot()), EndCallEvent(callId))
  {
    var told := calls.OnEndCall(callId);
  }

  /** Consuming or clearing. */
  method PerformDrain(calls: Calls, wanted: Option<string>, fate: Fate)
    requires calls.Valid() && (fate == Consumed || fate == Cleared)
    modifies calls
    ensures calls.Valid() && calls.lost == old(calls.lost)
    ensures calls.Snapshot() == Settle(old(calls.Snapshot()), Matches(wanted, old(calls.pending)), fate)
  {
    if fate == Consumed {
      var taken := calls.ConsumePendingAnswer(wanted);
    } else {
      var dropped := calls.ClearPendingAnswer(wanted);
    }
  }

  method PerformAttach(calls: Calls, hasOnAnswer: bool, hasOnEnd: bool)
    requires calls.Valid()
    modifies calls
    ensures calls.Valid() && calls.Snapshot() == AfterAttach(old(calls.Snapshot()), hasOnAnswer, hasOnEnd)
    ensures hasOnAnswer ==> calls.lost == old(calls.lost)
  {
    var h := calls.SetCallActionHandlers(hasOnAnswer, hasOnEnd);
    assert old(calls.replays) + [] == old(calls.replays) && old(calls.lost) + [] == old(calls.lost);
  }

  method PerformDisplay(calls: Calls, callId: string, callerId: string, displayName: string, hasVideo: bool,
                        native: Native)
    requires calls.Valid()
    modifies calls
    ensures calls.Valid() && calls.lost == old(calls.lost)
    ensures calls.Snapshot() == AfterDisplay(old(calls.Snapshot()), callId, callerId, displayName, hasVideo, native)
  {
    var shown := calls.DisplayIncomingCall(callId, callerId, displayName, hasVideo, native);
  }

  method PerformOnDisplay(calls: Calls, c: Command)
    requires calls.Valid() && (c.Display? || c.EndCall? || c.EndAll?)
    modifies calls
    ensures calls.Valid() && calls.Snapshot() == Next(old(calls.Snapshot()), c) && calls.lost == old(calls.lost)
  {
    match c {
      case Display(callId, callerId, displayName, hasVideo, native) =>
        PerformDisplay(calls, callId, callerId, displayName, hasVideo, native);
      case EndCall(callId) => calls.ClearDisplayedCall(callId);
      case EndAll => calls.EndAllCalls();
    }
  }

  method Perform(calls: Calls, c: Command)
    requires calls.Valid()
    modifies calls
    ensures calls.Valid() && calls.Snapshot() == Next(old(calls.Snapshot()), c)
    ensures !c.Attach? || c.hasOnAnswer ==> calls.lost == old(calls.lost)
  {
    if c.Display? || c.EndCall? || c.EndAll? {
      PerformOnDisplay(calls, c);
      return;
    }
    match c {
      case AnswerCall(callId) => PerformAnswer(calls, callId);
      case EndCallEvent(callId) => PerformEndEvent(calls, callId);
      case Attach(hasOnAnswer, hasOnEnd) => PerformAttach(calls, hasOnAnswer, hasOnEnd);
      case DetachHandlers(h) => calls.Detach(h);
      case Record(callId) => var queued := calls.RecordPendingAnswer(callId);
      case Consume(wanted) => PerformDrain(calls, wanted, Consumed);
      case Clear(wanted) => PerformDrain(calls, wanted, Cleared);
    }
  }

  /** The queued answer was dropped if it was for one of the calls `gone`, and else is as it was. */
  ghost predicate ClearedFor(gone: set<string>, slot: Option<string>, answers: seq<Answer>, slot': Option<string>,
                             answers': seq<Answer>) {
    if slot.Some? && slot.value in gone then slot' == None && answers' == Decide(answers, Cleared)
    else slot' == slot && answers' == answers
  }

  /** An optional id matches the slot when it is absent or empty, or the id in the slot. */
  predicate Matches(callId: Option<string>, slot: Option<string>) {
    slot.Some? && (callId.None? || callId.value == "" || callId == slot)
  }

  /** The displayed calls of one caller; nobody is the caller "". */
  function CallsOf(callers: map<string, string>, callerId: string): set<string> {
    set k | k in callers && callerId != "" && callers[k] == callerId
  }

  /** The calls a display of `callId` ends: once the native side is ready, even if the display then
      fails. */
  function Replaced(callId: string, callerId: string, displayed: set<string>, callers: map<string, string>,
                    native: Native): set<string> {
    if callId == "" || callId in displayed || !native.present || !native.ready then {} else CallsOf(callers, callerId)
  }

  predicate IsShown(callId: string, displayed: set<string>, native: Native) {
    callId != "" && callId !in displayed && native == Native(true, true, true, true, false)
  }

  function Seconds(s: seq<(nat, string)>): (r: seq<string>)
    ensures |r| == |s| && forall i :: 0 <= i < |s| ==> r[i] == s[i].1
  {
    seq(|s|, i requires 0 <= i < |s| => s[i].1)
  }

  lemma SecondsAppend(s: seq<(nat, string)>, x: (nat, string))
    ensures Seconds(s + [x]) == Seconds(s) + [x.1]
  {
  }
}

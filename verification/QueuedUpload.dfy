/** Resumable attachment upload: mobile/src/queuedAttachmentUpload.ts, against the storage session
    that server/src/attachmentMultipart.ts keeps.

    The worker and its surroundings are one object.  Wherever the source awaits, `Await` lets the
    surroundings act: the account may switch or the row be discarded (`current` flips), bytes that
    were thought lost may still land, and the process may die.  Every request, PUT and checkpoint
    leaves an entry in a trace; the class invariant says what every entry of every run satisfies. */
module QueuedUpload {
  import opened Wrappers
  import opened UploadParts

  /** `Died` is the process ending: no handler and no `finally` runs after it. */
  datatype Failure =
    | Cancelled | BadIdentity | BadSize | Unreachable | Http(status: int) | NoEtag | LocalFile | Died
  {
    /** What a request or a PUT can fail with. */
    predicate Remote() {
      Cancelled? || Unreachable? || Http? || Died?
    }

    /** What a drain can fail with once it has begun. */
    predicate Midway() {
      Remote() || NoEtag? || LocalFile?
    }
  }

  datatype Outcome<+T> = Done(value: T) | Failed(why: Failure) {
    predicate IsFailure() {
      Failed?
    }
    function PropagateFailure<U>(): Outcome<U>
      requires Failed?
    {
      Failed(why)
    }
    function Extract(): T
      requires Done?
    {
      value
    }
  }

  /** The checkpoint kept in the outbox row. */
  datatype Upload = Upload(key: Option<string>, uploadId: Option<string>, parts: seq<PartRecord>, progress: real,
                           completed: bool)

  datatype Action = Prepare | SignPart(partNumber: int) | Complete

  datatype Response = Response(reference: string, completed: bool, uploadId: Option<string>, parts: seq<PartRecord>)

  /** What a drain marks its slice files with: the time and some random digits. */
  datatype AttemptId = AttemptId(now: nat, random: string)

  /** A temporary slice file. */
  datatype SliceFile = SliceFile(partNumber: nat, attemptId: AttemptId)

  // What the traces record, each with `isCurrent()` at the moment the step started.
  datatype RequestEntry =
    RequestEntry(action: Action, current: bool, stored: map<int, seq<Byte>>, answer: Outcome<Response>)
  datatype PutEntry = PutEntry(partNumber: int, body: seq<Byte>, current: bool, answer: Outcome<string>)
  datatype SaveEntry = SaveEntry(upload: Upload, current: bool, held: bool)

  /** One round of the renewal loop, in one drain: how it ended, whether that was for want of a grant, and
      whether the row was still current then. */
  datatype AttemptEntry =
    AttemptEntry(drain: nat, partNumber: int, outcome: Outcome<string>, signing: bool, current: bool)
  {
    /** Storage refused a grant: the one failure that is tried again. */
    predicate Refused() {
      outcome == Failed(Http(403)) && !signing
    }
  }

  /** How long the traces of PUTs, attempts and checkpoints were at some point. */
  datatype Marks = Marks(puts: nat, attempts: nat, saves: nat)

  const WHOLE_OBJECT := 0
  const MAX_ATTEMPTS := 3

  /** `x` is the quotient `bytes / total`. */
  predicate IsFraction(x: real, bytes: int, total: int) {
    total > 0 && x * total as real == bytes as real
  }

  method Divide(bytes: int, total: int) returns (x: real)
    requires total > 0
    ensures IsFraction(x, bytes, total)
  {
    x := bytes as real / total as real;
  }

  lemma FractionBounds(x: real, bytes: int, total: int)
    requires IsFraction(x, bytes, total) && 0 <= bytes <= total
    ensures 0.0 <= x <= 1.0
    ensures x == 1.0 <==> bytes == total
  {
    assert (x - 1.0) * total as real == (bytes - total) as real;
  }

  lemma FractionIncreases(x: real, y: real, a: int, b: int, total: int)
    requires IsFraction(x, a, total) && IsFraction(y, b, total) && a <= b
    ensures x <= y
  {
  }

  /** The store's part list, in order of part number. */
  function Listed(parts: map<int, seq<Byte>>, n: int): seq<PartRecord>
    decreases n
  {
    if n <= 0 then []
    else Listed(parts, n - 1) + if n in parts then [PartRecord(n, "etag", |parts[n]|)] else []
  }

  /** Every part in the store is listed. */
  ghost predicate Lists(list: seq<PartRecord>, parts: map<int, seq<Byte>>) {
    forall k :: k in parts ==> k in Numbers(list)
  }

  lemma {:induction false} ListedBelow(parts: map<int, seq<Byte>>, n: int)
    ensures forall k :: k in Numbers(Listed(parts, n)) <==> 1 <= k <= n && k in parts
    decreases n
  {
    if n > 0 {
      ListedBelow(parts, n - 1);
      var init := Listed(parts, n - 1);
      if n in parts {
        assert Listed(parts, n) == init + [PartRecord(n, "etag", |parts[n]|)];
        forall k
          ensures k in Numbers(Listed(parts, n)) <==> k in Numbers(init) || k == n
        {
          if k in Numbers(init) {
            var r :| r in init && r.partNumber == k;
            assert r in Listed(parts, n);
          }
          assert PartRecord(n, "etag", |parts[n]|) in Listed(parts, n);
        }
      } else {
        assert Listed(parts, n) == init;
      }
    }
  }

  lemma ListedAll(parts: map<int, seq<Byte>>, file: seq<Byte>, p: Plan)
    requires p.Valid() && |file| == p.total && SlicesOf(parts, file, p)
    ensures forall k :: k in Numbers(Listed(parts, p.Count())) ==> k in parts
    ensures Lists(Listed(parts, p.Count()), parts) && WellFormed(Listed(parts, p.Count()), p)
  {
    ListedBelow(parts, p.Count());
    ListedWellFormed(parts, file, p, p.Count());
  }

  /** The store's list is well formed when it holds slices. */
  lemma {:induction false} ListedWellFormed(parts: map<int, seq<Byte>>, file: seq<Byte>, p: Plan, n: int)
    requires p.Valid() && |file| == p.total && SlicesOf(parts, file, p)
    ensures WellFormed(Listed(parts, n), p)
    decreases n
  {
    if n > 0 {
      ListedWellFormed(parts, file, p, n - 1);
      ListedBelow(parts, n - 1);
      if n in parts {
        AppendPart(Listed(parts, n - 1), PartRecord(n, "etag", |parts[n]|), p);
      }
    }
  }

  /** `/^[a-zA-Z0-9_-]{1,128}$/`. */
  predicate ValidIdentity(id: string) {
    1 <= |id| <= 128
    && forall i :: 0 <= i < |id| ==>
         'a' <= id[i] <= 'z' || 'A' <= id[i] <= 'Z' || '0' <= id[i] <= '9' || id[i] == '_' || id[i] == '-'
  }

  /** An identity is 1 to 128 letters, digits, underscores and dashes: by code, 65 to 90, 97 to 122, 48 to 57, 95
      and 45. */
  lemma IdentityIff(id: string)
    ensures ValidIdentity(id) <==>
              && |id| >= 1 && |id| <= 128
              && forall c :: c in id ==> var n := c as int;
                   65 <= n <= 90 || 97 <= n <= 122 || 48 <= n <= 57 || n == 95 || n == 45
  {
    assert forall i :: 0 <= i < |id| ==> id[i] in id;
  }

  class Worker {
    const messageId: string
    const key: string
    const file: seq<Byte>
    const plan: Plan
    /** While set, the surroundings never fail, never cancel and never end the process. */
    var reliable: bool

    // The device.
    var current: bool
    var saved: Upload
    var slices: map<SliceFile, seq<Byte>>

    // Storage: the open multipart session, bytes still on their way to it, the finished object.
    var stored: map<int, seq<Byte>>
    var inFlight: map<int, seq<Byte>>
    var finished: Option<seq<Byte>>

    ghost var requests: seq<RequestEntry>
    ghost var puts: seq<PutEntry>
    ghost var saves: seq<SaveEntry>
    ghost var attempts: seq<AttemptEntry>
    /** Whether each wait for a session gave one, and whether each deletion of a slice file worked. */
    ghost var sessions: seq<bool>
    ghost var unlinks: seq<(SliceFile, bool)>
    /** How many drains have started. */
    ghost var drains: nat

    constructor (messageId: string, key: string, file: seq<Byte>, total: int, partSize: int, reliable: bool)
      requires partSize > 0 && (total > 0 ==> |file| == total)
      ensures Valid() && this.file == file && this.plan == Plan(total, partSize) && this.reliable == reliable
      ensures requests == [] && puts == [] && saves == [] && attempts == [] && drains == 0
      ensures stored == map[] && finished == None && current
    {
      this.messageId, this.key, this.file, this.plan := messageId, key, file, Plan(total, partSize);
      this.reliable := reliable;
      current, slices, stored, inFlight, finished := true, map[], map[], map[], None;
      saved := Upload(None, None, [], 0.0, false);
      requests, puts, saves, attempts, sessions, unlinks, drains := [], [], [], [], [], [], 0;
    }

    // ----- what every run keeps -----

    /** Every byte of the file is in the store. */
    ghost predicate Held()
      reads this
    {
      finished.Some? || (plan.Valid() && HasAll(stored, plan.Count()))
    }

    ghost predicate RequestLawful(e: RequestEntry) {
      e.current
      && (e.action.Complete? ==>
            && plan.Valid()
            && (forall k :: k in e.stored <==> 1 <= k <= plan.Count())
            && Concatenated(e.stored, plan.Count()) == file)
    }

    ghost predicate PutLawful(e: PutEntry) {
      e.current && plan.Valid() && |file| == plan.total
      && if e.partNumber == WHOLE_OBJECT then e.body == file
         else Multipart() && plan.IsPart(e.partNumber) && e.body == Slice(file, plan, e.partNumber)
    }

    ghost predicate SaveLawful(e: SaveEntry) {
      e.current && 0.0 <= e.upload.progress <= 1.0 && (e.upload.progress == 1.0 ==> e.held)
      && if e.upload.completed then e.upload.progress == 1.0 else IsTally(e.upload)
    }

    /** The progress is the share of the bytes its well-formed part list covers. */
    ghost predicate IsTally(upload: Upload) {
      plan.Valid() && WellFormed(upload.parts, plan)
      && IsFraction(upload.progress, BytesOf(upload.parts), plan.total)
    }

    /** Whether the server opens a multipart session for this file. */
    predicate Multipart() {
      plan.total > plan.partSize
    }

    ghost predicate RequestsLawful(s: seq<RequestEntry>) {
      forall e :: e in s ==> RequestLawful(e)
    }

    ghost predicate PutsLawful(s: seq<PutEntry>) {
      forall e :: e in s ==> PutLawful(e)
    }

    ghost predicate SavesLawful(s: seq<SaveEntry>) {
      forall e :: e in s ==> SaveLawful(e)
    }

    ghost predicate StoreValid()
      reads this
    {
      && plan.partSize > 0 && (plan.total > 0 ==> |file| == plan.total)
      && (if plan.Valid() then SlicesOf(stored, file, plan) && SlicesOf(inFlight, file, plan)
          else stored == map[] && inFlight == map[])
      && (!Multipart() ==> stored == map[] && inFlight == map[])
      && (finished.Some? ==> plan.Valid() && finished.value == file)
      && (saved.completed ==> finished.Some? && saved.key == Some(key))
    }

    ghost predicate Valid()
      reads this
    {
      && StoreValid()
      && RequestsLawful(requests) && PutsLawful(puts) && SavesLawful(saves)
      && (finished.None? ==> Credited(saves, puts, stored))
    }

    /** Storage only gains: parts stay until the object exists, and the object stays. */
    twostate predicate StoreGrows()
      reads this
    {
      && (old(finished).Some? ==> finished == old(finished))
      && (finished.None? ==> forall k :: k in old(stored) ==> k in stored)
    }

    // ----- the surroundings -----

    /** One await. */
    method Await() returns (o: Outcome<()>)
      requires Valid()
      modifies `current, `stored
      ensures Valid() && StoreGrows()
      ensures o.Done? || o == Failed(Died)
      ensures reliable ==> o.Done? && current == old(current)
    {
      var k: int := *;
      if finished.None? && k in inFlight {
        stored := stored[k := inFlight[k]];
      }
      if !reliable {
        current := *;
        var dies: bool := *;
        if dies {
          return Failed(Died);
        }
      }
      return Done(());
    }

    /** The answer to a request is what the server did: the object exists once `complete` is answered, and a
        prepare answer lists every part that was stored. */
    twostate predicate Served(action: Action, new o: Outcome<Response>)
      reads this
    {
      && (!action.Complete? ==> finished == old(finished))
      && (o.Done? ==>
            match action
            case Complete => finished.Some?
            case SignPart(_) => !o.value.completed
            case Prepare => PreparedWell(o.value) && (o.value.uploadId.Some? ==> Lists(o.value.parts, old(stored))))
    }

    /** A request reaches the server, which leaves the entry in the trace: only while the row is current,
        and `complete` only with every part stored. A refusal changes nothing; the answer to a request
        that took effect can still be lost. */
    method Serve(action: Action) returns (o: Outcome<Response>)
      requires Valid() && current && (action.Complete? ==> Complete())
      modifies `current, `stored, `inFlight, `finished, `requests
      ensures Valid() && StoreGrows()
      ensures requests == old(requests) + [RequestEntry(action, true, old(stored), o)]
      ensures Served(action, o)
      ensures o.Failed? && o.why.Http? ==> finished == old(finished)
      ensures o.Failed? ==> o.why.Http? || o.why.Unreachable? || o.why.Died?
      ensures reliable
              && (action.Prepare? || (finished.None? && action.SignPart?) || (action.Complete? && old(Complete())))
              ==> o.Done? && current == old(current)
    {
      LawfulRequest(action);
      o := Deliver(action);
      requests := requests + [RequestEntry(action, old(current), old(stored), o)];
    }

    lemma LawfulRequest(action: Action)
      requires Valid() && current && (action.Complete? ==> Complete())
      ensures forall answer :: RequestLawful(RequestEntry(action, true, stored, answer))
    {
      if action.Complete? {
        AllSlicesAreFile(stored, file, plan);
        assert forall k :: k in stored ==> plan.IsPart(k);
      }
    }

    method Deliver(action: Action) returns (o: Outcome<Response>)
      requires Valid()
      modifies `current, `stored, `inFlight, `finished
      ensures Valid() && StoreGrows()
      ensures Served(action, o)
      ensures o.Failed? && o.why.Http? ==> finished == old(finished)
      ensures o.Failed? ==> o.why.Http? || o.why.Unreachable? || o.why.Died?
      ensures reliable
              && (action.Prepare? || (finished.None? && action.SignPart?) || (action.Complete? && old(Complete())))
              ==> o.Done? && current == old(current)
    {
      if !reliable {
        var refused: bool, status: int := *, *;
        if refused {
          return Failed(Http(status));
        }
      }
      o := Perform(action);
      if !reliable {
        var lost: bool := *;
        if lost {
          o := Failed(Unreachable);
        }
      }
      if o.Done? {
        var r := Await();
        if r.Failed? {
          return Failed(r.why);
        }
      }
    }

    /** The open session holds exactly the numbered parts: what the server demands to complete it. */
    ghost predicate Complete()
      reads this
    {
      plan.Valid() && finished.None? && HasAll(stored, plan.Count())
    }

    /** Every listed part is in the store. */
    ghost predicate Backed(list: seq<PartRecord>)
      reads this
    {
      forall k :: k in Numbers(list) ==> k in stored
    }

    /** A prepare answer agrees with the store. */
    ghost predicate PreparedWell(r: Response)
      reads this
    {
      && r.reference == key && (r.completed <==> finished.Some?)
      && (!r.completed ==> Resumable(saves, Numbers(r.parts)))
      && (r.uploadId.Some? ==>
            && !r.completed && Multipart()
            && (plan.Valid() ==> WellFormed(r.parts, plan) && Backed(r.parts)))
      && (r.uploadId.None? ==> r.parts == [])
    }

    method Perform(action: Action) returns (o: Outcome<Response>)
      requires Valid()
      modifies `stored, `inFlight, `finished
      ensures Valid() && StoreGrows()
      ensures Served(action, o)
      ensures o.Failed? ==> o.why.Http? && finished == old(finished)
      ensures action.Prepare? || (action.SignPart? && finished.None?) || (action.Complete? && old(Complete())) ==>
                o.Done?
      ensures action.SignPart? ==>
                o == if old(finished).Some? then Failed(Http(404)) else Done(Response(key, false, None, []))
      ensures action.Complete? ==>
                o == if old(Complete()) then Done(Response(key, true, None, [])) else Failed(Http(500))
      ensures finished.Some? && o.Done? ==> stored == map[] && inFlight == map[]
    {
      match action
      case Prepare =>
        var r := PerformPrepare();
        o := Done(r);
      case SignPart(k) =>
        o := if finished.Some? then Failed(Http(404)) else Done(Response(key, false, None, []));
      case Complete =>
        if !plan.Valid() || finished.Some? || stored.Keys != PartNumbers(plan.Count()) {
          return Failed(Http(500));
        }
        AllSlicesAreFile(stored, file, plan);
        finished := Some(Concatenated(stored, plan.Count()));
        stored, inFlight := map[], map[];
        o := Done(Response(key, true, None, []));
    }

    method PerformPrepare() returns (r: Response)
      requires Valid()
      modifies `stored, `inFlight
      ensures Valid() && StoreGrows() && PreparedWell(r)
      ensures r.uploadId.Some? ==> Lists(r.parts, old(stored))
      ensures if finished.Some? then stored == map[] && inFlight == map[]
              else stored == old(stored) && inFlight == old(inFlight)
    {
      if finished.Some? {
        stored, inFlight := map[], map[];
        return Response(key, true, None, []);
      }
      if plan.total <= plan.partSize {
        return Response(key, false, None, []);
      }
      ListedAll(stored, file, plan);
      return Response(key, false, Some("upload"), Listed(stored, plan.Count()));
    }

    // ----- the worker -----

    /** `queuedUploadRequest`: the row must still be current when each request is built, after any
        wait for a session. An expired session is refreshed and the request built once more. */
    method Request(action: Action) returns (o: Outcome<Response>)
      requires Valid() && (action.Complete? ==> Complete())
      modifies `current, `stored, `inFlight, `finished, `requests, `sessions
      ensures Valid() && StoreGrows() && (o.Failed? ==> o.why.Remote())
      ensures Served(action, o)
      ensures reliable && old(current) && (action.SignPart? ==> old(finished).None?) ==> o.Done? && current
      ensures RequestsOnly(action, 2) && AgainAfter401() && RefreshedAfter401(o)
      ensures o.Done? || o.why.Http? ==> |requests| > |old(requests)| && requests[|requests| - 1].answer == o
    {
      o := SendFirst(action);
      if o == Failed(Http(401)) {
        o := SendAgain(action);
      }
    }

    method SendFirst(action: Action) returns (o: Outcome<Response>)
      requires Valid() && (action.Complete? ==> Complete())
      modifies `current, `stored, `inFlight, `finished, `requests, `sessions
      ensures Valid() && StoreGrows() && Served(action, o) && (o.Failed? ==> o.why.Remote())
      ensures RequestsOnly(action, 1) && (requests != old(requests) ==> requests[|old(requests)|].answer == o)
      ensures requests == old(requests) ==> o.Failed? && !o.why.Http?
      ensures o.Failed? && o.why.Http? ==> finished == old(finished)
      ensures requests != old(requests) ==> |sessions| == |old(sessions)| + 1
      ensures reliable && old(current) && (action.SignPart? ==> old(finished).None?) ==> o.Done? && current
    {
      var session :- Session();
      if !session {
        return Failed(Unreachable);
      }
      o := Send(action);
    }

    /** After a 401: once more if the session can be refreshed, or else the 401 stands. */
    method SendAgain(action: Action) returns (o: Outcome<Response>)
      requires Valid() && (action.Complete? ==> Complete())
      modifies `current, `stored, `inFlight, `finished, `requests, `sessions
      ensures Valid() && StoreGrows() && (o.Failed? ==> o.why.Remote()) && Served(action, o) && RequestsOnly(action, 1)
      ensures requests == old(requests) ==>
                || o == Failed(Died) || (o == Failed(Cancelled) && !current)
                || (o == Failed(Http(401)) && sessions == old(sessions) + [false])
      ensures requests != old(requests) ==> requests[|old(requests)|].answer == o
      ensures reliable && old(current) && (action.SignPart? ==> old(finished).None?) ==> o.Done? && current
    {
      var refreshed :- Session();
      if !refreshed {
        return Failed(Http(401));
      }
      o := Send(action);
    }

    /** Wait for a session; there may be none to be had. */
    method Session() returns (o: Outcome<bool>)
      requires Valid()
      modifies `current, `stored, `sessions
      ensures Valid() && StoreGrows()
      ensures o.Done? || o == Failed(Died)
      ensures o.Done? ==> sessions == old(sessions) + [o.value]
      ensures reliable ==> o == Done(true) && current == old(current)
    {
      var waited :- Await();
      var found := true;
      if !reliable {
        found := *;
      }
      sessions := sessions + [found];
      return Done(found);
    }

    /** A second request since followed only a refusal with status 401. */
    twostate predicate AgainAfter401()
      reads this
    {
      |requests| >= |old(requests)| + 2 ==> requests[|old(requests)|].answer == Failed(Http(401))
    }

    /** Everything requested since was `action`, at most `n` times. */
    twostate predicate RequestsOnly(action: Action, n: nat)
      reads this
    {
      && old(requests) <= requests && |requests| <= |old(requests)| + n
      && forall i :: |old(requests)| <= i < |requests| ==> requests[i].action == action
    }

    /** A 401 stands only when no other session was to be had, or the call was cut short. */
    twostate predicate RefreshedAfter401(new o: Outcome<Response>)
      reads this
    {
      |requests| == |old(requests)| + 1 && requests[|old(requests)|].answer == Failed(Http(401)) ==>
        || o == Failed(Died) || (o == Failed(Cancelled) && !current)
        || (o == Failed(Http(401)) && |sessions| == |old(sessions)| + 2 && !sessions[|sessions| - 1])
    }

    method Send(action: Action) returns (o: Outcome<Response>)
      requires Valid() && (action.Complete? ==> Complete())
      modifies `current, `stored, `inFlight, `finished, `requests
      ensures Valid() && StoreGrows() && (o.Failed? ==> o.why.Remote())
      ensures Served(action, o)
      ensures o.Failed? && o.why.Http? ==> finished == old(finished)
      ensures reliable && old(current) && (action.SignPart? ==> old(finished).None?) ==> o.Done? && current
      ensures requests == old(requests) || requests == old(requests) + [RequestEntry(action, true, old(stored), o)]
      ensures requests == old(requests) ==> o == Failed(Cancelled) && !current
    {
      if !current {
        return Failed(Cancelled);
      }
      o := Serve(action);
    }

    /** `putAttachment`: one PUT to storage. A PUT reported as failed may have been stored, or may
        still land later. */
    method Put(partNumber: int, body: seq<Byte>) returns (o: Outcome<string>)
      requires Valid() && PutLawful(PutEntry(partNumber, body, current, Failed(Unreachable)))
      requires partNumber != WHOLE_OBJECT ==> finished.None?
      modifies `current, `stored, `inFlight, `finished, `puts
      ensures Valid() && StoreGrows() && (o.Failed? ==> o.why.Remote())
      ensures puts == old(puts) + [PutEntry(partNumber, body, true, o)]
      ensures partNumber != WHOLE_OBJECT ==> finished == old(finished)
      ensures o.Done? ==> if partNumber == WHOLE_OBJECT then finished.Some? else partNumber in stored
      ensures reliable ==> o.Done? && o.value != "" && current
    {
      o := Store(partNumber, body);
      puts := puts + [PutEntry(partNumber, body, old(current), o)];
    }

    method Store(partNumber: int, body: seq<Byte>) returns (o: Outcome<string>)
      requires Valid() && PutLawful(PutEntry(partNumber, body, current, Failed(Unreachable)))
      requires partNumber != WHOLE_OBJECT ==> finished.None?
      modifies `current, `stored, `inFlight, `finished
      ensures Valid() && StoreGrows() && (o.Failed? ==> o.why.Remote())
      ensures partNumber != WHOLE_OBJECT ==> finished == old(finished)
      ensures o.Done? ==> if partNumber == WHOLE_OBJECT then finished.Some? else partNumber in stored
      ensures reliable ==> o.Done? && o.value != "" && current
    {
      if !reliable {
        var refused: bool, status: int := *, *;
        if refused {
          var r :- Await();
          return Failed(Http(status));
        }
        var delayed: bool := *;
        if delayed && partNumber != WHOLE_OBJECT {
          inFlight := inFlight[partNumber := body];
          var r :- Await();
          return Failed(Unreachable);
        }
      }
      if partNumber == WHOLE_OBJECT {
        finished := Some(body);
      } else {
        stored := stored[partNumber := body];
      }
      var answered :- Await();
      var etag: string := "etag";
      if !reliable {
        etag := *;
        var lost: bool := *;
        if lost {
          return Failed(Unreachable);
        }
      }
      return Done(etag);
    }

    /** One round of the renewal loop. */
    method Attempt(partNumber: int, body: seq<Byte>, granted: bool) returns (o: Outcome<string>, signing: bool)
      requires Valid() && plan.Valid() && PutLawful(PutEntry(partNumber, body, true, Failed(Unreachable)))
      requires partNumber != WHOLE_OBJECT ==> finished.None? && !granted
      modifies `current, `stored, `inFlight, `finished, `puts, `requests, `sessions, `attempts
      ensures Valid() && StoreGrows() && (o.Failed? ==> o.why.Remote())
      ensures attempts == old(attempts) + [AttemptEntry(drains, partNumber, o, signing, current)]
      ensures puts == old(puts) || puts == old(puts) + [PutEntry(partNumber, body, true, o)]
      ensures RequestsOnly(GrantOf(partNumber), if granted then 0 else 2) && AgainAfter401()
      ensures partNumber != WHOLE_OBJECT ==> finished == old(finished)
      ensures o.Done? ==> if partNumber == WHOLE_OBJECT then finished.Some? else partNumber in stored
      ensures (signing ==> o.Failed? && puts == old(puts)) && (o.Done? ==> puts != old(puts))
      ensures !signing && !granted ==> |requests| > |old(requests)| && requests[|requests| - 1].answer.Done?
      ensures !signing && puts == old(puts) ==> o == Failed(Http(403))
      ensures reliable && old(current) && (granted || partNumber != WHOLE_OBJECT) ==>
                o.Done? && o.value != "" && current
    {
      o, signing := GrantAndPut(partNumber, body, granted);
      attempts := attempts + [AttemptEntry(drains, partNumber, o, signing, current)];
    }

    /** A grant if there is none yet, then the PUT. `signing` says that getting the grant failed, which is
        never retried. */
    method GrantAndPut(partNumber: int, body: seq<Byte>, granted: bool) returns (o: Outcome<string>, signing: bool)
      requires Valid() && plan.Valid() && PutLawful(PutEntry(partNumber, body, true, Failed(Unreachable)))
      requires partNumber != WHOLE_OBJECT ==> finished.None? && !granted
      modifies `current, `stored, `inFlight, `finished, `puts, `requests, `sessions
      ensures Valid() && StoreGrows() && (o.Failed? ==> o.why.Remote())
      ensures puts == old(puts) || puts == old(puts) + [PutEntry(partNumber, body, true, o)]
      ensures RequestsOnly(GrantOf(partNumber), if granted then 0 else 2) && AgainAfter401()
      ensures partNumber != WHOLE_OBJECT ==> finished == old(finished)
      ensures o.Done? ==> if partNumber == WHOLE_OBJECT then finished.Some? else partNumber in stored
      ensures (signing ==> o.Failed? && puts == old(puts)) && (o.Done? ==> puts != old(puts))
      ensures !signing && !granted ==> |requests| > |old(requests)| && requests[|requests| - 1].answer.Done?
      ensures !signing && puts == old(puts) ==> o == Failed(Http(403))
      ensures reliable && old(current) && (granted || partNumber != WHOLE_OBJECT) ==>
                o.Done? && o.value != "" && current
    {
      signing := true;
      if !current {
        return Failed(Cancelled), signing;
      }
      if !granted {
        var signed := Request(if partNumber == WHOLE_OBJECT then Prepare else SignPart(partNumber));
        if signed.Failed? {
          return Failed(signed.why), signing;
        }
        if signed.value.completed {
          return Failed(Unreachable), signing;
        }
      }
      if !current {
        return Failed(Cancelled), signing;
      }
      signing := false;
      var expired := false;
      if !reliable {
        expired := *;
      }
      if expired {
        return Failed(Http(403)), signing;
      }
      o := Put(partNumber, body);
    }

    /** The loop's body: `again` unless the loop is left, with `o`. */
    method Round(partNumber: int, body: seq<Byte>, granted: bool, attempt: nat)
      returns (o: Outcome<string>, again: bool)
      requires Valid() && plan.Valid() && PutLawful(PutEntry(partNumber, body, true, Failed(Unreachable)))
      requires partNumber != WHOLE_OBJECT ==> finished.None? && !granted
      modifies `current, `stored, `inFlight, `finished, `puts, `requests, `sessions, `attempts
      ensures Valid() && StoreGrows() && (o.Failed? ==> o.why.Remote())
      ensures old(attempts) <= attempts && |attempts| == |old(attempts)| + 1
      ensures var e := attempts[|old(attempts)|];
              && e.drain == drains && e.partNumber == partNumber && (again <==> e.Refused() && e.current && attempt < 2)
              && (o == e.outcome || (o == Failed(Cancelled) && !e.current && !current && e.outcome.Failed?))
              && (e.Refused() && o != Failed(Cancelled) ==> e.current)
              && (puts == old(puts) || puts == old(puts) + [PutEntry(partNumber, body, true, e.outcome)])
              && (e.outcome.Done? ==> puts != old(puts) && !e.signing)
              && (!e.signing && !granted ==> |requests| > |old(requests)|)
      ensures RequestsOnly(GrantOf(partNumber), if granted then 0 else 2)
      ensures partNumber != WHOLE_OBJECT ==> finished == old(finished)
      ensures o.Done? ==> if partNumber == WHOLE_OBJECT then finished.Some? else partNumber in stored
      ensures reliable && old(current) && (granted || partNumber != WHOLE_OBJECT) ==>
                o.Done? && o.value != "" && current
    {
      var signing: bool;
      o, signing := Attempt(partNumber, body, granted);
      if o.Done? || signing || o.why.Died? {
        return o, false;
      }
      if !current {
        return Failed(Cancelled), false;
      }
      again := o.why == Http(403) && attempt < 2;
    }

    /** `putWithRenewal`: a fresh grant after each refusal with status 403, at most twice. */
    method PutWithRenewal(partNumber: int, body: seq<Byte>, granted: bool) returns (o: Outcome<string>)
      requires Valid() && plan.Valid() && PutLawful(PutEntry(partNumber, body, true, Failed(Unreachable)))
      requires partNumber != WHOLE_OBJECT ==> finished.None? && !granted
      modifies `current, `stored, `inFlight, `finished, `puts, `requests, `sessions, `attempts
      ensures Valid() && StoreGrows() && (o.Failed? ==> o.why.Remote())
      ensures PutsOnly(partNumber) && Renewed(old(attempts), attempts, drains, partNumber)
      ensures o != attempts[|attempts| - 1].outcome ==> o == Failed(Cancelled) && !current
      ensures o.Done? ==> |puts| > |old(puts)| && puts[|puts| - 1].answer == o
      ensures attempts[|attempts| - 1].Refused() && o != Failed(Cancelled) ==>
                |attempts| == |old(attempts)| + MAX_ATTEMPTS
      ensures RequestsOnly(GrantOf(partNumber), 2 * GrantsAsked(|attempts| - |old(attempts)|, granted))
      ensures var rounds := |attempts| - |old(attempts)| - if attempts[|attempts| - 1].signing then 1 else 0;
              |requests| >= |old(requests)| + GrantsAsked(rounds, granted)
      ensures partNumber != WHOLE_OBJECT ==> finished == old(finished)
      ensures o.Done? ==> if partNumber == WHOLE_OBJECT then finished.Some? else partNumber in stored
      ensures reliable && old(current) && (granted || partNumber != WHOLE_OBJECT) ==>
                o.Done? && o.value != "" && current
    {
      var attempt := 0;
      while true
        invariant Valid() && StoreGrows() && 0 <= attempt < MAX_ATTEMPTS
        invariant AllRefused(old(attempts), attempts, drains, partNumber, attempt)
        invariant PutsRefused(partNumber, attempt)
        invariant RequestsOnly(GrantOf(partNumber), 2 * GrantsAsked(attempt, granted))
        invariant |requests| >= |old(requests)| + GrantsAsked(attempt, granted)
        invariant partNumber != WHOLE_OBJECT ==> finished == old(finished)
        invariant reliable && old(current) && (granted || partNumber != WHOLE_OBJECT) ==> current && attempt == 0
        decreases MAX_ATTEMPTS - attempt
      {
        var again: bool;
        o, again := Round(partNumber, body, granted && attempt == 0, attempt);
        if !again {
          return;
        }
        attempt := attempt + 1;
      }
    }

    /** Every PUT since was of part `partNumber`, at most `n` of them, and was refused with 403. */
    twostate predicate PutsRefused(partNumber: int, n: nat)
      reads this
    {
      && old(puts) <= puts && |puts| <= |old(puts)| + n
      && forall i :: |old(puts)| <= i < |puts| ==>
           puts[i].partNumber == partNumber && puts[i].answer == Failed(Http(403))
    }

    /** Write the outbox row. The process may die before or after the row is durable. */
    method Checkpoint(upload: Upload) returns (o: Outcome<()>)
      requires Valid() && current && SaveLawful(SaveEntry(upload, current, Held()))
      requires if upload.completed then finished.Some? && upload.key == Some(key) else Backed(upload.parts)
      modifies `current, `stored, `saved, `saves
      ensures Valid() && StoreGrows()
      ensures |saves| == |old(saves)| + 1 && old(saves) <= saves && saves[|old(saves)|].upload == upload
      ensures o.Done? ==> saved == upload
      ensures o.Failed? ==> o.why.Died? && (saved == upload || saved == old(saved))
      ensures reliable ==> o.Done? && current
    {
      saves := saves + [SaveEntry(upload, current, Held())];
      var before :- Await();
      saved := upload;
      o := Await();
    }

    /** Read one slice of the queued file and write it to a temporary file. */
    method CutSlice(partNumber: int, attemptId: AttemptId) returns (o: Outcome<()>)
      requires Valid() && plan.Valid() && plan.IsPart(partNumber)
      modifies `current, `stored, `slices
      ensures Valid() && StoreGrows()
      ensures o.Done? ==> SliceFile(partNumber, attemptId) in slices
                          && slices[SliceFile(partNumber, attemptId)] == Slice(file, plan, partNumber)
      ensures slices.Keys <= old(slices).Keys + {SliceFile(partNumber, attemptId)}
      ensures o.Failed? ==> o.why.LocalFile? || o.why.Cancelled? || o.why.Died?
      ensures reliable && old(current) ==> o.Done? && current
    {
      var offset := (partNumber - 1) * plan.partSize;
      var sizeBytes := if plan.partSize <= plan.total - offset then plan.partSize else plan.total - offset;
      var bytes := file[offset..offset + sizeBytes];
      var reading :- Await();
      if !reliable {
        var localFails: bool := *;
        if localFails {
          return Failed(LocalFile);
        }
      }
      if !current {
        return Failed(Cancelled);
      }
      slices := slices[SliceFile(partNumber, attemptId) := bytes];
      o := Await();
    }

    /** The slice file's bytes, if the row is still current once it is written. */
    method SliceBody(partNumber: int, attemptId: AttemptId) returns (o: Outcome<seq<Byte>>)
      requires Valid() && plan.Valid() && plan.IsPart(partNumber)
      modifies `current, `stored, `slices
      ensures Valid() && StoreGrows()
      ensures slices.Keys <= old(slices).Keys + {SliceFile(partNumber, attemptId)}
      ensures o.Done? ==> o.value == Slice(file, plan, partNumber) && current
      ensures o.Failed? ==> o.why.LocalFile? || o.why.Cancelled? || o.why.Died?
      ensures reliable && old(current) ==> o.Done?
    {
      var cut :- CutSlice(partNumber, attemptId);
      if !current {
        return Failed(Cancelled);
      }
      return Done(slices[SliceFile(partNumber, attemptId)]);
    }

    /** The `try` block for one part: cut the slice, PUT it, checkpoint it. */
    method SendSlice(upload: Upload, partNumber: int, attemptId: AttemptId) returns (o: Outcome<Upload>)
      requires Valid() && plan.Valid() && Multipart() && finished.None? && current && PartsKnown(upload)
      requires plan.IsPart(partNumber) && partNumber !in Numbers(upload.parts)
      modifies `current, `stored, `inFlight, `finished, `puts, `requests, `sessions, `attempts, `slices, `saved, `saves
      ensures o.Failed? ==> o.why.Midway()
      ensures Valid() && StoreGrows() && finished.None?
      ensures PutsOnly(partNumber) && slices.Keys <= old(slices).Keys + {SliceFile(partNumber, attemptId)}
      ensures attempts == old(attempts) || Renewed(old(attempts), attempts, drains, partNumber)
      ensures SavesAtMostOnce(upload.progress)
      ensures o.Done? ==> SavedAs(o.value.progress)
      ensures o.Done? ==> PartsKnown(o.value) && Numbers(o.value.parts) == Numbers(upload.parts) + {partNumber}
      ensures o == Failed(NoEtag) ==> |puts| > |old(puts)| && puts[|puts| - 1].answer == Done("")
      ensures reliable ==> o.Done? && current
    {
      var body :- SliceBody(partNumber, attemptId);
      var etag :- PutWithRenewal(partNumber, body, false);
      o := KeepPart(upload, partNumber, etag);
    }

    /** After the PUT: the part is recorded under the ETag storage gave. */
    method KeepPart(upload: Upload, partNumber: int, etag: string) returns (o: Outcome<Upload>)
      requires Valid() && plan.Valid() && finished.None? && PartsKnown(upload)
      requires plan.IsPart(partNumber) && partNumber !in Numbers(upload.parts) && partNumber in stored
      modifies `current, `stored, `saved, `saves
      ensures Valid() && StoreGrows() && SavesAtMostOnce(upload.progress)
      ensures o.Done? ==> SavedAs(o.value.progress)
      ensures o.Done? ==> PartsKnown(o.value) && Numbers(o.value.parts) == Numbers(upload.parts) + {partNumber}
      ensures o.Failed? ==> o.why.Cancelled? || o.why.Died? || (o.why.NoEtag? && etag == "")
      ensures old(current) && etag == "" ==> o == Failed(NoEtag)
      ensures reliable && old(current) && etag != "" ==> o.Done? && current
    {
      if !current {
        return Failed(Cancelled);
      }
      if etag == "" {
        return Failed(NoEtag);
      }
      o := RecordPart(upload, PartRecord(partNumber, etag, plan.PartLength(partNumber)));
    }

    method RecordPart(upload: Upload, record: PartRecord) returns (o: Outcome<Upload>)
      requires Valid() && plan.Valid() && finished.None? && current && PartsKnown(upload)
      requires plan.IsPart(record.partNumber) && record.partNumber !in Numbers(upload.parts)
               && record.partNumber in stored
      requires record.sizeBytes == plan.PartLength(record.partNumber) && record.etag != ""
      modifies `current, `stored, `saved, `saves
      ensures Valid() && StoreGrows()
      ensures SavesAtMostOnce(upload.progress)
      ensures o.Done? ==> SavedAs(o.value.progress)
      ensures o.Done? ==> PartsKnown(o.value) && Numbers(o.value.parts) == Numbers(upload.parts) + {record.partNumber}
      ensures o.Failed? ==> o.why.Died?
      ensures reliable ==> o.Done? && current
    {
      var next := WithPart(upload, record);
      var written := Checkpoint(next);
      if written.Failed? {
        return Failed(written.why);
      }
      o := Done(next);
    }

    /** The upload once `record` is added to it. */
    method WithPart(upload: Upload, record: PartRecord) returns (next: Upload)
      requires Valid() && PartsKnown(upload)
      requires plan.IsPart(record.partNumber) && record.partNumber !in Numbers(upload.parts)
               && record.partNumber in stored
      requires record.sizeBytes == plan.PartLength(record.partNumber) && record.etag != ""
      ensures PartsKnown(next) && Numbers(next.parts) == Numbers(upload.parts) + {record.partNumber}
      ensures upload.progress <= next.progress <= 1.0 && 0.0 <= next.progress
      ensures next.progress == 1.0 ==> Held()
    {
      var completedBytes := BytesOf(upload.parts);
      var progress := Divide(completedBytes + record.sizeBytes, plan.total);
      next := upload.(parts := upload.parts + [record], progress := progress);
      NextPartKnown(upload, next, record);
    }

    /** Everything PUT since was part `partNumber`, at most three times, and again only after a 403. */
    twostate predicate PutsOnly(partNumber: int)
      reads this
    {
      && old(puts) <= puts && |puts| <= |old(puts)| + MAX_ATTEMPTS
      && (forall i :: |old(puts)| <= i < |puts| ==> puts[i].partNumber == partNumber)
      && (forall i :: |old(puts)| <= i < |puts| - 1 ==> puts[i].answer == Failed(Http(403)))
    }

    /** At most one checkpoint since, with no less progress than `progress`. */
    twostate predicate SavesAtMostOnce(progress: real)
      reads this
    {
      && old(saves) <= saves && |saves| <= |old(saves)| + 1
      && (|saves| > |old(saves)| ==> progress <= saves[|old(saves)|].upload.progress)
    }

    twostate predicate SavedAs(progress: real)
      reads this
    {
      |saves| == |old(saves)| + 1 && saves[|old(saves)|].upload.progress == progress
    }

    /** The part list is well formed, agrees with the store, and is what the progress says. */
    ghost predicate PartsKnown(upload: Upload)
      reads this
    {
      && upload.key == Some(key) && plan.Valid() && WellFormed(upload.parts, plan) && Backed(upload.parts)
      && IsFraction(upload.progress, BytesOf(upload.parts), plan.total) && !upload.completed
    }

    /** Progress of a known part list is in range, and 1 only when every byte is stored. */
    lemma KnownProgress(upload: Upload)
      requires Valid() && PartsKnown(upload)
      ensures 0.0 <= upload.progress <= 1.0
      ensures upload.progress == 1.0 ==> Held()
    {
      BytesReachTotal(upload.parts, plan);
      FractionBounds(upload.progress, BytesOf(upload.parts), plan.total);
    }

    lemma NextPartKnown(upload: Upload, next: Upload, record: PartRecord)
      requires Valid() && PartsKnown(upload) && plan.IsPart(record.partNumber) && record.partNumber in stored
      requires record.partNumber !in Numbers(upload.parts) && record.sizeBytes == plan.PartLength(record.partNumber)
      requires record.etag != ""
      requires next.key == upload.key && next.parts == upload.parts + [record] && !next.completed
      requires IsFraction(next.progress, BytesOf(upload.parts) + record.sizeBytes, plan.total)
      ensures PartsKnown(next) && Numbers(next.parts) == Numbers(upload.parts) + {record.partNumber}
      ensures upload.progress <= next.progress <= 1.0 && 0.0 <= next.progress
      ensures next.progress == 1.0 ==> Held()
    {
      AppendPart(upload.parts, record, plan);
      PartInFile(plan, record.partNumber);
      FractionIncreases(upload.progress, next.progress, BytesOf(upload.parts), BytesOf(next.parts), plan.total);
      KnownProgress(next);
    }

    /** One pass of the part loop's body, with its `finally`. */
    method UploadPart(upload: Upload, partNumber: int, attemptId: AttemptId) returns (o: Outcome<Upload>)
      requires Valid() && plan.Valid() && Multipart() && finished.None? && current && PartsKnown(upload)
      requires plan.IsPart(partNumber) && partNumber !in Numbers(upload.parts)
      modifies `current, `stored, `inFlight, `finished, `puts, `requests, `sessions, `attempts, `slices, `unlinks,
               `saved, `saves
      ensures o.Failed? ==> o.why.Midway()
      ensures Valid() && StoreGrows() && finished.None?
      ensures PutsOnly(partNumber)
      ensures attempts == old(attempts) || Renewed(old(attempts), attempts, drains, partNumber)
      ensures SavesAtMostOnce(upload.progress)
      ensures o.Done? ==> SavedAs(o.value.progress)
      ensures o.Done? ==> PartsKnown(o.value) && Numbers(o.value.parts) == Numbers(upload.parts) + {partNumber}
      ensures slices.Keys <= old(slices).Keys + {SliceFile(partNumber, attemptId)}
      ensures o == Failed(Died) || Unlinked(SliceFile(partNumber, attemptId))
      ensures reliable ==> o.Done? && current && slices.Keys <= old(slices).Keys
    {
      o := SendSlice(upload, partNumber, attemptId);
      if o != Failed(Died) {
        var unlinked :- Unlink(SliceFile(partNumber, attemptId));
      }
    }

    /** Delete a slice file. It may fail, and then the file stays. */
    method Unlink(f: SliceFile) returns (o: Outcome<()>)
      requires Valid()
      modifies `current, `stored, `slices, `unlinks
      ensures Valid() && StoreGrows()
      ensures Unlinked(f) && slices.Keys <= old(slices).Keys
      ensures o.Done? || o == Failed(Died)
      ensures reliable ==> o.Done? && current == old(current) && f !in slices
    {
      var works := true;
      if !reliable {
        works := *;
      }
      if works {
        slices := slices - {f};
      }
      unlinks := unlinks + [(f, works)];
      o := Await();
    }

    /** This file, and no other, was to be deleted since; it is gone if that worked. */
    twostate predicate Unlinked(f: SliceFile)
      reads this
    {
      && |unlinks| == |old(unlinks)| + 1 && old(unlinks) <= unlinks && unlinks[|old(unlinks)|].0 == f
      && (unlinks[|old(unlinks)|].1 ==> f !in slices)
    }

    /** What the part loop has left in the traces since they were as long as `m` says: parts below `limit`. */
    ghost predicate SentSoFar(m: Marks, known: set<int>, floor: real, limit: int)
      reads this
    {
      && m.puts <= |puts| && m.attempts <= |attempts| && m.saves <= |saves|
      && PartsPut(puts, m.puts, known, limit) && SavesRise(saves, m.saves, floor)
      && RenewalRule(attempts, m.attempts) && AttemptsBelow(attempts, m.attempts, drains, limit)
    }

    /** The loop's body: a part the store has listed is passed over. */
    method SendNext(upload: Upload, partNumber: int, attemptId: AttemptId, ghost m: Marks, ghost known: set<int>,
                    ghost floor: real)
      returns (o: Outcome<Upload>)
      requires Valid() && plan.Valid() && Multipart() && finished.None? && PartsKnown(upload)
      requires plan.IsPart(partNumber) && known <= Numbers(upload.parts) && ListedBefore(upload.parts, partNumber)
      requires SentSoFar(m, known, floor, partNumber) && SavesUpTo(saves, m.saves, upload.progress)
      requires floor <= upload.progress
      modifies `current, `stored, `inFlight, `finished, `puts, `requests, `sessions, `attempts, `slices, `unlinks,
               `saved, `saves
      ensures o.Failed? ==> o.why.Midway()
      ensures Valid() && StoreGrows() && finished.None?
      ensures old(puts) <= puts && old(attempts) <= attempts && old(saves) <= saves
      ensures SentSoFar(m, known, floor, partNumber + 1)
      ensures o.Done? ==> PartsKnown(o.value) && known <= Numbers(o.value.parts)
      ensures o.Done? ==> ListedBefore(o.value.parts, partNumber + 1)
      ensures o.Done? ==> SavesUpTo(saves, m.saves, o.value.progress) && floor <= o.value.progress
      ensures reliable && old(current) ==> o.Done? && current
    {
      if partNumber in Numbers(upload.parts) {
        return Done(upload);
      }
      if !current {
        return Failed(Cancelled);
      }
      o := UploadPart(upload, partNumber, attemptId);
      ListedWider(upload.parts, o, partNumber);
      RenewalAppend(old(attempts), attempts, m.attempts, drains, partNumber);
      PartsPutAppend(old(puts), puts, m.puts, known, partNumber);
      RiseAppend(old(saves), saves, m.saves, floor, upload.progress);
    }

    /** The part loop: every part the store has not listed. */
    method SendMissing(prepared: Upload) returns (o: Outcome<Upload>)
      requires Valid() && plan.Valid() && Multipart() && finished.None? && current && PartsKnown(prepared)
      modifies `current, `stored, `inFlight, `finished, `puts, `requests, `sessions, `attempts, `slices, `unlinks,
               `saved, `saves
      ensures o.Failed? ==> o.why.Midway()
      ensures Valid() && StoreGrows() && finished.None?
      ensures DrainsOwn()
      ensures old(puts) <= puts && PutsAvoid(puts, |old(puts)|, Numbers(prepared.parts))
      ensures AckedOnce(puts, |old(puts)|)
      ensures old(saves) <= saves && SavesRise(saves, |old(saves)|, prepared.progress)
      ensures o.Done? ==>
                SavesUpTo(saves, |old(saves)|, o.value.progress) && PartsKnown(o.value) && Complete() && current
      ensures reliable ==> o.Done?
    {
      ghost var m := Marks(|puts|, |attempts|, |saves|);
      var upload := prepared;
      assert '-' !in AttemptId(0, "").random;
      var attemptId: AttemptId :| '-' !in attemptId.random;
      var count := plan.Count();
      var partNumber := 1;
      while partNumber <= count
        invariant Valid() && StoreGrows() && plan.Valid() && finished.None? && 1 <= partNumber <= count + 1
        invariant PartsKnown(upload) && Numbers(prepared.parts) <= Numbers(upload.parts)
        invariant ListedBefore(upload.parts, partNumber)
        invariant old(puts) <= puts && old(attempts) <= attempts && old(saves) <= saves
        invariant SentSoFar(m, Numbers(prepared.parts), prepared.progress, partNumber)
        invariant SavesUpTo(saves, m.saves, upload.progress) && prepared.progress <= upload.progress
        invariant reliable ==> current
      {
        upload :- SendNext(upload, partNumber, attemptId, m, Numbers(prepared.parts), prepared.progress);
        partNumber := partNumber + 1;
      }
      if !current {
        return Failed(Cancelled);
      }
      return Done(upload);
    }

    /** After a prepare answer: the first checkpoint, from the store's own part list. */
    method Resume(prepared: Response) returns (o: Outcome<Upload>)
      requires Valid() && current && plan.Valid() && PreparedWell(prepared)
      modifies `current, `stored, `saved, `saves
      ensures o.Failed? ==> o.why.Midway()
      ensures Valid() && StoreGrows()
      ensures |saves| == |old(saves)| + 1 && old(saves) <= saves
      ensures 0.0 <= saves[|old(saves)|].upload.progress
      ensures SavesUpTo(old(saves), 0, saves[|old(saves)|].upload.progress)
      ensures o.Done? ==> saves[|old(saves)|].upload.progress == o.value.progress && saved == o.value && current
      ensures o.Done? ==> 0.0 <= o.value.progress <= 1.0
      ensures o.Done? ==>
                o.value.key == Some(key) && o.value.parts == prepared.parts && o.value.completed == prepared.completed
      ensures o.Done? && prepared.uploadId.Some? ==> PartsKnown(o.value)
      ensures reliable ==> o.Done?
    {
      var listed := BytesOf(prepared.parts);
      var progress := 1.0;
      if !prepared.completed {
        progress := Divide(listed, plan.total);
      }
      var upload := Upload(Some(prepared.reference), prepared.uploadId, prepared.parts, progress, prepared.completed);
      if !prepared.completed {
        ListProgress(upload);
      }
      ResumesAbove(prepared, upload);
      var written :- Checkpoint(upload);
      if !current {
        return Failed(Cancelled);
      }
      return Done(upload);
    }

    /** No checkpoint so far says more than one made from a prepare answer. */
    lemma ResumesAbove(prepared: Response, upload: Upload)
      requires Valid() && plan.Valid() && PreparedWell(prepared)
      requires upload.parts == prepared.parts && if prepared.completed then upload.progress == 1.0 else IsTally(upload)
      ensures SavesUpTo(saves, 0, upload.progress)
    {
      forall i | 0 <= i < |saves|
        ensures saves[i].upload.progress <= upload.progress
      {
        assert SaveLawful(saves[i]);
        if !prepared.completed {
          BytesGrow(saves[i].upload.parts, prepared.parts, plan);
          FractionIncreases(saves[i].upload.progress, upload.progress, BytesOf(saves[i].upload.parts),
                            BytesOf(prepared.parts), plan.total);
        }
      }
    }

    /** The first checkpoint of an unfinished upload is in range, and 1 only when every byte is stored. */
    lemma ListProgress(upload: Upload)
      requires Valid() && plan.Valid() && WellFormed(upload.parts, plan) && Backed(upload.parts)
               && upload.key == Some(key)
      requires IsFraction(upload.progress, BytesOf(upload.parts), plan.total) && !upload.completed
      ensures 0.0 <= upload.progress <= 1.0
      ensures upload.progress == 1.0 ==> Held()
    {
      KnownProgress(upload);
    }

    /** `drainAttachmentUpload`. */
    method Drain() returns (o: Outcome<string>)
      requires Valid()
      modifies `current, `stored, `inFlight, `finished, `puts, `requests, `sessions, `attempts, `slices, `unlinks,
               `saved, `saves, `drains
      ensures Valid() && StoreGrows()
      ensures drains == old(drains) + 1 && DrainsOwn()
      ensures o.Done? ==> o.value == key && finished == Some(file) && saved.completed
      ensures old(saves) <= saves && SavesRise(saves, |old(saves)|, 0.0)
      ensures |saves| > |old(saves)| ==> SavesUpTo(old(saves), 0, saves[|old(saves)|].upload.progress)
      ensures old(puts) <= puts && PutsAvoid(puts, |old(puts)|, old(stored).Keys) && AckedOnce(puts, |old(puts)|)
      ensures old(finished).Some? ==> puts == old(puts)
      ensures o == Failed(BadIdentity) <==> old(current) && !ValidIdentity(messageId)
      ensures o == Failed(BadSize) ==> plan.total <= 0
      ensures reliable && old(current) && ValidIdentity(messageId) && plan.Valid() ==> o.Done?
    {
      drains := drains + 1;
      if !current {
        return Failed(Cancelled);
      }
      if !ValidIdentity(messageId) {
        return Failed(BadIdentity);
      }
      if saved.completed && saved.key.Some? {
        return Done(saved.key.value);
      }
      o := Begin();
    }

    /** The drain of an upload not known to be complete. */
    method Begin() returns (o: Outcome<string>)
      requires Valid() && current
      modifies `current, `stored, `inFlight, `finished, `puts, `requests, `sessions, `attempts, `slices, `unlinks,
               `saved, `saves
      ensures Valid() && StoreGrows() && DrainsOwn()
      ensures o.Done? ==> o.value == key && saved.completed
      ensures old(saves) <= saves && SavesRise(saves, |old(saves)|, 0.0)
      ensures |saves| > |old(saves)| ==> SavesUpTo(old(saves), 0, saves[|old(saves)|].upload.progress)
      ensures old(puts) <= puts && PutsAvoid(puts, |old(puts)|, old(stored).Keys) && AckedOnce(puts, |old(puts)|)
      ensures old(finished).Some? ==> puts == old(puts)
      ensures o != Failed(BadIdentity) && (o == Failed(BadSize) ==> plan.total <= 0)
      ensures reliable && plan.Valid() ==> o.Done?
    {
      var prepared :- Request(Prepare);
      if !current {
        return Failed(Cancelled);
      }
      if plan.total <= 0 {
        return Failed(BadSize);
      }
      o := Proceed(prepared);
      if prepared.uploadId.None? {
        assert forall k :: k in old(stored) ==> 1 <= k;
      }
    }

    /** The drain from a prepare answer on. */
    method Proceed(prepared: Response) returns (o: Outcome<string>)
      requires Valid() && plan.Valid() && current && PreparedWell(prepared)
      modifies `current, `stored, `inFlight, `finished, `puts, `requests, `sessions, `attempts, `slices, `unlinks,
               `saved, `saves
      ensures o.Failed? ==> o.why.Midway()
      ensures Valid() && StoreGrows() && DrainsOwn()
      ensures o.Done? ==> o.value == key && saved.completed
      ensures old(saves) <= saves && SavesRise(saves, |old(saves)|, 0.0)
      ensures |saves| > |old(saves)| ==> SavesUpTo(old(saves), 0, saves[|old(saves)|].upload.progress)
      ensures old(puts) <= puts && AckedOnce(puts, |old(puts)|) && (prepared.completed ==> puts == old(puts))
      ensures if prepared.uploadId.Some? then PutsAvoid(puts, |old(puts)|, Numbers(prepared.parts))
              else PutsWhole(puts, |old(puts)|)
      ensures reliable ==> o.Done?
    {
      var resumed := Resume(prepared);
      if resumed.Failed? {
        return Failed(resumed.why);
      }
      if prepared.completed {
        return Done(prepared.reference);
      }
      ghost var saves1 := saves;
      o := Continue(prepared, resumed.value);
      RiseJoin(saves1, saves, |old(saves)|, 0.0, resumed.value.progress);
    }

    /** The drain after its first checkpoint. */
    method Continue(prepared: Response, upload: Upload) returns (o: Outcome<string>)
      requires Valid() && plan.Valid() && current && upload.key == Some(key) && 0.0 <= upload.progress <= 1.0
      requires prepared.reference == key && finished.None?
      requires prepared.uploadId.Some? ==> Multipart() && PartsKnown(upload)
      modifies `current, `stored, `inFlight, `finished, `puts, `requests, `sessions, `attempts, `slices, `unlinks,
               `saved, `saves
      ensures o.Failed? ==> o.why.Midway()
      ensures Valid() && StoreGrows() && DrainsOwn()
      ensures o.Done? ==> o.value == key && saved.completed
      ensures old(saves) <= saves && SavesRise(saves, |old(saves)|, upload.progress)
      ensures old(puts) <= puts && AckedOnce(puts, |old(puts)|)
      ensures if prepared.uploadId.Some? then PutsAvoid(puts, |old(puts)|, Numbers(upload.parts))
              else PutsWhole(puts, |old(puts)|)
      ensures reliable ==> o.Done?
    {
      var sent := Transfer(prepared, upload);
      if sent.Failed? {
        return Failed(sent.why);
      }
      ghost var saves1 := saves;
      SavesBounded(|old(saves)|);
      o := Finish(sent.value, prepared.reference);
      RiseAppend(saves1, saves, |old(saves)|, upload.progress, 1.0);
    }

    /** The attempts made since are this drain's and keep the renewal rule. */
    twostate predicate DrainsOwn()
      reads this
    {
      && old(attempts) <= attempts && RenewalRule(attempts, |old(attempts)|)
      && forall i :: |old(attempts)| <= i < |attempts| ==> attempts[i].drain == drains
    }

    lemma SavesBounded(from: nat)
      requires Valid()
      ensures SavesUpTo(saves, from, 1.0)
    {
      forall i | from <= i < |saves|
        ensures saves[i].upload.progress <= 1.0
      {
        assert SaveLawful(saves[i]);
      }
    }

    /** A drain after others: what held of all their entries holds of its own with theirs. */
    method DrainAgain() returns (o: Outcome<string>)
      requires Valid() && RenewalRule(attempts, 0) && forall i :: 0 <= i < |attempts| ==> attempts[i].drain <= drains
      requires SavesRise(saves, 0, 0.0) && AckedOnce(puts, 0)
      modifies `current, `stored, `inFlight, `finished, `puts, `requests, `sessions, `attempts, `slices, `unlinks,
               `saved, `saves, `drains
      ensures Valid() && StoreGrows() && drains == old(drains) + 1
      ensures RenewalRule(attempts, 0) && forall i :: 0 <= i < |attempts| ==> attempts[i].drain <= drains
      ensures SavesRise(saves, 0, 0.0) && AckedOnce(puts, 0)
      ensures reliable && old(current) && ValidIdentity(messageId) && plan.Valid() ==>
                o == Done(key) && finished == Some(file)
    {
      o := Drain();
      RenewalJoin(old(attempts), attempts, drains);
      OnceJoin(old(puts), puts, old(stored).Keys);
    }

    /** Any number of drains in any surroundings, each ending however it ends, then one drain left in
        peace: the run is lawful throughout, and the last drain delivers the file. */
    method RunDrains(n: nat) returns (last: Outcome<string>)
      requires Valid() && RenewalRule(attempts, 0) && forall i :: 0 <= i < |attempts| ==> attempts[i].drain <= drains
      requires SavesRise(saves, 0, 0.0) && AckedOnce(puts, 0)
      modifies this
      ensures Valid() && StoreGrows()
      ensures forall e :: e in requests ==>
                e.current && (e.action.Complete? ==> Concatenated(e.stored, plan.Count()) == file)
      ensures forall e :: e in puts ==> e.current
      ensures forall e :: e in saves ==> e.current && (e.upload.progress == 1.0 ==> e.held)
      ensures SavesRise(saves, 0, 0.0) && AckedOnce(puts, 0)
      ensures RenewalRule(attempts, 0) && drains == old(drains) + n + 1
      ensures ValidIdentity(messageId) && plan.Valid() ==> last == Done(key) && finished == Some(file)
    {
      for i := 0 to n
        invariant Valid() && StoreGrows() && drains == old(drains) + i
        invariant RenewalRule(attempts, 0) && forall j :: 0 <= j < |attempts| ==> attempts[j].drain <= drains
        invariant SavesRise(saves, 0, 0.0) && AckedOnce(puts, 0)
      {
        reliable := *;
        current := *;
        var o := DrainAgain();
      }
      reliable, current := true, true;
      last := DrainAgain();
      forall e | e in requests
        ensures e.current && (e.action.Complete? ==> Concatenated(e.stored, plan.Count()) == file)
      {
        assert RequestLawful(e);
      }
      assert forall e :: e in puts ==> PutLawful(e);
      assert forall e :: e in saves ==> SaveLawful(e);
    }

    /** Get the bytes to the store: one PUT, or the missing parts and a completion. */
    method Transfer(prepared: Response, upload: Upload) returns (o: Outcome<Upload>)
      requires Valid() && plan.Valid() && current && upload.key == Some(key) && 0.0 <= upload.progress <= 1.0
      requires prepared.uploadId.Some? ==> Multipart() && finished.None? && PartsKnown(upload)
      modifies `current, `stored, `inFlight, `finished, `puts, `requests, `sessions, `attempts, `slices, `unlinks,
               `saved, `saves
      ensures o.Failed? ==> o.why.Midway()
      ensures Valid() && StoreGrows() && DrainsOwn()
      ensures o.Done? ==> finished.Some? && o.value.key == Some(key)
      ensures old(puts) <= puts && AckedOnce(puts, |old(puts)|)
      ensures if prepared.uploadId.Some? then PutsAvoid(puts, |old(puts)|, Numbers(upload.parts))
              else PutsWhole(puts, |old(puts)|)
      ensures old(saves) <= saves && SavesRise(saves, |old(saves)|, upload.progress)
      ensures reliable && old(current) ==> o.Done? && current
    {
      if prepared.uploadId.None? {
        var etag := PutWithRenewal(WHOLE_OBJECT, file, true);
        o := if etag.Failed? then Failed(etag.why) else Done(upload);
      } else {
        o := SendMissing(upload);
        if o.Done? {
          var completed := Request(Action.Complete);
          if completed.Failed? {
            o := Failed(completed.why);
          }
        }
      }
    }

    /** The last checkpoint. */
    method Finish(upload: Upload, reference: string) returns (o: Outcome<string>)
      requires Valid() && finished.Some? && upload.key == Some(key)
      modifies `current, `stored, `saved, `saves
      ensures o.Failed? ==> o.why.Midway()
      ensures Valid() && StoreGrows()
      ensures saves == old(saves)
              || (|saves| == |old(saves)| + 1 && old(saves) <= saves && saves[|old(saves)|].upload.progress == 1.0)
      ensures o.Done? ==> o.value == reference && saved.completed
      ensures reliable && old(current) ==> o.Done?
    {
      if !current {
        return Failed(Cancelled);
      }
      var written :- Checkpoint(upload.(completed := true, progress := 1.0));
      if !current {
        return Failed(Cancelled);
      }
      return Done(reference);
    }
  }

  /** From entry `from` on, checkpointed progress never goes down and is never below `floor`. */
  ghost predicate SavesRise(s: seq<SaveEntry>, from: nat, floor: real) {
    && (forall i :: from <= i < |s| ==> floor <= s[i].upload.progress)
    && (forall i, j :: from <= i < j < |s| ==> s[i].upload.progress <= s[j].upload.progress)
  }

  ghost predicate SavesUpTo(s: seq<SaveEntry>, from: nat, ceiling: real) {
    forall i :: from <= i < |s| ==> s[i].upload.progress <= ceiling
  }

  /** What the store has been credited with, it holds: listed parts, and PUTs it acknowledged. */
  ghost predicate Credited(saves: seq<SaveEntry>, puts: seq<PutEntry>, stored: map<int, seq<Byte>>) {
    && Resumable(saves, stored.Keys)
    && (forall e :: e in puts && e.answer.Done? ==> e.partNumber in stored)
  }

  /** No checkpoint is of a finished upload, or lists a part that is not among `known`. */
  ghost predicate Resumable(saves: seq<SaveEntry>, known: set<int>) {
    forall e :: e in saves ==> !e.upload.completed && Numbers(e.upload.parts) <= known
  }

  /** From entry `from` on, nothing is PUT again once it was acknowledged. */
  ghost predicate AckedOnce(p: seq<PutEntry>, from: nat) {
    forall i, j :: from <= i < j < |p| && p[i].answer.Done? ==> p[j].partNumber != p[i].partNumber
  }

  /** The parts PUT from entry `from` on: none is known, all are below `limit`, and each is left once it is
      acknowledged. */
  ghost predicate PartsPut(p: seq<PutEntry>, from: nat, known: set<int>, limit: int) {
    && PutsAvoid(p, from, known) && AckedOnce(p, from)
    && forall i :: from <= i < |p| ==> p[i].partNumber < limit
  }

  lemma PartsPutAppend(p: seq<PutEntry>, q: seq<PutEntry>, from: nat, known: set<int>, partNumber: int)
    requires from <= |p| && p <= q && PartsPut(p, from, known, partNumber) && partNumber !in known
    requires forall i :: |p| <= i < |q| ==> q[i].partNumber == partNumber
    requires forall i :: |p| <= i < |q| - 1 ==> q[i].answer.Failed?
    ensures PartsPut(q, from, known, partNumber + 1)
  {
    assert forall i :: from <= i < |p| ==> q[i] == p[i];
  }

  /** A drain PUTs nothing that was acknowledged before it. */
  lemma OnceJoin(p: seq<PutEntry>, q: seq<PutEntry>, known: set<int>)
    requires p <= q && AckedOnce(p, 0) && AckedOnce(q, |p|)
    requires q == p || (PutsAvoid(q, |p|, known) && forall e :: e in p && e.answer.Done? ==> e.partNumber in known)
    ensures AckedOnce(q, 0)
  {
    assert forall i :: 0 <= i < |p| ==> q[i] == p[i] && p[i] in p;
  }

  /** From entry `from` on, nothing PUT is one of the parts `known`. */
  ghost predicate PutsAvoid(p: seq<PutEntry>, from: nat, known: set<int>) {
    forall i :: from <= i < |p| ==> p[i].partNumber !in known
  }

  /** The request that asks for a grant. */
  function GrantOf(partNumber: int): Action {
    if partNumber == WHOLE_OBJECT then Prepare else SignPart(partNumber)
  }

  /** Grants asked for in `n` rounds, the first of which may have one already. */
  function GrantsAsked(n: nat, granted: bool): nat {
    if granted && n > 0 then n - 1 else n
  }

  /** `b` is `a` and `n` rounds for one part in one drain, all refused. */
  ghost predicate AllRefused(a: seq<AttemptEntry>, b: seq<AttemptEntry>, drain: nat, partNumber: int, n: nat) {
    && a <= b && |b| == |a| + n
    && forall i :: |a| <= i < |b| ==> b[i].drain == drain && b[i].partNumber == partNumber && b[i].Refused()
  }

  /** `b` is `a` and one call of the renewal loop: one to three rounds for one part in one drain, all but
      the last refused, and three if the last was refused to a row still current. */
  ghost predicate Renewed(a: seq<AttemptEntry>, b: seq<AttemptEntry>, drain: nat, partNumber: int) {
    && a <= b && |a| < |b| <= |a| + MAX_ATTEMPTS
    && (forall i :: |a| <= i < |b| ==> b[i].drain == drain && b[i].partNumber == partNumber)
    && (forall i :: |a| <= i < |b| - 1 ==> b[i].Refused())
    && (b[|b| - 1].Refused() && b[|b| - 1].current ==> |b| == |a| + MAX_ATTEMPTS)
  }

  predicate SameCall(a: AttemptEntry, b: AttemptEntry) {
    a.drain == b.drain && a.partNumber == b.partNumber
  }

  /** From entry `from` on, a part is tried again in one drain only after a refusal with 403, at most three
      times in all, and always after a refusal of a row still current until it has been tried three times. */
  ghost predicate RenewalRule(a: seq<AttemptEntry>, from: nat) {
    && (forall i :: from <= i < |a| - 1 && SameCall(a[i], a[i + 1]) ==> a[i].Refused())
    && (forall i :: from <= i < |a| - MAX_ATTEMPTS ==> !SameCall(a[i], a[i + MAX_ATTEMPTS]))
    && (forall i :: from <= i < |a| && a[i].Refused() && a[i].current ==> TriedAgain(a, i) || TriedThrice(a, from, i))
  }

  predicate TriedAgain(a: seq<AttemptEntry>, i: nat)
    requires i < |a|
  {
    i + 1 < |a| && SameCall(a[i], a[i + 1])
  }

  /** Entry `i` is the third for its part. */
  predicate TriedThrice(a: seq<AttemptEntry>, from: nat, i: nat)
    requires i < |a|
  {
    from <= i - 2 && SameCall(a[i - 2], a[i - 1]) && SameCall(a[i - 1], a[i])
  }

  /** From entry `from` on, every attempt is of this drain and of a part below `limit`. */
  ghost predicate AttemptsBelow(a: seq<AttemptEntry>, from: nat, drain: nat, limit: int) {
    forall i :: from <= i < |a| ==> a[i].drain == drain && a[i].partNumber < limit
  }

  lemma RenewalAppend(a: seq<AttemptEntry>, b: seq<AttemptEntry>, from: nat, drain: nat, partNumber: int)
    requires from <= |a| && RenewalRule(a, from) && AttemptsBelow(a, from, drain, partNumber)
    requires b == a || Renewed(a, b, drain, partNumber)
    ensures RenewalRule(b, from) && AttemptsBelow(b, from, drain, partNumber + 1)
  {
    assert forall i :: from <= i < |a| ==> b[i] == a[i];
  }

  /** A drain's own attempts keep the rule after those of earlier drains. */
  lemma RenewalJoin(a: seq<AttemptEntry>, b: seq<AttemptEntry>, drain: nat)
    requires RenewalRule(a, 0) && (forall i :: 0 <= i < |a| ==> a[i].drain < drain)
    requires a <= b && RenewalRule(b, |a|) && (forall i :: |a| <= i < |b| ==> b[i].drain == drain)
    ensures RenewalRule(b, 0)
  {
    assert forall i :: 0 <= i < |a| ==> b[i] == a[i];
  }

  ghost predicate PutsWhole(p: seq<PutEntry>, from: nat) {
    forall i :: from <= i < |p| ==> p[i].partNumber == WHOLE_OBJECT
  }

  ghost predicate ListedBefore(list: seq<PartRecord>, n: int) {
    forall k :: 1 <= k < n ==> k in Numbers(list)
  }

  lemma ListedWider(list: seq<PartRecord>, sent: Outcome<Upload>, n: int)
    requires ListedBefore(list, n) && (sent.Done? ==> Numbers(sent.value.parts) == Numbers(list) + {n})
    ensures sent.Done? ==> ListedBefore(sent.value.parts, n + 1) && Numbers(list) <= Numbers(sent.value.parts)
  {
  }

  lemma RiseAppend(s: seq<SaveEntry>, t: seq<SaveEntry>, from: nat, floor: real, level: real)
    requires from <= |s| && s <= t && |t| <= |s| + 1 && floor <= level
    requires SavesRise(s, from, floor) && SavesUpTo(s, from, level)
    requires |t| > |s| ==> level <= t[|s|].upload.progress
    ensures SavesRise(t, from, floor)
    ensures |t| > |s| ==> SavesUpTo(t, from, t[|s|].upload.progress)
  {
    assert forall i :: from <= i < |s| ==> t[i] == s[i];
  }

  lemma RiseJoin(s: seq<SaveEntry>, t: seq<SaveEntry>, from: nat, floor: real, level: real)
    requires from <= |s| && s <= t && floor <= level
    requires SavesRise(s, from, floor) && SavesUpTo(s, from, level) && SavesRise(t, |s|, level)
    ensures SavesRise(t, from, floor)
  {
    assert forall i :: from <= i < |s| ==> t[i] == s[i];
  }
}
